// srcs/commands/privmsg.cpp
module PrivmsgCommand {
  import opened Text
  import opened Parser
  import opened Wire
  import opened World
  import opened Invariant
  import opened Net
  import opened ClientClass
  import opened NetSteps
  import opened ServerClass

  method PrivmsgHandler(s: Server, client: Client, ps: seq<string>)
    requires s.Ready(client) && ParsedParams(ps)
    modifies s`fds, s`net, s.clients
    ensures s.Commits(client.fd, DecidePrivmsg(old(s.net.world), client.fd, ps))
  {
    hide Render, Deliver, ReplyCmd, Answer, Inv, Holders, Server.Valid, PartsText;
    s.Known(client);
    if !client.registered {
      s.Reply(451, client, "PRIVMSG");
      return;
    }
    if ps == [] {
      s.Reply(411, client, "");
      return;
    }
    if |ps| < 2 || ps[1] == "" {
      s.Reply(412, client, "");
      return;
    }
    var target, text := ps[0], ps[1];
    var message := ":" + client.nickname + " PRIVMSG " + target + " :" + text + "\r\n";
    ghost var wire := Relay(client.nickname, "PRIVMSG", [target], Some(text));
    RenderPrivmsg(client.nickname, target, text);
    if target[0] == '#' {
      var channel, _ := s.FindLastChannel(target);
      if channel == null {
        s.Reply(403, client, target);
        return;
      }
      s.RoomKnown(channel);
      var member := channel.HasMember(client.fd);
      if !member {
        s.Reply(404, client, target);
        return;
      }
      s.BroadcastToOthers(channel.memberFds, client, message, wire);
      return;
    }
    var recipient := s.FindLastClient(target);
    if recipient == null {
      s.Reply(401, client, target);
      return;
    }
    OnlyHolder(s.net.world, target, recipient.fd);
    s.SendingQueue(recipient, message);
    DeliverOne(old(s.net.outbox), Mail(recipient.fd, wire));
  }
}
