// srcs/commands/invite.cpp
module InviteCommand {
  import opened Text
  import opened Parser
  import opened Wire
  import opened World
  import opened Invariant
  import opened Net
  import opened ChannelClass
  import opened ClientClass
  import opened NetSteps
  import opened ServerClass

  method RecordInvite(s: Server, channel: Channel, f: int)
    requires s.Valid() && channel in s.channels
    modifies s`net, channel`invitedFds
    ensures s.Valid()
    ensures s.net == old(s.net).(world := WithRoom(old(s.net.world), channel.name,
              old(channel.View()).(invited := old(channel.View()).invited + {f})))
  {
    channel.AddInvite(f);
    s.SyncRoom(channel);
  }

  method InviteHandler(s: Server, client: Client, ps: seq<string>)
    requires s.Ready(client) && ParsedParams(ps)
    modifies s`fds, s`net, s.clients, s.channels
    ensures s.Commits(client.fd, DecideInvite(old(s.net.world), client.fd, ps))
  {
    hide Render, Deliver, ReplyCmd, Answer, AnswerTwo, Inv, Holders, Server.Valid, PartsText;
    s.Known(client);
    if !client.registered {
      s.Reply(451, client, "INVITE");
      return;
    }
    if |ps| < 2 {
      s.Reply(461, client, "INVITE");
      return;
    }
    var targetNick, name := ps[0], ps[1];
    var target := s.FindLastClient(targetNick);
    if target == null {
      s.Reply(401, client, targetNick);
      return;
    }
    OnlyHolder(s.net.world, targetNick, target.fd);
    var channel, _ := s.FindLastChannel(name);
    if channel == null {
      s.Reply(403, client, name);
      return;
    }
    s.RoomKnown(channel);
    var op := channel.IsOperator(client.fd);
    if !op {
      s.Reply(482, client, name);
      return;
    }
    var member := channel.HasMember(target.fd);
    if member {
      s.ReplyTwo(443, client, targetNick, name);
      return;
    }
    RecordInvite(s, channel, target.fd);
    var nick := client.nickname;
    ghost var first, second := Relay(nick, "INVITE", [targetNick], Some(name)),
      Numeric(341, nick, [targetNick, name]);
    RenderInvite(nick, targetNick, name);
    SpacedTwo(targetNick, name);
    RenderNumeric(341, nick, [targetNick, name]);
    s.SendingQueue(target, ":" + nick + " INVITE " + targetNick + " :" + name + "\r\n");
    DeliverOne(old(s.net.outbox), Mail(target.fd, first));
    s.SendingQueue(client, ReplyCmd(341, nick, targetNick + " " + name));
    DeliverLast(old(s.net.outbox), [Mail(target.fd, first)], Mail(client.fd, second));
  }
}
