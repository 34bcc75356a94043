// srcs/commands/topic.cpp
module TopicCommand {
  import opened Text
  import opened Wire
  import opened World
  import opened Invariant
  import opened Net
  import opened ChannelClass
  import opened ClientClass
  import opened NetSteps
  import opened ServerClass

  method RecordTopic(s: Server, channel: Channel, topic: string)
    requires s.Valid() && channel in s.channels
    modifies s`net, channel`topic
    ensures s.Valid()
    ensures var room := old(channel.View()).(topic := topic);
            s.net == old(s.net).(world := WithRoom(old(s.net.world), channel.name, room))
  {
    channel.topic := topic;
    s.SyncRoom(channel);
  }

  method TopicHandler(s: Server, client: Client, ps: seq<string>)
    requires s.Ready(client)
    modifies s`fds, s`net, s.clients, s.channels
    ensures s.Commits(client.fd, DecideTopic(old(s.net.world), client.fd, ps))
  {
    hide Render, Deliver, ReplyCmd, Answer, Inv, Server.Valid, PartsText;
    s.Known(client);
    if !client.registered {
      s.Reply(451, client, "TOPIC");
      return;
    }
    if ps == [] {
      s.Reply(461, client, "TOPIC");
      return;
    }
    var name, nick := ps[0], client.nickname;
    var channel, _ := s.FindLastChannel(name);
    if channel == null {
      s.Reply(403, client, name);
      return;
    }
    s.RoomKnown(channel);
    if |ps| == 1 {
      if channel.topic == "" {
        s.Reply(331, client, name);
      } else {
        s.SendingQueue(client, ":ircserv 332 " + nick + " " + name + " :" + channel.topic + "\r\n");
        RenderTopicIs(nick, name, channel.topic);
        DeliverOne(old(s.net.outbox), Mail(client.fd, TopicIs(nick, name, channel.topic)));
      }
      return;
    }
    var member := channel.HasMember(client.fd);
    if !member {
      s.Reply(442, client, name);
      return;
    }
    var op := channel.IsOperator(client.fd);
    if channel.changeTopic && !op {
      s.Reply(482, client, name);
      return;
    }
    RecordTopic(s, channel, ps[1]);
    var message := ":" + nick + " TOPIC " + name + " :" + ps[1] + "\r\n";
    ghost var wire := Relay(nick, "TOPIC", [name], Some(ps[1]));
    RenderTopic(nick, name, ps[1]);
    s.BroadcastToOthers(channel.memberFds, client, message, wire);
    s.SendingQueue(client, message);
    DeliverLast(old(s.net.outbox), ToAll(Without(channel.memberFds, client.fd), wire), Mail(client.fd, wire));
  }
}
