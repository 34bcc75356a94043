// srcs/commands/kick.cpp
module KickCommand {
  import opened Text
  import opened Wire
  import opened World
  import opened Invariant
  import opened Net
  import opened ChannelClass
  import opened ClientClass
  import opened Vectors
  import opened NetSteps
  import opened ServerClass

  // Erase the channel at an index from the vector, and from the abstract server.
  method ForgetRoom(s: Server, channel: Channel, index: nat)
    requires s.ValidButRoom(channel) && index < |s.channels| && s.channels[index] == channel
    requires channel.name in s.net.world.rooms
    modifies s`net, s`channels
    ensures s.Valid()
    ensures s.channels == old(s.channels[..index] + s.channels[index + 1..])
    ensures s.net == old(s.net).(world := old(s.net.world).(rooms := old(s.net.world.rooms) - {channel.name}))
  {
    hide Server.SocketsMatch, DistinctFds, FdsAre, DistinctNames, Client.View, Channel.View, Channel.Valid;
    var left := s.channels[..index] + s.channels[index + 1..];
    EraseName(s.channels, index);
    s.channels := left;
    s.net := s.net.(world := s.net.world.(rooms := s.net.world.rooms - {channel.name}));
  }

  // srcs/commands/kick.cpp:80-82: an emptied channel is erased from the vector.
  method RemoveFrom(s: Server, channel: Channel, index: nat, f: int, target: int)
    requires s.Valid() && index < |s.channels| && s.channels[index] == channel && f in s.net.world.people
    modifies s`net, s`channels, channel
    ensures s.Valid()
    ensures forall ch :: ch in s.channels ==> ch in old(s.channels)
    ensures s.net == old(s.net).(world := Apply(old(s.net.world), f, Expel(channel.name, target)))
  {
    hide Server.SocketsMatch, Server.ClientsMatch, DistinctNames, DistinctFds, FdsAre, NoDup, Without;
    channel.RemoveMember(target);
    if channel.memberFds == [] {
      ForgetRoom(s, channel, index);
    } else {
      s.SyncRoom(channel);
    }
  }

  // srcs/commands/kick.cpp:68-82: everybody in the channel is told, then the target is removed.
  method Expulsion(s: Server, client: Client, channel: Channel, index: nat, target: int, targetNick: string,
                   reason: string)
    requires s.Valid() && client in s.clients && index < |s.channels| && s.channels[index] == channel
    modifies s`fds, s`net, s`channels, s.clients`sendBuffer, channel
    ensures s.Grows()
    ensures var wire := Relay(client.nickname, "KICK", [channel.name, targetNick], Some(reason));
            s.Commits(client.fd, Outcome(Expel(channel.name, target), ToAll(old(channel.memberFds), wire)))
  {
    hide Render, Deliver, Server.Valid, PartsText, Apply;
    s.Known(client);
    var nick, name := client.nickname, channel.name;
    ghost var wire := Relay(nick, "KICK", [name, targetNick], Some(reason));
    RenderKick(nick, name, targetNick, reason);
    s.Broadcast(channel.memberFds, ":" + nick + " KICK " + name + " " + targetNick + " :" + reason + "\r\n", wire);
    RemoveFrom(s, channel, index, client.fd, target);
  }

  // srcs/commands/kick.cpp:58-66
  method SpareLastOperator(s: Server, client: Client)
    requires s.Valid() && client in s.clients
    modifies s`fds, s`net, client`sendBuffer
    ensures s.Commits(client.fd, Outcome(Nothing, [Mail(client.fd, Notice(client.nickname, KICK_NOTICE))]))
  {
    hide Render, Deliver, PartsText, Apply;
    s.Known(client);
    var nick := client.nickname;
    RenderNotice(nick, KICK_NOTICE);
    DeliverOne(s.net.outbox, Mail(client.fd, Notice(nick, KICK_NOTICE)));
    ApplyNothing(s.net.world, client.fd);
    s.SendingQueue(client, ":ircserv NOTICE " + nick + " :" + KICK_NOTICE + "\r\n");
  }

  method KickHandler(s: Server, client: Client, ps: seq<string>)
    requires s.Ready(client)
    modifies s`fds, s`net, s`channels, s.clients, s.channels
    ensures s.Commits(client.fd, DecideKick(old(s.net.world), client.fd, ps))
    ensures s.Grows()
  {
    hide Render, Deliver, ReplyCmd, Answer, AnswerTwo, Inv, Holders, Server.Valid, PartsText, Apply, Elems;
    s.Known(client);
    if !client.registered {
      s.Reply(451, client, "KICK");
      return;
    }
    if |ps| < 2 {
      s.Reply(461, client, "KICK");
      return;
    }
    var name, targetNick, nick := ps[0], ps[1], client.nickname;
    var channel, channelIndex := s.FindLastChannel(name);
    if channel == null {
      s.Reply(403, client, name);
      return;
    }
    s.RoomKnown(channel);
    var op := channel.IsOperator(client.fd);
    if !op {
      s.Reply(482, client, name);
      return;
    }
    var target := s.FindLastClient(targetNick);
    if target == null {
      s.Reply(401, client, targetNick);
      return;
    }
    var member := channel.HasMember(target.fd);
    HolderInRoom(s.net.world, name, targetNick, target.fd);
    if !member {
      s.ReplyTwo(441, client, targetNick, name);
      return;
    }
    var targetOp := channel.IsOperator(target.fd);
    channel.OperatorCount();
    if targetOp && |channel.operatorFds| == 1 && |channel.memberFds| > 1 {
      SpareLastOperator(s, client);
      return;
    }
    var reason := if |ps| > 2 then ps[2] else nick;
    Expulsion(s, client, channel, channelIndex, target.fd, targetNick, reason);
  }
}
