// srcs/modes: the chain of mode steps and what each of them does.
module Modes {
  import opened Text
  import opened Wire
  import opened World
  import opened Invariant
  import opened Net
  import opened EventLoop
  import opened ChannelClass
  import opened ClientClass
  import opened NetSteps
  import opened ServerClass

  // A mode step that does not apply leaves the state as it was.
  twostate predicate Untouched(s: Server, client: Client, channel: Channel)
    reads s, s.clients, s.channels
  {
    s.ReadyFor(client, channel) && s.net == old(s.net) && s.fds == old(s.fds)
  }

  // srcs/modes/modes.cpp:13-28: the version whose inner loop stops at the first client found.
  method Notification(s: Server, channel: Channel, message: string, ghost wire: Wire)
    requires s.Valid() && message == Render(wire)
    modifies s`fds, s`net, s.clients`sendBuffer
    ensures s.Valid()
    ensures SameSockets(old(s.fds), s.fds)
    ensures s.net == old(s.net).(outbox := Deliver(old(s.net.outbox), ToAll(channel.memberFds, wire)))
  {
    hide Render, Deliver, Server.ChannelsMatch;
    var members := channel.memberFds;
    assert ToAll([], wire) == [];
    DeliverNone(s.net.outbox);
    for i := 0 to |members|
      invariant s.Valid()
      invariant SameSockets(old(s.fds), s.fds)
      invariant s.net == old(s.net).(outbox := Deliver(old(s.net.outbox), ToAll(members[..i], wire)))
    {
      ghost var before := s.net;
      var j := 0;
      while j < |s.clients|
        invariant 0 <= j <= |s.clients|
        invariant s.Valid() && s.net == before
        invariant SameSockets(old(s.fds), s.fds)
        invariant forall k :: 0 <= k < j ==> s.clients[k].fd != members[i]
      {
        if s.clients[j].fd == members[i] {
          s.SendingQueue(s.clients[j], message);
          break;
        }
        j := j + 1;
      }
      assert s.net == before.(outbox := Queue(before.outbox, members[i], message));
      DeliverLast(old(s.net.outbox), ToAll(members[..i], wire), Mail(members[i], wire));
      assert ToAll(members[..i + 1], wire) == ToAll(members[..i], wire) + [Mail(members[i], wire)];
    }
    assert members[..|members|] == members;
  }

  method RecordInviteOnly(s: Server, channel: Channel, inviteOnly: bool)
    requires s.Valid() && channel in s.channels
    modifies s`net, channel`inviteOnly
    ensures s.Valid()
    ensures var room := old(channel.View()).(inviteOnly := inviteOnly);
            s.net == old(s.net).(world := WithRoom(old(s.net.world), channel.name, room))
  {
    channel.inviteOnly := inviteOnly;
    s.SyncRoom(channel);
  }

  method RecordChangeTopic(s: Server, channel: Channel, topicLocked: bool)
    requires s.Valid() && channel in s.channels
    modifies s`net, channel`changeTopic
    ensures s.Valid()
    ensures var room := old(channel.View()).(topicLocked := topicLocked);
            s.net == old(s.net).(world := WithRoom(old(s.net.world), channel.name, room))
  {
    channel.changeTopic := topicLocked;
    s.SyncRoom(channel);
  }

  method RecordKey(s: Server, channel: Channel, key: string)
    requires s.Valid() && channel in s.channels
    modifies s`net, channel`key
    ensures s.Valid()
    ensures s.net == old(s.net).(world := WithRoom(old(s.net.world), channel.name, old(channel.View()).(key := key)))
  {
    channel.key := key;
    s.SyncRoom(channel);
  }

  method RecordLimit(s: Server, channel: Channel, limit: int)
    requires s.Valid() && channel in s.channels
    modifies s`net, channel`limit
    ensures s.Valid()
    ensures var room := old(channel.View()).(limit := limit);
            s.net == old(s.net).(world := WithRoom(old(s.net.world), channel.name, room))
  {
    channel.limit := limit;
    s.SyncRoom(channel);
  }

  method AppointOperator(s: Server, channel: Channel, f: int)
    requires s.Valid() && channel in s.channels
    modifies s`net, channel`operatorFds
    ensures s.Valid()
    ensures s.net == old(s.net).(world := WithRoom(old(s.net.world), channel.name,
              old(channel.View()).(ops := old(channel.View()).ops + {f})))
  {
    channel.AddOperator(f);
    s.SyncRoom(channel);
  }

  method DismissOperator(s: Server, channel: Channel, f: int)
    requires s.Valid() && channel in s.channels
    modifies s`net, channel`operatorFds
    ensures s.Valid()
    ensures s.net == old(s.net).(world := WithRoom(old(s.net.world), channel.name,
              old(channel.View()).(ops := old(channel.View()).ops - {f})))
  {
    channel.RemoveOperator(f);
    s.SyncRoom(channel);
  }

  // srcs/modes/invite_only.cpp
  method InviteOnlyMode(s: Server, client: Client, channel: Channel, ps: seq<string>) returns (done: bool)
    requires s.ReadyFor(client, channel) && |ps| >= 2
    modifies s`fds, s`net, s.clients, channel
    ensures done <==> ModeOf(ps[1]).InviteOnly?
    ensures done ==> s.Commits(client.fd, ModeOutcome(old(s.net.world), client.fd, channel.name, ps))
    ensures !done ==> Untouched(s, client, channel)
  {
    hide Render, Deliver, Inv, PartsText, Server.Valid;
    s.Known(client);
    s.RoomKnown(channel);
    var mode := ps[1];
    if mode != "+i" && mode != "-i" {
      return false;
    }
    RecordInviteOnly(s, channel, mode == "+i");
    ghost var wire := Relay(client.nickname, "MODE", [channel.name, mode], None);
    RenderMode(client.nickname, channel.name, mode);
    Notification(s, channel, ":" + client.nickname + " MODE " + channel.name + " " + mode + "\r\n", wire);
    return true;
  }

  // srcs/modes/change_topic.cpp
  method ChangeTopicMode(s: Server, client: Client, channel: Channel, ps: seq<string>) returns (done: bool)
    requires s.ReadyFor(client, channel) && |ps| >= 2
    modifies s`fds, s`net, s.clients, channel
    ensures done <==> ModeOf(ps[1]).TopicLock?
    ensures done ==> s.Commits(client.fd, ModeOutcome(old(s.net.world), client.fd, channel.name, ps))
    ensures !done ==> Untouched(s, client, channel)
  {
    hide Render, Deliver, Inv, PartsText, Server.Valid;
    s.Known(client);
    s.RoomKnown(channel);
    var mode := ps[1];
    if mode != "+t" && mode != "-t" {
      return false;
    }
    RecordChangeTopic(s, channel, mode == "+t");
    ghost var wire := Relay(client.nickname, "MODE", [channel.name, mode], None);
    RenderMode(client.nickname, channel.name, mode);
    Notification(s, channel, ":" + client.nickname + " MODE " + channel.name + " " + mode + "\r\n", wire);
    return true;
  }

  // srcs/modes/secret_key.cpp
  method SecretKeyMode(s: Server, client: Client, channel: Channel, ps: seq<string>) returns (done: bool)
    requires s.ReadyFor(client, channel) && |ps| >= 2
    modifies s`fds, s`net, s.clients, channel
    ensures done <==> ModeOf(ps[1]).Key?
    ensures done ==> s.Commits(client.fd, ModeOutcome(old(s.net.world), client.fd, channel.name, ps))
    ensures !done ==> Untouched(s, client, channel)
  {
    hide Render, Deliver, Inv, PartsText, Answer, Server.Valid;
    s.Known(client);
    s.RoomKnown(channel);
    var mode := ps[1];
    if mode != "+k" && mode != "-k" {
      return false;
    }
    if |ps| < 3 {
      s.Reply(461, client, "MODE");
      return true;
    }
    var nick, name, key := client.nickname, channel.name, ps[2];
    if mode == "+k" {
      RecordKey(s, channel, key);
      RenderModeArg(nick, name, "+k", key);
      Notification(s, channel, ":" + nick + " MODE " + name + " " + "+k" + " " + key + "\r\n",
                   Relay(nick, "MODE", [name, "+k", key], None));
    } else {
      RecordKey(s, channel, "");
      RenderMode(nick, name, "-k");
      Notification(s, channel, ":" + nick + " MODE " + name + " " + "-k" + "\r\n",
                   Relay(nick, "MODE", [name, "-k"], None));
    }
    return true;
  }

  // srcs/modes/limited_usage.cpp
  method LimitedUsageMode(s: Server, client: Client, channel: Channel, ps: seq<string>) returns (done: bool)
    requires s.ReadyFor(client, channel) && |ps| >= 2
    modifies s`fds, s`net, s.clients, channel
    ensures done <==> ModeOf(ps[1]).Limit?
    ensures done ==> s.Commits(client.fd, ModeOutcome(old(s.net.world), client.fd, channel.name, ps))
    ensures !done ==> Untouched(s, client, channel)
  {
    hide Render, Deliver, Inv, PartsText, Answer, Server.Valid, IsNumber;
    s.Known(client);
    s.RoomKnown(channel);
    var mode := ps[1];
    if mode != "+l" && mode != "-l" {
      return false;
    }
    var nick, name := client.nickname, channel.name;
    if mode == "-l" {
      RecordLimit(s, channel, 0);
      RenderMode(nick, name, "-l");
      Notification(s, channel, ":" + nick + " MODE " + name + " " + "-l" + "\r\n",
                   Relay(nick, "MODE", [name, "-l"], None));
      return true;
    }
    if |ps| < 3 {
      s.Reply(461, client, "MODE");
      return true;
    }
    var limitText := ps[2];
    var valid := ValidLimit(limitText);
    if !valid {
      s.Reply(461, client, "MODE");
      return true;
    }
    var limit := Atoi(limitText);
    if limit <= 0 {
      s.Reply(461, client, "MODE");
      return true;
    }
    RecordLimit(s, channel, limit);
    RenderModeArg(nick, name, "+l", limitText);
    Notification(s, channel, ":" + nick + " MODE " + name + " " + "+l" + " " + limitText + "\r\n",
                 Relay(nick, "MODE", [name, "+l", limitText], None));
    return true;
  }

  // srcs/modes/operator.cpp:41-69
  method ChangeOperator(s: Server, client: Client, channel: Channel, target: int, mode: string, userNick: string)
    requires s.ReadyFor(client, channel) && (mode == "+o" || mode == "-o")
    modifies s`fds, s`net, s.clients, channel
    ensures s.Commits(client.fd, OperatorChange(old(s.net.world), client.fd, channel.name, old(channel.View()),
                                              mode == "+o", target, userNick))
  {
    hide Render, Deliver, Inv, PartsText, Server.Valid;
    s.Known(client);
    s.RoomKnown(channel);
    DeliverNone(s.net.outbox);
    var nick, name := client.nickname, channel.name;
    var op := channel.IsOperator(target);
    if mode == "+o" {
      if op {
        return;
      }
      AppointOperator(s, channel, target);
    } else {
      if !op {
        return;
      }
      channel.OperatorCount();
      if |channel.operatorFds| == 1 {
        ghost var notice := Mail(client.fd, Notice(nick, REVOKE_NOTICE));
        RenderNotice(nick, REVOKE_NOTICE);
        DeliverOne(s.net.outbox, notice);
        s.SendingQueue(client, ":ircserv NOTICE " + nick + " :" + REVOKE_NOTICE + "\r\n");
        return;
      }
      DismissOperator(s, channel, target);
    }
    RenderModeArg(nick, name, mode, userNick);
    Notification(s, channel, ":" + nick + " MODE " + name + " " + mode + " " + userNick + "\r\n",
                 Relay(nick, "MODE", [name, mode, userNick], None));
  }

  // srcs/modes/operator.cpp: the client search stops at the first match.
  method OperatorsMode(s: Server, client: Client, channel: Channel, ps: seq<string>) returns (done: bool)
    requires s.ReadyFor(client, channel) && |ps| >= 2
    modifies s`fds, s`net, s.clients, channel
    ensures done <==> ModeOf(ps[1]).Operator?
    ensures done ==> s.Commits(client.fd, ModeOutcome(old(s.net.world), client.fd, channel.name, ps))
    ensures !done ==> Untouched(s, client, channel)
  {
    hide Render, Deliver, Inv, PartsText, Answer, Server.Valid, Holders, DecideKey, DecideLimit, ReplyCmd;
    s.Known(client);
    s.RoomKnown(channel);
    DeliverNone(s.net.outbox);
    var mode := ps[1];
    if mode != "+o" && mode != "-o" {
      return false;
    }
    if |ps| < 3 {
      s.Reply(461, client, "MODE");
      return true;
    }
    var nick, name, userNick := client.nickname, channel.name, ps[2];
    var target := s.FindFirstClient(userNick);
    if target == null {
      s.Reply(401, client, userNick);
      return true;
    }
    HolderInRoom(s.net.world, name, userNick, target.fd);
    var member := channel.HasMember(target.fd);
    if !member {
      s.ReplyTwo(441, client, userNick, name);
      return true;
    }
    ChangeOperator(s, client, channel, target.fd, mode, userNick);
    return true;
  }

  // srcs/modes/modes.cpp: each mode step says whether it was its turn.
  method ModesHandler(s: Server, client: Client, ps: seq<string>)
    requires s.Ready(client)
    modifies s`fds, s`net, s.clients, s.channels
    ensures s.Commits(client.fd, DecideMode(old(s.net.world), client.fd, ps))
  {
    hide Inv, Answer, Server.Valid, Commit, ReplyCmd, DecideKey, DecideLimit, DecideOperator, Announce;
    s.Known(client);
    if !client.registered {
      s.Reply(451, client, "MODE");
      return;
    }
    if |ps| < 2 {
      s.Reply(461, client, "MODE");
      return;
    }
    var name := ps[0];
    var channel := s.FindFirstChannel(name);
    if channel == null {
      s.Reply(403, client, name);
      return;
    }
    s.RoomKnown(channel);
    var op := channel.IsOperator(client.fd);
    if !op {
      s.Reply(482, client, name);
      return;
    }
    var done := InviteOnlyMode(s, client, channel, ps);
    if done {
      return;
    }
    done := ChangeTopicMode(s, client, channel, ps);
    if done {
      return;
    }
    done := SecretKeyMode(s, client, channel, ps);
    if done {
      return;
    }
    done := LimitedUsageMode(s, client, channel, ps);
    if done {
      return;
    }
    done := OperatorsMode(s, client, channel, ps);
    if done {
      return;
    }
    s.Reply(472, client, ps[1]);
  }
}
