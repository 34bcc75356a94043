// srcs/commands/join.cpp
module JoinCommand {
  import opened Text
  import opened Wire
  import opened World
  import opened Invariant
  import opened Net
  import opened EventLoop
  import opened ChannelClass
  import opened ClientClass
  import opened Vectors
  import opened NetSteps
  import opened ServerClass

  lemma EntryBytes(front: string, op: bool, nick: string)
    ensures front + EntryText(NameEntry(op, nick)) == (if op then front + "@" else front) + nick
  {
  }

  // srcs/commands/join.cpp:46-50: the channel is created before the guards are tested.
  method OpenChannel(s: Server, name: string) returns (channel: Channel)
    requires s.Valid() && name !in s.net.world.rooms
    modifies s`channels, s`net
    ensures s.Valid()
    ensures fresh(channel) && s.channels == old(s.channels) + [channel] && channel.name == name
    ensures channel.View() == EMPTY_ROOM && s.Grows()
    ensures s.net == old(s.net).(world := WithRoom(old(s.net.world), name, EMPTY_ROOM))
  {
    hide DistinctNames, KeysAre, DistinctFds, FdsAre, Server.SocketsMatch, Server.ClientsMatch;
    channel := new Channel(name);
    AppendName(s.channels, channel, s.net.world.rooms.Keys);
    s.channels := s.channels + [channel];
    s.SyncRoom(channel);
  }

  // srcs/commands/join.cpp:75-78: the first member becomes operator.
  method AdmitMember(s: Server, channel: Channel, f: int)
    requires s.Valid() && channel in s.channels
    requires f !in channel.memberFds
    modifies s`net, channel
    ensures s.Valid()
    ensures s.net == old(s.net).(world := WithRoom(old(s.net.world), channel.name, channel.View()))
    ensures channel.View() == old(channel.View()).(
              members := old(channel.View().members) + [f],
              ops := if old(channel.View().members) == [] then old(channel.View().ops) + {f}
                     else old(channel.View().ops))
  {
    var firstMember := channel.memberFds == [];
    channel.AddMember(f);
    if firstMember {
      channel.AddOperator(f);
    }
    s.SyncRoom(channel);
  }

  // The inner loop of the NAMES list: the entry of one member is appended.
  method AppendEntry(s: Server, names: string, f: int, channel: Channel) returns (r: string)
    requires s.Valid() && f in s.net.world.people
    ensures r == names + (if names == "" then "" else " ") +
                 EntryText(NameEntry(f in channel.View().ops, NickOf(s.net.world, f)))
  {
    hide Server.SocketsMatch, Server.ChannelsMatch, EntryText;
    r := names;
    var j := 0;
    while j < |s.clients|
      invariant 0 <= j <= |s.clients|
      invariant r == if exists k :: 0 <= k < j && s.clients[k].fd == f
                     then names + (if names == "" then "" else " ") +
                          EntryText(NameEntry(f in channel.View().ops, NickOf(s.net.world, f)))
                     else names
    {
      if s.clients[j].fd == f {
        OnceOnly(s.clients, j);
        if r != "" {
          r := r + " ";
        }
        ghost var spaced := r;
        var op := channel.IsOperator(f);
        if op {
          r := r + "@";
        }
        r := r + s.clients[j].nickname;
        EntryBytes(spaced, op, s.clients[j].nickname);
      }
      j := j + 1;
    }
  }

  // srcs/commands/join.cpp:92-106: the loops that build the NAMES list.
  method NamesList(s: Server, channel: Channel) returns (names: string)
    requires s.Valid() && channel in s.channels
    requires forall m :: m in channel.memberFds ==> m in s.net.world.people
    ensures names == NamesText(Entries(s.net.world, channel.View()))
  {
    hide Server.Valid, EntryText;
    names := "";
    var members := channel.memberFds;
    ghost var entries := Entries(s.net.world, channel.View());
    for i := 0 to |members|
      invariant names == NamesText(entries[..i])
    {
      assert entries[..i + 1][..i] == entries[..i];
      names := AppendEntry(s, names, members[i], channel);
    }
    assert entries[..|members|] == entries;
  }

  // srcs/commands/join.cpp:80-111: tell the members, then the newcomer.
  method AnnounceJoin(s: Server, client: Client, channel: Channel)
    requires s.Valid() && Inv(s.net.world) && client in s.clients && channel in s.channels
    modifies s`fds, s`net, s.clients`sendBuffer
    ensures s.Valid()
    ensures SameSockets(old(s.fds), s.fds)
    ensures var w, nick, name := old(s.net.world), client.nickname, channel.name;
            s.net == old(s.net).(outbox := Deliver(old(s.net.outbox),
              ToAll(channel.View().members, Relay(nick, "JOIN", [], Some(name))) +
              [Mail(client.fd, NamesAre(nick, name, Entries(w, channel.View())))] +
              [Mail(client.fd, Numeric(366, nick, [name]))]))
  {
    hide Render, Deliver, ReplyCmd, Server.Valid, NamesText, Entries;
    s.RoomKnown(channel);
    var nick, name := client.nickname, channel.name;
    ghost var relay := Relay(nick, "JOIN", [], Some(name));
    RenderJoin(nick, name);
    s.Broadcast(channel.memberFds, ":" + nick + " JOIN :" + name + "\r\n", relay);
    var names := NamesList(s, channel);
    ghost var list := NamesAre(nick, name, Entries(s.net.world, channel.View()));
    RenderNames(nick, name, Entries(s.net.world, channel.View()));
    s.SendingQueue(client, ":ircserv 353 " + nick + " = " + name + " :" + names + "\r\n");
    DeliverLast(old(s.net.outbox), ToAll(channel.memberFds, relay), Mail(client.fd, list));
    RenderNumeric(366, nick, [name]);
    s.SendingQueue(client, ReplyCmd(366, nick, name));
    DeliverLast(old(s.net.outbox), ToAll(channel.memberFds, relay) + [Mail(client.fd, list)],
                Mail(client.fd, Numeric(366, nick, [name])));
  }

  method Enroll(s: Server, client: Client, channel: Channel, ghost w: World)
    requires s.Valid() && client in s.clients && channel in s.channels
    requires Inv(w) && client.fd in w.people && Allowed(w, client.fd, Enter(channel.name))
    requires s.net.world == w || s.net.world == WithRoom(w, channel.name, EMPTY_ROOM)
    requires channel.View() == RoomAt(w, channel.name) && client.fd !in channel.memberFds
    modifies s`fds, s`net, s.clients`sendBuffer, channel
    ensures s.Valid()
    ensures SameSockets(old(s.fds), s.fds)
    ensures s.net == old(s.net).(world := Apply(w, client.fd, Enter(channel.name)),
                             outbox := Deliver(old(s.net.outbox), JoinMail(w, client.fd, channel.name)))
  {
    hide Render, Deliver, Inv, Allowed, Server.Valid, Entries;
    s.Known(client);
    AdmitMember(s, channel, client.fd);
    OverwriteRoom(w, channel.name);
    assert s.net.world == Apply(w, client.fd, Enter(channel.name));
    ApplyKeepsInv(w, client.fd, Enter(channel.name));
    EntriesReadPeople(w, s.net.world, channel.View());
    AnnounceJoin(s, client, channel);
  }

  // srcs/commands/join.cpp:51-74: the guards, in order, on the channel found or just created.
  method Guards(channel: Channel, f: int, ps: seq<string>) returns (refusal: int)
    requires |channel.memberFds| <= INT_MAX
    ensures refusal == JoinRefusal(channel.View(), f, ps)
  {
    var member := channel.HasMember(f);
    if member {
      return 443;
    }
    var invited := channel.IsInvited(f);
    if channel.inviteOnly && !invited {
      return 473;
    }
    if channel.key != "" {
      if |ps| < 2 || ps[1] != channel.key {
        return 475;
      }
    }
    if channel.limit > 0 && ToInt32(|channel.memberFds|) >= channel.limit {
      return 471;
    }
    return 0;
  }

  // srcs/commands/join.cpp:38-50
  method FindOrOpen(s: Server, name: string) returns (channel: Channel)
    requires s.Valid() && Inv(s.net.world)
    modifies s`channels, s`net
    ensures s.Valid() && s.Grows()
    ensures channel in s.channels && channel.name == name && (channel in old(s.channels) || fresh(channel))
    ensures channel.View() == RoomAt(old(s.net.world), name) && |channel.memberFds| <= INT_MAX
    ensures if name in old(s.net.world.rooms) then s.net == old(s.net)
            else s.net == old(s.net).(world := WithRoom(old(s.net.world), name, EMPTY_ROOM))
  {
    hide Inv, Server.Valid, Elems;
    var found, _ := s.FindLastChannel(name);
    if found == null {
      channel := OpenChannel(s, name);
      return;
    }
    s.RoomKnown(found);
    MembersFitInt(s.net.world, name);
    return found;
  }

  method JoinHandler(s: Server, client: Client, ps: seq<string>)
    requires s.Ready(client)
    modifies s`fds, s`net, s`channels, s.clients, s.channels
    ensures s.Commits(client.fd, DecideJoin(old(s.net.world), client.fd, ps))
    ensures s.Grows()
  {
    hide Render, Deliver, ReplyCmd, Answer, Inv, Server.Valid, IsChannelName, JoinMail, Apply, Elems;
    s.Known(client);
    if !client.registered {
      s.Reply(451, client, "JOIN");
      return;
    }
    if ps == [] {
      s.Reply(461, client, "JOIN");
      return;
    }
    var name := ps[0];
    var valid := ValidChannelName(name);
    if !valid {
      s.Reply(403, client, name);
      return;
    }
    var channel := FindOrOpen(s, name);
    var refusal := Guards(channel, client.fd, ps);
    if refusal != 0 {
      s.Reply(refusal, client, name);
      return;
    }
    assert Admits(old(s.net.world), client.fd, name, ps);
    Enroll(s, client, channel, old(s.net.world));
  }
}
