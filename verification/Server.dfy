// srcs/Server.cpp: vectors of descriptors, clients and channels, changed in place.
// The ghost field net is the abstract server; Valid() ties every concrete field to it.
module ServerClass {
  import opened Text
  import opened Wire
  import opened World
  import opened Invariant
  import opened Net
  import opened EventLoop
  import opened ChannelClass
  import opened ClientClass
  import opened Vectors
  import opened NetSteps

  class Server {
    var fd: int
    const passwd: string
    var fds: seq<PollFd>
    var clients: seq<Client>
    var channels: seq<Channel>
    ghost var net: Net

    // fds[0] is the listener, fds[i + 1] belongs to clients[i], and POLLOUT is requested for
    // exactly the clients whose send buffer is not empty.
    ghost predicate SocketsMatch()
      reads this`fd, this`fds, this`clients, clients`sendBuffer
    {
      && |fds| == |clients| + 1
      && fds[0].fd == fd && !fds[0].pollOut
      && (forall i :: 0 <= i < |clients| ==>
            fds[i + 1].fd == clients[i].fd && (fds[i + 1].pollOut <==> clients[i].sendBuffer != ""))
    }

    ghost predicate ClientsMatch()
      reads this`net, this`clients, clients
    {
      && DistinctFds(clients)
      && FdsAre(clients, net.world.people.Keys)
      && net.inbox.Keys == net.world.people.Keys && net.outbox.Keys == net.world.people.Keys
      && (forall c :: c in clients ==>
            && net.world.people[c.fd] == c.View()
            && net.inbox[c.fd] == c.buffer
            && net.outbox[c.fd] == c.sendBuffer)
    }

    ghost predicate ChannelsMatch(rooms: map<string, Room>)
      reads this`channels, channels
    {
      && DistinctNames(channels)
      && KeysAre(channels, rooms.Keys)
      && (forall ch :: ch in channels ==> ch.Valid() && rooms[ch.name] == ch.View())
    }

    ghost predicate Valid()
      reads this, clients, channels
    {
      && SocketsMatch() && ClientsMatch() && ChannelsMatch(net.world.rooms)
      && net.world.listener == fd && net.world.passwd == passwd
    }

    // Everything matches but the registration fields of one client.
    ghost predicate ValidBut(client: Client)
      reads this, clients, channels
    {
      && SocketsMatch() && ChannelsMatch(net.world.rooms)
      && client in clients && DistinctFds(clients)
      && FdsAre(clients, net.world.people.Keys)
      && net.inbox.Keys == net.world.people.Keys && net.outbox.Keys == net.world.people.Keys
      && (forall c :: c in clients ==>
            && (c != client ==> net.world.people[c.fd] == c.View())
            && net.inbox[c.fd] == c.buffer
            && net.outbox[c.fd] == c.sendBuffer)
      && net.world.listener == fd && net.world.passwd == passwd
    }

    // Record a client's registration fields, just assigned, in the abstract server.
    ghost method SyncPerson(client: Client)
      requires ValidBut(client)
      modifies this`net
      ensures Valid()
      ensures net == old(net).(world := WithPerson(old(net.world), client.fd, client.View()))
    {
      net := net.(world := WithPerson(net.world, client.fd, client.View()));
    }

    // Everything matches but one channel, whose name may be new.
    ghost predicate ValidButRoom(channel: Channel)
      reads this, clients, channels
    {
      && SocketsMatch() && ClientsMatch()
      && channel in channels && DistinctNames(channels) && channel.Valid()
      && KeysAre(channels, net.world.rooms.Keys + {channel.name})
      && (forall ch :: ch in channels && ch != channel ==>
            ch.Valid() && ch.name in net.world.rooms && net.world.rooms[ch.name] == ch.View())
      && net.world.listener == fd && net.world.passwd == passwd
    }

    // Record a channel, just created or changed, in the abstract server.
    ghost method SyncRoom(channel: Channel)
      requires ValidButRoom(channel)
      modifies this`net
      ensures Valid()
      ensures net == old(net).(world := WithRoom(old(net.world), channel.name, channel.View()))
    {
      net := net.(world := WithRoom(net.world, channel.name, channel.View()));
    }

    ghost function Objects(): set<object>
      reads this`clients, this`channels
    {
      (set c: object | c in clients) + (set ch: object | ch in channels)
    }

    // The objects in the vectors are the old ones, or new.
    twostate predicate Grows()
      reads this`clients, this`channels
    {
      fresh(Objects() - old(Objects()))
    }

    // Nothing but the named outcome happened.
    twostate predicate Commits(f: int, o: Outcome)
      reads this, clients, channels
      requires f in old(net.world.people)
    {
      && Valid()
      && clients == old(clients)
      && SameSockets(old(fds), fds)
      && net == Commit(old(net), f, o)
    }

    // A server whose listening socket is open, with nobody connected.
    constructor (fd: int, passwd: string)
      requires 0 <= fd <= INT_MAX
      ensures Valid() && Inv(net.world)
      ensures fds == [PollFd(fd, false, QUIET)] && net == Boot(fd, passwd)
    {
      this.fd, this.passwd := fd, passwd;
      fds, clients, channels := [PollFd(fd, false, QUIET)], [], [];
      net := Boot(fd, passwd);
    }

    method SendingQueue(client: Client, message: string)
      requires Valid() && client in clients
      modifies this`fds, this`net, client`sendBuffer
      ensures Valid()
      ensures SameSockets(old(fds), fds)
      ensures net == old(net).(outbox := Queue(old(net.outbox), client.fd, message))
    {
      hide Server.ChannelsMatch;
      if message == "" {
        assert net.outbox[client.fd] + message == net.outbox[client.fd];
        return;
      }
      client.sendBuffer := client.sendBuffer + message;
      net := net.(outbox := Queue(net.outbox, client.fd, message));
      var i := 1;
      while i < |fds|
        invariant 1 <= i <= |fds| && fds == old(fds)
        invariant forall k :: 0 <= k < i - 1 ==> clients[k] != client
      {
        if clients[i - 1] == client {
          fds := fds[i := fds[i].(pollOut := true)];
          break;
        }
        i := i + 1;
      }
    }

    // The common inner loop: every client with the descriptor (there is at most one).
    method QueueTo(f: int, message: string)
      requires Valid()
      modifies this`fds, this`net, clients`sendBuffer
      ensures Valid()
      ensures SameSockets(old(fds), fds)
      ensures net == old(net).(outbox := Queue(old(net.outbox), f, message))
    {
      for j := 0 to |clients|
        invariant Valid()
        invariant SameSockets(old(fds), fds)
        invariant (forall k :: 0 <= k < j ==> clients[k].fd != f) ==> net == old(net)
        invariant (exists k :: 0 <= k < j && clients[k].fd == f) ==>
                  net == old(net).(outbox := Queue(old(net.outbox), f, message))
      {
        if clients[j].fd == f {
          SendingQueue(clients[j], message);
        }
      }
    }

    // The member loops of JOIN and KICK.
    method Broadcast(members: seq<int>, message: string, ghost wire: Wire)
      requires Valid() && message == Render(wire)
      modifies this`fds, this`net, clients`sendBuffer
      ensures Valid()
      ensures SameSockets(old(fds), fds)
      ensures net == old(net).(outbox := Deliver(old(net.outbox), ToAll(members, wire)))
    {
      hide Render, Deliver, Server.Valid;
      assert ToAll([], wire) == [];
      DeliverNone(net.outbox);
      for i := 0 to |members|
        invariant Valid()
        invariant SameSockets(old(fds), fds)
        invariant net == old(net).(outbox := Deliver(old(net.outbox), ToAll(members[..i], wire)))
      {
        QueueTo(members[i], message);
        DeliverLast(old(net.outbox), ToAll(members[..i], wire), Mail(members[i], wire));
        assert ToAll(members[..i + 1], wire) == ToAll(members[..i], wire) + [Mail(members[i], wire)];
      }
      assert members[..|members|] == members;
    }

    // The member loops of PRIVMSG and TOPIC, which pass over the sender.
    method BroadcastToOthers(members: seq<int>, sender: Client, message: string, ghost wire: Wire)
      requires Valid() && message == Render(wire)
      modifies this`fds, this`net, clients`sendBuffer
      ensures Valid()
      ensures SameSockets(old(fds), fds)
      ensures net == old(net).(outbox := Deliver(old(net.outbox), ToAll(Without(members, sender.fd), wire)))
    {
      hide Render, Deliver, Without, Server.Valid;
      ghost var others := [];
      assert ToAll([], wire) == [];
      DeliverNone(net.outbox);
      for i := 0 to |members|
        invariant Valid()
        invariant SameSockets(old(fds), fds)
        invariant others == Without(members[..i], sender.fd)
        invariant net == old(net).(outbox := Deliver(old(net.outbox), ToAll(others, wire)))
      {
        WithoutLast(members[..i], members[i], sender.fd);
        assert members[..i + 1] == members[..i] + [members[i]];
        if members[i] != sender.fd {
          QueueTo(members[i], message);
          DeliverLast(old(net.outbox), ToAll(others, wire), Mail(members[i], wire));
          assert ToAll(others + [members[i]], wire) == ToAll(others, wire) + [Mail(members[i], wire)];
          others := others + [members[i]];
        }
      }
      assert members[..|members|] == members;
    }

    // The loops without break: the last match wins.
    method FindLastChannel(name: string) returns (channel: Channel?, index: nat)
      requires Valid()
      ensures channel == null <==> name !in net.world.rooms
      ensures channel != null ==> index < |channels| && channels[index] == channel && channel.name == name
    {
      channel, index := null, 0;
      for i := 0 to |channels|
        invariant channel == null ==> forall k :: 0 <= k < i ==> channels[k].name != name
        invariant channel != null ==> index < |channels| && channels[index] == channel && channel.name == name
      {
        if channels[i].name == name {
          channel, index := channels[i], i;
        }
      }
    }

    method FindFirstChannel(name: string) returns (channel: Channel?)
      requires Valid()
      ensures channel == null <==> name !in net.world.rooms
      ensures channel != null ==> channel in channels && channel.name == name
    {
      channel := null;
      for i := 0 to |channels|
        invariant channel == null && forall k :: 0 <= k < i ==> channels[k].name != name
      {
        if channels[i].name == name {
          return channels[i];
        }
      }
    }

    lemma NoHolders(nick: string)
      requires Valid() && forall c :: c in clients ==> c.nickname != nick
      ensures Holders(net.world, nick) == {}
    {
      forall f | f in net.world.people ensures net.world.people[f].nick != nick {
        var c :| c in clients && c.fd == f;
      }
    }

    method FindLastClient(nick: string) returns (target: Client?)
      requires Valid()
      ensures target == null <==> Holders(net.world, nick) == {}
      ensures target != null ==> target in clients && target.fd in Holders(net.world, nick)
    {
      target := null;
      for i := 0 to |clients|
        invariant target == null ==> forall k :: 0 <= k < i ==> clients[k].nickname != nick
        invariant target != null ==> target in clients && target.nickname == nick
      {
        if clients[i].nickname == nick {
          target := clients[i];
        }
      }
      if target == null {
        NoHolders(nick);
      } else {
        assert target.fd in Holders(net.world, nick);
      }
    }

    method FindFirstClient(nick: string) returns (target: Client?)
      requires Valid()
      ensures target == null <==> Holders(net.world, nick) == {}
      ensures target != null ==> target in clients && target.fd in Holders(net.world, nick)
    {
      target := null;
      for i := 0 to |clients|
        invariant target == null && forall k :: 0 <= k < i ==> clients[k].nickname != nick
      {
        if clients[i].nickname == nick {
          assert clients[i].fd in Holders(net.world, nick);
          return clients[i];
        }
      }
      NoHolders(nick);
    }

    ghost predicate Ready(client: Client)
      reads this, clients, channels
    {
      Valid() && Inv(net.world) && client in clients
    }

    ghost predicate ReadyFor(client: Client, channel: Channel)
      reads this, clients, channels
    {
      Ready(client) && channel in channels && client.fd in net.world.rooms[channel.name].ops
    }

    method Reply(code: int, client: Client, arg: string)
      requires Valid() && client in clients
      modifies this`fds, this`net, client`sendBuffer
      ensures Commits(client.fd, Answer(old(net.world), client.fd, code, arg))
    {
      hide Render, Deliver, ReplyCmd;
      SendingQueue(client, ReplyCmd(code, client.nickname, arg));
      RenderNumeric(code, client.nickname, [arg]);
      DeliverOne(old(net.outbox), Mail(client.fd, Numeric(code, client.nickname, [arg])));
    }

    method ReplyTwo(code: int, client: Client, nick: string, channel: string)
      requires Valid() && client in clients
      modifies this`fds, this`net, client`sendBuffer
      ensures Commits(client.fd, AnswerTwo(old(net.world), client.fd, code, nick, channel))
    {
      hide Render, Deliver, ReplyCmd;
      SendingQueue(client, ReplyCmd(code, client.nickname, nick + " " + channel));
      SpacedTwo(nick, channel);
      RenderNumeric(code, client.nickname, [nick, channel]);
      DeliverOne(old(net.outbox), Mail(client.fd, Numeric(code, client.nickname, [nick, channel])));
    }

    lemma Known(client: Client)
      requires Valid() && client in clients
      ensures client.fd in net.world.people && net.world.people[client.fd] == client.View()
      ensures client.fd in net.outbox && net.world.passwd == passwd
    {
    }

    lemma RoomKnown(channel: Channel)
      requires Valid() && channel in channels
      ensures channel.name in net.world.rooms && net.world.rooms[channel.name] == channel.View() && channel.Valid()
    {
    }

    method RecordBuffer(client: Client, text: string)
      requires Valid() && client in clients
      modifies this`net, client`buffer
      ensures Valid()
      ensures net == old(net).(inbox := old(net.inbox)[client.fd := text])
    {
      client.buffer := text;
      net := net.(inbox := net.inbox[client.fd := text]);
    }

    lemma BufferKnown(client: Client)
      requires Valid() && client in clients
      ensures Connected(net, client.fd) && net.inbox[client.fd] == client.buffer
    {
    }

    // accept's result is the new descriptor, or nothing when accept or fcntl failed.
    method Connect(accepted: Option<int>)
      requires Valid() && (accepted.Some? ==> CanConnect(net.world, accepted.value))
      modifies this`fds, this`clients, this`net
      ensures Valid() && Grows()
      ensures accepted.None? ==> fds == old(fds) && clients == old(clients) && net == old(net)
      ensures accepted.Some? ==>
        && net == Step(old(net), Accept(accepted.value))
        && fds == old(fds) + [PollFd(accepted.value, false, QUIET)]
    {
      if accepted.None? {
        return;
      }
      hide Server.ChannelsMatch, Server.SocketsMatch, Server.ClientsMatch, Server.Arriving, Server.Objects;
      var client := new Client(accepted.value);
      AddClient(client);
      SyncNewcomer(client);
    }

    // Everything matches but a client that the abstract server does not know yet.
    ghost predicate Arriving(client: Client)
      reads this`net, this`clients, clients
    {
      && client in clients && client.fd !in net.world.people
      && DistinctFds(clients) && FdsAre(clients, net.world.people.Keys + {client.fd})
      && net.inbox.Keys == net.world.people.Keys && net.outbox.Keys == net.world.people.Keys
      && (forall c :: c in clients && c != client ==>
            && net.world.people[c.fd] == c.View()
            && net.inbox[c.fd] == c.buffer
            && net.outbox[c.fd] == c.sendBuffer)
    }

    // Record a client, just appended to the vectors, in the abstract server.
    ghost method SyncNewcomer(client: Client)
      requires SocketsMatch() && ChannelsMatch(net.world.rooms)
      requires client.View() == NEWCOMER && client.buffer == "" && client.sendBuffer == ""
      requires Arriving(client)
      requires net.world.listener == fd && net.world.passwd == passwd
      modifies this`net
      ensures Valid()
      ensures var f := client.fd;
              net == Net(WithPerson(old(net.world), f, NEWCOMER), old(net.inbox)[f := ""], old(net.outbox)[f := ""])
    {
      hide Server.ChannelsMatch, Server.SocketsMatch;
      net := Net(WithPerson(net.world, client.fd, NEWCOMER), net.inbox[client.fd := ""], net.outbox[client.fd := ""]);
    }

    // The two vectors grow together.
    method AddClient(client: Client)
      requires SocketsMatch() && ClientsMatch()
      requires client.fd !in net.world.people && client.sendBuffer == ""
      modifies this`fds, this`clients
      ensures SocketsMatch() && Arriving(client)
      ensures fds == old(fds) + [PollFd(client.fd, false, QUIET)] && clients == old(clients) + [client]
      ensures Objects() == old(Objects()) + {client}
    {
      hide Client.View, DistinctFds, FdsAre;
      AppendClient(clients, client, net.world.people.Keys);
      fds := fds + [PollFd(client.fd, false, QUIET)];
      clients := clients + [client];
    }

    // Every channel loses the descriptor, and emptied channels are erased during the scan.
    method LeaveChannels(f: int)
      requires ChannelsMatch(net.world.rooms)
      modifies this`channels, channels
      ensures (set ch: object | ch in channels) <= (set ch: object | ch in old(channels))
      ensures ChannelsMatch(Depart(net.world, f).rooms)
    {
      hide Depart, Channel.Valid, Channel.View, LeaveRoom, Server.LeftBehind, Server.ToForget;
      ghost var all, j := channels, 0;
      var i := 0;
      StartForgetting();
      while i < |channels|
        invariant 0 <= i <= |channels| && 0 <= j <= |all|
        invariant channels[i..] == all[j..]
        invariant ToForget(all, j, f)
        invariant LeftBehind(channels[..i], all[..j])
        decreases |channels| - i
      {
        assert channels[i] == channels[i..][0] == all[j];
        assert channels[i..][1..] == channels[i + 1..] && all[j..][1..] == all[j + 1..];
        ghost var kept := channels[..i];
        var emptied := ForgetOne(channels[i], all, j, kept, f);
        if emptied {
          EraseAt(channels, i);
          channels := channels[..i] + channels[i + 1..];
        } else {
          assert channels[..i + 1] == kept + [all[j]];
          i := i + 1;
        }
        j := j + 1;
      }
      assert channels[..i] == channels && all[..j] == all;
      Departed(all, f);
    }

    // The channels before index j have lost the descriptor; the others are as they were.
    ghost predicate ToForget(all: seq<Channel>, j: nat, f: int)
      reads this`net, all
    {
      && j <= |all| && DistinctNames(all) && KeysAre(all, net.world.rooms.Keys)
      && (forall ch :: ch in all[..j] ==> Forgotten(ch, net.world.rooms, f))
      && (forall ch :: ch in all[j..] ==> ch.Valid() && ch.View() == net.world.rooms[ch.name])
    }

    lemma StartForgetting()
      requires ChannelsMatch(net.world.rooms)
      ensures forall f :: ToForget(channels, 0, f)
      ensures LeftBehind(channels[..0], channels[..0])
    {
      assert channels[0..] == channels;
    }

    method ForgetOne(channel: Channel, ghost all: seq<Channel>, ghost j: nat, ghost kept: seq<Channel>, f: int)
      returns (emptied: bool)
      requires j < |all| && channel == all[j] && ToForget(all, j, f) && LeftBehind(kept, all[..j])
      modifies channel
      ensures ToForget(all, j + 1, f)
      ensures LeftBehind(if emptied then kept else kept + [channel], all[..j + 1])
    {
      hide LeaveRoom;
      assert all[..j + 1] == all[..j] + [channel] && all[j..] == [channel] + all[j + 1..];
      assert channel !in all[..j] && channel !in all[j + 1..];
      channel.Forget(f);
      emptied := channel.memberFds == [];
    }

    ghost predicate Forgotten(channel: Channel, rooms: map<string, Room>, f: int)
      reads channel
    {
      channel.Valid() && channel.name in rooms && channel.View() == LeaveRoom(rooms[channel.name], f)
    }

    lemma Departed(all: seq<Channel>, f: int)
      requires ToForget(all, |all|, f) && LeftBehind(channels, all)
      ensures ChannelsMatch(Depart(net.world, f).rooms)
      ensures (set ch: object | ch in channels) <= (set ch: object | ch in all)
    {
      var rooms := Depart(net.world, f).rooms;
      assert all[..|all|] == all;
      forall n | n in rooms.Keys ensures exists ch :: ch in channels && ch.name == n {
        var ch :| ch in all && ch.name == n;
        assert ch.memberFds == LeaveRoom(net.world.rooms[n], f).members;
      }
      forall ch | ch in channels ensures ch.name in rooms.Keys && rooms[ch.name] == ch.View() {
        assert ch.memberFds == LeaveRoom(net.world.rooms[ch.name], f).members;
      }
    }

    // The channels kept so far are exactly those of the processed prefix that still have members.
    ghost predicate LeftBehind(kept: seq<Channel>, processed: seq<Channel>)
      reads processed
    {
      && (forall a, b :: 0 <= a < b < |kept| ==> kept[a] != kept[b])
      && (forall ch :: ch in kept ==> ch in processed && ch.memberFds != [])
      && (forall ch :: ch in processed && ch.memberFds != [] ==> ch in kept)
    }

    method Disconnect(i: nat)
      requires Valid() && 1 <= i < |fds|
      modifies this`fds, this`clients, this`channels, this`net, channels
      ensures Valid() && Grows()
      ensures fds == old(fds)[..i] + old(fds)[i + 1..]
      ensures net == Close(old(net), old(fds)[i].fd)
    {
      hide Depart, Server.ChannelsMatch, DistinctFds, FdsAre;
      var f := fds[i].fd;
      LeaveChannels(f);
      assert SocketsMatch() && ClientsMatch();
      DropClient(i, f);
      assert Objects() <= old(Objects());
      SyncDeparture(f);
    }

    // Record a departure, already made in the vectors, in the abstract server.
    ghost method SyncDeparture(f: int)
      requires SocketsMatch() && ChannelsMatch(Depart(net.world, f).rooms)
      requires DistinctFds(clients) && FdsAre(clients, net.world.people.Keys - {f})
      requires net.inbox.Keys == net.world.people.Keys && net.outbox.Keys == net.world.people.Keys
      requires forall c :: c in clients ==>
        && net.world.people[c.fd] == c.View()
        && net.inbox[c.fd] == c.buffer
        && net.outbox[c.fd] == c.sendBuffer
      requires net.world.listener == fd && net.world.passwd == passwd
      modifies this`net
      ensures Valid() && net == Close(old(net), f)
    {
      hide Depart, Server.ChannelsMatch, Server.SocketsMatch;
      DepartPeople(net.world, f);
      net := Close(net, f);
    }

    // The two vectors are erased at neighbouring indices.
    method DropClient(i: nat, f: int)
      requires SocketsMatch() && 1 <= i < |fds| && fds[i].fd == f
      requires DistinctFds(clients) && FdsAre(clients, net.world.people.Keys)
      modifies this`fds, this`clients
      ensures SocketsMatch()
      ensures fds == old(fds)[..i] + old(fds)[i + 1..]
      ensures DistinctFds(clients) && FdsAre(clients, net.world.people.Keys - {f})
      ensures forall c :: c in clients ==> c in old(clients)
      ensures (set c: object | c in clients) <= (set c: object | c in old(clients))
    {
      hide DistinctFds, FdsAre;
      EraseClient(clients, i - 1);
      EraseTogether(fds, clients, i);
      fds := fds[..i] + fds[i + 1..];
      clients := clients[..i - 1] + clients[i..];
    }

    lemma ClientAt(i: nat)
      requires Valid() && 1 <= i < |fds|
      ensures |clients| == |fds| - 1 && fds[i].fd == clients[i - 1].fd
      ensures Connected(net, fds[i].fd)
      ensures net.inbox[fds[i].fd] == clients[i - 1].buffer
      ensures net.outbox[fds[i].fd] == clients[i - 1].sendBuffer
    {
    }

    // send on a client's descriptor: what was taken leaves the send buffer; POLLOUT is dropped with
    // the last byte; an error other than EAGAIN disconnects.
    method HandleSend(i: nat, send: SendResult) returns (gone: bool)
      requires Valid() && Inv(net.world) && 1 <= i < |fds|
      modifies this`fds, this`net, this`channels, this`clients, clients, channels
      ensures Valid() && Inv(net.world) && Grows()
      ensures gone ==> fds == old(fds)[..i] + old(fds)[i + 1..]
      ensures !gone ==> SameSockets(old(fds), fds)
      ensures net == Step(old(net), Transmit(old(fds)[i].fd, send))
    {
      hide Inv, Server.Valid;
      ClientAt(i);
      var client := clients[i - 1];
      if client.sendBuffer == "" {
        StopPolling(i);
        return false;
      }
      if send.Wrote? && send.n > 0 {
        TakeSent(i, send.n);
        return false;
      }
      if send.SendLater? {
        return false;
      }
      DepartKeepsInv(net.world, fds[i].fd);
      Disconnect(i);
      return true;
    }

    method StopPolling(i: nat)
      requires Valid() && 1 <= i < |fds| && clients[i - 1].sendBuffer == ""
      modifies this`fds
      ensures Valid() && SameSockets(old(fds), fds)
    {
      fds := fds[i := fds[i].(pollOut := false)];
    }

    method TakeSent(i: nat, n: nat)
      requires Valid() && 1 <= i < |fds| && clients[i - 1].sendBuffer != ""
      modifies this`fds, this`net, clients`sendBuffer
      ensures Valid() && SameSockets(old(fds), fds)
      ensures var f, buffer := old(fds)[i].fd, old(clients[i - 1].sendBuffer);
              net == old(net).(outbox := old(net.outbox)[f := buffer[Shorter(n, buffer)..]])
    {
      var client := clients[i - 1];
      client.sendBuffer := client.sendBuffer[Shorter(n, client.sendBuffer)..];
      net := net.(outbox := net.outbox[client.fd := client.sendBuffer]);
      if client.sendBuffer == "" {
        fds := fds[i := fds[i].(pollOut := false)];
      }
    }
  }
}
