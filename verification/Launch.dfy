// The part of srcs/Server.cpp that reads, dispatches and loops.
module Launch {
  import opened Text
  import opened Framing
  import opened World
  import opened Invariant
  import opened Net
  import opened EventLoop
  import opened NetSteps
  import opened ServerClass
  import opened Dispatcher

  method ExtractMsg(s: Server, i: nat)
    requires s.Valid() && Inv(s.net.world) && 1 <= i <= |s.clients|
    modifies s`fds, s`net, s`channels, s.clients, s.channels
    ensures s.Valid() && Inv(s.net.world) && s.Grows()
    ensures s.clients == old(s.clients) && SameSockets(old(s.fds), s.fds)
    ensures Connected(old(s.net), s.clients[i - 1].fd) && s.net == Drain(old(s.net), s.clients[i - 1].fd)
  {
    hide Inv, React, Commit, Drain, FindLf, Server.Valid;
    var client := s.clients[i - 1];
    s.Known(client);
    s.BufferKnown(client);
    var pos := FindLf(client.buffer);
    while pos < |client.buffer|
      invariant s.Valid() && Inv(s.net.world) && s.Grows()
      invariant s.clients == old(s.clients) && SameSockets(old(s.fds), s.fds)
      invariant Connected(s.net, client.fd) && s.net.inbox[client.fd] == client.buffer
      invariant pos == FindLf(client.buffer)
      invariant Drain(s.net, client.fd) == Drain(old(s.net), client.fd)
      decreases |client.buffer|
    {
      ghost var before := s.net;
      var msg := client.buffer[..pos];
      s.RecordBuffer(client, client.buffer[pos + 1..]);
      if msg != "" && msg[|msg| - 1] == '\r' {
        msg := msg[..|msg| - 1];
      }
      DispatchCommand(s, client, msg);
      s.BufferKnown(client);
      DrainStep(before, client.fd);
      pos := FindLf(client.buffer);
    }
    DrainDone(s.net, client.fd);
  }

  // recv on a client's descriptor: bytes are framed and dispatched; the end of the stream or an
  // error other than EAGAIN disconnects.
  method HandleUser(s: Server, i: nat, recv: RecvResult) returns (gone: bool)
    requires s.Valid() && Inv(s.net.world) && 1 <= i < |s.fds|
    modifies s`fds, s`net, s`channels, s`clients, s.clients, s.channels
    ensures s.Valid() && Inv(s.net.world) && s.Grows()
    ensures gone <==> Closes(recv)
    ensures gone ==> s.fds == old(s.fds)[..i] + old(s.fds)[i + 1..]
    ensures !gone ==> SameSockets(old(s.fds), s.fds)
    ensures s.net == Step(old(s.net), Receive(old(s.fds)[i].fd, recv))
  {
    hide Inv, Drain, Server.Valid;
    s.ClientAt(i);
    if recv.Data? && recv.bytes != "" {
      s.RecordBuffer(s.clients[i - 1], s.clients[i - 1].buffer + recv.bytes);
      ExtractMsg(s, i);
      return false;
    }
    if recv.RecvLater? {
      return false;
    }
    DepartKeepsInv(s.net.world, s.fds[i].fd);
    s.Disconnect(i);
    return true;
  }

  // The part of the loop body of launch that serves a client.
  method ServeClient(s: Server, i: nat, a: Results) returns (gone: bool)
    requires s.Valid() && Inv(s.net.world) && 1 <= i < |s.fds|
    modifies s`fds, s`net, s`channels, s`clients, s.clients, s.channels
    ensures s.Valid() && Inv(s.net.world) && s.Grows()
    ensures gone ==> SameSockets(old(s.fds)[..i] + old(s.fds)[i + 1..], s.fds)
    ensures !gone ==> SameSockets(old(s.fds), s.fds)
    ensures s.net == Run(old(s.net), Serve(old(s.fds)[i].fd, old(s.fds)[i].revents, a))
  {
    hide Inv, Step, Server.Valid;
    ghost var f, start := s.fds[i].fd, s.net;
    RunNothing(s.net);
    if s.fds[i].revents.input {
      RunOne(s.net, Receive(f, a.recv));
      gone := HandleUser(s, i, a.recv);
      if gone {
        return;
      }
    }
    ghost var first := if old(s.fds)[i].revents.input then [Receive(f, a.recv)] else [];
    assert s.net == Run(start, first);
    if s.fds[i].revents.failed {
      RunOne(s.net, Hangup(f));
      RunAppend(start, first, [Hangup(f)]);
      HangupIsClose(s, i);
      DepartKeepsInv(s.net.world, f);
      s.Disconnect(i);
      return true;
    }
    if s.fds[i].revents.output {
      RunOne(s.net, Transmit(f, a.send));
      RunAppend(start, first, [Transmit(f, a.send)]);
      gone := s.HandleSend(i, a.send);
      return;
    }
    return false;
  }

  lemma HangupIsClose(s: Server, i: nat)
    requires s.Valid() && 1 <= i < |s.fds|
    ensures Step(s.net, Hangup(s.fds[i].fd)) == Close(s.net, s.fds[i].fd)
    ensures s.fds[i].fd in s.net.world.people
  {
    s.ClientAt(i);
  }

  // The listener's visit may append a newcomer, on whom poll has not reported.
  method VisitListener(s: Server, i: nat, a: Results, ghost polled: seq<PollFd>)
    requires s.Valid() && Inv(s.net.world) && i < |s.fds| && s.fds[i].fd == s.fd && s.fds[i].revents != QUIET
    requires a.accept.Some? ==> CanConnect(s.net.world, a.accept.value)
    requires StillToVisit(s.fds[i..], polled)
    modifies s`fds, s`net, s`clients
    ensures s.Valid() && Inv(s.net.world) && s.Grows()
    ensures |s.fds| >= |old(s.fds)| && StillToVisit(s.fds[i + 1..], Rest(polled))
    ensures s.net == Run(old(s.net), ServeSocket(s.fd, old(s.fds)[i], a))
  {
    hide Inv, Server.Valid, Run, StillToVisit, Step;
    ghost var before := s.fds;
    RunNothing(s.net);
    if s.fds[i].revents.input {
      AcceptKeepsInv(s.net, a.accept);
      s.Connect(a.accept);
    }
    VisitStays(before, before, i, polled);
    if s.fds != before {
      VisitAppends(before, s.fds[|before|], i, polled);
    }
  }

  // A client's visit moves on, or stays where the client was erased: nobody is skipped.
  method VisitClient(s: Server, i: nat, a: Results, ghost polled: seq<PollFd>) returns (next: nat)
    requires s.Valid() && Inv(s.net.world) && 1 <= i < |s.fds| && s.fds[i].fd != s.fd && s.fds[i].revents != QUIET
    requires StillToVisit(s.fds[i..], polled)
    modifies s`fds, s`net, s`channels, s`clients, s.clients, s.channels
    ensures s.Valid() && Inv(s.net.world) && s.Grows()
    ensures i <= next <= |s.fds| && |s.fds| - next < |old(s.fds)| - i
    ensures StillToVisit(s.fds[next..], Rest(polled))
    ensures s.net == Run(old(s.net), ServeSocket(s.fd, old(s.fds)[i], a))
  {
    hide Inv, Server.Valid, Run, StillToVisit, Serve;
    var gone := ServeClient(s, i, a);
    if gone {
      VisitLeaves(old(s.fds), s.fds, i, polled);
      return i;
    }
    VisitStays(old(s.fds), s.fds, i, polled);
    return i + 1;
  }

  // One pass over the poll results, while the vector grows and shrinks: its events are those of
  // each descriptor that was ready when poll returned, each once and in order.
  method Scan(s: Server, os: nat -> Results)
    requires s.Valid() && Inv(s.net.world)
    requires os(0).accept.Some? ==> CanConnect(s.net.world, os(0).accept.value)
    modifies s`fds, s`net, s`channels, s`clients, s.clients, s.channels
    ensures s.Valid() && Inv(s.net.world) && s.Grows()
    ensures s.net == Run(old(s.net), ScanEvents(s.fd, old(s.fds), os))
  {
    hide Inv, Server.Valid, ScanEvents, ReadyCount, Serve, Run, StillToVisit, Step;
    ghost var polled, j := s.fds, 0;
    var i, served := 0, 0;
    StartScan(s, os);
    while i < |s.fds|
      invariant s.Valid() && Inv(s.net.world) && s.Grows()
      invariant 0 <= i <= |s.fds| && 0 <= j <= |polled|
      invariant i == 0 ==> j == 0 && s.net == old(s.net) && s.fds == polled
      invariant StillToVisit(s.fds[i..], polled[j..])
      invariant served == ReadyCount(polled[..j])
      invariant s.net == Run(old(s.net), ScanEvents(s.fd, polled[..j], os))
      decreases i == 0, |s.fds| - i
    {
      SocketAt(s, i, polled[j..]);
      assert Rest(polled[j..]) == if j < |polled| then polled[j + 1..] else polled[j..];
      if j < |polled| {
        ScanNext(s.fd, polled, j, os, old(s.net));
      }
      if s.fds[i].revents == QUIET {
        VisitStays(s.fds, s.fds, i, polled[j..]);
        i, j := i + 1, if j < |polled| then j + 1 else j;
        continue;
      }
      if s.fds[i].fd == s.fd {
        VisitListener(s, i, os(served), polled[j..]);
        i := i + 1;
      } else {
        i := VisitClient(s, i, os(served), polled[j..]);
      }
      j, served := j + 1, served + 1;
    }
    NothingLeft(s.fds[i..], polled[j..]);
    assert polled[..j] == polled;
  }

  lemma StartScan(s: Server, os: nat -> Results)
    requires s.Valid()
    ensures ScanEvents(s.fd, s.fds[..0], os) == [] && ReadyCount(s.fds[..0]) == 0
    ensures Run(s.net, []) == s.net
    ensures StillToVisit(s.fds[0..], s.fds[0..])
  {
  }

  // Only index 0 is the listener, and what is ready was there when poll returned.
  lemma SocketAt(s: Server, i: nat, polled: seq<PollFd>)
    requires s.Valid() && Inv(s.net.world) && i < |s.fds| && StillToVisit(s.fds[i..], polled)
    ensures s.fds[i].fd == s.fd <==> i == 0
    ensures s.fds[i].revents != QUIET ==> polled != []
    ensures polled != [] ==> polled[0].fd == s.fds[i].fd && polled[0].revents == s.fds[i].revents
  {
    if i > 0 {
      s.ClientAt(i);
    }
    assert s.fds[i..][0] == s.fds[i];
  }

  lemma PolloutRequested(s: Server, i: nat)
    requires s.Valid() && 1 <= i < |s.fds|
    ensures |s.clients| == |s.fds| - 1 && (s.fds[i].pollOut <==> s.clients[i - 1].sendBuffer != "")
  {
    assert s.fds[i - 1 + 1] == s.fds[i];
  }

  // The vector of descriptors lists the listener, then every open connection once.
  lemma SocketsListOpen(s: Server)
    requires s.Valid() && Inv(s.net.world)
    ensures Polls(s.net, Interrupted, s.fds)
  {
    forall i | 1 <= i < |s.fds|
      ensures Connected(s.net, s.fds[i].fd) && (s.fds[i].pollOut <==> s.net.outbox[s.fds[i].fd] != "") {
      s.ClientAt(i);
      PolloutRequested(s, i);
    }
    forall f | f in s.net.world.people ensures exists i :: 1 <= i < |s.fds| && s.fds[i].fd == f {
      var c :| c in s.clients && c.fd == f;
      var k :| 0 <= k < |s.clients| && s.clients[k] == c;
      assert s.fds[k + 1].fd == f;
    }
    forall i, j | 0 <= i < j < |s.fds| ensures s.fds[i].fd != s.fds[j].fd {
      s.ClientAt(j);
      if i > 0 {
        assert s.clients[i - 1] != s.clients[j - 1];
      }
    }
  }

  lemma AcceptIsFresh(s: Server, open: seq<int>, accepted: Option<int>)
    requires s.Valid() && open == Fds(s.fds)
    requires accepted.Some? ==> 0 <= accepted.value <= INT_MAX && accepted.value !in open
    ensures accepted.Some? ==> CanConnect(s.net.world, accepted.value)
  {
    if accepted.Some? {
      assert open[0] == s.net.world.listener;
      forall c | c in s.clients ensures c.fd in open {
        var k :| 0 <= k < |s.clients| && s.clients[k] == c;
        assert open[k + 1] == c.fd;
      }
    }
  }

  method Poll(s: Server, r: Round)
    requires s.Valid() && Inv(s.net.world) && r.Polled?
    modifies s`fds
    ensures s.Valid() && Polls(s.net, r, s.fds)
  {
    hide Inv, Polls, Server.ChannelsMatch, Server.ClientsMatch;
    SocketsListOpen(s);
    ReportPolls(s.net, r, s.fds);
    s.fds := Report(s.fds, r.report);
  }

  // One poll: every descriptor's revents are set, and the pass follows.
  method PollAndScan(s: Server, r: Round) returns (ghost sockets: seq<PollFd>)
    requires s.Valid() && Inv(s.net.world) && r.Polled? && HonestAccept(r)
    modifies s`fds, s`net, s`channels, s`clients, s.clients, s.channels
    ensures s.Valid() && Inv(s.net.world) && s.Grows()
    ensures Polls(old(s.net), r, sockets)
    ensures s.net == Run(old(s.net), RoundEvents(s.fd, r, sockets))
  {
    hide Inv, Run, ScanEvents, Polls, Server.Valid;
    Poll(s, r);
    sockets := s.fds;
    var open := Fds(s.fds);
    AcceptIsFresh(s, open, r.os(open)(0).accept);
    Scan(s, r.os(open));
  }

  lemma ListenerKnown(s: Server)
    requires s.Valid()
    ensures s.net.world.listener == s.fd
  {
  }

  // The loop of launch, for as many rounds as pass before the signal. Each round polls exactly the
  // connections then open, and the abstract server goes through the events of the rounds in order.
  method ServeRounds(s: Server, rounds: seq<Round>) returns (ghost log: seq<seq<PollFd>>)
    requires s.Valid() && Inv(s.net.world)
    requires forall k :: 0 <= k < |rounds| ==> HonestAccept(rounds[k])
    modifies s`fds, s`net, s`channels, s`clients, s.clients, s.channels
    ensures s.Valid() && Inv(s.net.world) && s.Grows()
    ensures LogOf(old(s.net), rounds, log)
    ensures s.net == Run(old(s.net), LogEvents(s.fd, rounds, log))
  {
    hide Inv, Server.Valid, Run, ScanEvents, LogOf, LogEvents, Polls, HonestAccept;
    log := [];
    EmptyLog(s.net, s.fd);
    ListenerKnown(s);
    for k := 0 to |rounds|
      invariant s.Valid() && Inv(s.net.world) && s.Grows()
      invariant |log| == k && LogOf(old(s.net), rounds[..k], log)
      invariant s.net == Run(old(s.net), LogEvents(s.fd, rounds[..k], log))
    {
      ghost var before, sockets := s.net, s.fds;
      assert rounds[..k + 1] == rounds[..k] + [rounds[k]];
      if rounds[k].Polled? {
        sockets := PollAndScan(s, rounds[k]);
      } else {
        SocketsListOpen(s);
        RunNothing(s.net);
      }
      LogGrows(old(s.net), rounds[..k], log, rounds[k], sockets);
      RunAppend(old(s.net), LogEvents(s.fd, rounds[..k], log), RoundEvents(s.fd, rounds[k], sockets));
      log := log + [sockets];
    }
    assert rounds[..|rounds|] == rounds;
  }

  lemma ClientsAndSockets(s: Server)
    requires s.Valid()
    ensures |s.fds| == |s.clients| + 1 && s.fds[0].fd == s.fd
  {
  }

  lemma NobodyNowhere(s: Server)
    requires s.Valid() && Inv(s.net.world) && s.clients == []
    ensures s.net.world.people == map[] && s.net.world.rooms == map[] && s.channels == []
  {
    assert forall f :: f !in s.net.world.people;
    assert s.channels != [] ==> s.channels[0].name in s.net.world.rooms;
    NoRoomsWithoutPeople(s.net.world);
  }

  // The repeated disconnect of the first client empties every vector but the listener's slot,
  // the channels included.
  method DrainClients(s: Server)
    requires s.Valid() && Inv(s.net.world)
    modifies s`fds, s`net, s`channels, s`clients, s.channels
    ensures s.Valid() && Inv(s.net.world)
    ensures |s.fds| == 1 && s.fds[0].fd == s.fd && s.clients == [] && s.channels == []
    ensures s.net.world.people == map[] && s.net.world.rooms == map[]
  {
    hide Inv, Server.Valid, Close;
    ClientsAndSockets(s);
    while |s.fds| > 1
      invariant s.Valid() && Inv(s.net.world) && s.Grows()
      invariant |s.fds| == |s.clients| + 1
      decreases |s.fds|
    {
      s.ClientAt(1);
      CloseKeepsWorldInv(s.net, s.fds[1].fd);
      s.Disconnect(1);
      ClientsAndSockets(s);
    }
    ClientsAndSockets(s);
    NobodyNowhere(s);
  }

  // The goodbye message is offered to send once and its fate ignored; closing is not modelled.
  method Shutdown(s: Server)
    requires s.Valid() && Inv(s.net.world)
    modifies s`fd, s`fds, s`net, s`channels, s`clients, s.channels
    ensures s.fds == [] && s.clients == [] && s.channels == [] && s.fd == -1
  {
    DrainClients(s);
    s.channels := [];
    s.clients := [];
    s.fds := [];
    if s.fd != -1 {
      s.fd := -1;
    }
  }

  method Launch(s: Server, rounds: seq<Round>) returns (ghost log: seq<seq<PollFd>>)
    requires s.Valid() && Inv(s.net.world)
    requires forall k :: 0 <= k < |rounds| ==> HonestAccept(rounds[k])
    modifies s`fd, s`fds, s`net, s`channels, s`clients, s.clients, s.channels
    ensures LogOf(old(s.net), rounds, log)
    ensures s.fds == [] && s.clients == [] && s.channels == [] && s.fd == -1
  {
    hide Inv, LogOf, LogEvents;
    log := ServeRounds(s, rounds);
    Shutdown(s);
  }
}
