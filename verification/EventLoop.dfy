// What one pass of Server::launch over the poll results amounts to: the events of each ready
// descriptor, in the order of the vector at the moment poll returned.
module EventLoop {
  import opened Text
  import opened Net

  // What poll reported: POLLIN, any of POLLERR, POLLHUP and POLLNVAL, and POLLOUT.
  datatype Revents = Revents(input: bool, failed: bool, output: bool)

  const QUIET := Revents(false, false, false)

  // POLLIN is always requested; pollOut says whether POLLOUT is.
  datatype PollFd = PollFd(fd: int, pollOut: bool, revents: Revents)

  // What the operating system answers while one ready descriptor is served.
  datatype Results = Results(accept: Option<int>, recv: RecvResult, send: SendResult)

  predicate Closes(recv: RecvResult) { recv.RecvError? || recv == Data("") }

  // A client is read first; if that did not close it, a reported failure closes it, and otherwise
  // it is written to.
  function Serve(f: int, revents: Revents, a: Results): seq<Event> {
    var first := if revents.input then [Receive(f, a.recv)] else [];
    if revents.input && Closes(a.recv) then first
    else if revents.failed then first + [Hangup(f)]
    else if revents.output then first + [Transmit(f, a.send)]
    else first
  }

  function ServeSocket(listener: int, s: PollFd, a: Results): seq<Event> {
    if s.revents == QUIET then []
    else if s.fd == listener then
      if s.revents.input && a.accept.Some? then [Accept(a.accept.value)] else []
    else Serve(s.fd, s.revents, a)
  }

  function ReadyCount(sockets: seq<PollFd>): nat {
    if sockets == [] then 0
    else ReadyCount(sockets[..|sockets| - 1]) + if sockets[|sockets| - 1].revents == QUIET then 0 else 1
  }

  // The k-th ready descriptor gets the k-th answer.
  function ScanEvents(listener: int, sockets: seq<PollFd>, os: nat -> Results): seq<Event> {
    if sockets == [] then []
    else
      var front, last := sockets[..|sockets| - 1], sockets[|sockets| - 1];
      ScanEvents(listener, front, os) + ServeSocket(listener, last, os(ReadyCount(front)))
  }

  lemma ScanOneMore(listener: int, sockets: seq<PollFd>, j: nat, os: nat -> Results)
    requires j < |sockets|
    ensures ScanEvents(listener, sockets[..j + 1], os)
         == ScanEvents(listener, sockets[..j], os) + ServeSocket(listener, sockets[j], os(ReadyCount(sockets[..j])))
    ensures ReadyCount(sockets[..j + 1]) == ReadyCount(sockets[..j]) + if sockets[j].revents == QUIET then 0 else 1
  {
    assert sockets[..j + 1][..j] == sockets[..j];
  }

  // What is still to be visited: the rest of the vector as poll left it, then newcomers, which
  // poll has not reported on.
  ghost predicate StillToVisit(rest: seq<PollFd>, polled: seq<PollFd>) {
    && |rest| >= |polled|
    && (forall t :: 0 <= t < |polled| ==> rest[t].fd == polled[t].fd && rest[t].revents == polled[t].revents)
    && (forall t :: |polled| <= t < |rest| ==> rest[t].revents == QUIET)
  }

  // The same descriptors with the same poll results; only POLLOUT requests may differ.
  ghost predicate SameSockets(a: seq<PollFd>, b: seq<PollFd>) {
    |a| == |b| && forall i :: 0 <= i < |a| ==> a[i].fd == b[i].fd && a[i].revents == b[i].revents
  }

  ghost function Rest(polled: seq<PollFd>): seq<PollFd> { if polled == [] then [] else polled[1..] }

  // The index moves past a descriptor that stays.
  lemma VisitStays(sockets: seq<PollFd>, after: seq<PollFd>, i: nat, polled: seq<PollFd>)
    requires i < |sockets| && SameSockets(sockets, after) && StillToVisit(sockets[i..], polled)
    ensures StillToVisit(after[i + 1..], Rest(polled))
  {
    assert sockets[i + 1..] == sockets[i..][1..];
  }

  // The index stays, and a descriptor is erased at it: nobody is skipped.
  lemma VisitLeaves(sockets: seq<PollFd>, after: seq<PollFd>, i: nat, polled: seq<PollFd>)
    requires i < |sockets| && SameSockets(sockets[..i] + sockets[i + 1..], after)
    requires StillToVisit(sockets[i..], polled)
    ensures StillToVisit(after[i..], Rest(polled))
  {
    assert (sockets[..i] + sockets[i + 1..])[i..] == sockets[i + 1..];
    assert sockets[i + 1..] == sockets[i..][1..];
  }

  // The listener's visit may append a newcomer.
  lemma VisitAppends(sockets: seq<PollFd>, s: PollFd, i: nat, polled: seq<PollFd>)
    requires i < |sockets| && s.revents == QUIET && StillToVisit(sockets[i..], polled)
    ensures StillToVisit((sockets + [s])[i + 1..], Rest(polled))
  {
    assert (sockets + [s])[i + 1..] == sockets[i..][1..] + [s];
  }

  // One round of launch: poll is interrupted, or reports on every descriptor and the pass follows,
  // with answers that may depend on which descriptors are open.
  datatype Round = Interrupted | Polled(report: nat -> Revents, os: seq<int> -> nat -> Results)

  // accept returns a non-negative descriptor that is not open.
  ghost predicate HonestAccept(r: Round) {
    r.Polled? ==> forall open: seq<int> ::
      var accepted := r.os(open)(0).accept;
      accepted.Some? ==> 0 <= accepted.value <= INT_MAX && accepted.value !in open
  }

  function Report(sockets: seq<PollFd>, report: nat -> Revents): seq<PollFd> {
    seq(|sockets|, i requires 0 <= i < |sockets| => sockets[i].(revents := report(i)))
  }

  // ---------- Exactly once ----------

  function EventsOf(es: seq<Event>, f: int): seq<Event> {
    if es == [] then []
    else (if es[0].f == f then [es[0]] else []) + EventsOf(es[1..], f)
  }

  lemma {:induction false} EventsOfAppend(a: seq<Event>, b: seq<Event>, f: int)
    ensures EventsOf(a + b, f) == EventsOf(a, f) + EventsOf(b, f)
  {
    if a == [] {
      assert a + b == b;
    } else {
      assert (a + b)[1..] == a[1..] + b;
      EventsOfAppend(a[1..], b, f);
      var x, y, z := if a[0].f == f then [a[0]] else [], EventsOf(a[1..], f), EventsOf(b, f);
      assert x + (y + z) == x + y + z;
    }
  }

  lemma ServeIsAbout(listener: int, s: PollFd, a: Results, f: int)
    ensures s.fd != listener ==>
      EventsOf(ServeSocket(listener, s, a), f) == if s.fd == f then ServeSocket(listener, s, a) else []
    ensures s.fd == listener && (a.accept.Some? ==> a.accept.value != f) ==>
      EventsOf(ServeSocket(listener, s, a), f) == []
  {
    var es := ServeSocket(listener, s, a);
    if |es| == 1 {
      assert es[1..] == [];
    } else if |es| == 2 {
      assert es[1..] == [es[1]] && es[1..][1..] == [] && es == [es[0]] + [es[1]];
      assert EventsOf(es[1..], f) == if es[1].f == f then [es[1]] else [];
    }
  }

  ghost predicate DistinctSockets(sockets: seq<PollFd>) {
    forall i, j :: 0 <= i < j < |sockets| ==> sockets[i].fd != sockets[j].fd
  }

  lemma LastServed(listener: int, sockets: seq<PollFd>, os: nat -> Results, f: int)
    requires sockets != [] && sockets[0].fd == listener && DistinctSockets(sockets)
    requires f != listener && os(0).accept != Some(f)
    ensures var n := |sockets| - 1;
            EventsOf(ScanEvents(listener, sockets, os), f) == EventsOf(ScanEvents(listener, sockets[..n], os), f) +
              (if sockets[n].fd == f then ServeSocket(listener, sockets[n], os(ReadyCount(sockets[..n]))) else [])
  {
    hide ServeSocket, EventsOf;
    var n := |sockets| - 1;
    var r := os(ReadyCount(sockets[..n]));
    ServeIsAbout(listener, sockets[n], r, f);
    EventsOfAppend(ScanEvents(listener, sockets[..n], os), ServeSocket(listener, sockets[n], r), f);
  }

  // In one pass each client polled is served exactly once if it was ready and not at all if it was
  // not, whatever the pass does to the others; and no descriptor is served but those polled and the
  // newcomer.
  lemma {:induction false} ServedExactlyOnce(listener: int, sockets: seq<PollFd>, os: nat -> Results, f: int)
    requires sockets != [] && sockets[0].fd == listener && DistinctSockets(sockets)
    requires f != listener && os(0).accept != Some(f)
    ensures forall p :: 0 <= p < |sockets| && sockets[p].fd == f ==>
      EventsOf(ScanEvents(listener, sockets, os), f) == ServeSocket(listener, sockets[p], os(ReadyCount(sockets[..p])))
    ensures (forall p :: 0 <= p < |sockets| ==> sockets[p].fd != f) ==>
      EventsOf(ScanEvents(listener, sockets, os), f) == []
    decreases |sockets|
  {
    hide ServeSocket, ReadyCount, ScanEvents, EventsOf;
    var n := |sockets| - 1;
    LastServed(listener, sockets, os, f);
    if n == 0 {
      assert sockets[..n] == [];
      NoEvents(listener, os, f);
    } else {
      ServedExactlyOnce(listener, sockets[..n], os, f);
    }
    assert forall p :: 0 <= p < n ==> sockets[..n][p] == sockets[p] && sockets[..n][..p] == sockets[..p];
  }

  lemma NoEvents(listener: int, os: nat -> Results, f: int)
    ensures EventsOf(ScanEvents(listener, [], os), f) == []
  {
  }

  // Somebody who was not polled is accepted by the pass, if the listener was reported to have a
  // connection and accept gave it this descriptor, and is otherwise passed over.
  lemma {:induction false} NewcomerIsPassedOver(listener: int, sockets: seq<PollFd>, os: nat -> Results, f: int)
    requires sockets != [] && sockets[0].fd == listener && DistinctSockets(sockets)
    requires forall p :: 0 <= p < |sockets| ==> sockets[p].fd != f
    ensures EventsOf(ScanEvents(listener, sockets, os), f)
         == if sockets[0].revents.input && os(0).accept == Some(f) then [Accept(f)] else []
    decreases |sockets|
  {
    hide ReadyCount;
    var n := |sockets| - 1;
    var front, last := sockets[..n], sockets[n];
    if n == 0 {
      assert ReadyCount(front) == 0 by { NoneReady(); }
      assert front == [] && ScanEvents(listener, front, os) == [];
      assert forall g :: [Accept(g)][1..] == [];
    } else {
      NewcomerIsPassedOver(listener, front, os, f);
      ServeIsAbout(listener, last, os(ReadyCount(front)), f);
      EventsOfAppend(ScanEvents(listener, front, os), ServeSocket(listener, last, os(ReadyCount(front))), f);
    }
  }

  lemma NoneReady()
    ensures ReadyCount([]) == 0
  {
  }

  // ---------- Many rounds ----------

  function Fds(sockets: seq<PollFd>): seq<int> {
    seq(|sockets|, i requires 0 <= i < |sockets| => sockets[i].fd)
  }

  function RoundEvents(listener: int, r: Round, sockets: seq<PollFd>): seq<Event> {
    if r.Interrupted? then [] else ScanEvents(listener, sockets, r.os(Fds(sockets)))
  }

  // The events of rounds, given the vector polled in each.
  function LogEvents(listener: int, rounds: seq<Round>, log: seq<seq<PollFd>>): seq<Event>
    requires |rounds| == |log|
  {
    if rounds == [] then []
    else
      var n := |rounds| - 1;
      LogEvents(listener, rounds[..n], log[..n]) + RoundEvents(listener, rounds[n], log[n])
  }

  // A polled vector: the listener, then every open connection once, with POLLOUT requested just for
  // those that have bytes waiting, and with what poll reported.
  ghost predicate Polls(net: Net, r: Round, sockets: seq<PollFd>) {
    && sockets != [] && sockets[0].fd == net.world.listener && DistinctSockets(sockets)
    && (forall i :: 1 <= i < |sockets| ==> sockets[i].fd in net.world.people)
    && (forall f :: f in net.world.people ==> exists i :: 1 <= i < |sockets| && sockets[i].fd == f)
    && (forall i :: 1 <= i < |sockets| ==>
          sockets[i].fd in net.outbox && (sockets[i].pollOut <==> net.outbox[sockets[i].fd] != ""))
    && (r.Polled? ==> forall i :: 0 <= i < |sockets| ==> sockets[i].revents == r.report(i))
  }

  lemma ReportPolls(net: Net, r: Round, sockets: seq<PollFd>)
    requires r.Polled? && Polls(net, Interrupted, sockets)
    ensures Polls(net, r, Report(sockets, r.report))
  {
    var polled := Report(sockets, r.report);
    forall f | f in net.world.people ensures exists i :: 1 <= i < |polled| && polled[i].fd == f {
      var i :| 1 <= i < |sockets| && sockets[i].fd == f;
      assert polled[i].fd == f;
    }
  }

  // Each round polls exactly the connections that the events before it have left open.
  ghost predicate LogOf(net: Net, rounds: seq<Round>, log: seq<seq<PollFd>>) {
    && |log| == |rounds|
    && forall k :: 0 <= k < |log| ==>
         Polls(Run(net, LogEvents(net.world.listener, rounds[..k], log[..k])), rounds[k], log[k])
  }

  lemma LogGrows(net: Net, rounds: seq<Round>, log: seq<seq<PollFd>>, r: Round, sockets: seq<PollFd>)
    requires LogOf(net, rounds, log)
    requires Polls(Run(net, LogEvents(net.world.listener, rounds, log)), r, sockets)
    ensures LogOf(net, rounds + [r], log + [sockets])
    ensures LogEvents(net.world.listener, rounds + [r], log + [sockets])
         == LogEvents(net.world.listener, rounds, log) + RoundEvents(net.world.listener, r, sockets)
  {
    hide Polls, Run, RoundEvents, LogEvents;
    var more, longer := rounds + [r], log + [sockets];
    assert forall k :: 0 <= k <= |rounds| ==> more[..k] == rounds[..k] && longer[..k] == log[..k];
    assert rounds[..|rounds|] == rounds && log[..|log|] == log;
    LastRound(net.world.listener, rounds, log, r, sockets);
  }

  lemma LastRound(listener: int, rounds: seq<Round>, log: seq<seq<PollFd>>, r: Round, sockets: seq<PollFd>)
    requires |rounds| == |log|
    ensures LogEvents(listener, rounds + [r], log + [sockets])
         == LogEvents(listener, rounds, log) + RoundEvents(listener, r, sockets)
  {
    hide RoundEvents;
    assert (rounds + [r])[..|rounds|] == rounds && (log + [sockets])[..|log|] == log;
  }
}
