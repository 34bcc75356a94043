// One pass of the event loop: what it does to each client, and in which order.
module PassLaws {
  import opened Text
  import opened Net
  import opened Streams
  import opened EventLoop
  import opened SendingLaws

  // The read ended the connection.
  predicate ReadCloses(r: Revents, recv: RecvResult) { r.input && (recv == Data("") || recv == RecvError) }

  // A polled client is read if poll reported input; unless that ended it, it is closed if poll
  // reported a failure, and else written to if poll reported that it can be. Each happens once, in
  // this order, and nothing else happens to it.
  lemma ServedAsReported(listener: int, sockets: seq<PollFd>, os: nat -> Results, p: nat)
    requires 1 <= p < |sockets| && sockets[0].fd == listener && DistinctSockets(sockets)
    requires os(0).accept != Some(sockets[p].fd)
    ensures var f, r, a := sockets[p].fd, sockets[p].revents, os(ReadyCount(sockets[..p]));
            EventsOf(ScanEvents(listener, sockets, os), f)
              == (if r.input then [Receive(f, a.recv)] else [])
               + (if r.failed && !ReadCloses(r, a.recv) then [Hangup(f)] else [])
               + (if r.output && !r.failed && !ReadCloses(r, a.recv) then [Transmit(f, a.send)] else [])
  {
    hide ScanEvents, EventsOf, ReadyCount;
    assert sockets[0].fd != sockets[p].fd;
    ServedExactlyOnce(listener, sockets, os, sockets[p].fd);
  }

  // ---------- Order ----------

  lemma {:induction false} ScanPrefix(listener: int, sockets: seq<PollFd>, os: nat -> Results, q: nat, f: int)
    returns (b: seq<Event>)
    requires 1 <= q <= |sockets| && sockets[0].fd == listener && DistinctSockets(sockets)
    requires forall k :: q <= k < |sockets| ==> sockets[k].fd != f
    ensures ScanEvents(listener, sockets, os) == ScanEvents(listener, sockets[..q], os) + b && EventsOf(b, f) == []
    decreases |sockets|
  {
    hide ReadyCount, ServeSocket;
    if q == |sockets| {
      assert sockets[..q] == sockets;
      b := [];
    } else {
      var n := |sockets| - 1;
      var before := ScanPrefix(listener, sockets[..n], os, q, f);
      var last := ServeSocket(listener, sockets[n], os(ReadyCount(sockets[..n])));
      assert sockets[..n][..q] == sockets[..q];
      ServeIsAbout(listener, sockets[n], os(ReadyCount(sockets[..n])), f);
      EventsOfAppend(before, last, f);
      b := before + last;
    }
  }

  // Whatever happens to a client happens before anything happens to one that comes later in the
  // vector.
  lemma ServedInOrder(listener: int, sockets: seq<PollFd>, os: nat -> Results, p: nat, q: nat)
    returns (a: seq<Event>, b: seq<Event>)
    requires 1 <= p < q < |sockets| && sockets[0].fd == listener && DistinctSockets(sockets)
    requires os(0).accept != Some(sockets[q].fd)
    ensures ScanEvents(listener, sockets, os) == a + b
    ensures EventsOf(a, sockets[q].fd) == [] && EventsOf(b, sockets[p].fd) == []
  {
    hide ScanEvents, EventsOf;
    a := ScanEvents(listener, sockets[..q], os);
    b := ScanPrefix(listener, sockets, os, q, sockets[p].fd);
    assert sockets[0].fd != sockets[q].fd;
    assert forall k :: 0 <= k < q ==> sockets[..q][k].fd != sockets[q].fd;
    ServedExactlyOnce(listener, sockets[..q], os, sockets[q].fd);
  }

  // ---------- What a pass sends ----------

  lemma {:induction false} NotServed(net: Net, es: seq<Event>, f: int)
    requires NetInv(net) && Connected(net, f) && EventsOf(es, f) == []
    ensures StaysConnected(net, es, f) && TakenOver(net, es, f) == ""
    decreases |es|
  {
    hide NetInv, Step, Queued;
    if es != [] {
      assert es[0].f != f;
      EventIsLocal(net, es[0], f);
      StepKeepsInv(net, es[0]);
      NotServed(Step(net, es[0]), es[1..], f);
    }
  }

  // If the one thing that happens to a client is that send takes n of its waiting bytes, then the
  // first n bytes are what it is sent, whatever happens to others before and after; the rest goes
  // on waiting, with what is queued to it meanwhile behind.
  lemma {:induction false} SentInPass(net: Net, es: seq<Event>, f: int, n: nat)
    requires NetInv(net) && Connected(net, f) && EventsOf(es, f) == [Transmit(f, Wrote(n))]
    requires 0 < n <= |net.outbox[f]|
    ensures StaysConnected(net, es, f) && TakenOver(net, es, f) == net.outbox[f][..n]
    decreases |es|
  {
    hide NetInv, Step, Queued;
    var e, rest := es[0], es[1..];
    EventIsLocal(net, e, f);
    StepKeepsInv(net, e);
    if e.f != f {
      SentInPass(Step(net, e), rest, f, n);
      assert (net.outbox[f] + Queued(net, e, f))[..n] == net.outbox[f][..n];
    } else {
      assert EventsOf(es, f)[0] == e && EventsOf(es, f)[1..] == EventsOf(rest, f);
      NotServed(Step(net, e), rest, f);
      assert net.outbox[f][..n] + "" == net.outbox[f][..n];
    }
  }

  lemma Shifted(waiting: string, queued: string, n: nat, after: string)
    requires n <= |waiting| && waiting + queued == waiting[..n] + after
    ensures after == waiting[n..] + queued
  {
    assert after == (waiting + queued)[n..];
  }

  // A pass in which poll reports of a client only that it can be written to, and send takes n of
  // its waiting bytes, takes exactly the first n bytes off the front of its send buffer.
  lemma PassSends(net: Net, listener: int, sockets: seq<PollFd>, os: nat -> Results, p: nat)
    requires NetInv(net) && 1 <= p < |sockets| && sockets[0].fd == listener && DistinctSockets(sockets)
    requires Connected(net, sockets[p].fd) && os(0).accept != Some(sockets[p].fd)
    requires sockets[p].revents == Revents(false, false, true)
    ensures var f, send, es := sockets[p].fd, os(ReadyCount(sockets[..p])).send, ScanEvents(listener, sockets, os);
            send.Wrote? && 0 < send.n <= |net.outbox[f]| ==>
              && Connected(Run(net, es), f)
              && Run(net, es).outbox[f] == net.outbox[f][send.n..] + QueuedOver(net, es, f)
  {
    hide NetInv, ScanEvents, ReadyCount, QueuedOver, Run;
    var f, send, es := sockets[p].fd, os(ReadyCount(sockets[..p])).send, ScanEvents(listener, sockets, os);
    if send.Wrote? && 0 < send.n <= |net.outbox[f]| {
      ServedAsReported(listener, sockets, os, p);
      SentInPass(net, es, f, send.n);
      OutputConserved(net, es, f);
      Shifted(net.outbox[f], QueuedOver(net, es, f), send.n, Run(net, es).outbox[f]);
    }
  }
}
