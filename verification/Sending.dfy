// What send does to the send buffers, and when a connection ends.
module SendingLaws {
  import opened Text
  import opened Framing
  import opened World
  import opened Invariant
  import opened Net
  import opened Streams

  // ---------- One event ----------

  // A send that took n bytes takes the first n bytes off the buffer, all of them if there are no
  // more, and nothing else changes.
  lemma SendTakes(net: Net, f: int, n: nat)
    requires Connected(net, f) && net.outbox[f] != "" && n > 0
    ensures var after := Step(net, Transmit(f, Wrote(n)));
            if n <= |net.outbox[f]| then after == net.(outbox := net.outbox[f := net.outbox[f][n..]])
            else after == net.(outbox := net.outbox[f := ""])
  {
  }

  // The events that end a connection: the end of the stream or an error on receiving; an error, or
  // not a single byte taken, on sending when bytes wait; a failure that poll reports.
  predicate Ends(e: Event, waiting: bool) {
    match e
    case Accept(_) => false
    case Receive(_, recv) => recv == Data("") || recv == RecvError
    case Transmit(_, send) => waiting && (send == SendError || send == Wrote(0))
    case Hangup(_) => true
  }

  // A connection that is open stays so after any event but one of its own that ends it; and no
  // event touches the receive buffer of another connection, or takes from its send buffer.
  lemma EventIsLocal(net: Net, e: Event, g: int)
    requires NetInv(net) && Connected(net, g)
    ensures Connected(Step(net, e), g) <==> !(e.f == g && Ends(e, net.outbox[g] != ""))
    ensures e.f != g ==>
      && Step(net, e).inbox[g] == net.inbox[g]
      && Step(net, e).outbox[g] == net.outbox[g] + Queued(net, e, g)
  {
    hide Inv, React, Apply, Drain, RawLines, Residual, LfFree, Deliver;
    StepIsHistory(net, e);
    StepKeepsInv(net, e);
    if e.Receive? && Connected(net, e.f) && e.recv.Data? && e.recv.bytes != "" {
      var given := net.(inbox := net.inbox[e.f := net.inbox[e.f] + e.recv.bytes]);
      var acts := Commands(e.f, RawLines(given.inbox[e.f]));
      DrainIsFold(given, e.f);
      PerformKeepsConnected(net.world, acts, e.f);
      DeliverPointwise(net.outbox, EmitAll(net.world, acts));
    }
  }

  // An event that finds nobody, or no answer, or nothing to send, changes nothing.
  lemma NothingHappens(net: Net, e: Event)
    requires !e.Accept?
    requires
      || !Connected(net, e.f)
      || (e.Receive? && e.recv.RecvLater?)
      || (e.Transmit? && (e.send.SendLater? || net.outbox[e.f] == ""))
    ensures Step(net, e) == net
  {
  }

  // A new connection starts with both buffers empty.
  lemma AcceptConnects(net: Net, f: int)
    requires CanConnect(net.world, f)
    ensures var after := Step(net, Accept(f));
            && Connected(after, f) && after.inbox[f] == "" && after.outbox[f] == ""
            && after.world.people[f] == Person("", "", false, false, false, false)
  {
  }

  // ---------- Over runs ----------

  // What an event took for a connection, counted.
  ghost function Count(net: Net, e: Event, g: int): nat {
    match e
    case Transmit(f, Wrote(n)) =>
      if f != g || !Connected(net, g) then 0 else if n <= |net.outbox[g]| then n else |net.outbox[g]|
    case _ => 0
  }

  ghost function CountOver(net: Net, es: seq<Event>, g: int): nat
    decreases |es|
  {
    if es == [] then 0 else Count(net, es[0], g) + CountOver(Step(net, es[0]), es[1..], g)
  }

  // As many bytes count as sent as send said it took.
  lemma {:induction false} TakenAreCounted(net: Net, es: seq<Event>, g: int)
    ensures |TakenOver(net, es, g)| == CountOver(net, es, g)
    decreases |es|
  {
    hide Step;
    if es != [] {
      TakenAreCounted(Step(net, es[0]), es[1..], g);
    }
  }
}
