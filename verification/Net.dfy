// The abstract server with its byte streams: one receive buffer and one send buffer per connection,
// and the events that the operating system produces.
module Net {
  import opened Text
  import opened Framing
  import opened Wire
  import opened World
  import opened Invariant

  datatype Net = Net(world: World, inbox: map<int, string>, outbox: map<int, string>)

  // What recv reports: bytes (none means end of stream), EAGAIN, or any other error.
  datatype RecvResult = Data(bytes: string) | RecvLater | RecvError

  // What send reports: how many bytes it took, EAGAIN, or any other error.
  datatype SendResult = Wrote(n: nat) | SendLater | SendError

  datatype Event =
    | Accept(f: int)
    | Receive(f: int, recv: RecvResult)
    | Transmit(f: int, send: SendResult)
    | Hangup(f: int)

  // ---------- Queueing ----------

  function Queue(outbox: map<int, string>, f: int, text: string): map<int, string> {
    if f in outbox then outbox[f := outbox[f] + text] else outbox
  }

  function Deliver(outbox: map<int, string>, mail: seq<Mail>): map<int, string> {
    if mail == [] then outbox
    else Deliver(Queue(outbox, mail[0].to, Render(mail[0].wire)), mail[1..])
  }

  // The bytes that mail puts in one send buffer, in order.
  function TextsTo(mail: seq<Mail>, f: int): string {
    if mail == [] then ""
    else (if mail[0].to == f then Render(mail[0].wire) else "") + TextsTo(mail[1..], f)
  }

  // ---------- Commands and chunks ----------

  function Commit(net: Net, f: int, o: Outcome): Net
    requires f in net.world.people
  {
    net.(world := Apply(net.world, f, o.edit), outbox := Deliver(net.outbox, o.mail))
  }

  ghost function Dispatch(net: Net, f: int, line: string): Net
    requires f in net.world.people
  {
    Commit(net, f, React(net.world, f, line))
  }

  // Take complete lines off the front of a receive buffer and dispatch them, one at a time.
  ghost function Drain(net: Net, f: int): Net
    requires f in net.world.people && f in net.inbox
    decreases |net.inbox[f]|
  {
    hide React, Apply, Deliver;
    var buffer := net.inbox[f];
    var p := FindLf(buffer);
    if p == |buffer| then net
    else Drain(Dispatch(net.(inbox := net.inbox[f := buffer[p + 1..]]), f, Chomp(buffer[..p])), f)
  }

  ghost function TakeIn(net: Net, f: int, data: string): Net
    requires f in net.world.people && f in net.inbox
  {
    Drain(net.(inbox := net.inbox[f := net.inbox[f] + data]), f)
  }

  function Close(net: Net, f: int): Net {
    Net(Depart(net.world, f), net.inbox - {f}, net.outbox - {f})
  }

  function Shorter(n: nat, s: string): nat { if n < |s| then n else |s| }

  ghost predicate Connected(net: Net, f: int) { f in net.world.people && f in net.inbox && f in net.outbox }

  ghost function Step(net: Net, e: Event): Net {
    match e
    case Accept(f) =>
      if !CanConnect(net.world, f) then net
      else Net(WithPerson(net.world, f, NEWCOMER), net.inbox[f := ""], net.outbox[f := ""])
    case Receive(f, recv) =>
      if !Connected(net, f) || recv.RecvLater? then net
      else if recv.Data? && recv.bytes != "" then TakeIn(net, f, recv.bytes)
      else Close(net, f)
    case Transmit(f, send) =>
      if !Connected(net, f) || net.outbox[f] == "" || send.SendLater? then net
      else if send.Wrote? && send.n > 0 then
        net.(outbox := net.outbox[f := net.outbox[f][Shorter(send.n, net.outbox[f])..]])
      else Close(net, f)
    case Hangup(f) => if Connected(net, f) then Close(net, f) else net
  }

  ghost function Run(net: Net, es: seq<Event>): Net
    decreases |es|
  {
    if es == [] then net else Run(Step(net, es[0]), es[1..])
  }

  lemma {:induction false} RunAppend(net: Net, a: seq<Event>, b: seq<Event>)
    ensures Run(net, a + b) == Run(Run(net, a), b)
    decreases |a|
  {
    if a == [] {
      assert a + b == b;
    } else {
      assert (a + b)[1..] == a[1..] + b;
      RunAppend(Step(net, a[0]), a[1..], b);
    }
  }

  function Boot(listener: int, passwd: string): Net { Net(Start(listener, passwd), map[], map[]) }

  // ---------- Mail, pointwise ----------

  lemma {:induction false} DeliverAppend(outbox: map<int, string>, a: seq<Mail>, b: seq<Mail>)
    ensures Deliver(outbox, a + b) == Deliver(Deliver(outbox, a), b)
    decreases |a|
  {
    hide Render;
    if a == [] {
      assert a + b == b;
    } else {
      assert (a + b)[1..] == a[1..] + b;
      DeliverAppend(Queue(outbox, a[0].to, Render(a[0].wire)), a[1..], b);
    }
  }

  lemma {:induction false} TextsToAppend(a: seq<Mail>, b: seq<Mail>, f: int)
    ensures TextsTo(a + b, f) == TextsTo(a, f) + TextsTo(b, f)
    decreases |a|
  {
    hide Render;
    if a == [] {
      assert a + b == b;
    } else {
      assert (a + b)[1..] == a[1..] + b;
      TextsToAppend(a[1..], b, f);
      var x, y, z := if a[0].to == f then Render(a[0].wire) else "", TextsTo(a[1..], f), TextsTo(b, f);
      assert x + (y + z) == x + y + z;
    }
  }

  // Delivering appends to each send buffer exactly the texts addressed to it, and opens none.
  lemma {:induction false} DeliverPointwise(outbox: map<int, string>, mail: seq<Mail>)
    ensures Deliver(outbox, mail).Keys == outbox.Keys
    ensures forall f :: f in outbox ==> Deliver(outbox, mail)[f] == outbox[f] + TextsTo(mail, f)
    decreases |mail|
  {
    hide Render;
    if mail != [] {
      var next := Queue(outbox, mail[0].to, Render(mail[0].wire));
      DeliverPointwise(next, mail[1..]);
      forall f | f in outbox ensures Deliver(outbox, mail)[f] == outbox[f] + TextsTo(mail, f) {
        var x := if mail[0].to == f then Render(mail[0].wire) else "";
        assert next[f] == outbox[f] + x;
        assert outbox[f] + x + TextsTo(mail[1..], f) == outbox[f] + (x + TextsTo(mail[1..], f));
      }
    }
  }

  // A broadcast reaches each of its (distinct) addressees exactly once and nobody else.
  lemma {:induction false} BroadcastExact(members: seq<int>, wire: Wire, f: int)
    requires NoDup(members)
    ensures TextsTo(ToAll(members, wire), f) == if f in members then Render(wire) else ""
    decreases |members|
  {
    hide Render;
    if members != [] {
      assert ToAll(members, wire)[1..] == ToAll(members[1..], wire);
      BroadcastExact(members[1..], wire, f);
      if members[0] == f {
        assert f !in members[1..];
      }
    }
  }

  // ---------- Draining is a fold over the lines ----------

  // The commands that complete lines from one client stand for.
  function Commands(f: int, lines: seq<string>): seq<Act> {
    seq(|lines|, i requires 0 <= i < |lines| => Command(f, Chomp(lines[i])))
  }

  // The world, the residual and the mail depend on the receive buffer only through its lines.
  lemma {:induction false} DrainIsFold(net: Net, f: int)
    requires f in net.world.people && f in net.inbox
    ensures var acts := Commands(f, RawLines(net.inbox[f]));
            Drain(net, f) == Net(PerformAll(net.world, acts),
                                 net.inbox[f := Residual(net.inbox[f])],
                                 Deliver(net.outbox, EmitAll(net.world, acts)))
    decreases |net.inbox[f]|
  {
    hide React, Apply, FindLf, Chomp, Deliver;
    var buffer := net.inbox[f];
    var p := FindLf(buffer);
    if p == |buffer| {
      DeliverNothing(net.outbox);
    } else {
      var line, rest := Chomp(buffer[..p]), buffer[p + 1..];
      var next := Dispatch(net.(inbox := net.inbox[f := rest]), f, line);
      var later := Commands(f, RawLines(rest));
      assert Commands(f, RawLines(buffer)) == [Command(f, line)] + later;
      DrainIsFold(next, f);
      PerformFirst(net.world, Command(f, line), later);
      DeliverAppend(net.outbox, Emit(net.world, Command(f, line)), EmitAll(next.world, later));
    }
  }

  lemma DeliverNothing(outbox: map<int, string>)
    ensures Deliver(outbox, []) == outbox
  {
  }

  lemma PerformFirst(w: World, a: Act, later: seq<Act>)
    ensures PerformAll(w, [a] + later) == PerformAll(Perform(w, a), later)
    ensures EmitAll(w, [a] + later) == Emit(w, a) + EmitAll(Perform(w, a), later)
  {
    hide Perform, Emit;
    assert ([a] + later)[1..] == later;
  }

  lemma CommandsAppend(f: int, a: seq<string>, b: seq<string>)
    ensures Commands(f, a + b) == Commands(f, a) + Commands(f, b)
  {
  }

  // One client's bytes may arrive in any two pieces.
  lemma ChunkSplit(net: Net, f: int, a: string, b: string)
    requires f in net.world.people && f in net.inbox
    ensures f in TakeIn(net, f, a).world.people && f in TakeIn(net, f, a).inbox
    ensures TakeIn(TakeIn(net, f, a), f, b) == TakeIn(net, f, a + b)
  {
    hide React, Apply, Drain, RawLines, Residual, PerformAll, EmitAll, Deliver;
    var start := net.inbox[f];
    var whole, first := net.(inbox := net.inbox[f := start + (a + b)]), net.(inbox := net.inbox[f := start + a]);
    DrainIsFold(first, f);
    var mid := TakeIn(net, f, a);
    PerformKeepsConnected(net.world, Commands(f, RawLines(start + a)), f);
    var second := mid.(inbox := mid.inbox[f := mid.inbox[f] + b]);
    DrainIsFold(second, f);
    DrainIsFold(whole, f);
    assert start + (a + b) == start + a + b;
    FramingAppend(start + a, b);
    var x, y := RawLines(start + a), RawLines(Residual(start + a) + b);
    CommandsAppend(f, x, y);
    PerformAppend(net.world, Commands(f, x), Commands(f, y));
    DeliverAppend(net.outbox, EmitAll(net.world, Commands(f, x)), EmitAll(mid.world, Commands(f, y)));
  }

  lemma {:induction false} PerformKeepsConnected(w: World, acts: seq<Act>, f: int)
    requires f in w.people && forall k :: 0 <= k < |acts| ==> acts[k].Command?
    ensures f in PerformAll(w, acts).people
    ensures PerformAll(w, acts).people.Keys == w.people.Keys
    decreases |acts|
  {
    hide React, Apply;
    if acts != [] {
      assert Perform(w, acts[0]).people.Keys == w.people.Keys;
      PerformKeepsConnected(Perform(w, acts[0]), acts[1..], f);
    }
  }

  // ---------- The invariant, with buffers ----------

  // Buffers exist for exactly the open connections, and no receive buffer holds a complete line.
  ghost predicate NetInv(net: Net) {
    && Inv(net.world)
    && net.inbox.Keys == net.world.people.Keys
    && net.outbox.Keys == net.world.people.Keys
    && forall f :: f in net.inbox ==> LfFree(net.inbox[f])
  }

  lemma TakeInKeepsInv(net: Net, f: int, data: string)
    requires NetInv(net) && f in net.world.people
    ensures NetInv(TakeIn(net, f, data))
  {
    hide Inv, Drain, RawLines, Residual, PerformAll, EmitAll, Deliver, Unframe;
    var given := net.(inbox := net.inbox[f := net.inbox[f] + data]);
    var acts := Commands(f, RawLines(given.inbox[f]));
    DrainIsFold(given, f);
    FramingConserves(given.inbox[f]);
    PerformAllKeepsInv(net.world, acts);
    PerformKeepsConnected(net.world, acts, f);
    DeliverPointwise(net.outbox, EmitAll(net.world, acts));
  }

  lemma CloseKeepsInv(net: Net, f: int)
    requires NetInv(net) && f in net.world.people
    ensures NetInv(Close(net, f))
  {
    hide Inv, Depart, LfFree;
    DepartKeepsInv(net.world, f);
    DepartPeople(net.world, f);
  }

  lemma StepKeepsInv(net: Net, e: Event)
    requires NetInv(net)
    ensures NetInv(Step(net, e))
  {
    hide Inv, TakeIn, Close;
    match e
    case Accept(f) => PerformKeepsInv(net.world, Connect(f));
    case Receive(f, recv) =>
      if f in net.world.people {
        CloseKeepsInv(net, f);
        TakeInKeepsInv(net, f, if recv.Data? then recv.bytes else "");
      }
    case Transmit(f, _) =>
      if f in net.world.people {
        CloseKeepsInv(net, f);
      }
    case Hangup(f) =>
      if f in net.world.people {
        CloseKeepsInv(net, f);
      }
  }

  lemma {:induction false} RunKeepsInv(net: Net, es: seq<Event>)
    requires NetInv(net)
    ensures NetInv(Run(net, es))
    decreases |es|
  {
    hide NetInv, Step;
    if es != [] {
      StepKeepsInv(net, es[0]);
      RunKeepsInv(Step(net, es[0]), es[1..]);
    }
  }
}
