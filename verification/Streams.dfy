// The byte streams of whole runs: how TCP cuts the input does not matter, and no output byte is
// lost, repeated or reordered.
module Streams {
  import opened Text
  import opened Framing
  import opened Wire
  import opened World
  import opened Invariant
  import opened Net
  import opened Parser
  import opened CommandLaws

  // ---------- Output: what is queued is what is sent, then what is waiting ----------

  // The history that an event stands for.
  ghost function Acts(net: Net, e: Event): seq<Act> {
    match e
    case Accept(f) => [Connect(f)]
    case Receive(f, recv) =>
      if !Connected(net, f) || recv.RecvLater? then []
      else if recv.Data? && recv.bytes != "" then Commands(f, RawLines(net.inbox[f] + recv.bytes))
      else [Leave(f)]
    case Transmit(f, send) =>
      if !Connected(net, f) || net.outbox[f] == "" || send.SendLater? || (send.Wrote? && send.n > 0) then []
      else [Leave(f)]
    case Hangup(f) => if Connected(net, f) then [Leave(f)] else []
  }

  // The bytes that an event hands to the system for one connection.
  ghost function Taken(net: Net, e: Event, g: int): string {
    if e.Transmit? && e.f == g && Connected(net, g) && e.send.Wrote?
    then net.outbox[g][..Shorter(e.send.n, net.outbox[g])] else ""
  }

  // The bytes that an event queues for one connection.
  ghost function Queued(net: Net, e: Event, g: int): string { TextsTo(EmitAll(net.world, Acts(net, e)), g) }

  lemma OneAct(w: World, a: Act)
    ensures PerformAll(w, [a]) == Perform(w, a) && EmitAll(w, [a]) == Emit(w, a)
  {
    assert [a][1..] == [];
    assert Emit(w, a) + [] == Emit(w, a);
  }

  // An event moves the world through its history, and moves bytes at the ends of the buffers only.
  lemma StepIsHistory(net: Net, e: Event)
    requires NetInv(net)
    ensures Step(net, e).world == PerformAll(net.world, Acts(net, e))
    ensures forall g :: Connected(net, g) && Connected(Step(net, e), g) ==>
      net.outbox[g] + Queued(net, e, g) == Taken(net, e, g) + Step(net, e).outbox[g]
  {
    hide Inv, React, Apply, Depart, Drain, RawLines, LfFree, Deliver;
    if Acts(net, e) != [] && !(e.Receive? && Acts(net, e) != [Leave(e.f)]) {
      OneAct(net.world, Acts(net, e)[0]);
    }
    if e.Receive? && Connected(net, e.f) && e.recv.Data? && e.recv.bytes != "" {
      var given := net.(inbox := net.inbox[e.f := net.inbox[e.f] + e.recv.bytes]);
      DrainIsFold(given, e.f);
      DeliverPointwise(net.outbox, EmitAll(net.world, Acts(net, e)));
    }
  }

  // The connection is there before every event and after the last.
  ghost predicate StaysConnected(net: Net, es: seq<Event>, g: int)
    decreases |es|
  {
    Connected(net, g) && (es != [] ==> StaysConnected(Step(net, es[0]), es[1..], g))
  }

  ghost function QueuedOver(net: Net, es: seq<Event>, g: int): string
    decreases |es|
  {
    if es == [] then "" else Queued(net, es[0], g) + QueuedOver(Step(net, es[0]), es[1..], g)
  }

  ghost function TakenOver(net: Net, es: seq<Event>, g: int): string
    decreases |es|
  {
    if es == [] then "" else Taken(net, es[0], g) + TakenOver(Step(net, es[0]), es[1..], g)
  }

  // Over any run of events that keeps the connection: what was waiting, then everything queued, is
  // what was sent, then what is waiting. Nothing is lost, repeated or reordered.
  lemma {:induction false} OutputConserved(net: Net, es: seq<Event>, g: int)
    requires NetInv(net) && StaysConnected(net, es, g)
    ensures Connected(Run(net, es), g)
    ensures net.outbox[g] + QueuedOver(net, es, g) == TakenOver(net, es, g) + Run(net, es).outbox[g]
    decreases |es|
  {
    hide NetInv, Step, Taken, Queued;
    if es == [] {
      assert net.outbox[g] + "" == "" + net.outbox[g];
    } else {
      var e, rest := es[0], es[1..];
      var next := Step(net, e);
      StepIsHistory(net, e);
      StepKeepsInv(net, e);
      OutputConserved(next, rest, g);
      var q, t := QueuedOver(next, rest, g), TakenOver(next, rest, g);
      calc {
        net.outbox[g] + (Queued(net, e, g) + q);
        net.outbox[g] + Queued(net, e, g) + q;
        Taken(net, e, g) + next.outbox[g] + q;
        Taken(net, e, g) + (next.outbox[g] + q);
        Taken(net, e, g) + (t + Run(next, rest).outbox[g]);
        Taken(net, e, g) + t + Run(next, rest).outbox[g];
      }
    }
  }

  // ---------- Every run of events is a history ----------

  ghost function History(net: Net, es: seq<Event>): seq<Act>
    decreases |es|
  {
    if es == [] then [] else Acts(net, es[0]) + History(Step(net, es[0]), es[1..])
  }

  // What is proved of all histories holds of all runs of the server.
  lemma {:induction false} RunIsHistory(net: Net, es: seq<Event>)
    requires NetInv(net)
    ensures Run(net, es).world == PerformAll(net.world, History(net, es))
    decreases |es|
  {
    hide NetInv, Step, Acts;
    if es != [] {
      var next := Step(net, es[0]);
      StepIsHistory(net, es[0]);
      StepKeepsInv(net, es[0]);
      RunIsHistory(next, es[1..]);
      PerformAppend(net.world, Acts(net, es[0]), History(next, es[1..]));
    }
  }

  // ---------- Input: how the bytes are cut does not matter ----------

  lemma EmptyIsLfFree()
    ensures LfFree("")
  {
  }

  lemma NoLines(s: string)
    requires LfFree(s)
    ensures RawLines(s) == [] && Residual(s) == s
  {
    assert FindLf(s) == |s|;
  }

  // A chunk of data, received one byte at a time.
  function Bytes(f: int, data: string): seq<Event> {
    seq(|data|, i requires 0 <= i < |data| => Receive(f, Data([data[i]])))
  }

  // Every chunk of a run cut into single bytes, every other event kept in its place.
  function Explode(es: seq<Event>): seq<Event> {
    if es == [] then [] else Pieces(es[0]) + Explode(es[1..])
  }

  function Pieces(e: Event): seq<Event> {
    if e.Receive? && e.recv.Data? then (if e.recv.bytes == "" then [e] else Bytes(e.f, e.recv.bytes)) else [e]
  }

  lemma NothingToDrain(net: Net, f: int)
    requires f in net.world.people && f in net.inbox && LfFree(net.inbox[f])
    ensures Drain(net, f) == net
  {
  }

  lemma OneLineToDrain(net: Net, f: int, line: string)
    requires f in net.world.people && f in net.inbox && LfFree(line) && net.inbox[f] == line + "\n"
    ensures Drain(net, f) == Dispatch(net.(inbox := net.inbox[f := ""]), f, Chomp(line))
  {
    hide LfFree, FindLf, Chomp, React, Apply, Deliver;
    assert line + "\n" + "" == line + "\n";
    FindLfAfter(line, "");
    EmptyIsLfFree();
    NothingToDrain(Dispatch(net.(inbox := net.inbox[f := ""]), f, Chomp(line)), f);
  }

  // A single byte is kept, unless it is an LF: then the line before it is one command.
  lemma OneByte(net: Net, f: int, c: char)
    requires NetInv(net) && Connected(net, f)
    ensures var e, line := Receive(f, Data([c])), Chomp(net.inbox[f]);
            if c == '\n' then
              && Acts(net, e) == [Command(f, line)]
              && Step(net, e) == Dispatch(net.(inbox := net.inbox[f := ""]), f, line)
            else Acts(net, e) == [] && Step(net, e) == net.(inbox := net.inbox[f := net.inbox[f] + [c]])
  {
    hide Dispatch, Drain, LfFree, RawLines, Residual, Chomp, Inv;
    var pending := net.inbox[f];
    var given := net.(inbox := net.inbox[f := pending + [c]]);
    if c == '\n' {
      assert pending + [c] == pending + "\n" == pending + "\n" + "";
      RawLinesCons(pending, "");
      NoLines("") by { EmptyIsLfFree(); }
      assert Commands(f, [pending]) == [Command(f, Chomp(pending))];
      OneLineToDrain(given, f, pending);
      assert given.inbox[f := ""] == net.inbox[f := ""];
    } else {
      GrowsLfFree(pending, c);
      NoLines(pending + [c]);
      assert Commands(f, []) == [];
      NothingToDrain(given, f);
    }
  }

  lemma GrowsLfFree(s: string, c: char)
    requires LfFree(s) && c != '\n'
    ensures LfFree(s + [c])
  {
  }

  // What is received up to an LF is one command, without the CR before the LF if there is one.
  lemma LineEndings(net: Net, f: int, data: string, line: string)
    requires NetInv(net) && Connected(net, f) && LfFree(line)
    requires
      || net.inbox[f] + data == line + "\r\n"
      || (net.inbox[f] + data == line + "\n" && (line != "" ==> line[|line| - 1] != '\r'))
    ensures Acts(net, Receive(f, Data(data))) == [Command(f, line)]
    ensures Step(net, Receive(f, Data(data))).inbox == net.inbox[f := ""]
  {
    hide LfFree, RawLines, Residual, Inv, React, Apply, Deliver, Drain;
    var stream := net.inbox[f] + data;
    var raw := if stream == line + "\r\n" then line + "\r" else line;
    assert stream == raw + "\n" + "";
    assert data != "" by { LfOnlyInData(net.inbox[f], data, raw); }
    WithCr(line);
    RawLinesCons(raw, "");
    NoLines("") by { EmptyIsLfFree(); }
    assert Commands(f, [raw]) == [Command(f, line)];
    DrainIsFold(net.(inbox := net.inbox[f := stream]), f);
    assert net.inbox[f := stream][f := ""] == net.inbox[f := ""];
  }

  lemma WithCr(line: string)
    requires LfFree(line)
    ensures LfFree(line + "\r") && Chomp(line + "\r") == line
    ensures line != "" && line[|line| - 1] != '\r' ==> Chomp(line) == line
    ensures Chomp("") == ""
  {
  }

  lemma LfOnlyInData(pending: string, data: string, raw: string)
    requires LfFree(pending) && pending + data == raw + "\n"
    ensures data != ""
  {
    assert (pending + data)[|raw|] == '\n';
  }

  lemma NotConnected(net: Net, f: int, data: string)
    requires !Connected(net, f) && data != ""
    ensures Step(net, Receive(f, Data(data))) == net && Acts(net, Receive(f, Data(data))) == []
  {
  }

  // What one client sends may be cut in two anywhere, for the server and for its history.
  lemma TwoChunks(net: Net, f: int, a: string, b: string)
    requires NetInv(net) && a != "" && b != ""
    ensures var mid := Step(net, Receive(f, Data(a)));
            && Step(mid, Receive(f, Data(b))) == Step(net, Receive(f, Data(a + b)))
            && Acts(net, Receive(f, Data(a))) + Acts(mid, Receive(f, Data(b))) == Acts(net, Receive(f, Data(a + b)))
  {
    hide Inv, Drain, RawLines, Residual, PerformAll, EmitAll, Deliver, LfFree;
    if Connected(net, f) {
      var start := net.inbox[f];
      StepKeepsInv(net, Receive(f, Data(a)));
      ChunkSplit(net, f, a, b);
      DrainIsFold(net.(inbox := net.inbox[f := start + a]), f);
      FramingAppend(start + a, b);
      assert start + (a + b) == start + a + b;
      CommandsAppend(f, RawLines(start + a), RawLines(Residual(start + a) + b));
    } else {
      NotConnected(net, f, a);
      NotConnected(net, f, b);
      NotConnected(net, f, a + b);
    }
  }

  lemma RunFirst(net: Net, e: Event, later: seq<Event>)
    ensures Run(net, [e] + later) == Run(Step(net, e), later)
    ensures History(net, [e] + later) == Acts(net, e) + History(Step(net, e), later)
  {
    hide Step, Acts;
    assert ([e] + later)[1..] == later;
  }

  lemma {:induction false} HistoryAppend(net: Net, a: seq<Event>, b: seq<Event>)
    ensures History(net, a + b) == History(net, a) + History(Run(net, a), b)
    decreases |a|
  {
    hide Step, Acts;
    if a == [] {
      assert a + b == b;
    } else {
      assert (a + b)[1..] == a[1..] + b;
      HistoryAppend(Step(net, a[0]), a[1..], b);
      var x, y, z := Acts(net, a[0]), History(Step(net, a[0]), a[1..]), History(Run(net, a), b);
      assert x + (y + z) == x + y + z;
    }
  }

  // A chunk is worth its bytes.
  lemma {:induction false} ChunkIsBytes(net: Net, f: int, data: string)
    requires NetInv(net) && data != ""
    ensures Run(net, Bytes(f, data)) == Step(net, Receive(f, Data(data)))
    ensures History(net, Bytes(f, data)) == Acts(net, Receive(f, Data(data)))
    decreases |data|
  {
    hide NetInv, Step, Acts, Run, History;
    var c, rest := data[..1], data[1..];
    assert data == c + rest && c == [data[0]];
    var e := Receive(f, Data(c));
    assert Bytes(f, data) == [e] + Bytes(f, rest);
    RunFirst(net, e, Bytes(f, rest));
    if rest == "" {
      assert Bytes(f, rest) == [];
      RunNothing(Step(net, e));
      assert c == data;
    } else {
      StepKeepsInv(net, e);
      ChunkIsBytes(Step(net, e), f, rest);
      TwoChunks(net, f, c, rest);
    }
  }

  lemma RunNothing(net: Net)
    ensures Run(net, []) == net && History(net, []) == []
  {
  }

  // Any run, whatever connects, is sent or goes away in between, is the run of its single bytes.
  lemma {:induction false} RunIsByteByByte(net: Net, es: seq<Event>)
    requires NetInv(net)
    ensures Run(net, Explode(es)) == Run(net, es) && History(net, Explode(es)) == History(net, es)
    decreases |es|
  {
    hide NetInv, Step, Acts, Pieces;
    if es != [] {
      var e, rest := es[0], es[1..];
      PiecesAreEvent(net, e);
      StepKeepsInv(net, e);
      RunIsByteByByte(Step(net, e), rest);
      RunAppend(net, Pieces(e), Explode(rest));
      HistoryAppend(net, Pieces(e), Explode(rest));
    }
  }

  lemma PiecesAreEvent(net: Net, e: Event)
    requires NetInv(net)
    ensures Run(net, Pieces(e)) == Step(net, e) && History(net, Pieces(e)) == Acts(net, e)
  {
    hide NetInv, Step, Acts, Run, History;
    if e.Receive? && e.recv.Data? && e.recv.bytes != "" {
      ChunkIsBytes(net, e.f, e.recv.bytes);
      assert e == Receive(e.f, Data(e.recv.bytes));
    } else {
      RunFirst(net, e, []);
      RunNothing(Step(net, e));
      assert [e] + [] == [e];
    }
  }

  // Two runs that differ only in how the received bytes were cut end in the same server, buffers
  // included, by the same history.
  lemma RunsDoNotSeeCuts(net: Net, a: seq<Event>, b: seq<Event>)
    requires NetInv(net) && Explode(a) == Explode(b)
    ensures Run(net, a) == Run(net, b) && History(net, a) == History(net, b)
  {
    hide NetInv, Run, History, Explode;
    RunIsByteByByte(net, a);
    RunIsByteByByte(net, b);
  }

  // A refused command leaves the whole server, buffers included, as it was, but for the refusal
  // at the end of the sender's send buffer.
  lemma RefusedCommandIsAtomic(net: Net, f: int, line: string)
    requires Connected(net, f)
    ensures forall m :: m in React(net.world, f, line).mail && IsRefusal(m.wire) ==>
      Dispatch(net, f, line) == net.(outbox := net.outbox[f := net.outbox[f] + Render(m.wire)])
  {
    hide Decide, Render;
    RefusalIsAtomic(net.world, f, Parse(line));
    var o := React(net.world, f, line);
    forall m | m in o.mail && IsRefusal(m.wire)
      ensures Dispatch(net, f, line) == net.(outbox := net.outbox[f := net.outbox[f] + Render(m.wire)]) {
      assert o == Outcome(Nothing, [m]) && m.to == f;
      assert Deliver(net.outbox, [m]) == Queue(net.outbox, f, Render(m.wire)) by {
        assert [m][1..] == [];
      }
    }
  }
}
