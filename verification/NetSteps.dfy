// Single steps of the abstract server, as the methods of the concrete one use them.
module NetSteps {
  import opened Text
  import opened Framing
  import opened Wire
  import opened World
  import opened Invariant
  import opened Net
  import opened EventLoop

  lemma DeliverLast(outbox: map<int, string>, mail: seq<Mail>, last: Mail)
    ensures Deliver(outbox, mail + [last]) == Queue(Deliver(outbox, mail), last.to, Render(last.wire))
  {
    hide Render;
    DeliverAppend(outbox, mail, [last]);
  }

  lemma DeliverNone(outbox: map<int, string>)
    ensures Deliver(outbox, []) == outbox
  {
  }

  lemma DeliverOne(outbox: map<int, string>, m: Mail)
    ensures Deliver(outbox, [m]) == Queue(outbox, m.to, Render(m.wire))
  {
    hide Render, Queue;
    assert [m][1..] == [];
  }

  lemma RunNothing(net: Net)
    ensures Run(net, []) == net
  {
  }

  lemma RunOne(net: Net, e: Event)
    ensures Run(net, [e]) == Step(net, e)
  {
    hide Step;
    assert [e][1..] == [];
  }

  lemma DrainDone(net: Net, f: int)
    requires Connected(net, f) && FindLf(net.inbox[f]) == |net.inbox[f]|
    ensures Drain(net, f) == net
  {
    hide React, FindLf;
  }

  lemma DrainStep(net: Net, f: int)
    requires Connected(net, f) && FindLf(net.inbox[f]) < |net.inbox[f]|
    ensures var buffer, p := net.inbox[f], FindLf(net.inbox[f]);
            var next := net.(inbox := net.inbox[f := buffer[p + 1..]]);
            var line := Chomp(buffer[..p]);
            && Drain(net, f) == Drain(Dispatch(next, f, line), f)
            && Connected(Dispatch(next, f, line), f) && Dispatch(next, f, line).inbox[f] == buffer[p + 1..]
  {
    hide React, Apply, FindLf;
    var buffer, p := net.inbox[f], FindLf(net.inbox[f]);
    CommitKeepsInbox(net.(inbox := net.inbox[f := buffer[p + 1..]]), f, Chomp(buffer[..p]));
  }

  lemma CommitKeepsInbox(net: Net, f: int, line: string)
    requires f in net.world.people && f in net.outbox
    ensures Dispatch(net, f, line).inbox == net.inbox
    ensures f in Dispatch(net, f, line).world.people && f in Dispatch(net, f, line).outbox
  {
    hide React, Apply;
    DeliverPointwise(net.outbox, React(net.world, f, line).mail);
  }

  lemma NothingCommitted(net: Net, f: int)
    requires f in net.world.people
    ensures Commit(net, f, Outcome(Nothing, [])) == net
  {
  }

  lemma Overwrite(w: World, f: int)
    ensures forall p, q :: WithPerson(WithPerson(w, f, p), f, q) == WithPerson(w, f, q)
  {
    forall p, q ensures WithPerson(WithPerson(w, f, p), f, q) == WithPerson(w, f, q) {
      assert w.people[f := p][f := q] == w.people[f := q];
    }
  }

  lemma OverwriteRoom(w: World, name: string)
    ensures forall r, q :: WithRoom(WithRoom(w, name, r), name, q) == WithRoom(w, name, q)
  {
    forall r, q ensures WithRoom(WithRoom(w, name, r), name, q) == WithRoom(w, name, q) {
      assert w.rooms[name := r][name := q] == w.rooms[name := q];
    }
  }

  lemma CloseKeepsWorldInv(net: Net, f: int)
    requires Inv(net.world) && f in net.world.people
    ensures Inv(Close(net, f).world)
  {
    DepartKeepsInv(net.world, f);
  }

  lemma AcceptKeepsInv(net: Net, accepted: Option<int>)
    requires Inv(net.world)
    ensures accepted.Some? ==> Inv(Step(net, Accept(accepted.value)).world)
    ensures accepted.Some? ==> Run(net, [Accept(accepted.value)]) == Step(net, Accept(accepted.value))
  {
    if accepted.Some? {
      PerformKeepsInv(net.world, Connect(accepted.value));
      RunOne(net, Accept(accepted.value));
    }
  }

  // One more polled descriptor extends the run by what serving it amounts to.
  lemma ScanNext(listener: int, polled: seq<PollFd>, j: nat, os: nat -> Results, start: Net)
    requires j < |polled|
    ensures Run(start, ScanEvents(listener, polled[..j + 1], os))
         == Run(Run(start, ScanEvents(listener, polled[..j], os)),
                ServeSocket(listener, polled[j], os(ReadyCount(polled[..j]))))
    ensures ReadyCount(polled[..j + 1]) == ReadyCount(polled[..j]) + if polled[j].revents == QUIET then 0 else 1
    ensures polled[j].revents == QUIET ==>
      Run(start, ScanEvents(listener, polled[..j + 1], os)) == Run(start, ScanEvents(listener, polled[..j], os))
  {
    hide Run, ScanEvents, ReadyCount;
    var r := os(ReadyCount(polled[..j]));
    ScanOneMore(listener, polled, j, os);
    RunAppend(start, ScanEvents(listener, polled[..j], os), ServeSocket(listener, polled[j], r));
    RunNothing(Run(start, ScanEvents(listener, polled[..j], os)));
  }

  lemma EmptyLog(net: Net, listener: int)
    ensures LogOf(net, [], []) && LogEvents(listener, [], []) == [] && Run(net, []) == net
  {
  }

  lemma NothingLeft(rest: seq<PollFd>, polled: seq<PollFd>)
    requires StillToVisit(rest, polled) && rest == []
    ensures polled == []
  {
  }
}
