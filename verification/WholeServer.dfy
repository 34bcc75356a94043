// The laws of histories and streams, put together for every run of the server from its start.
module WholeServer {
  import opened Text
  import opened Framing
  import opened World
  import opened Invariant
  import opened Net
  import opened Streams
  import opened Runs
  import opened LineageLaws
  import opened RelayLaws
  import opened EchoLaws
  import opened QuoteLaws

  ghost predicate LinesLfFree(acts: seq<Act>) {
    forall k :: 0 <= k < |acts| ==> acts[k].Command? ==> LfFree(acts[k].line)
  }

  lemma EventLinesLfFree(net: Net, e: Event)
    ensures LinesLfFree(Acts(net, e))
  {
    hide RawLines, LfFree;
    if e.Receive? && Connected(net, e.f) && e.recv.Data? && e.recv.bytes != "" {
      FramedLinesClean(e.f, net.inbox[e.f] + e.recv.bytes);
    }
  }

  lemma {:induction false} HistoryLinesLfFree(net: Net, es: seq<Event>)
    ensures LinesLfFree(History(net, es))
    decreases |es|
  {
    hide Acts, Step, LfFree;
    if es != [] {
      EventLinesLfFree(net, es[0]);
      HistoryLinesLfFree(Step(net, es[0]), es[1..]);
    }
  }

  lemma BootIsSound(listener: int, passwd: string)
    requires 0 <= listener <= INT_MAX
    ensures NetInv(Boot(listener, passwd)) && Clean(Boot(listener, passwd).world)
  {
  }

  // Whatever events the system and the clients produce, the server stays within its invariant, its
  // world is that of the history of its commands, and neither the world nor any queued message
  // holds a stray LF.
  lemma ServerAlways(listener: int, passwd: string, es: seq<Event>)
    requires 0 <= listener <= INT_MAX
    ensures var boot := Boot(listener, passwd);
            var acts := History(boot, es);
            && NetInv(Run(boot, es))
            && Run(boot, es).world == PerformAll(boot.world, acts)
            && Clean(Run(boot, es).world)
            && CleanMail(EmitAll(boot.world, acts))
  {
    hide NetInv, Clean, Run, PerformAll, EmitAll, History, CleanMail;
    var boot := Boot(listener, passwd);
    BootIsSound(listener, passwd);
    RunKeepsInv(boot, es);
    RunIsHistory(boot, es);
    HistoryLinesLfFree(boot, es);
    HistoryClean(boot.world, History(boot, es));
  }

  // Every operator of every reachable server owes the right to the channel's founder.
  lemma OperatorsAlwaysTraceable(listener: int, passwd: string, es: seq<Event>, name: string, g: int)
    returns (chain: seq<Link>)
    requires 0 <= listener <= INT_MAX && Operates(Run(Boot(listener, passwd), es).world, g, name)
    ensures Lineage(Start(listener, passwd), History(Boot(listener, passwd), es), name, chain)
    ensures chain[|chain| - 1].who == g
  {
    hide NetInv, Run, PerformAll, History, Lineage, Operates;
    BootIsSound(listener, passwd);
    RunIsHistory(Boot(listener, passwd), es);
    StartIsSound(listener, passwd);
    chain := OperatorsHaveLineage(Start(listener, passwd), History(Boot(listener, passwd), es), name, g);
  }

  lemma StartIsSound(listener: int, passwd: string)
    requires 0 <= listener <= INT_MAX
    ensures Inv(Start(listener, passwd))
  {
  }

  lemma {:induction false} QueuedIsMail(net: Net, es: seq<Event>, g: int)
    requires NetInv(net)
    ensures QueuedOver(net, es, g) == TextsTo(EmitAll(net.world, History(net, es)), g)
    decreases |es|
  {
    hide NetInv, Step, Acts, Perform, Emit;
    if es != [] {
      var next, acts := Step(net, es[0]), Acts(net, es[0]);
      var later := History(next, es[1..]);
      StepIsHistory(net, es[0]);
      StepKeepsInv(net, es[0]);
      QueuedIsMail(next, es[1..], g);
      PerformAppend(net.world, acts, later);
      TextsToAppend(EmitAll(net.world, acts), EmitAll(next.world, later), g);
    }
  }

  lemma NetInvHasInv(net: Net)
    requires NetInv(net)
    ensures Inv(net.world)
  {
  }

  // The whole stream sent to a client since it had nothing waiting, followed by what waits now,
  // frames and parses into exactly the messages meant for it (prefix, command and parameters), in
  // order, if and only if it has not changed its nick after registration, which is echoed without a
  // terminator, and no line has caused a message to it whose arguments cannot be told apart.
  lemma ClientReadsWhatWasMeant(net: Net, es: seq<Event>, g: int)
    requires NetInv(net) && Clean(net.world) && StaysConnected(net, es, g) && net.outbox[g] == ""
    ensures CleanMail(EmitAll(net.world, History(net, es))) && Connected(Run(net, es), g)
    ensures var acts := History(net, es);
            Received(TakenOver(net, es, g) + Run(net, es).outbox[g]) == IntendedTo(EmitAll(net.world, acts), g)
            <==> forall t :: 0 <= t < |acts| ==>
              !Renames(At(net.world, acts, t), acts[t], g) && !Garbles(At(net.world, acts, t), acts[t], g)
  {
    hide NetInv, Clean, Run, EmitAll, History, Received, IntendedTo, TakenOver, QueuedOver, LfFree, Renames, Garbles,
      At;
    var acts := History(net, es);
    NetInvHasInv(net);
    OutputConserved(net, es, g);
    QueuedIsMail(net, es, g);
    HistoryLinesLfFree(net, es);
    HistoryReadsBack(net.world, acts, g);
    assert "" + QueuedOver(net, es, g) == QueuedOver(net, es, g);
  }
}
