// The nick echo, the one message without a terminator: which lines cause it.
module EchoLaws {
  import opened Text
  import opened Parser
  import opened World
  import opened Invariant
  import opened Runs
  import opened RelayLaws

  // A NICK line of a registered client with a valid nick that nobody else holds.
  ghost predicate Renames(w: World, a: Act, g: int) {
    && a.Command? && a.who == g && g in w.people && w.people[g].registered
    && var m := Parse(a.line);
       VerbOf(UpperCase(m.cmd)) == NICK && m.params != [] && IsNickname(m.params[0]) && Holders(w, m.params[0]) <= {g}
  }

  ghost predicate Echoless(mail: seq<Mail>) { forall k :: 0 <= k < |mail| ==> !mail[k].wire.NickEcho? }

  lemma OtherVerbsEchoNothing(w: World, f: int, m: Message)
    requires f in w.people && VerbOf(UpperCase(m.cmd)) != NICK
    ensures Echoless(Decide(w, f, m).mail)
  {
    hide VerbOf, UpperCase, Holders, Entries, Apply, KeyFits, HasSpace, IsNumber, Atoi, IsNickname,
      IsChannelName, ModeOutcome;
    if VerbOf(UpperCase(m.cmd)) == MODE && |m.params| >= 2 {
      ModeEchoesNothing(w, f, m.params[0], m.params);
    }
  }

  lemma ModeEchoesNothing(w: World, f: int, name: string, ps: seq<string>)
    requires f in w.people && |ps| >= 2
    ensures Echoless(ModeOutcome(w, f, name, ps).mail)
  {
    hide Holders, IsNumber, Atoi;
  }

  lemma NickEchoes(w: World, f: int, ps: seq<string>)
    requires Inv(w) && f in w.people
    ensures forall k :: 0 <= k < |DecideNick(w, f, ps).mail| ==> DecideNick(w, f, ps).mail[k].to == f
    ensures (exists k :: 0 <= k < |DecideNick(w, f, ps).mail| && DecideNick(w, f, ps).mail[k].wire.NickEcho?)
       <==> w.people[f].registered && ps != [] && IsNickname(ps[0]) && Holders(w, ps[0]) <= {f}
  {
    hide IsNickname, Holders;
    assert PersonOk(w.people[f]);
    if ps != [] {
      assert Holders(w, ps[0]) - {f} == {} <==> Holders(w, ps[0]) <= {f};
      if w.people[f].registered && IsNickname(ps[0]) && Holders(w, ps[0]) <= {f} {
        assert DecideNick(w, f, ps).mail[0].wire.NickEcho?;
      }
    }
  }

  // One act queues an echo to a client exactly when it is such a line of that client.
  lemma ActEchoes(w: World, a: Act, g: int)
    requires Inv(w)
    ensures !NoEchoTo(Emit(w, a), g) <==> Renames(w, a, g)
  {
    hide Inv, VerbOf, UpperCase, Parse, IsNickname, Holders, DecideNick;
    if a.Command? && a.who in w.people {
      var f, m := a.who, Parse(a.line);
      if VerbOf(UpperCase(m.cmd)) == NICK {
        NickEchoes(w, f, m.params);
      } else {
        hide Decide;
        OtherVerbsEchoNothing(w, f, m);
      }
    }
  }

  // Over any history a client is sent an echo exactly when one of its lines was such a line as
  // things stood when it was handled.
  lemma {:induction false} HistoryEchoes(w: World, acts: seq<Act>, g: int)
    requires Inv(w)
    ensures NoEchoTo(EmitAll(w, acts), g) <==> forall t :: 0 <= t < |acts| ==> !Renames(At(w, acts, t), acts[t], g)
    decreases |acts|
  {
    hide Perform, Emit, Inv, Renames, At, EmitAll, PerformAll;
    if acts == [] {
      EmitNothing(w);
    } else {
      var n := |acts| - 1;
      var front, last := acts[..n], acts[n];
      assert front + [last] == acts;
      HistoryEchoes(w, front, g);
      PerformAllKeepsInv(w, front);
      PerformLast(w, front, last);
      AtFront(w, front, last);
      ActEchoes(PerformAll(w, front), last, g);
      NoEchoAppend(EmitAll(w, front), Emit(PerformAll(w, front), last), g);
    }
  }

  lemma EmitNothing(w: World)
    ensures EmitAll(w, []) == []
  {
  }

  lemma NoEchoAppend(a: seq<Mail>, b: seq<Mail>, g: int)
    ensures NoEchoTo(a + b, g) <==> NoEchoTo(a, g) && NoEchoTo(b, g)
  {
    if NoEchoTo(a + b, g) {
      forall k | 0 <= k < |b| && b[k].to == g ensures !b[k].wire.NickEcho? {
        assert b[k] == (a + b)[|a| + k];
      }
      forall k | 0 <= k < |a| && a[k].to == g ensures !a[k].wire.NickEcho? {
        assert a[k] == (a + b)[k];
      }
    }
  }
}
