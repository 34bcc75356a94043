// Registration over histories: what it takes, and the one welcome it brings.
module RegistrationLaws {
  import opened Text
  import opened Parser
  import opened Wire
  import opened World
  import opened Invariant
  import opened CommandLaws
  import opened Runs

  // ---------- Welcomes ----------

  function Welcomes(mail: seq<Mail>, f: int): nat {
    if mail == [] then 0
    else (if mail[0].to == f && IsWelcome(mail[0].wire) then 1 else 0) + Welcomes(mail[1..], f)
  }

  lemma {:induction false} WelcomesAppend(a: seq<Mail>, b: seq<Mail>, f: int)
    ensures Welcomes(a + b, f) == Welcomes(a, f) + Welcomes(b, f)
  {
    if a == [] {
      assert a + b == b;
    } else {
      assert (a + b)[1..] == a[1..] + b;
      WelcomesAppend(a[1..], b, f);
    }
  }

  lemma {:induction false} NoWelcomes(mail: seq<Mail>, f: int)
    requires forall k :: 0 <= k < |mail| ==> !IsWelcome(mail[k].wire)
    ensures Welcomes(mail, f) == 0
  {
    if mail != [] {
      NoWelcomes(mail[1..], f);
    }
  }

  function Registered(w: World, f: int): nat { if f in w.people && w.people[f].registered then 1 else 0 }

  ghost predicate Unwelcoming(o: Outcome) { forall k :: 0 <= k < |o.mail| ==> !IsWelcome(o.mail[k].wire) }

  lemma JoinUnwelcoming(w: World, f: int, ps: seq<string>)
    requires f in w.people
    ensures Unwelcoming(DecideJoin(w, f, ps))
    ensures !DecideJoin(w, f, ps).edit.TakeNick? && !DecideJoin(w, f, ps).edit.GiveUser?
  {
    hide IsChannelName, Entries, Apply, KeyFits, HasSpace;
  }

  lemma ModeUnwelcoming(w: World, f: int, name: string, ps: seq<string>)
    requires f in w.people && |ps| >= 2
    ensures Unwelcoming(ModeOutcome(w, f, name, ps))
    ensures var e := ModeOutcome(w, f, name, ps).edit; !e.TakeNick? && !e.GiveUser?
  {
    hide Holders, IsNumber, Atoi;
  }

  lemma EditsOfOthers(w: World, f: int, m: Message)
    requires f in w.people && VerbOf(UpperCase(m.cmd)) != NICK && VerbOf(UpperCase(m.cmd)) != USER
    ensures Unwelcoming(Decide(w, f, m))
    ensures var e := Decide(w, f, m).edit; !e.TakeNick? && !e.GiveUser?
  {
    hide Holders, IsNickname, IsChannelName, VerbOf, UpperCase, DecideJoin, ModeOutcome;
    match VerbOf(UpperCase(m.cmd))
    case JOIN => JoinUnwelcoming(w, f, m.params);
    case MODE =>
      if |m.params| >= 2 {
        ModeUnwelcoming(w, f, m.params[0], m.params);
      }
    case _ =>
  }

  // Only a NICK or USER that completes the sender's registration sends a welcome: one, to the sender.
  lemma CommandWelcomes(w: World, g: int, m: Message, f: int)
    requires Inv(w) && g in w.people
    ensures var o := Decide(w, g, m);
            Welcomes(o.mail, f) + Registered(w, f) == Registered(Apply(w, g, o.edit), f)
  {
    hide Holders, IsNickname, VerbOf, UpperCase, DecideJoin, DecideMode, DecideKick, DecideInvite,
      DecidePrivmsg, DecideTopic;
    var verb, o := VerbOf(UpperCase(m.cmd)), Decide(w, g, m);
    if verb == NICK || verb == USER {
      assert PersonOk(w.people[g]);
      if o.mail != [] {
        assert o.mail[1..] == [];
      }
    } else {
      EditsOfOthers(w, g, m);
      NoWelcomes(o.mail, f);
    }
  }

  lemma ActWelcomes(w: World, a: Act, f: int)
    requires Inv(w) && a != Leave(f)
    ensures Welcomes(Emit(w, a), f) + Registered(w, f) == Registered(Perform(w, a), f)
  {
    hide Apply, Decide, Inv;
    if a.Command? && a.who in w.people {
      CommandWelcomes(w, a.who, Parse(a.line), f);
    }
  }

  // Between a connection's arrival and its departure the welcome is queued to it exactly once if
  // it has become registered, and never otherwise.
  lemma {:induction false} WelcomedOnce(w: World, acts: seq<Act>, f: int)
    requires Inv(w) && forall k :: 0 <= k < |acts| ==> acts[k] != Leave(f)
    ensures Welcomes(EmitAll(w, acts), f) + Registered(w, f) == Registered(PerformAll(w, acts), f)
    decreases |acts|
  {
    hide Perform, Emit, Inv, Registered;
    if acts != [] {
      ActWelcomes(w, acts[0], f);
      PerformKeepsInv(w, acts[0]);
      WelcomedOnce(Perform(w, acts[0]), acts[1..], f);
      WelcomesAppend(Emit(w, acts[0]), EmitAll(Perform(w, acts[0]), acts[1..]), f);
    }
  }

  // ---------- What registration takes ----------

  // A line by which a client passes one of the three steps, as things stand when it is handled:
  // PASS with the word before registration; NICK, after PASS, with a valid nick that nobody else
  // holds; USER, after PASS and before registration, with four parameters.
  ghost predicate Accepted(w: World, a: Act, f: int, verb: Verb) {
    && a.Command? && a.who == f && f in w.people && VerbOf(UpperCase(Parse(a.line).cmd)) == verb
    && var p, ps := w.people[f], Parse(a.line).params;
       match verb
       case PASS => !p.registered && ps != [] && ps[0] == w.passwd
       case NICK =>
         p.passOk && ps != [] && IsNickname(ps[0]) && forall g :: g in w.people && g != f ==> w.people[g].nick != ps[0]
       case USER => !p.registered && p.passOk && |ps| >= 4
       case _ => false
  }

  ghost predicate Passed(w: World, f: int, verb: Verb) {
    && f in w.people
    && var p := w.people[f];
       match verb case PASS => p.passOk case NICK => p.nickOk case USER => p.userOk case _ => false
  }

  ghost predicate Here(w: World, f: int) { f in w.people }

  predicate Registers(e: Edit) { e.AcceptPass? || e.TakeNick? || e.GiveUser? }

  lemma OtherEditsPassNothing(w: World, g: int, e: Edit, f: int, verb: Verb)
    requires g in w.people && !Registers(e)
    ensures Passed(Apply(w, g, e), f, verb) <==> Passed(w, f, verb)
  {
  }

  lemma OtherVerbs(w: World, g: int, m: Message)
    requires g in w.people && VerbOf(UpperCase(m.cmd)) !in {PASS, NICK, USER}
    ensures !Registers(Decide(w, g, m).edit)
  {
    hide Holders, IsNickname, IsChannelName, VerbOf, UpperCase, JoinMail, KeyFits, HasSpace, IsNumber, Atoi;
  }

  lemma CommandPasses(w: World, g: int, line: string, f: int, verb: Verb)
    requires Inv(w) && g in w.people
    ensures Passed(Apply(w, g, React(w, g, line).edit), f, verb)
       <==> Accepted(w, Command(g, line), f, verb) || Passed(w, f, verb)
  {
    hide Inv, IsNickname, Apply, VerbOf, UpperCase, Parse, Holders;
    var m := Parse(line);
    match VerbOf(UpperCase(m.cmd))
    case PASS => PassAndUserLaw(w, g, m.params);
    case USER => PassAndUserLaw(w, g, m.params);
    case NICK =>
      if m.params == [] {
        ApplyNothing(w, g);
      } else {
        NickLaw(w, g, m.params);
      }
    case _ =>
      OtherVerbs(w, g, m);
      OtherEditsPassNothing(w, g, Decide(w, g, m).edit, f, verb);
  }

  lemma ActPasses(w: World, a: Act, f: int, verb: Verb)
    requires Inv(w)
    ensures Passed(Perform(w, a), f, verb)
       <==> Here(Perform(w, a), f) && (Accepted(w, a, f, verb) || Passed(w, f, verb))
  {
    hide Inv, IsNickname, Apply, React;
    if a.Command? && a.who in w.people {
      CommandPasses(w, a.who, a.line, f, verb);
    }
  }

  // At some moment the step was passed, and the client has been connected ever since.
  ghost predicate PassedSince(w: World, acts: seq<Act>, f: int, verb: Verb) {
    exists t :: 0 <= t < |acts| && PassedAt(w, acts, t, f, verb)
  }

  ghost predicate PassedAt(w: World, acts: seq<Act>, t: nat, f: int, verb: Verb)
    requires t < |acts|
  {
    Accepted(At(w, acts, t), acts[t], f, verb) && forall u :: t < u <= |acts| ==> Here(At(w, acts, u), f)
  }

  lemma PassLatch(f: int, verb: Verb) returns (l: Latch)
    ensures l.Sound() && forall w :: l.holds(w) == Passed(w, f, verb)
    ensures forall w :: l.alive(w) == Here(w, f)
    ensures forall w, a :: l.sets(w, a) == Accepted(w, a, f, verb) && !l.ends(w, a)
  {
    hide Inv, Perform, Accepted, Passed;
    l := Latch(w => Passed(w, f, verb), w => Here(w, f), (w, a) => Accepted(w, a, f, verb), (w, a) => false);
    forall w, a | Inv(w)
      ensures Passed(Perform(w, a), f, verb)
         <==> Here(Perform(w, a), f) && (Accepted(w, a, f, verb) || Passed(w, f, verb)) {
      ActPasses(w, a, f, verb);
    }
  }

  // Over any history a step counts as passed exactly when such a line was handled and the client
  // has been connected since.
  lemma PassedExactly(w: World, acts: seq<Act>, f: int, verb: Verb)
    requires Inv(w) && !Passed(w, f, verb)
    ensures Passed(PerformAll(w, acts), f, verb) <==> PassedSince(w, acts, f, verb)
  {
    hide Inv, Accepted, Passed, PerformAll, At, Here, Perform;
    var l := PassLatch(f, verb);
    LatchOverHistory(w, acts, l);
    forall t | 0 <= t < |acts| ensures l.SetAndKept(w, acts, t) <==> PassedAt(w, acts, t, f, verb) {
    }
  }

  // In every history a client is registered exactly when, on the present connection, it has sent a
  // PASS, a NICK and a USER that were accepted; and then it has a valid nick that nobody else holds.
  lemma RegistrationAlways(listener: int, passwd: string, acts: seq<Act>, f: int)
    requires 0 <= listener <= INT_MAX
    ensures var start := Start(listener, passwd);
            var w := PerformAll(start, acts);
            && (f in w.people && w.people[f].registered <==>
                  (PassedSince(start, acts, f, PASS) && PassedSince(start, acts, f, NICK) &&
                   PassedSince(start, acts, f, USER)))
            && (f in w.people && w.people[f].registered ==>
                  IsNickname(w.people[f].nick) && Holders(w, w.people[f].nick) == {f})
  {
    hide PerformAll, PassedSince;
    InvariantAlways(listener, passwd, acts);
    var start := Start(listener, passwd);
    var w := PerformAll(start, acts);
    PassedExactly(start, acts, f, PASS);
    PassedExactly(start, acts, f, NICK);
    PassedExactly(start, acts, f, USER);
    if f in w.people {
      assert PersonOk(w.people[f]);
      if w.people[f].registered {
        OneHolder(w, f);
      }
    }
  }

  // ---------- Nicks over histories ----------

  ghost predicate Called(w: World, f: int, nick: string) { f in w.people && w.people[f].nick == nick }

  ghost predicate TakesNick(w: World, a: Act, f: int, nick: string) {
    Accepted(w, a, f, NICK) && Parse(a.line).params[0] == nick
  }

  lemma OtherEditsRename(w: World, g: int, e: Edit, f: int, nick: string)
    requires g in w.people && !e.TakeNick?
    ensures Called(Apply(w, g, e), f, nick) <==> Called(w, f, nick)
  {
  }

  lemma OnlyNickRenames(w: World, g: int, m: Message)
    requires g in w.people && VerbOf(UpperCase(m.cmd)) != NICK
    ensures !Decide(w, g, m).edit.TakeNick?
  {
    hide Holders, IsNickname, IsChannelName, VerbOf, UpperCase, JoinMail, KeyFits, HasSpace, IsNumber, Atoi;
  }

  lemma CommandRenames(w: World, g: int, line: string, f: int, nick: string)
    requires Inv(w) && g in w.people
    ensures Called(Apply(w, g, React(w, g, line).edit), f, nick) <==>
      TakesNick(w, Command(g, line), f, nick) || (Called(w, f, nick) && !Accepted(w, Command(g, line), f, NICK))
  {
    hide Inv, IsNickname, Apply, VerbOf, UpperCase, Parse, Holders;
    var m := Parse(line);
    if VerbOf(UpperCase(m.cmd)) == NICK {
      if m.params == [] {
        ApplyNothing(w, g);
      } else {
        NickLaw(w, g, m.params);
      }
    } else {
      OnlyNickRenames(w, g, m);
      OtherEditsRename(w, g, Decide(w, g, m).edit, f, nick);
    }
  }

  lemma ActRenames(w: World, a: Act, f: int, nick: string)
    requires Inv(w) && nick != ""
    ensures Called(Perform(w, a), f, nick) <==>
      Here(Perform(w, a), f) && (TakesNick(w, a, f, nick) || (Called(w, f, nick) && !Accepted(w, a, f, NICK)))
  {
    hide Inv, IsNickname, Apply, React;
    if a.Command? && a.who in w.people {
      CommandRenames(w, a.who, a.line, f, nick);
    }
  }

  ghost predicate NamedAt(w: World, acts: seq<Act>, t: nat, f: int, nick: string)
    requires t < |acts|
  {
    && TakesNick(At(w, acts, t), acts[t], f, nick)
    && (forall u :: t < u <= |acts| ==> Here(At(w, acts, u), f))
    && (forall u :: t < u < |acts| ==> !Accepted(At(w, acts, u), acts[u], f, NICK))
  }

  lemma NickLatch(f: int, nick: string) returns (l: Latch)
    requires nick != ""
    ensures l.Sound() && forall w :: l.holds(w) == Called(w, f, nick)
    ensures forall w :: l.alive(w) == Here(w, f)
    ensures forall w, a :: l.sets(w, a) == TakesNick(w, a, f, nick) && l.ends(w, a) == Accepted(w, a, f, NICK)
  {
    hide Inv, Perform, Accepted, Called, TakesNick;
    l := Latch(w => Called(w, f, nick), w => Here(w, f), (w, a) => TakesNick(w, a, f, nick),
               (w, a) => Accepted(w, a, f, NICK));
    forall w, a | Inv(w)
      ensures Called(Perform(w, a), f, nick) <==>
        Here(Perform(w, a), f) && (TakesNick(w, a, f, nick) || (Called(w, f, nick) && !Accepted(w, a, f, NICK))) {
      ActRenames(w, a, f, nick);
    }
  }

  // Over any history a client is called by the last nick that it was accepted to take, on the
  // present connection.
  lemma NicksAreLastTaken(w: World, acts: seq<Act>, f: int, nick: string)
    requires Inv(w) && f !in w.people && nick != ""
    ensures Called(PerformAll(w, acts), f, nick) <==> exists t :: 0 <= t < |acts| && NamedAt(w, acts, t, f, nick)
  {
    hide Inv, Accepted, Called, TakesNick, PerformAll, At, Here, Perform;
    assert !Called(w, f, nick) by { NotHere(w, f, nick); }
    var l := NickLatch(f, nick);
    LatchOverHistory(w, acts, l);
    forall t | 0 <= t < |acts| ensures l.SetAndKept(w, acts, t) <==> NamedAt(w, acts, t, f, nick) {
    }
  }

  lemma NotHere(w: World, f: int, nick: string)
    requires f !in w.people
    ensures !Called(w, f, nick)
  {
  }
}
