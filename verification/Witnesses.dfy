// Four things the server does not do, each with lines that show it from the start of the server.
module Witnesses {
  import opened Text
  import opened Parser
  import opened Wire
  import opened World
  import opened Invariant
  import opened Net
  import opened CommandLaws
  import opened Runs
  import opened OrphanLaws
  import opened RelayLaws
  import opened EchoLaws
  import opened QuoteLaws
  import opened NamesLaws

  // ---------- Lines and what they do ----------

  function Typed(cmd: string, ps: seq<string>): string { Print(Message("", cmd, ps)) }

  function Say(f: int, cmd: string, ps: seq<string>): Act { Command(f, Typed(cmd, ps)) }

  lemma TypedParses(cmd: string, ps: seq<string>)
    requires BlankFree(cmd) && cmd != "" && ParsedParams(ps)
    ensures Parse(Typed(cmd, ps)) == Message("", cmd, ps)
  {
    RoundTrip(Message("", cmd, ps));
  }

  lemma TypedLfFree(cmd: string, ps: seq<string>)
    requires LfFree(cmd) && AllLfFree(ps)
    ensures LfFree(Typed(cmd, ps))
  {
    if ps != [] {
      ArgsLfFree(ps[..|ps| - 1]);
    }
  }

  lemma PassWord()
    ensures VerbOf(UpperCase("PASS")) == PASS && BlankFree("PASS") && LfFree("PASS")
  {
    assert UpperCase("PASS") == "PASS";
  }

  lemma NickWord()
    ensures VerbOf(UpperCase("NICK")) == NICK && BlankFree("NICK") && LfFree("NICK")
  {
    assert UpperCase("NICK") == "NICK";
  }

  lemma UserWord()
    ensures VerbOf(UpperCase("USER")) == USER && BlankFree("USER") && LfFree("USER")
  {
    assert UpperCase("USER") == "USER";
  }

  lemma JoinWord()
    ensures VerbOf(UpperCase("JOIN")) == JOIN && BlankFree("JOIN") && LfFree("JOIN")
  {
    assert UpperCase("JOIN") == "JOIN";
  }

  lemma ModeWord()
    ensures VerbOf(UpperCase("MODE")) == MODE && BlankFree("MODE") && LfFree("MODE")
  {
    assert UpperCase("MODE") == "MODE";
  }

  const USER_WORDS := ["u", "0", "*", "r"]

  lemma UserWordsParse()
    ensures ParsedParams(USER_WORDS) && AllLfFree(USER_WORDS)
  {
  }

  // A client connects and registers.
  function Arrival(f: int, nick: string): seq<Act> {
    [Connect(f), Say(f, "PASS", ["pw"]), Say(f, "NICK", [nick]), Say(f, "USER", USER_WORDS)]
  }

  lemma FourActs(w: World, a: Act, b: Act, c: Act, d: Act)
    ensures PerformAll(w, [a, b, c, d]) == Perform(Perform(Perform(Perform(w, a), b), c), d)
  {
    hide Perform;
    assert [a, b, c, d] == [] + [a] + [b] + [c] + [d];
    PerformLast(w, [], a);
    PerformLast(w, [] + [a], b);
    PerformLast(w, [] + [a] + [b], c);
    PerformLast(w, [] + [a] + [b] + [c], d);
  }

  lemma PassTaken(w: World, f: int)
    requires Inv(w) && f in w.people && w.people[f] == NEWCOMER && w.passwd == "pw"
    ensures Perform(w, Say(f, "PASS", ["pw"])) == WithPerson(w, f, Person("", "", true, false, false, false))
  {
    hide VerbOf, UpperCase, Typed;
    PassWord();
    TypedParses("PASS", ["pw"]);
    PassAndUserLaw(w, f, ["pw"]);
  }

  lemma NickTaken(w: World, f: int, nick: string)
    requires Inv(w) && f in w.people && w.people[f] == Person("", "", true, false, false, false)
    requires IsNickname(nick) && forall g :: g in w.people ==> w.people[g].nick != nick
    ensures Perform(w, Say(f, "NICK", [nick])) == WithPerson(w, f, Person(nick, "", true, true, false, false))
  {
    hide VerbOf, UpperCase, Typed, IsNickname;
    NickWord();
    TypedParses("NICK", [nick]);
    NickLaw(w, f, [nick]);
  }

  lemma UserTaken(w: World, f: int, nick: string)
    requires Inv(w) && f in w.people && w.people[f] == Person(nick, "", true, true, false, false)
    ensures Perform(w, Say(f, "USER", USER_WORDS)) == WithPerson(w, f, Person(nick, "u", true, true, true, true))
  {
    hide VerbOf, UpperCase, Typed;
    UserWord();
    UserWordsParse();
    TypedParses("USER", USER_WORDS);
    PassAndUserLaw(w, f, USER_WORDS);
  }

  lemma Arrives(w: World, f: int, nick: string)
    requires Inv(w) && CanConnect(w, f) && w.passwd == "pw"
    requires IsNickname(nick) && forall g :: g in w.people ==> w.people[g].nick != nick
    ensures PerformAll(w, Arrival(f, nick)) == WithPerson(w, f, Person(nick, "u", true, true, true, true))
    ensures Inv(PerformAll(w, Arrival(f, nick)))
  {
    hide Inv, IsNickname, Say, Perform, PerformAll;
    PerformAllKeepsInv(w, Arrival(f, nick));
    Accepts(w, f);
    var a, b, c, d := Connect(f), Say(f, "PASS", ["pw"]), Say(f, "NICK", [nick]), Say(f, "USER", USER_WORDS);
    FourActs(w, a, b, c, d);
    PerformKeepsInv(w, a);
    var w1 := Perform(w, a);
    NicknameIsNotEmpty(nick);
    PassTaken(w1, f);
    PerformKeepsInv(w1, b);
    var w2 := Perform(w1, b);
    NickTaken(w2, f, nick);
    PerformKeepsInv(w2, c);
    UserTaken(Perform(w2, c), f, nick);
  }

  lemma Accepts(w: World, f: int)
    requires CanConnect(w, f)
    ensures Perform(w, Connect(f)) == WithPerson(w, f, NEWCOMER)
  {
  }

  lemma NicknameIsNotEmpty(nick: string)
    requires IsNickname(nick)
    ensures nick != ""
  {
  }

  lemma Joins(w: World, f: int, name: string)
    requires Inv(w) && f in w.people && w.people[f].registered && IsChannelName(name)
    requires name in w.rooms ==>
      f !in w.rooms[name].members && SameRules(w.rooms[name], EMPTY_ROOM.(ops := w.rooms[name].ops))
    ensures var after := Perform(w, Say(f, "JOIN", [name]));
            && name in after.rooms && after.people == w.people
            && after.rooms[name].members == RoomAt(w, name).members + [f]
            && after.rooms[name].ops == (if name in w.rooms then w.rooms[name].ops else {f})
            && SameRules(after.rooms[name], EMPTY_ROOM.(ops := after.rooms[name].ops))
  {
    hide VerbOf, UpperCase, Typed, IsChannelName, Inv;
    JoinWord();
    TypedParses("JOIN", [name]);
    JoinAdmission(w, f, [name]);
  }

  // ---------- The four ----------

  const START := Start(3, "pw")

  lemma StartIsSound()
    ensures Inv(START) && Clean(START)
  {
  }

  lemma Names()
    ensures IsNickname("a") && IsNickname("b") && IsChannelName("#a") && IsChannelName("#a\tb")
    ensures IsMiddle("#a") && IsMiddle("+k") && !IsMiddle("x y") && !BlankFree("#a\tb")
    ensures LfFree("a") && LfFree("b") && LfFree("#a") && LfFree("#a\tb")
    ensures LfFree("+k") && LfFree("x y") && LfFree("pw")
  {
    assert "x y"[1] == ' ' && "#a\tb"[2] == '\t';
  }

  const AS_A := Person("a", "u", true, true, true, true)
  const AS_B := Person("b", "u", true, true, true, true)

  const TWO_JOINED := Arrival(4, "a") + Arrival(5, "b") + [Say(4, "JOIN", ["#a"])] + [Say(5, "JOIN", ["#a"])]

  lemma TwoJoined()
    ensures var w := PerformAll(START, TWO_JOINED);
            Inv(w) && "#a" in w.rooms && w.rooms["#a"].members == [4, 5] && w.rooms["#a"].ops == {4} && 4 in w.people
  {
    hide Inv, Arrival, Perform, PerformAll, IsNickname, IsChannelName;
    StartIsSound();
    Names();
    PerformAllKeepsInv(START, TWO_JOINED);
    Arrives(START, 4, "a");
    var w1 := PerformAll(START, Arrival(4, "a"));
    Arrives(w1, 5, "b");
    PerformAppend(START, Arrival(4, "a"), Arrival(5, "b"));
    var w2 := PerformAll(w1, Arrival(5, "b"));
    assert w2.people == map[4 := AS_A, 5 := AS_B];
    Joins(w2, 4, "#a");
    PerformLast(START, Arrival(4, "a") + Arrival(5, "b"), Say(4, "JOIN", ["#a"]));
    var w3 := Perform(w2, Say(4, "JOIN", ["#a"]));
    PerformKeepsInv(w2, Say(4, "JOIN", ["#a"]));
    assert w3.rooms["#a"].members == [4];
    Joins(w3, 5, "#a");
    PerformLast(START, Arrival(4, "a") + Arrival(5, "b") + [Say(4, "JOIN", ["#a"])], Say(5, "JOIN", ["#a"]));
  }

  // A channel can come to have members and no operator: its founder goes away.
  lemma AChannelIsOrphaned()
    ensures IsOrphan(PerformAll(START, TWO_JOINED + [Leave(4)]), "#a")
    ensures PerformAll(START, TWO_JOINED + [Leave(4)]).rooms["#a"].members == [5]
  {
    hide Inv, Arrival, PerformAll, Say;
    TwoJoined();
    var w := PerformAll(START, TWO_JOINED);
    PerformLast(START, TWO_JOINED, Leave(4));
    ActOrphans(w, Leave(4), "#a");
    assert Without([4, 5], 4) == [5];
  }

  const RENAMED := Arrival(4, "a") + [Say(4, "NICK", ["b"])]

  lemma ArrivalIsClean(f: int, nick: string)
    requires LfFree(nick)
    ensures forall k :: 0 <= k < |Arrival(f, nick)| && Arrival(f, nick)[k].Command? ==>
      LfFree(Arrival(f, nick)[k].line)
  {
    hide Typed, LfFree;
    PassWord();
    NickWord();
    UserWord();
    UserWordsParse();
    Names();
    TypedLfFree("PASS", ["pw"]);
    TypedLfFree("NICK", [nick]);
    TypedLfFree("USER", USER_WORDS);
  }

  // A client that changes its nick cannot read what it is sent.
  lemma AnEchoIsNotReadBack()
    ensures var mail := EmitAll(START, RENAMED);
            CleanMail(mail) && Received(TextsTo(mail, 4)) != IntendedTo(mail, 4)
  {
    hide Inv, Clean, Arrival, Perform, PerformAll, EmitAll, IsNickname, Typed, LfFree, CleanWire, Received,
      IntendedTo, VerbOf, UpperCase, Garbles;
    StartIsSound();
    Names();
    NickWord();
    var front, last := Arrival(4, "a"), Say(4, "NICK", ["b"]);
    ArrivalIsClean(4, "a");
    TypedLfFree("NICK", ["b"]);
    Arrives(START, 4, "a");
    AtFront(START, front, last);
    TypedParses("NICK", ["b"]);
    assert RENAMED[|front|] == last;
    assert Renames(At(START, RENAMED, |front|), RENAMED[|front|], 4);
    HistoryReadsBack(START, RENAMED, 4);
  }

  const TOO_EARLY := [Connect(4)] + [Say(4, "JOIN", ["#a"])]

  // What a client is told before it has a nick does not read back: the nick is missing.
  lemma AnEarlyAnswerIsNotReadBack()
    ensures var mail := EmitAll(START, TOO_EARLY);
            CleanMail(mail) && Received(TextsTo(mail, 4)) != IntendedTo(mail, 4)
  {
    hide Inv, Clean, EmitAll, Typed, LfFree, CleanWire, Received, IntendedTo, VerbOf, UpperCase, Renames;
    StartIsSound();
    Names();
    JoinWord();
    TypedLfFree("JOIN", ["#a"]);
    TypedParses("JOIN", ["#a"]);
    AtFront(START, [Connect(4)], Say(4, "JOIN", ["#a"]));
    assert [Connect(4)][1..] == [];
    assert TOO_EARLY[1] == Say(4, "JOIN", ["#a"]);
    assert Garbles(At(START, TOO_EARLY, 1), TOO_EARLY[1], 4);
    HistoryReadsBack(START, TOO_EARLY, 4);
  }

  const MISNAMED := Arrival(4, "a") + [Say(4, "JOIN", ["x y"])]

  // The refusal of a channel name with a space does not read back.
  lemma ARefusalIsNotReadBack()
    ensures var mail := EmitAll(START, MISNAMED);
            CleanMail(mail) && Received(TextsTo(mail, 4)) != IntendedTo(mail, 4)
  {
    hide Inv, Clean, Arrival, Perform, PerformAll, EmitAll, IsNickname, Typed, LfFree, CleanWire, Received,
      IntendedTo, VerbOf, UpperCase, Renames, IsMiddle;
    StartIsSound();
    Names();
    JoinWord();
    var front, last := Arrival(4, "a"), Say(4, "JOIN", ["x y"]);
    ArrivalIsClean(4, "a");
    TypedLfFree("JOIN", ["x y"]);
    Arrives(START, 4, "a");
    AtFront(START, front, last);
    TypedParses("JOIN", ["x y"]);
    assert MISNAMED[|front|] == last;
    assert Garbles(At(START, MISNAMED, |front|), MISNAMED[|front|], 4);
    HistoryReadsBack(START, MISNAMED, 4);
  }

  lemma AloneInRoom()
    ensures var w := PerformAll(START, ALONE);
            && Inv(w) && Clean(w) && 4 in w.people && w.people[4] == AS_A
            && "#a" in w.rooms && w.rooms["#a"].members == [4] && w.rooms["#a"].ops == {4}
  {
    hide Inv, Clean, Arrival, Perform, PerformAll, IsNickname, IsChannelName, Typed, LfFree, CleanWire, EmitAll;
    StartIsSound();
    Names();
    JoinWord();
    PerformAllKeepsInv(START, ALONE);
    ArrivalIsClean(4, "a");
    TypedLfFree("JOIN", ["#a"]);
    HistoryClean(START, ALONE);
    Arrives(START, 4, "a");
    Joins(PerformAll(START, Arrival(4, "a")), 4, "#a");
    PerformLast(START, Arrival(4, "a"), Say(4, "JOIN", ["#a"]));
  }

  const ALONE := Arrival(4, "a") + [Say(4, "JOIN", ["#a"])]

  // A key with a space is announced by a message that does not read back.
  lemma AKeyIsNotReadBack()
    ensures var w, line := PerformAll(START, ALONE), Typed("MODE", ["#a", "+k", "x y"]);
            && 4 in w.people
            && var mail := React(w, 4, line).mail;
               mail != [] && Received(Render(mail[0].wire)) != [Message("a", "MODE", ["#a", "+k", "x y"])]
  {
    hide Inv, Clean, Perform, PerformAll, IsNickname, IsChannelName, Typed, LfFree, CleanWire, Received, Render, VerbOf,
      UpperCase, IsMiddle, React;
    AloneInRoom();
    Names();
    ModeWord();
    var w, ps := PerformAll(START, ALONE), ["#a", "+k", "x y"];
    TypedParses("MODE", ps);
    TypedLfFree("MODE", ps);
    KeyAnnounced(w, 4, "#a", "x y");
    RelayedExactly(w, 4, Typed("MODE", ps), 0);
    assert ps + [] == ps;
  }

  lemma KeyAnnounced(w: World, f: int, name: string, key: string)
    requires f in w.people && w.people[f].registered && name in w.rooms && f in w.rooms[name].ops
    requires w.rooms[name].members == [f] && ParsedParams([name, "+k", key])
    ensures React(w, f, Typed("MODE", [name, "+k", key])).mail
         == [Mail(f, Relay(w.people[f].nick, "MODE", [name, "+k", key], None))]
  {
    hide VerbOf, UpperCase, Typed;
    ModeWord();
    TypedParses("MODE", [name, "+k", key]);
  }

  // The list of members of a channel whose name has a tab in it does not read back.
  lemma NamesAreNotReadBack()
    ensures var w, line := PerformAll(START, Arrival(4, "a")), Typed("JOIN", ["#a\tb"]);
            && 4 in w.people
            && var mail := React(w, 4, line).mail;
               && |mail| == 3 && mail[1].to == 4 && mail[1].wire.NamesAre?
               && Received(Render(mail[1].wire))
                    != [Message("ircserv", "353", ["a", "=", "#a\tb", NamesText(mail[1].wire.entries)])]
  {
    hide Inv, Clean, Perform, PerformAll, EmitAll, IsNickname, IsChannelName, Typed, LfFree, CleanWire,
      Received, Render, VerbOf, UpperCase, BlankFree, NamesText, ReadNames, Arrival;
    StartIsSound();
    Names();
    JoinWord();
    var w, ps := PerformAll(START, Arrival(4, "a")), ["#a\tb"];
    ArrivalIsClean(4, "a");
    HistoryClean(START, Arrival(4, "a"));
    Arrives(START, 4, "a");
    TypedParses("JOIN", ps);
    JoinAdmission(w, 4, ps);
    assert |DecideJoin(w, 4, ps).mail| == 3;
    NamesReplyIsFaithful(w, 4, ps);
  }
}
