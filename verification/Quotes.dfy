// Messages that do not read back as they are meant: which lines cause them.
module QuoteLaws {
  import opened Text
  import opened Parser
  import opened Wire
  import opened World
  import opened Invariant
  import opened Net
  import opened Runs
  import opened RegistrationLaws
  import opened RelayLaws
  import opened EchoLaws

  // ---------- The lines ----------

  // MODE with a bad mode string, or a bad key or nick where one is wanted.
  ghost predicate OrdersBadWord(ps: seq<string>)
    requires |ps| >= 2
  {
    !IsMiddle(ps[1]) || (ps[1] in ["+k", "+o", "-o"] && |ps| >= 3 && !IsMiddle(ps[2]))
  }

  // A line of a client with a nick whose answer quotes a word that cannot stand as a middle.
  ghost predicate QuotesBadWord(w: World, f: int, m: Message)
    requires f in w.people
  {
    var ps, registered := m.params, w.people[f].registered;
    match VerbOf(UpperCase(m.cmd))
    case NICK => ps != [] && !IsMiddle(ps[0])
    case JOIN => registered && ps != [] && !IsMiddle(ps[0])
    case TOPIC => registered && ps != [] && !IsMiddle(ps[0])
    case KICK => |ps| >= 2 && Operates(w, f, ps[0]) && !IsMiddle(ps[1])
    case INVITE => registered && |ps| >= 2 && Holders(w, ps[0]) != {} && !IsMiddle(ps[1])
    case MODE => |ps| >= 2 && Operates(w, f, ps[0]) && OrdersBadWord(ps)
    case Unknown => m.cmd != "" && m.cmd[0] == ':'
    case _ => false
  }

  // A line after which a client is sent a message, other than an echo, that does not read back: a
  // line of its own that is answered before it has a nick or quotes a bad word, or an operator's
  // order that announces a bad key in a channel of which it is a member.
  ghost predicate Garbles(w: World, a: Act, g: int) {
    && a.Command? && a.who in w.people
    && var f, m := a.who, Parse(a.line);
       if f != g then AsksBadKey(m) && Operates(w, f, m.params[0]) && g in w.rooms[m.params[0]].members
       else if w.people[f].nick == "" then m.cmd != "" && !Accepted(w, a, f, VerbOf(UpperCase(m.cmd)))
       else QuotesBadWord(w, f, m)
  }

  // ---------- Mail, piece by piece ----------

  lemma PlainOne(m: Mail, g: int)
    ensures PlainTo([m], g) <==> (m.to == g ==> Plain(m.wire))
  {
    assert [m][0] == m;
  }

  lemma PlainToAll(members: seq<int>, wire: Wire, g: int)
    ensures PlainTo(ToAll(members, wire), g) <==> (g in members ==> Plain(wire))
  {
    hide Plain;
    if g in members {
      var k :| 0 <= k < |members| && members[k] == g;
      assert ToAll(members, wire)[k] == Mail(g, wire);
    }
  }

  lemma PlainAppend(a: seq<Mail>, b: seq<Mail>, g: int)
    ensures PlainTo(a + b, g) <==> PlainTo(a, g) && PlainTo(b, g)
  {
    hide Plain;
    if PlainTo(a + b, g) {
      forall k | 0 <= k < |b| && b[k].to == g ensures Plain(b[k].wire) {
        assert b[k] == (a + b)[|a| + k];
      }
      forall k | 0 <= k < |a| && a[k].to == g ensures Plain(a[k].wire) {
        assert a[k] == (a + b)[k];
      }
    }
  }

  lemma NumericPlain(code: int, nick: string, about: seq<string>)
    ensures Plain(Numeric(code, nick, about)) <==> IsMiddle(nick) && (HidesArg(code) || AllMiddle(about))
  {
    hide IsMiddle, HidesArg;
    var args := Args(Numeric(code, nick, about));
    assert args[0] == nick;
    assert forall k :: 0 <= k < |args| - 1 ==> args[k + 1] == about[k];
    if AllMiddle(args) && !HidesArg(code) {
      forall k | 0 <= k < |about| ensures IsMiddle(about[k]) {
        assert args[k + 1] == about[k];
      }
    }
  }

  lemma AnswerPlain(w: World, f: int, code: int, arg: string, g: int)
    requires f in w.people
    ensures PlainTo(Answer(w, f, code, arg).mail, g)
       <==> (f == g ==> IsMiddle(w.people[f].nick) && (HidesArg(code) || IsMiddle(arg)))
  {
    hide IsMiddle, HidesArg, Plain;
    NumericPlain(code, w.people[f].nick, [arg]);
    PlainOne(Mail(f, Numeric(code, w.people[f].nick, [arg])), g);
    assert AllMiddle([arg]) <==> IsMiddle([arg][0]);
  }

  lemma AnswerTwoPlain(w: World, f: int, code: int, a: string, b: string, g: int)
    requires f in w.people && !HidesArg(code)
    ensures PlainTo(AnswerTwo(w, f, code, a, b).mail, g)
       <==> (f == g ==> IsMiddle(w.people[f].nick) && IsMiddle(a) && IsMiddle(b))
  {
    hide IsMiddle, HidesArg, Plain;
    NumericPlain(code, w.people[f].nick, [a, b]);
    PlainOne(Mail(f, Numeric(code, w.people[f].nick, [a, b])), g);
    assert AllMiddle([a, b]) <==> IsMiddle([a, b][0]) && IsMiddle([a, b][1]);
  }

  // ---------- Command by command ----------

  lemma WordsAreMiddle()
    ensures IsMiddle("PASS") && IsMiddle("USER") && IsMiddle("JOIN") && IsMiddle("TOPIC") && IsMiddle("KICK")
    ensures IsMiddle("INVITE") && IsMiddle("MODE")
  {
  }

  ghost predicate Named(w: World, f: int) { f in w.people && w.people[f].nick != "" }

  lemma NamedIsMiddle(w: World, f: int)
    requires Inv(w) && Named(w, f)
    ensures IsMiddle(w.people[f].nick) && IsNickname(w.people[f].nick) && w.people[f].passOk && w.people[f].nickOk
    ensures w.people[f].registered <==> w.people[f].userOk
  {
    assert PersonOk(w.people[f]);
    NicknameIsMiddle(w.people[f].nick);
  }

  lemma PassQuotes(w: World, f: int, ps: seq<string>, g: int)
    requires Inv(w) && Named(w, f)
    ensures PlainTo(DecidePass(w, f, ps).mail, g)
  {
    hide Answer, IsMiddle, IsNickname, Inv;
    WordsAreMiddle();
    NamedIsMiddle(w, f);
    AnswerPlain(w, f, 462, "PASS", g);
    AnswerPlain(w, f, 461, "PASS", g);
    AnswerPlain(w, f, 464, "PASS", g);
  }

  lemma UserQuotes(w: World, f: int, ps: seq<string>, g: int)
    requires Inv(w) && Named(w, f)
    ensures PlainTo(DecideUser(w, f, ps).mail, g)
  {
    hide Answer, IsMiddle, IsNickname, Inv;
    WordsAreMiddle();
    NamedIsMiddle(w, f);
    AnswerPlain(w, f, 462, "USER", g);
    AnswerPlain(w, f, 461, "USER", g);
    NumericPlain(1, w.people[f].nick, []);
  }

  lemma NickQuotes(w: World, f: int, ps: seq<string>, g: int)
    requires Inv(w) && Named(w, f)
    ensures PlainTo(DecideNick(w, f, ps).mail, g) <==>
      (f == g ==>
         && !(ps != [] && !IsMiddle(ps[0]))
         && !(w.people[f].registered && ps != [] && IsNickname(ps[0]) && Holders(w, ps[0]) <= {f}))
  {
    hide Answer, IsMiddle, IsNickname, Inv, Holders;
    NamedIsMiddle(w, f);
    AnswerPlain(w, f, 431, NO_NICK, g);
    if ps != [] {
      AnswerPlain(w, f, 432, ps[0], g);
      AnswerPlain(w, f, 433, ps[0], g);
      assert Holders(w, ps[0]) - {f} == {} <==> Holders(w, ps[0]) <= {f};
      if IsNickname(ps[0]) {
        NicknameIsMiddle(ps[0]);
      }
      PlainOne(Mail(f, NickEcho(ps[0])), g);
      EchoIsNotPlain(NickEcho(ps[0]));
    }
  }

  lemma JoinQuotes(w: World, f: int, ps: seq<string>, g: int)
    requires Inv(w) && Named(w, f)
    ensures PlainTo(DecideJoin(w, f, ps).mail, g) <==>
      (f == g ==> !(w.people[f].registered && ps != [] && !IsMiddle(ps[0])))
  {
    hide Answer, IsMiddle, IsNickname, Inv, IsChannelName, JoinMail;
    WordsAreMiddle();
    NamedIsMiddle(w, f);
    AnswerPlain(w, f, 451, "JOIN", g);
    AnswerPlain(w, f, 461, "JOIN", g);
    if ps != [] {
      AnswerPlain(w, f, 403, ps[0], g);
      AnswerPlain(w, f, JoinRefusal(RoomAt(w, ps[0]), f, ps), ps[0], g);
      JoinMailQuotes(w, f, ps[0], g);
    }
  }

  lemma JoinMailQuotes(w: World, f: int, name: string, g: int)
    requires f in w.people && IsMiddle(w.people[f].nick)
    ensures PlainTo(JoinMail(w, f, name), g) <==> (f == g ==> IsMiddle(name))
  {
    hide IsMiddle, Entries, Apply;
    var joined, nick := RoomAt(Apply(w, f, Enter(name)), name), w.people[f].nick;
    var told := ToAll(joined.members, Relay(nick, "JOIN", [], Some(name)));
    var names, end := Mail(f, NamesAre(nick, name, Entries(w, joined))), Mail(f, Numeric(366, nick, [name]));
    PlainToAll(joined.members, Relay(nick, "JOIN", [], Some(name)), g);
    PlainAppend(told, [names], g);
    PlainAppend(told + [names], [end], g);
    PlainOne(names, g);
    PlainOne(end, g);
    NumericPlain(366, nick, [name]);
    NamesPlain(nick, name, Entries(w, joined));
    assert AllMiddle([name]) <==> IsMiddle([name][0]);
  }

  lemma NamesPlain(nick: string, name: string, entries: seq<NameEntry>)
    requires IsMiddle(nick)
    ensures Plain(NamesAre(nick, name, entries)) <==> IsMiddle(name)
  {
    hide IsMiddle;
    assert IsMiddle("=") by { EqualsIsMiddle(); }
    assert Args(NamesAre(nick, name, entries))[2] == name;
  }

  lemma EqualsIsMiddle()
    ensures IsMiddle("=")
  {
  }

  lemma PrivmsgQuotes(w: World, f: int, ps: seq<string>, g: int)
    requires Inv(w) && Named(w, f) && ParsedParams(ps)
    ensures PlainTo(DecidePrivmsg(w, f, ps).mail, g)
  {
    hide Answer, IsMiddle, IsNickname, Inv, Holders;
    NamedIsMiddle(w, f);
    AnswerPlain(w, f, 451, "PRIVMSG", g);
    AnswerPlain(w, f, 411, "", g);
    AnswerPlain(w, f, 412, "", g);
    if |ps| >= 2 {
      var target, wire := ps[0], Relay(w.people[f].nick, "PRIVMSG", [ps[0]], Some(ps[1]));
      assert IsMiddle(target);
      AnswerPlain(w, f, 403, target, g);
      AnswerPlain(w, f, 404, target, g);
      AnswerPlain(w, f, 401, target, g);
      if target in w.rooms {
        PlainToAll(Without(w.rooms[target].members, f), wire, g);
      }
    }
  }

  lemma TopicQuotes(w: World, f: int, ps: seq<string>, g: int)
    requires Inv(w) && Named(w, f) && ParsedParams(ps)
    ensures PlainTo(DecideTopic(w, f, ps).mail, g) <==>
      (f == g ==> !(w.people[f].registered && ps != [] && !IsMiddle(ps[0])))
  {
    hide Answer, IsMiddle, IsNickname, Inv;
    WordsAreMiddle();
    NamedIsMiddle(w, f);
    AnswerPlain(w, f, 451, "TOPIC", g);
    AnswerPlain(w, f, 461, "TOPIC", g);
    if ps != [] {
      var name := ps[0];
      AnswerPlain(w, f, 403, name, g);
      AnswerPlain(w, f, 331, name, g);
      AnswerPlain(w, f, 442, name, g);
      AnswerPlain(w, f, 482, name, g);
      assert |ps| >= 2 ==> IsMiddle(name);
      if name in w.rooms {
        TopicTellsPlainly(w, f, ps, g);
      }
    }
  }

  lemma TopicTellsPlainly(w: World, f: int, ps: seq<string>, g: int)
    requires f in w.people && ps != [] && ps[0] in w.rooms && IsMiddle(w.people[f].nick)
    ensures var t := TopicIs(w.people[f].nick, ps[0], w.rooms[ps[0]].topic);
            PlainTo([Mail(f, t)], g) <==> (f == g ==> IsMiddle(ps[0]))
    ensures |ps| >= 2 && IsMiddle(ps[0]) ==>
      var wire := Relay(w.people[f].nick, "TOPIC", [ps[0]], Some(ps[1]));
      PlainTo(ToAll(Without(w.rooms[ps[0]].members, f), wire) + [Mail(f, wire)], g)
  {
    hide IsMiddle;
    var t := TopicIs(w.people[f].nick, ps[0], w.rooms[ps[0]].topic);
    PlainOne(Mail(f, t), g);
    assert Args(t)[1] == ps[0];
  }

  // Whoever is in a room under some nick has a nick that can stand as a middle.
  lemma MemberNickIsMiddle(w: World, name: string, nick: string)
    requires Inv(w) && name in w.rooms && exists t :: t in Holders(w, nick) && t in w.rooms[name].members
    ensures IsMiddle(nick)
  {
    var t :| t in Holders(w, nick) && t in w.rooms[name].members;
    MemberHolder(w, name, nick, t);
    assert PersonOk(w.people[t]);
    NicknameIsMiddle(nick);
  }

  lemma KickQuotes(w: World, f: int, ps: seq<string>, g: int)
    requires Inv(w) && Named(w, f) && ParsedParams(ps)
    ensures PlainTo(DecideKick(w, f, ps).mail, g) <==>
      (f == g ==> !(|ps| >= 2 && Operates(w, f, ps[0]) && !IsMiddle(ps[1])))
  {
    hide Answer, AnswerTwo, IsMiddle, IsNickname, Inv, Holders;
    WordsAreMiddle();
    NamedIsMiddle(w, f);
    AnswerPlain(w, f, 451, "KICK", g);
    AnswerPlain(w, f, 461, "KICK", g);
    if |ps| >= 2 {
      var name := ps[0];
      assert IsMiddle(name);
      AnswerPlain(w, f, 403, name, g);
      AnswerPlain(w, f, 482, name, g);
      AnswerPlain(w, f, 401, ps[1], g);
      AnswerTwoPlain(w, f, 441, ps[1], name, g);
      NoticePlain(w.people[f].nick, KICK_NOTICE);
      PlainOne(Mail(f, Notice(w.people[f].nick, KICK_NOTICE)), g);
      if Operates(w, f, name) {
        OperatorIsMember(w, f, name);
        if exists t :: t in Holders(w, ps[1]) && t in w.rooms[name].members {
          MemberNickIsMiddle(w, name, ps[1]);
          var reason := if |ps| > 2 then ps[2] else w.people[f].nick;
          var wire := Relay(w.people[f].nick, "KICK", [name, ps[1]], Some(reason));
          PlainToAll(w.rooms[name].members, wire, g);
        }
      }
    }
  }

  lemma NoticePlain(nick: string, notice: string)
    requires IsMiddle(nick)
    ensures Plain(Notice(nick, notice))
  {
  }

  lemma InviteQuotes(w: World, f: int, ps: seq<string>, g: int)
    requires Inv(w) && Named(w, f) && ParsedParams(ps)
    ensures PlainTo(DecideInvite(w, f, ps).mail, g) <==>
      (f == g ==> !(w.people[f].registered && |ps| >= 2 && Holders(w, ps[0]) != {} && !IsMiddle(ps[1])))
  {
    hide Answer, AnswerTwo, IsMiddle, IsNickname, Inv, Holders;
    WordsAreMiddle();
    NamedIsMiddle(w, f);
    AnswerPlain(w, f, 451, "INVITE", g);
    AnswerPlain(w, f, 461, "INVITE", g);
    if |ps| >= 2 {
      var nick, name := ps[0], ps[1];
      assert IsMiddle(nick);
      AnswerPlain(w, f, 401, nick, g);
      AnswerPlain(w, f, 403, name, g);
      AnswerPlain(w, f, 482, name, g);
      AnswerTwoPlain(w, f, 443, nick, name, g);
      if Holders(w, nick) != {} {
        InvitedHearsPlainly(w, f, Pick(Holders(w, nick)), nick, name, g);
      }
    }
  }

  lemma InvitedHearsPlainly(w: World, f: int, t: int, nick: string, name: string, g: int)
    requires f in w.people && IsMiddle(w.people[f].nick) && IsMiddle(nick)
    ensures var relay, told := Relay(w.people[f].nick, "INVITE", [nick], Some(name)),
              Numeric(341, w.people[f].nick, [nick, name]);
            PlainTo([Mail(t, relay)] + [Mail(f, told)], g) <==> (f == g ==> IsMiddle(name))
  {
    hide IsMiddle;
    var sender := w.people[f].nick;
    var relay, told := Relay(sender, "INVITE", [nick], Some(name)), Numeric(341, sender, [nick, name]);
    PlainAppend([Mail(t, relay)], [Mail(f, told)], g);
    PlainOne(Mail(t, relay), g);
    PlainOne(Mail(f, told), g);
    NumericPlain(341, sender, [nick, name]);
    assert AllMiddle([nick, name]) <==> IsMiddle([nick, name][0]) && IsMiddle([nick, name][1]);
  }

  // An announcement is plain when all its arguments are middles.
  lemma AnnouncePlain(room: Room, nick: string, edit: Edit, args: seq<string>, g: int)
    ensures PlainTo(Announce(room, nick, edit, args).mail, g) <==> (g in room.members ==> AllMiddle(args))
  {
    hide IsMiddle;
    PlainToAll(room.members, Relay(nick, "MODE", args, None), g);
  }

  lemma OperatorQuotes(w: World, f: int, name: string, on: bool, ps: seq<string>, g: int)
    requires Inv(w) && Named(w, f) && name in w.rooms && IsMiddle(name)
    ensures PlainTo(DecideOperator(w, f, name, w.rooms[name], on, ps).mail, g) <==>
      (f == g ==> !(|ps| >= 3 && !IsMiddle(ps[2])))
  {
    hide Answer, AnswerTwo, IsMiddle, IsNickname, Inv, Holders, Announce;
    WordsAreMiddle();
    ModesAreMiddle();
    NamedIsMiddle(w, f);
    AnswerPlain(w, f, 461, "MODE", g);
    if |ps| >= 3 {
      var room, sender := w.rooms[name], w.people[f].nick;
      AnswerPlain(w, f, 401, ps[2], g);
      AnswerTwoPlain(w, f, 441, ps[2], name, g);
      if exists t :: t in Holders(w, ps[2]) && t in room.members {
        MemberNickIsMiddle(w, name, ps[2]);
        NoticePlain(sender, REVOKE_NOTICE);
        PlainOne(Mail(f, Notice(sender, REVOKE_NOTICE)), g);
        AnnouncePlain(room, sender, Grant(name, Pick(Holders(w, ps[2]))), [name, "+o", ps[2]], g);
        AnnouncePlain(room, sender, Revoke(name, Pick(Holders(w, ps[2]))), [name, "-o", ps[2]], g);
      }
    }
  }

  lemma KeyQuotes(w: World, f: int, name: string, on: bool, ps: seq<string>, g: int)
    requires Inv(w) && Named(w, f) && name in w.rooms && IsMiddle(name)
    ensures PlainTo(DecideKey(w, f, name, w.rooms[name], on, ps).mail, g) <==>
      (g in w.rooms[name].members ==> !(on && |ps| >= 3 && !IsMiddle(ps[2])))
  {
    hide Answer, IsMiddle, IsNickname, Inv, Announce;
    WordsAreMiddle();
    ModesAreMiddle();
    NamedIsMiddle(w, f);
    AnswerPlain(w, f, 461, "MODE", g);
    var room, sender := w.rooms[name], w.people[f].nick;
    AnnouncePlain(room, sender, SetKey(name, ""), [name, "-k"], g);
    if |ps| >= 3 {
      AnnouncePlain(room, sender, SetKey(name, ps[2]), [name, "+k", ps[2]], g);
      assert AllMiddle([name, "+k", ps[2]]) <==> IsMiddle([name, "+k", ps[2]][2]);
    }
  }

  lemma LimitQuotes(w: World, f: int, name: string, on: bool, ps: seq<string>, g: int)
    requires Inv(w) && Named(w, f) && name in w.rooms && IsMiddle(name)
    ensures PlainTo(DecideLimit(w, f, name, w.rooms[name], on, ps).mail, g)
  {
    hide Answer, IsMiddle, IsNickname, Inv, Announce, IsNumber, Atoi;
    WordsAreMiddle();
    ModesAreMiddle();
    NamedIsMiddle(w, f);
    AnswerPlain(w, f, 461, "MODE", g);
    var room, sender := w.rooms[name], w.people[f].nick;
    AnnouncePlain(room, sender, SetLimit(name, 0), [name, "-l"], g);
    if |ps| >= 3 && IsNumber(ps[2]) {
      NumberIsMiddle(ps[2]);
      AnnouncePlain(room, sender, SetLimit(name, Atoi(ps[2])), [name, "+l", ps[2]], g);
    }
  }

  lemma ModeStepQuotes(w: World, f: int, ps: seq<string>, g: int)
    requires Inv(w) && Named(w, f) && ParsedParams(ps) && |ps| >= 2 && Operates(w, f, ps[0])
    ensures PlainTo(ModeOutcome(w, f, ps[0], ps).mail, g) <==>
      (if f == g then !OrdersBadWord(ps)
       else g in w.rooms[ps[0]].members ==> !(ps[1] == "+k" && |ps| >= 3 && !IsMiddle(ps[2])))
  {
    hide Answer, IsMiddle, IsNickname, Inv, Announce, DecideKey, DecideLimit, DecideOperator;
    ModesAreMiddle();
    NamedIsMiddle(w, f);
    OperatorIsMember(w, f, ps[0]);
    var name, room, sender := ps[0], w.rooms[ps[0]], w.people[f].nick;
    assert IsMiddle(name);
    match ModeOf(ps[1])
    case InviteOnly(on) => AnnouncePlain(room, sender, SetInviteOnly(name, on), [name, ps[1]], g);
    case TopicLock(on) => AnnouncePlain(room, sender, LockTopic(name, on), [name, ps[1]], g);
    case Key(on) => KeyQuotes(w, f, name, on, ps, g);
    case Limit(on) => LimitQuotes(w, f, name, on, ps, g);
    case Operator(on) => OperatorQuotes(w, f, name, on, ps, g);
    case NoMode => AnswerPlain(w, f, 472, ps[1], g);
  }

  lemma ModeQuotes(w: World, f: int, ps: seq<string>, g: int)
    requires Inv(w) && Named(w, f) && ParsedParams(ps)
    ensures PlainTo(DecideMode(w, f, ps).mail, g) <==>
      (|ps| >= 2 && Operates(w, f, ps[0]) ==>
         if f == g then !OrdersBadWord(ps)
         else g in w.rooms[ps[0]].members ==> !(ps[1] == "+k" && |ps| >= 3 && !IsMiddle(ps[2])))
  {
    hide Answer, IsMiddle, IsNickname, Inv, ModeOutcome, OrdersBadWord;
    WordsAreMiddle();
    NamedIsMiddle(w, f);
    AnswerPlain(w, f, 451, "MODE", g);
    AnswerPlain(w, f, 461, "MODE", g);
    if |ps| >= 2 {
      assert IsMiddle(ps[0]);
      AnswerPlain(w, f, 403, ps[0], g);
      AnswerPlain(w, f, 482, ps[0], g);
      if Operates(w, f, ps[0]) {
        OperatorIsMember(w, f, ps[0]);
        ModeStepQuotes(w, f, ps, g);
      }
    }
  }

  lemma UpperCaseMiddle(cmd: string)
    requires BlankFree(cmd) && cmd != ""
    ensures IsMiddle(UpperCase(cmd)) <==> cmd[0] != ':'
  {
    assert forall i :: 0 <= i < |cmd| ==> !IsBlank(cmd[i]) && !IsBlank(UpperCase(cmd)[i]);
  }

  // ---------- One act ----------

  lemma NamedQuotes(w: World, f: int, m: Message, g: int)
    requires Inv(w) && Named(w, f) && Canonical(m)
    ensures PlainTo(Decide(w, f, m).mail, g) <==>
      (if f == g then
         && !QuotesBadWord(w, f, m)
         && !(VerbOf(UpperCase(m.cmd)) == NICK && w.people[f].registered && m.params != [] &&
              IsNickname(m.params[0]) && Holders(w, m.params[0]) <= {f})
       else !(AsksBadKey(m) && Operates(w, f, m.params[0]) && g in w.rooms[m.params[0]].members))
  {
    hide VerbOf, UpperCase, IsMiddle, IsNickname, Inv, Holders, Operates, DecidePass, DecideNick, DecideUser,
      DecideJoin, DecidePrivmsg, DecideTopic, DecideKick, DecideInvite, DecideMode, Answer, PlainTo;
    var ps := m.params;
    match VerbOf(UpperCase(m.cmd))
    case PASS => PassQuotes(w, f, ps, g);
    case NICK => NickQuotes(w, f, ps, g);
    case USER => UserQuotes(w, f, ps, g);
    case JOIN => JoinQuotes(w, f, ps, g);
    case PRIVMSG => PrivmsgQuotes(w, f, ps, g);
    case TOPIC => TopicQuotes(w, f, ps, g);
    case KICK => KickQuotes(w, f, ps, g);
    case INVITE => InviteQuotes(w, f, ps, g);
    case MODE => ModeQuotes(w, f, ps, g);
    case Unknown =>
      if m.cmd != "" {
        NamedIsMiddle(w, f);
        UpperCaseMiddle(m.cmd);
        AnswerPlain(w, f, 421, UpperCase(m.cmd), g);
      } else {
        NothingPlain(g);
      }
  }

  lemma NothingPlain(g: int)
    ensures PlainTo([], g)
  {
  }

  // A client without a nick is answered by numerics in which the nick is missing.
  lemma NicklessQuotes(w: World, f: int, line: string, g: int)
    requires Inv(w) && f in w.people && w.people[f].nick == ""
    ensures var m := Parse(line);
            PlainTo(React(w, f, line).mail, g) <==>
              (f == g ==> m.cmd == "" || Accepted(w, Command(f, line), f, VerbOf(UpperCase(m.cmd))))
    ensures !w.people[f].registered
  {
    hide VerbOf, UpperCase, IsMiddle, IsNickname, Holders, Answer, PlainTo, Parse, DecideNick;
    var m := Parse(line);
    NoNick(w, f);
    NothingPlain(g);
    AnswersPlain(w, f, g);
    NickOfNickless(w, f, m.params, g);
    EmptyIsUnknown();
  }

  lemma EmptyIsUnknown()
    ensures VerbOf(UpperCase("")) == Unknown
  {
  }

  lemma NickOfNickless(w: World, f: int, ps: seq<string>, g: int)
    requires Inv(w) && f in w.people && w.people[f].nick == ""
    ensures PlainTo(DecideNick(w, f, ps).mail, g) <==>
      (f == g ==>
         && w.people[f].passOk && ps != [] && IsNickname(ps[0])
         && forall h :: h in w.people && h != f ==> w.people[h].nick != ps[0])
  {
    hide IsMiddle, IsNickname, Holders, Answer, PlainTo, Inv;
    NoNick(w, f);
    NothingPlain(g);
    AnswersPlain(w, f, g);
    if ps != [] && IsNickname(ps[0]) {
      NicknameIsMiddle(ps[0]);
      FreeNick(w, f, ps[0]);
      NumericPlain(1, ps[0], []);
      PlainOne(Mail(f, Numeric(1, ps[0], [])), g);
    }
  }

  lemma NoNick(w: World, f: int)
    requires Inv(w) && f in w.people && w.people[f].nick == ""
    ensures !w.people[f].registered && !w.people[f].nickOk && !IsMiddle("")
  {
    assert PersonOk(w.people[f]);
  }

  lemma AnswersPlain(w: World, f: int, g: int)
    requires f in w.people && !IsMiddle(w.people[f].nick)
    ensures forall code, arg :: PlainTo(Answer(w, f, code, arg).mail, g) <==> f != g
  {
    forall code, arg ensures PlainTo(Answer(w, f, code, arg).mail, g) <==> f != g {
      AnswerPlain(w, f, code, arg, g);
    }
  }

  // An act sends a client something that does not read back as it is meant exactly when it is a
  // change of its nick after registration or a line of the other kind.
  lemma ActQuotes(w: World, a: Act, g: int)
    requires Inv(w)
    ensures PlainTo(Emit(w, a), g) <==> !Renames(w, a, g) && !Garbles(w, a, g)
  {
    hide Inv, VerbOf, UpperCase, IsMiddle, IsNickname, Holders, Decide, Parse, Accepted, QuotesBadWord;
    NothingPlain(g);
    if a.Command? && a.who in w.people {
      ParseCanonical(a.line);
      if w.people[a.who].nick == "" {
        NicklessQuotes(w, a.who, a.line, g);
        OnlyRegisteredOperate(w, a.who);
      } else {
        NamedQuotes(w, a.who, Parse(a.line), g);
      }
    }
  }

  lemma OnlyRegisteredOperate(w: World, f: int)
    requires Inv(w) && f in w.people && !w.people[f].registered
    ensures forall name :: !Operates(w, f, name)
  {
    forall name | Operates(w, f, name) ensures false {
      OperatorIsMember(w, f, name);
    }
  }

  // Over any history a client is sent only messages that read back as they are meant exactly when
  // none of its lines was of either kind, as things stood when it was handled.
  lemma {:induction false} HistoryQuotes(w: World, acts: seq<Act>, g: int)
    requires Inv(w)
    ensures PlainTo(EmitAll(w, acts), g) <==>
      forall t :: 0 <= t < |acts| ==> !Renames(At(w, acts, t), acts[t], g) && !Garbles(At(w, acts, t), acts[t], g)
    decreases |acts|
  {
    hide Perform, Emit, Inv, Renames, Garbles, At, EmitAll, PerformAll, PlainTo;
    if acts == [] {
      EmitNothing(w);
      NothingPlain(g);
    } else {
      var n := |acts| - 1;
      var front, last := acts[..n], acts[n];
      assert front + [last] == acts;
      HistoryQuotes(w, front, g);
      PerformAllKeepsInv(w, front);
      PerformLast(w, front, last);
      AtFront(w, front, last);
      ActQuotes(PerformAll(w, front), last, g);
      PlainAppend(EmitAll(w, front), Emit(PerformAll(w, front), last), g);
    }
  }

  // ---------- Prefixes and commands ----------

  lemma CommandHeaded(w: World, f: int, m: Message)
    requires Inv(w) && f in w.people
    ensures HeadedMail(Decide(w, f, m).mail)
  {
    hide VerbOf, UpperCase, IsNickname, Holders, Inv, Entries, Apply, KeyFits, HasSpace, IsNumber, Atoi, IsChannelName,
      ModeOutcome, BlankFree;
    VerbsAreWords();
    NickIsBlankFree(w, f);
    if VerbOf(UpperCase(m.cmd)) == MODE && |m.params| >= 2 {
      ModeHeaded(w, f, m.params[0], m.params);
    }
  }

  lemma NickIsBlankFree(w: World, f: int)
    requires Inv(w) && f in w.people
    ensures BlankFree(w.people[f].nick)
  {
    assert PersonOk(w.people[f]);
    if w.people[f].nick != "" {
      NicknameIsMiddle(w.people[f].nick);
    }
  }

  lemma ModeHeaded(w: World, f: int, name: string, ps: seq<string>)
    requires f in w.people && |ps| >= 2 && BlankFree(w.people[f].nick)
    ensures HeadedMail(ModeOutcome(w, f, name, ps).mail)
  {
    hide Holders, IsNumber, Atoi, BlankFree;
    VerbsAreWords();
  }

  lemma {:induction false} HistoryHeaded(w: World, acts: seq<Act>)
    requires Inv(w)
    ensures HeadedMail(EmitAll(w, acts))
    decreases |acts|
  {
    hide Perform, Inv, Decide, WellHeaded;
    if acts != [] {
      if acts[0].Command? && acts[0].who in w.people {
        CommandHeaded(w, acts[0].who, Parse(acts[0].line));
      }
      PerformKeepsInv(w, acts[0]);
      HistoryHeaded(Perform(w, acts[0]), acts[1..]);
    }
  }

  // Over any history of LF-free lines, what is queued to a client reads back as exactly the
  // messages meant for it, in order, if and only if no line was of either kind.
  lemma HistoryReadsBack(w: World, acts: seq<Act>, g: int)
    requires Inv(w) && Clean(w) && forall k :: 0 <= k < |acts| ==> acts[k].Command? ==> LfFree(acts[k].line)
    ensures CleanMail(EmitAll(w, acts))
    ensures Received(TextsTo(EmitAll(w, acts), g)) == IntendedTo(EmitAll(w, acts), g) <==>
      forall t :: 0 <= t < |acts| ==> !Renames(At(w, acts, t), acts[t], g) && !Garbles(At(w, acts, t), acts[t], g)
  {
    hide Inv, Clean, LfFree, EmitAll, Received, IntendedTo, PlainTo, Renames, Garbles, At, HeadedMail;
    HistoryClean(w, acts);
    HistoryHeaded(w, acts);
    HistoryQuotes(w, acts, g);
    StreamReadsBack(EmitAll(w, acts), g);
  }
}
