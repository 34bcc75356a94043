// End to end: what a recipient reads, with the server's own framing and parser, is what was meant.
module RelayLaws {
  import opened Text
  import opened Parser
  import opened Framing
  import opened Wire
  import opened World
  import opened Invariant
  import opened Net
  import opened Streams

  // ---------- Strings without LF, everywhere ----------

  ghost predicate CleanPerson(p: Person) { LfFree(p.nick) && LfFree(p.user) }

  ghost predicate CleanRoom(name: string, room: Room) { LfFree(name) && LfFree(room.topic) && LfFree(room.key) }

  ghost predicate Clean(w: World) {
    && (forall f :: f in w.people ==> CleanPerson(w.people[f]))
    && (forall name :: name in w.rooms ==> CleanRoom(name, w.rooms[name]))
  }

  ghost predicate AllLfFree(ss: seq<string>) { forall k :: 0 <= k < |ss| ==> LfFree(ss[k]) }

  ghost predicate CleanWire(w: Wire) {
    match w
    case Numeric(code, nick, about) => KnownCode(code) && LfFree(nick) && AllLfFree(about)
    case TopicIs(nick, channel, topic) => LfFree(nick) && LfFree(channel) && LfFree(topic)
    case NamesAre(nick, channel, entries) =>
      LfFree(nick) && LfFree(channel) && forall k :: 0 <= k < |entries| ==> LfFree(entries[k].nick)
    case Notice(nick, notice) => LfFree(nick) && LfFree(notice)
    case Relay(source, verb, args, text) =>
      LfFree(source) && LfFree(verb) && AllLfFree(args) && (text.Some? ==> LfFree(text.value))
    case NickEcho(nick) => LfFree(nick)
  }

  ghost predicate CleanMail(mail: seq<Mail>) { forall k :: 0 <= k < |mail| ==> CleanWire(mail[k].wire) }

  lemma ToAllClean(members: seq<int>, wire: Wire)
    requires CleanWire(wire)
    ensures CleanMail(ToAll(members, wire))
  {
  }

  lemma UpperCaseClean(s: string)
    requires LfFree(s)
    ensures LfFree(UpperCase(s))
  {
  }

  // ---------- Commands keep the world clean and queue clean messages ----------

  ghost predicate CleanOutcome(w: World, f: int, o: Outcome)
    requires f in w.people
  {
    Clean(Apply(w, f, o.edit)) && CleanMail(o.mail)
  }

  lemma CodesKnown()
    ensures forall c :: (c in {1, 331, 332, 341, 353, 366, 401, 403, 404, 421, 431, 432, 433, 441, 442, 443, 451, 411,
                               412, 461, 462, 464, 471, 472, 473, 475, 482}) ==> KnownCode(c)
  {
  }

  lemma VerbsClean()
    ensures LfFree("JOIN") && LfFree("KICK") && LfFree("MODE") && LfFree("TOPIC")
    ensures LfFree("PRIVMSG") && LfFree("INVITE")
    ensures LfFree("PASS") && LfFree("USER") && LfFree("")
    ensures LfFree("+o") && LfFree("-o") && LfFree("+k") && LfFree("-k") && LfFree("+l") && LfFree("-l")
  {
  }

  lemma TextsClean()
    ensures LfFree(NICK_FIRST) && LfFree(USER_FIRST) && LfFree(NO_NICK)
  {
  }

  lemma KickNoticeClean()
    ensures LfFree(KICK_NOTICE)
  {
  }

  lemma RevokeNoticeClean()
    ensures LfFree(REVOKE_NOTICE)
  {
  }

  lemma PassClean(w: World, f: int, ps: seq<string>)
    requires Clean(w) && f in w.people
    ensures CleanOutcome(w, f, DecidePass(w, f, ps))
  {
    hide KnownCode, LfFree;
    CodesKnown();
    VerbsClean();
  }

  lemma NickClean(w: World, f: int, ps: seq<string>)
    requires Clean(w) && f in w.people && AllLfFree(ps)
    ensures CleanOutcome(w, f, DecideNick(w, f, ps))
  {
    hide KnownCode, LfFree, IsNickname, Holders;
    CodesKnown();
    VerbsClean();
    TextsClean();
  }

  lemma UserClean(w: World, f: int, ps: seq<string>)
    requires Clean(w) && f in w.people && AllLfFree(ps)
    ensures CleanOutcome(w, f, DecideUser(w, f, ps))
  {
    hide KnownCode, LfFree;
    CodesKnown();
    VerbsClean();
    TextsClean();
  }

  lemma EntriesClean(w: World, room: Room)
    requires Clean(w)
    ensures forall k :: 0 <= k < |Entries(w, room)| ==> LfFree(Entries(w, room)[k].nick)
  {
  }

  lemma JoinClean(w: World, f: int, ps: seq<string>)
    requires Clean(w) && f in w.people && AllLfFree(ps)
    ensures CleanOutcome(w, f, DecideJoin(w, f, ps))
  {
    hide IsChannelName, KnownCode, LfFree, Entries, KeyFits, HasSpace;
    CodesKnown();
    VerbsClean();
    var o := DecideJoin(w, f, ps);
    if o.edit.Enter? {
      var joined := RoomAt(Apply(w, f, o.edit), ps[0]);
      EntriesClean(w, joined);
      ToAllClean(joined.members, Relay(w.people[f].nick, "JOIN", [], Some(ps[0])));
    }
  }

  lemma PrivmsgClean(w: World, f: int, ps: seq<string>)
    requires Clean(w) && f in w.people && AllLfFree(ps)
    ensures CleanOutcome(w, f, DecidePrivmsg(w, f, ps))
  {
    hide KnownCode, LfFree, Holders;
    CodesKnown();
    VerbsClean();
  }

  lemma TopicClean(w: World, f: int, ps: seq<string>)
    requires Clean(w) && f in w.people && AllLfFree(ps)
    ensures CleanOutcome(w, f, DecideTopic(w, f, ps))
  {
    hide KnownCode, LfFree;
    CodesKnown();
    VerbsClean();
  }

  lemma KickClean(w: World, f: int, ps: seq<string>)
    requires Clean(w) && f in w.people && AllLfFree(ps)
    ensures CleanOutcome(w, f, DecideKick(w, f, ps))
  {
    hide KnownCode, LfFree, Holders;
    CodesKnown();
    VerbsClean();
    KickNoticeClean();
  }

  lemma InviteClean(w: World, f: int, ps: seq<string>)
    requires Clean(w) && f in w.people && AllLfFree(ps)
    ensures CleanOutcome(w, f, DecideInvite(w, f, ps))
  {
    hide KnownCode, LfFree, Holders;
    CodesKnown();
    VerbsClean();
  }

  lemma OperatorChangeClean(w: World, f: int, name: string, on: bool, t: int, nick: string)
    requires Clean(w) && f in w.people && name in w.rooms && LfFree(nick)
    ensures CleanOutcome(w, f, OperatorChange(w, f, name, w.rooms[name], on, t, nick))
  {
    hide KnownCode, LfFree;
    VerbsClean();
    RevokeNoticeClean();
  }

  lemma ModeClean(w: World, f: int, ps: seq<string>)
    requires Clean(w) && f in w.people && AllLfFree(ps) && |ps| >= 2 && ps[0] in w.rooms
    ensures CleanOutcome(w, f, ModeOutcome(w, f, ps[0], ps))
  {
    hide KnownCode, LfFree, Holders, IsNumber, Atoi, DecideOperator, ModeOf;
    CodesKnown();
    VerbsClean();
    if ModeOf(ps[1]).Operator? {
      OperatorClean(w, f, ps[0], ModeOf(ps[1]).on, ps);
    }
  }

  lemma OperatorClean(w: World, f: int, name: string, on: bool, ps: seq<string>)
    requires Clean(w) && f in w.people && AllLfFree(ps) && |ps| >= 2 && name in w.rooms
    ensures CleanOutcome(w, f, DecideOperator(w, f, name, w.rooms[name], on, ps))
  {
    hide KnownCode, LfFree, Holders, OperatorChange;
    CodesKnown();
    VerbsClean();
    if |ps| >= 3 && Holders(w, ps[2]) != {} {
      OperatorChangeClean(w, f, name, on, Pick(Holders(w, ps[2])), ps[2]);
    }
  }

  // LF-free fields in, LF-free state and messages out.
  lemma CommandClean(w: World, f: int, m: Message)
    requires Clean(w) && f in w.people && LfFree(m.cmd) && AllLfFree(m.params)
    ensures CleanOutcome(w, f, Decide(w, f, m))
  {
    hide KnownCode, LfFree, DecidePass, DecideNick, DecideUser, DecideJoin, DecidePrivmsg, DecideTopic, DecideKick,
      DecideInvite, ModeOutcome, VerbOf, UpperCase;
    CodesKnown();
    VerbsClean();
    UpperCaseClean(m.cmd);
    var ps := m.params;
    match VerbOf(UpperCase(m.cmd))
    case PASS => PassClean(w, f, ps);
    case NICK => NickClean(w, f, ps);
    case USER => UserClean(w, f, ps);
    case JOIN => JoinClean(w, f, ps);
    case PRIVMSG => PrivmsgClean(w, f, ps);
    case TOPIC => TopicClean(w, f, ps);
    case KICK => KickClean(w, f, ps);
    case INVITE => InviteClean(w, f, ps);
    case MODE =>
      if |ps| >= 2 && ps[0] in w.rooms {
        ModeClean(w, f, ps);
      }
    case Unknown =>
  }

  lemma ActClean(w: World, a: Act)
    requires Clean(w) && (a.Command? ==> LfFree(a.line))
    ensures Clean(Perform(w, a)) && CleanMail(Emit(w, a))
  {
    hide Decide, LfFree, Apply, Parse;
    VerbsClean();
    if a.Command? && a.who in w.people {
      ParseLfFree(a.line);
      CommandClean(w, a.who, Parse(a.line));
    }
  }

  // No stored string and no queued message ever holds an LF that a client sent.
  lemma {:induction false} HistoryClean(w: World, acts: seq<Act>)
    requires Clean(w) && forall k :: 0 <= k < |acts| ==> acts[k].Command? ==> LfFree(acts[k].line)
    ensures Clean(PerformAll(w, acts)) && CleanMail(EmitAll(w, acts))
    decreases |acts|
  {
    hide Clean, Perform, Emit, LfFree, CleanWire;
    if acts != [] {
      ActClean(w, acts[0]);
      HistoryClean(Perform(w, acts[0]), acts[1..]);
    }
  }

  // Framing hands only LF-free lines to the dispatcher.
  lemma FramedLinesClean(f: int, stream: string)
    ensures forall k :: 0 <= k < |Commands(f, RawLines(stream))| ==> LfFree(Commands(f, RawLines(stream))[k].line)
  {
    FramingConserves(stream);
  }

  // ---------- Terminated messages ----------

  lemma {:induction false} ArgsLfFree(args: seq<string>)
    requires AllLfFree(args)
    ensures LfFree(PrintArgs(args))
  {
    if args != [] {
      ArgsLfFree(args[1..]);
    }
  }

  lemma {:induction false} NamesLfFree(entries: seq<NameEntry>)
    requires forall k :: 0 <= k < |entries| ==> LfFree(entries[k].nick)
    ensures LfFree(NamesText(entries))
    decreases |entries|
  {
    if entries != [] {
      NamesLfFree(entries[..|entries| - 1]);
    }
  }

  lemma CodeTextLfFree(code: int)
    requires 0 <= code < 1000
    ensures LfFree(CodeText(code))
  {
  }

  // The text of a message without its CRLF, if it has one.
  function Line(w: Wire): string
    requires w.Numeric? ==> KnownCode(w.code)
  {
    if w.NickEcho? then "NICK :" + w.nick else PartsText(Sections(w))
  }

  lemma SectionsLfFree(w: Wire)
    requires CleanWire(w) && !w.NickEcho?
    ensures var p := Sections(w);
            LfFree(p.prefix) && LfFree(p.cmd) && AllLfFree(p.args) && LfFree(PrintText(p.text))
  {
    hide KnownCode, HidesArg, CodeText, Explanation;
    CodesAreSmall();
    assert LfFree("ircserv") && LfFree("NOTICE") && LfFree("=");
    match w
    case Numeric(code, nick, about) => CodeTextLfFree(code);
    case TopicIs(_, _, _) => CodeTextLfFree(332);
    case NamesAre(_, _, entries) =>
      CodeTextLfFree(353);
      NamesLfFree(entries);
    case _ =>
  }

  // Every message but the nick echo ends in CRLF and holds no other LF.
  lemma MessageIsOneLine(w: Wire)
    requires CleanWire(w) && !w.NickEcho?
    ensures Render(w) == Line(w) + "\r\n" && LfFree(Line(w))
  {
    hide Sections, LfFree, KnownCode;
    SectionsLfFree(w);
    var p := Sections(w);
    ArgsLfFree(p.args);
    Glued(p.prefix, p.cmd, PrintArgs(p.args), PrintText(p.text));
  }

  lemma Glued(a: string, b: string, c: string, d: string)
    requires LfFree(a) && LfFree(b) && LfFree(c) && LfFree(d)
    ensures LfFree(":" + a + " " + b + (c + d))
  {
  }

  // ---------- Reading a send buffer back ----------

  // What a client that frames and parses as the server does reads from bytes.
  function Received(bytes: string): seq<Message> { ReadLines(RawLines(bytes)) }

  function ReadLines(lines: seq<string>): seq<Message> {
    seq(|lines|, k requires 0 <= k < |lines| => Parse(Chomp(lines[k])))
  }

  // The message that a wire is meant to be: its prefix, command and parameters.
  function Intended(w: Wire): Message
    requires w.Numeric? ==> KnownCode(w.code)
  {
    if w.NickEcho? then Message("", "NICK", [w.nick])
    else var p := Sections(w); Message(p.prefix, p.cmd, p.args + TextParam(p.text))
  }

  ghost predicate Known(mail: seq<Mail>) {
    forall k :: 0 <= k < |mail| && mail[k].wire.Numeric? ==> KnownCode(mail[k].wire.code)
  }

  // The messages that mail to one client is meant to be.
  ghost function IntendedTo(mail: seq<Mail>, f: int): seq<Message>
    requires Known(mail)
  {
    if mail == [] then []
    else (if mail[0].to == f then [Intended(mail[0].wire)] else []) + IntendedTo(mail[1..], f)
  }

  predicate NoEchoTo(mail: seq<Mail>, f: int) {
    forall k :: 0 <= k < |mail| && mail[k].to == f ==> !mail[k].wire.NickEcho?
  }

  lemma ReadOne(line: string, rest: string)
    requires LfFree(line)
    ensures Received(line + "\r\n" + rest) == [Parse(line)] + Received(rest)
    ensures Residual(line + "\r\n" + rest) == Residual(rest)
  {
    hide Parse;
    var raw := line + "\r";
    assert line + "\r\n" + rest == raw + "\n" + rest;
    RawLinesCons(raw, rest);
    assert Chomp(raw) == line by {
      assert raw[..|line|] == line;
    }
  }

  // What a client hears of mail when some text without a terminator is already there. An echo is
  // put in front of the next terminated message, and the two are heard as one.
  ghost function Heard(mail: seq<Mail>, f: int, pending: string): seq<Message>
    requires Known(mail)
  {
    if mail == [] then []
    else if mail[0].to != f then Heard(mail[1..], f, pending)
    else if mail[0].wire.NickEcho? then Heard(mail[1..], f, pending + Line(mail[0].wire))
    else [Parse(pending + Line(mail[0].wire))] + Heard(mail[1..], f, "")
  }

  lemma EchoLfFree(pending: string, nick: string)
    requires LfFree(pending) && LfFree(nick)
    ensures LfFree(pending + Line(NickEcho(nick))) && Render(NickEcho(nick)) == Line(NickEcho(nick))
  {
  }

  lemma BothLfFree(a: string, b: string)
    requires LfFree(a) && LfFree(b)
    ensures LfFree(a + b)
  {
  }

  lemma NothingReceived(pending: string)
    requires LfFree(pending)
    ensures Received(pending) == []
  {
    NoLines(pending);
  }

  lemma Following(pending: string, line: string, rest: string)
    ensures pending + (line + "\r\n" + rest) == pending + line + "\r\n" + rest
  {
  }

  lemma ReadAfter(w: Wire, pending: string, rest: string)
    requires CleanWire(w) && !w.NickEcho? && LfFree(pending)
    ensures Received(pending + (Render(w) + rest)) == [Parse(pending + Line(w))] + Received("" + rest)
  {
    hide Parse, Line, Render, LfFree, Received, KnownCode;
    MessageIsOneLine(w);
    BothLfFree(pending, Line(w));
    Following(pending, Line(w), rest);
    ReadOne(pending + Line(w), rest);
    assert "" + rest == rest;
  }

  // Every stream of queued messages, echoes included, is read back as exactly this.
  lemma {:induction false} StreamIsHeard(mail: seq<Mail>, f: int, pending: string)
    requires CleanMail(mail) && LfFree(pending)
    ensures Received(pending + TextsTo(mail, f)) == Heard(mail, f, pending)
    decreases |mail|
  {
    hide Parse, Line, Render, KnownCode, LfFree, Received;
    if mail == [] {
      assert pending + "" == pending;
      NothingReceived(pending);
    } else {
      var w, rest := mail[0].wire, TextsTo(mail[1..], f);
      if mail[0].to != f {
        assert "" + rest == rest;
        StreamIsHeard(mail[1..], f, pending);
      } else if w.NickEcho? {
        EchoLfFree(pending, w.nick);
        Regroup(pending, Line(w), rest);
        StreamIsHeard(mail[1..], f, pending + Line(w));
      } else {
        ReadAfter(w, pending, rest);
        EmptyIsLfFree();
        StreamIsHeard(mail[1..], f, "");
      }
    }
  }

  // The first echo swallows what follows it: the client reads one NICK, to a nick that is not one.
  lemma EchoSwallows(nick: string, line: string)
    ensures Parse(Line(NickEcho(nick)) + line) == Message("", "NICK", [nick + line])
  {
    var text := "NICK :" + nick + line;
    var tail := " :" + (nick + line);
    assert text == "NICK" + tail && SkipBlanks(text) == text;
    WordThenBlank("NICK", tail);
    ParamsTrailing(nick + line);
  }

  // ---------- Messages that read back as they are meant ----------

  ghost predicate AllMiddle(args: seq<string>) { forall k :: 0 <= k < |args| ==> IsMiddle(args[k]) }

  // A parameter at the end of a line, without ':', is read back just when it is a middle.
  lemma LastReadsBack(p: string)
    ensures Params(" " + p) == [p] <==> IsMiddle(p)
  {
    var s := " " + p;
    assert s[1..] == p;
    if IsMiddle(p) {
      ParamsStep(p, "");
      assert s + "" == s && [p] + Params("") == [p];
    } else {
      var t := SkipBlanks(p);
      assert SkipBlanks(s) == t;
      assert t != "" && t[0] != ':' ==> Params(s)[0] == Word(t);
    }
  }

  lemma SamePrefix(a: seq<string>, x: seq<string>, y: seq<string>)
    ensures a + x == a + y <==> x == y
  {
    assert (a + x)[|a|..] == x && (a + y)[|a|..] == y;
  }

  lemma FirstArg(a: string, rest: seq<string>)
    ensures PrintArgs([a] + rest) == " " + a + PrintArgs(rest)
  {
    assert ([a] + rest)[1..] == rest;
  }

  lemma {:induction false} LastArg(front: seq<string>, last: string)
    ensures PrintArgs(front + [last]) == PrintArgs(front) + (" " + last)
  {
    hide PrintArgs;
    FirstArg(last, []);
    if front == [] {
      NoArgs();
      assert [last] + [] == [last] == front + [last];
      assert " " + last + "" == " " + last == "" + (" " + last);
    } else {
      var a, rest := front[0], front[1..];
      assert front == [a] + rest && front + [last] == [a] + (rest + [last]);
      LastArg(rest, last);
      FirstArg(a, rest);
      FirstArg(a, rest + [last]);
      Regroup(" " + a, PrintArgs(rest), " " + last);
    }
  }

  lemma NoArgs()
    ensures PrintArgs([]) == ""
  {
  }

  // A message whose last argument is not announced by ':' and the arguments before it are middles.
  lemma LastArgReadsBack(p: Parts)
    requires BlankFree(p.prefix) && BlankFree(p.cmd) && p.cmd != "" && p.text == None && p.args != []
    requires AllMiddle(p.args[..|p.args| - 1])
    ensures Parse(PartsText(p)) == Message(p.prefix, p.cmd, p.args) <==> IsMiddle(p.args[|p.args| - 1])
  {
    hide IsMiddle, Parse;
    var front, last := p.args[..|p.args| - 1], p.args[|p.args| - 1];
    var tail := PrintArgs(front) + (" " + last);
    LastArg(front, last);
    assert p.args == front + [last];
    assert PrintArgs(p.args) + "" == tail;
    ArgsStartBlank(front);
    ParseHead(p.prefix, p.cmd, tail);
    ParamsOfArgs(front, " " + last);
    LastReadsBack(last);
    SamePrefix(front, Params(" " + last), [last]);
  }

  // A message reads back as it is meant exactly when all its arguments can stand as middles.
  lemma PartsReadBack(p: Parts)
    requires BlankFree(p.prefix) && BlankFree(p.cmd) && p.cmd != ""
    ensures Parse(PartsText(p)) == Message(p.prefix, p.cmd, p.args + TextParam(p.text)) <==> AllMiddle(p.args)
  {
    hide IsMiddle, Parse;
    var meant := Message(p.prefix, p.cmd, p.args + TextParam(p.text));
    if AllMiddle(p.args) {
      ParseParts(p.prefix, p.cmd, p.args, p.text);
    } else if Parse(PartsText(p)) == meant {
      ParseCanonical(PartsText(p));
      assert forall k :: 0 <= k < |p.args| ==> meant.params[k] == p.args[k];
      if p.text == None {
        assert p.args + [] == p.args;
        LastArgReadsBack(p);
      }
    }
  }

  // The prefix and the command are words.
  predicate WellHeaded(w: Wire) { w.Relay? ==> BlankFree(w.source) && BlankFree(w.verb) && w.verb != "" }

  // No echo, and nothing in it but the last parameter needs a ':'.
  ghost predicate Plain(w: Wire) { !w.NickEcho? && AllMiddle(Args(w)) }

  lemma ReadsBack(w: Wire)
    requires CleanWire(w) && WellHeaded(w) && !w.NickEcho?
    ensures Parse(Line(w)) == Intended(w) <==> Plain(w)
  {
    hide Parse, KnownCode, Explanation, NamesText, PartsText;
    CodesAreSmall();
    PartsReadBack(Sections(w));
  }

  // The same, with framing.
  lemma MessageReadsBack(w: Wire)
    requires CleanWire(w) && WellHeaded(w) && !w.NickEcho?
    ensures Received(Render(w)) == [Intended(w)] <==> Plain(w)
  {
    hide Parse, KnownCode, Line, Render, Plain, Intended, Received;
    MessageIsOneLine(w);
    NothingReceived("") by { EmptyIsLfFree(); }
    assert Line(w) + "\r\n" + "" == Line(w) + "\r\n";
    ReadOne(Line(w), "");
    ReadsBack(w);
    assert [Parse(Line(w))] == [Intended(w)] <==> Parse(Line(w)) == Intended(w);
  }

  ghost predicate HeadedMail(mail: seq<Mail>) { forall k :: 0 <= k < |mail| ==> WellHeaded(mail[k].wire) }

  ghost predicate PlainTo(mail: seq<Mail>, f: int) {
    forall k :: 0 <= k < |mail| && mail[k].to == f ==> Plain(mail[k].wire)
  }

  lemma SameFirst<T>(x: T, a: seq<T>, y: T, b: seq<T>)
    ensures [x] + a == [y] + b <==> x == y && a == b
  {
    assert ([x] + a)[0] == x && ([x] + a)[1..] == a && ([y] + b)[0] == y && ([y] + b)[1..] == b;
  }

  lemma {:induction false} EchoesAreNotHeard(mail: seq<Mail>, f: int, pending: string)
    requires CleanMail(mail) && HeadedMail(mail)
    ensures |Heard(mail, f, pending)| <= |IntendedTo(mail, f)|
    ensures !NoEchoTo(mail, f) ==> |Heard(mail, f, pending)| < |IntendedTo(mail, f)|
    ensures pending == "" ==> (Heard(mail, f, pending) == IntendedTo(mail, f) <==> PlainTo(mail, f))
    decreases |mail|
  {
    hide Parse, Line, KnownCode, Intended, Plain;
    if mail != [] {
      var w := mail[0].wire;
      EchoesAreNotHeard(mail[1..], f, pending);
      EchoesAreNotHeard(mail[1..], f, pending + Line(w));
      EchoesAreNotHeard(mail[1..], f, "");
      assert "" + Line(w) == Line(w);
      assert NoEchoTo(mail, f) <==> (mail[0].to == f ==> !w.NickEcho?) && NoEchoTo(mail[1..], f);
      assert PlainTo(mail, f) <==> (mail[0].to == f ==> Plain(w)) && PlainTo(mail[1..], f);
      if !w.NickEcho? {
        ReadsBack(w);
        SameFirst(Parse(Line(w)), Heard(mail[1..], f, ""), Intended(w), IntendedTo(mail[1..], f));
      } else {
        assert !Plain(w) by { EchoIsNotPlain(w); }
      }
    }
  }

  lemma EchoIsNotPlain(w: Wire)
    requires w.NickEcho?
    ensures !Plain(w)
  {
  }

  // The whole stream queued to a client, in however many pieces it travels, reads back as exactly
  // the messages meant for it, in order, if and only if none of them is a nick echo or has an
  // argument that cannot stand as a middle.
  lemma StreamReadsBack(mail: seq<Mail>, f: int)
    requires CleanMail(mail) && HeadedMail(mail)
    ensures Received(TextsTo(mail, f)) == IntendedTo(mail, f) <==> PlainTo(mail, f)
  {
    hide CleanWire, LfFree, Plain;
    EmptyIsLfFree();
    assert "" + TextsTo(mail, f) == TextsTo(mail, f);
    StreamIsHeard(mail, f, "");
    EchoesAreNotHeard(mail, f, "");
  }

  // ---------- Relayed commands ----------

  // A MODE line that asks for a key which cannot stand as a middle parameter.
  predicate AsksBadKey(m: Message) {
    VerbOf(UpperCase(m.cmd)) == MODE && |m.params| >= 3 && m.params[1] == "+k" && !IsMiddle(m.params[2])
  }

  // The announcement of a key.
  ghost predicate KeyEcho(w: Wire, key: string) {
    && w.Relay? && w.verb == "MODE" && w.text == None
    && |w.args| == 3 && IsMiddle(w.args[0]) && w.args[1] == "+k" && w.args[2] == key
  }

  // What is relayed on behalf of a sender names it and keeps to parameters that can be read back.
  ghost predicate SoundRelay(w: World, f: int, wire: Wire)
    requires f in w.people
  {
    wire.Relay? ==>
      && wire.source == w.people[f].nick && w.people[f].registered
      && BlankFree(wire.verb) && wire.verb != ""
      && AllMiddle(wire.args)
  }

  ghost predicate SoundMail(w: World, f: int, mail: seq<Mail>)
    requires f in w.people
  {
    forall k :: 0 <= k < |mail| ==> SoundRelay(w, f, mail[k].wire)
  }

  lemma NicknameIsMiddle(nick: string)
    requires IsNickname(nick)
    ensures IsMiddle(nick) && LfFree(nick)
  {
  }

  lemma ModesAreMiddle()
    ensures IsMiddle("+i") && IsMiddle("-i") && IsMiddle("+t") && IsMiddle("-t")
    ensures IsMiddle("+k") && IsMiddle("-k") && IsMiddle("+l") && IsMiddle("-l") && IsMiddle("+o") && IsMiddle("-o")
  {
  }

  lemma VerbsAreWords()
    ensures BlankFree("JOIN") && BlankFree("KICK") && BlankFree("MODE") && BlankFree("TOPIC")
    ensures BlankFree("PRIVMSG") && BlankFree("INVITE")
  {
  }

  lemma NumberIsMiddle(s: string)
    requires IsNumber(s)
    ensures IsMiddle(s)
  {
  }

  lemma KickSound(w: World, f: int, ps: seq<string>)
    requires Inv(w) && f in w.people && ParsedParams(ps)
    ensures SoundMail(w, f, DecideKick(w, f, ps).mail)
  {
    hide IsMiddle, IsNickname;
    VerbsAreWords();
    var o := DecideKick(w, f, ps);
    if o.edit.Expel? {
      var t :| t in Holders(w, ps[1]) && t in w.rooms[ps[0]].members;
      MemberHolder(w, ps[0], ps[1], t);
      assert PersonOk(w.people[t]);
      NicknameIsMiddle(ps[1]);
    }
  }

  lemma InviteSound(w: World, f: int, ps: seq<string>)
    requires Inv(w) && f in w.people && ParsedParams(ps)
    ensures SoundMail(w, f, DecideInvite(w, f, ps).mail)
  {
    hide IsMiddle, Holders, Inv;
    VerbsAreWords();
  }

  lemma OperatorSound(w: World, f: int, name: string, on: bool, ps: seq<string>)
    requires Inv(w) && f in w.people && w.people[f].registered && name in w.rooms && IsMiddle(name)
    ensures SoundMail(w, f, DecideOperator(w, f, name, w.rooms[name], on, ps).mail)
  {
    hide IsMiddle, IsNickname;
    VerbsAreWords();
    ModesAreMiddle();
    if |ps| >= 3 && exists t :: t in Holders(w, ps[2]) && t in w.rooms[name].members {
      var t :| t in Holders(w, ps[2]) && t in w.rooms[name].members;
      MemberHolder(w, name, ps[2], t);
      assert PersonOk(w.people[t]);
      NicknameIsMiddle(ps[2]);
    }
  }

  lemma ModeSound(w: World, f: int, ps: seq<string>)
    requires Inv(w) && f in w.people && w.people[f].registered && ParsedParams(ps) && |ps| >= 2 && ps[0] in w.rooms
    requires ps[1] == "+k" && |ps| >= 3 ==> IsMiddle(ps[2])
    ensures SoundMail(w, f, ModeOutcome(w, f, ps[0], ps).mail)
  {
    hide IsMiddle, Inv, DecideOperator, IsNumber, Atoi;
    VerbsAreWords();
    ModesAreMiddle();
    assert IsMiddle(ps[0]);
    var mode := ModeOf(ps[1]);
    if mode.Operator? {
      OperatorSound(w, f, ps[0], mode.on, ps);
    } else if mode == Limit(true) && |ps| >= 3 && IsNumber(ps[2]) {
      NumberIsMiddle(ps[2]);
    }
  }

  // Every relay can be read back but one: the announcement of a key that is not a middle.
  lemma RelaysAreSound(w: World, f: int, m: Message)
    requires Inv(w) && f in w.people && ParsedParams(m.params) && !AsksBadKey(m)
    ensures SoundMail(w, f, Decide(w, f, m).mail)
  {
    hide IsMiddle, Inv, Holders, DecideKick, DecideInvite, ModeOutcome, VerbOf, UpperCase, IsNickname,
      IsChannelName, Entries;
    VerbsAreWords();
    var ps := m.params;
    match VerbOf(UpperCase(m.cmd))
    case KICK => KickSound(w, f, ps);
    case INVITE => InviteSound(w, f, ps);
    case MODE =>
      if |ps| >= 2 && ps[0] in w.rooms && w.people[f].registered {
        ModeSound(w, f, ps);
      }
    case _ =>
  }

  lemma BadKeyIsEchoed(w: World, f: int, m: Message, k: nat)
    requires f in w.people && ParsedParams(m.params) && AsksBadKey(m) && k < |Decide(w, f, m).mail|
    ensures var wire := Decide(w, f, m).mail[k].wire;
            wire.Relay? ==> KeyEcho(wire, m.params[2]) && wire.source == w.people[f].nick && w.people[f].registered
  {
    hide IsMiddle, VerbOf, UpperCase;
    assert IsMiddle(m.params[0]);
  }

  lemma MiddleIsBlankFree(s: string)
    requires IsMiddle(s)
    ensures BlankFree(s)
  {
  }

  // Whatever line a client frames: each message relayed for it reads back, at the other end, as one
  // message from the sender's nick with the verb and parameters decided on, if and only if the line
  // is not a MODE +k whose key has blanks, a leading ':' or nothing in it.
  lemma RelayedExactly(w: World, f: int, line: string, k: nat)
    requires Inv(w) && Clean(w) && f in w.people && LfFree(line) && k < |React(w, f, line).mail|
    ensures var wire := React(w, f, line).mail[k].wire;
            wire.Relay? ==>
              (Received(Render(wire)) == [Message(w.people[f].nick, wire.verb, wire.args + TextParam(wire.text))]
               <==> !AsksBadKey(Parse(line)))
  {
    hide Parse, Clean, CleanWire, IsMiddle, IsNickname, Decide, Received, Render, VerbOf, UpperCase, KeyEcho;
    ParseCanonical(line);
    ParseLfFree(line);
    CommandClean(w, f, Parse(line));
    var wire := React(w, f, line).mail[k].wire;
    if wire.Relay? {
      if AsksBadKey(Parse(line)) {
        BadKeyIsEchoed(w, f, Parse(line), k);
        KeyEchoIsNotPlain(wire, Parse(line).params[2]);
      } else {
        RelaysAreSound(w, f, Parse(line));
      }
      assert PersonOk(w.people[f]);
      NicknameIsMiddle(w.people[f].nick);
      MiddleIsBlankFree(w.people[f].nick);
      MessageReadsBack(wire);
    }
  }

  lemma KeyEchoIsNotPlain(w: Wire, key: string)
    requires KeyEcho(w, key) && !IsMiddle(key)
    ensures WellHeaded(w) == BlankFree(w.source) && !AllMiddle(w.args)
  {
    VerbsAreWords();
    assert !IsMiddle(w.args[2]);
  }

  // PRIVMSG: its addressees, and what each of them reads.
  lemma PrivmsgRelayed(w: World, f: int, line: string)
    requires Inv(w) && Clean(w) && f in w.people && LfFree(line) && w.people[f].registered
    requires VerbOf(UpperCase(Parse(line).cmd)) == PRIVMSG && |Parse(line).params| >= 2 && Parse(line).params[1] != ""
    ensures var target, o, nick := Parse(line).params[0], React(w, f, line), w.people[f].nick;
            var read := [Message(nick, "PRIVMSG", Parse(line).params[..2])];
            && target != "" && o.edit == Nothing
            && (target[0] == '#' && target in w.rooms && f in w.rooms[target].members ==>
                  && |o.mail| == |w.rooms[target].members| - 1
                  && (forall g :: g in w.rooms[target].members && g != f <==> exists m :: m in o.mail && m.to == g)
                  && forall m :: m in o.mail ==> Received(Render(m.wire)) == read)
            && (target[0] != '#' && Holders(w, target) != {} ==>
                  |o.mail| == 1 && Holders(w, target) == {o.mail[0].to} && Received(Render(o.mail[0].wire)) == read)
  {
    hide Parse, Clean, CleanWire, Received, Render, VerbOf, UpperCase, IsNickname;
    ParseCanonical(line);
    var ps, o := Parse(line).params, React(w, f, line);
    var target := ps[0];
    assert IsMiddle(target) && ps[..2] == [target] + [ps[1]];
    forall k | 0 <= k < |o.mail| && o.mail[k].wire.Relay?
      ensures Received(Render(o.mail[k].wire)) == [Message(w.people[f].nick, "PRIVMSG", ps[..2])] {
      RelayedExactly(w, f, line, k);
    }
    if target[0] == '#' {
      if target in w.rooms && f in w.rooms[target].members {
        var others := Without(w.rooms[target].members, f);
        assert RoomOk(w.people, w.rooms[target]);
        WithoutNoDup(w.rooms[target].members, f);
        Addressees(others, Relay(w.people[f].nick, "PRIVMSG", [target], Some(ps[1])));
      }
    } else if Holders(w, target) != {} {
      OnlyHolder(w, target, Pick(Holders(w, target)));
    }
  }

  // A PRIVMSG that names a channel which is not open or of which the sender is no member, or a nick
  // that nobody holds, reaches nobody; the sender is refused.
  lemma PrivmsgRefused(w: World, f: int, line: string)
    requires f in w.people && w.people[f].registered
    requires VerbOf(UpperCase(Parse(line).cmd)) == PRIVMSG && |Parse(line).params| >= 2 && Parse(line).params[1] != ""
    ensures var target, o := Parse(line).params[0], React(w, f, line);
            target != "" &&
            (if target[0] == '#' then target !in w.rooms || f !in w.rooms[target].members
             else forall g :: g in w.people ==> w.people[g].nick != target)
            ==> o.edit == Nothing && |o.mail| == 1 && o.mail[0].to == f && IsRefusal(o.mail[0].wire)
  {
    hide Parse, VerbOf, UpperCase;
  }

  // No message reaches a channel but from a member of it.
  lemma OnlyMembersSpeak(w: World, a: Act, name: string)
    requires Inv(w) && name != "" && name[0] == '#'
    ensures forall m :: m in Emit(w, a) && m.wire.Relay? && m.wire.verb == "PRIVMSG" && m.wire.args == [name] ==>
      name in w.rooms && a.who in w.rooms[name].members && m.to in w.rooms[name].members && m.to != a.who
  {
    hide VerbOf, UpperCase, Parse, Holders, Inv;
    if a.Command? && a.who in w.people {
      var m := Parse(a.line);
      if VerbOf(UpperCase(m.cmd)) == PRIVMSG {
        assert m.params != [] && [m.params[0]] == [name] ==> m.params[0] == name by {
          assert m.params != [] ==> [m.params[0]][0] == m.params[0];
          assert [name][0] == name;
        }
      } else {
        OtherVerbsSpeakNot(w, a.who, m);
      }
    }
  }

  lemma OtherVerbsSpeakNot(w: World, f: int, m: Message)
    requires f in w.people && VerbOf(UpperCase(m.cmd)) != PRIVMSG
    ensures forall k :: k in Decide(w, f, m).mail && k.wire.Relay? ==> k.wire.verb != "PRIVMSG"
  {
    hide VerbOf, UpperCase, Holders, Entries, Apply, KeyFits, HasSpace, IsNickname, IsChannelName, ModeOutcome;
    assert "PRIVMSG" != "JOIN" && "PRIVMSG" != "TOPIC" && "PRIVMSG" != "KICK" && "PRIVMSG" != "INVITE";
    if VerbOf(UpperCase(m.cmd)) == MODE && |m.params| >= 2 {
      ModeSpeaksNot(w, f, m.params[0], m.params);
    }
  }

  lemma ModeSpeaksNot(w: World, f: int, name: string, ps: seq<string>)
    requires f in w.people && |ps| >= 2
    ensures forall k :: k in ModeOutcome(w, f, name, ps).mail && k.wire.Relay? ==> k.wire.verb != "PRIVMSG"
  {
    hide Holders, IsNumber, Atoi;
    assert "PRIVMSG" != "MODE";
  }

  // TOPIC: an accepted change is told to every member exactly once, the sender last.
  lemma TopicRelayed(w: World, f: int, line: string)
    requires Inv(w) && Clean(w) && f in w.people && LfFree(line)
    requires VerbOf(UpperCase(Parse(line).cmd)) == TOPIC && React(w, f, line).edit.SetTopic?
    ensures var ps, o := Parse(line).params, React(w, f, line);
            && |ps| >= 2 && o.edit == SetTopic(ps[0], ps[1]) && ps[0] in w.rooms
            && |o.mail| == |w.rooms[ps[0]].members| && o.mail[|o.mail| - 1].to == f
            && (forall g :: g in w.rooms[ps[0]].members <==> exists m :: m in o.mail && m.to == g)
            && forall m :: m in o.mail ==> Received(Render(m.wire)) == [Message(w.people[f].nick, "TOPIC", ps[..2])]
  {
    hide Parse, Clean, CleanWire, Received, Render, VerbOf, UpperCase, IsNickname;
    ParseCanonical(line);
    var ps, o := Parse(line).params, React(w, f, line);
    var members := w.rooms[ps[0]].members;
    assert ps[..2] == [ps[0]] + [ps[1]];
    forall k | 0 <= k < |o.mail| && o.mail[k].wire.Relay?
      ensures Received(Render(o.mail[k].wire)) == [Message(w.people[f].nick, "TOPIC", ps[..2])] {
      RelayedExactly(w, f, line, k);
    }
    assert RoomOk(w.people, w.rooms[ps[0]]);
    WithoutNoDup(members, f);
    var wire := Relay(w.people[f].nick, "TOPIC", [ps[0]], Some(ps[1]));
    Addressees(Without(members, f), wire);
    assert o.mail == ToAll(Without(members, f), wire) + [Mail(f, wire)];
    assert o.mail[|o.mail| - 1] == Mail(f, wire);
  }

  // JOIN: each member, the newcomer included, gets the JOIN once; the newcomer then gets the two
  // replies; nobody else gets anything.
  lemma JoinTells(w: World, f: int, ps: seq<string>, g: int)
    requires Inv(w) && f in w.people && DecideJoin(w, f, ps).edit.Enter?
    ensures var name, nick, after := ps[0], w.people[f].nick, Apply(w, f, Enter(ps[0]));
            var room := after.rooms[name];
            TextsTo(DecideJoin(w, f, ps).mail, g)
              == (if g in room.members then Render(Relay(nick, "JOIN", [], Some(name))) else "")
               + (if g == f
                  then Render(Wire.NamesAre(nick, name, Entries(w, room))) + Render(Numeric(366, nick, [name])) else "")
  {
    hide Render, Entries, IsChannelName, JoinRefusal, Apply, TextsTo, RoomOk;
    var name, nick := ps[0], w.people[f].nick;
    DecideJoinAllowed(w, f, ps);
    ApplyKeepsInv(w, f, Enter(name));
    var room := RoomAt(Apply(w, f, Enter(name)), name);
    JoinStays(w, f, name);
    var relay := Relay(nick, "JOIN", [], Some(name));
    BroadcastExact(room.members, relay, g);
    var names, end := Wire.NamesAre(nick, name, Entries(w, room)), Numeric(366, nick, [name]);
    TwoMore(ToAll(room.members, relay), Mail(f, names), Mail(f, end), g);
  }

  lemma JoinStays(w: World, f: int, name: string)
    requires f in w.people && Inv(Apply(w, f, Enter(name)))
    ensures name in Apply(w, f, Enter(name)).rooms && NoDup(Apply(w, f, Enter(name)).rooms[name].members)
  {
    assert RoomOk(w.people, Apply(w, f, Enter(name)).rooms[name]);
  }

  lemma TwoMore(mail: seq<Mail>, a: Mail, b: Mail, g: int)
    ensures TextsTo(mail + [a] + [b], g) == TextsTo(mail, g)
      + ((if a.to == g then Render(a.wire) else "") + (if b.to == g then Render(b.wire) else ""))
  {
    hide Render, TextsTo;
    TextsToAppend(mail, [a], g);
    TextsToAppend(mail + [a], [b], g);
    OneText(a, g);
    OneText(b, g);
    var x, y, z := TextsTo(mail, g), TextsTo([a], g), TextsTo([b], g);
    assert x + y + z == x + (y + z);
  }

  lemma OneText(m: Mail, g: int)
    ensures TextsTo([m], g) == if m.to == g then Render(m.wire) else ""
  {
    hide Render;
    assert [m][1..] == [];
    var x := if m.to == g then Render(m.wire) else "";
    assert x + "" == x;
  }

  // An outcome that changes a channel tells everybody in it, in the sender's name.
  ghost predicate Tells(members: seq<int>, nick: string, o: Outcome) {
    o.edit != Nothing ==>
      && o.mail != [] && o.mail[0].wire.Relay? && o.mail[0].wire.source == nick
      && members != [] && o.mail == ToAll(members, o.mail[0].wire)
  }

  lemma KickTells(w: World, f: int, ps: seq<string>)
    requires f in w.people && forall name :: name in w.rooms ==> w.rooms[name].members != []
    ensures DecideKick(w, f, ps).edit != Nothing ==>
      && ps != [] && ps[0] in w.rooms
      && Tells(w.rooms[ps[0]].members, w.people[f].nick, DecideKick(w, f, ps))
  {
    hide Holders;
  }

  lemma ModeTells(w: World, f: int, name: string, ps: seq<string>)
    requires f in w.people && |ps| >= 2 && name in w.rooms && w.rooms[name].members != []
    ensures Tells(w.rooms[name].members, w.people[f].nick, ModeOutcome(w, f, name, ps))
  {
    hide Holders, IsNumber, Atoi, ModeOf;
  }

  // KICK and MODE: a change is told to each member of the channel as it was, once, and to nobody else.
  lemma ChangesAreTold(w: World, f: int, m: Message, g: int)
    requires Inv(w) && f in w.people
    requires VerbOf(UpperCase(m.cmd)) == KICK || VerbOf(UpperCase(m.cmd)) == MODE
    requires Decide(w, f, m).edit != Nothing
    ensures m.params != [] && m.params[0] in w.rooms
    ensures Decide(w, f, m).mail != []
    ensures var mail := Decide(w, f, m).mail;
            && mail[0].wire.Relay? && mail[0].wire.source == w.people[f].nick
            && TextsTo(mail, g) == if g in w.rooms[m.params[0]].members then Render(mail[0].wire) else ""
  {
    hide Render, VerbOf, UpperCase, TextsTo, Inv, DecideKick, ModeOutcome, NoDup;
    RoomsHaveMembers(w);
    KickTells(w, f, m.params);
    if |m.params| >= 2 && m.params[0] in w.rooms {
      ModeTells(w, f, m.params[0], m.params);
    }
    BroadcastExact(w.rooms[m.params[0]].members, Decide(w, f, m).mail[0].wire, g);
  }

  lemma Addressees(members: seq<int>, wire: Wire)
    ensures forall g :: g in members <==> exists m :: m in ToAll(members, wire) && m.to == g
    ensures forall m :: m in ToAll(members, wire) ==> m.wire == wire
  {
    forall g | g in members ensures exists m :: m in ToAll(members, wire) && m.to == g {
      var k :| 0 <= k < |members| && members[k] == g;
      assert ToAll(members, wire)[k] == Mail(g, wire);
    }
  }
}
