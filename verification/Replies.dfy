// The numeric replies: their texts, and which line gets which.
module ReplyLaws {
  import opened Text
  import opened Parser
  import opened Wire
  import opened World
  import opened Invariant
  import opened CommandLaws

  // ---------- Texts ----------

  // The replies as srcs/commands/replayCmd.cpp has them: the code, whether the words that the reply
  // is about are shown, and the text, after which the welcome repeats the nick.
  function CodeWord(code: int): string {
    match code
    case 1 => "001"
    case 331 => "331"
    case 341 => "341"
    case 366 => "366"
    case 401 => "401"
    case 403 => "403"
    case 404 => "404"
    case 421 => "421"
    case 431 => "431"
    case 432 => "432"
    case 433 => "433"
    case 441 => "441"
    case 442 => "442"
    case 443 => "443"
    case 451 => "451"
    case 411 => "411"
    case 412 => "412"
    case 461 => "461"
    case 462 => "462"
    case 464 => "464"
    case 471 => "471"
    case 472 => "472"
    case 473 => "473"
    case 475 => "475"
    case 482 => "482"
    case _ => ""
  }

  predicate ShowsWords(code: int) {
    code in {331, 341, 366, 401, 403, 404, 421, 432, 433, 441,
             442, 443, 461, 471, 472, 473, 475, 482}
  }

  function TextOf(code: int): string {
    match code
    case 1 => "Welcome to the Internet Relay Network "
    case 331 => "No topic is set"
    case 341 => "Inviting"
    case 366 => "End of /NAMES list"
    case 401 => "No such nick/channel"
    case 403 => "No such channel"
    case 404 => "Cannot send to channel"
    case 421 => "Unknown command"
    case 431 => "No nickname given"
    case 432 => "Erroneous nickname"
    case 433 => "Nickname is already in use"
    case 441 => "They aren't on that channel"
    case 442 => "You're not on that channel"
    case 443 => "is already on channel"
    case 451 => "You have not registered"
    case 411 => "No recipient given (PRIVMSG)"
    case 412 => "No text to send"
    case 461 => "Not enough parameters"
    case 462 => "Unauthorized command (already registered)"
    case 464 => "Password incorrect"
    case 471 => "Cannot join channel (+l)"
    case 472 => "is unknown mode char to me"
    case 473 => "Cannot join channel (+i)"
    case 475 => "Cannot join channel (+k)"
    case 482 => "You're not channel operator"
    case _ => ""
  }

  predicate IsSent(code: int) {
    code in {1, 331, 341, 366, 401, 403, 404, 421, 431, 432, 433, 441,
             442, 443, 451, 411, 412, 461, 462, 464, 471, 472, 473, 475, 482}
  }

  lemma LowCodes(code: int)
    requires IsSent(code) && code < 432
    ensures CodeText(code) == CodeWord(code)
  {
  }

  lemma MiddleCodes(code: int)
    requires IsSent(code) && 432 <= code < 461
    ensures CodeText(code) == CodeWord(code)
  {
  }

  lemma HighCodes(code: int)
    requires IsSent(code) && 461 <= code
    ensures CodeText(code) == CodeWord(code)
  {
  }

  lemma SentCodesKnown(code: int)
    requires IsSent(code)
    ensures 0 <= code < 1000 && KnownCode(code)
    ensures HidesArg(code) <==> !ShowsWords(code)
  {
  }

  lemma CodesWrittenOut(code: int)
    requires IsSent(code)
    ensures 0 <= code < 1000 && CodeText(code) == CodeWord(code) && KnownCode(code)
    ensures HidesArg(code) <==> !ShowsWords(code)
  {
    hide CodeText, CodeWord, KnownCode, HidesArg, ShowsWords, IsSent;
    SentCodesKnown(code);
    if code < 432 {
      LowCodes(code);
    } else if code < 461 {
      MiddleCodes(code);
    } else {
      HighCodes(code);
    }
  }

  lemma TextsWrittenOut(code: int, nick: string)
    requires IsSent(code)
    ensures Explanation(code, nick) == TextOf(code) + (if code == 1 then nick else "")
  {
    assert code != 1 ==> TextOf(code) + "" == TextOf(code);
  }

  // Every numeric that is sent is, byte for byte, the text of its code.
  lemma RepliesWrittenOut(code: int, nick: string, words: string)
    requires IsSent(code)
    ensures ReplyCmd(code, nick, words) ==
      ":ircserv " + CodeWord(code) + " " + nick + (if ShowsWords(code) then " " + words else "") +
      " :" + (TextOf(code) + (if code == 1 then nick else "")) + "\r\n"
  {
    hide CodeText, Explanation, CodeWord, TextOf, KnownCode, HidesArg, ShowsWords, IsSent;
    CodesWrittenOut(code);
    TextsWrittenOut(code, nick);
  }

  // ---------- Which line gets which ----------

  ghost predicate Nobody(w: World, nick: string) { forall g :: g in w.people ==> w.people[g].nick != nick }

  predicate ToChannel(ps: seq<string>) { |ps| >= 2 && ps[1] != "" && ps[0] != "" && ps[0][0] == '#' }

  predicate ToNick(ps: seq<string>) { |ps| >= 2 && ps[1] != "" && !(ps[0] != "" && ps[0][0] == '#') }

  ghost predicate NoSuchMember(w: World, name: string, nick: string) {
    !Nobody(w, nick) && forall t :: !MemberCalled(w, name, nick, t)
  }

  // A JOIN of an open channel by somebody who is not in it.
  predicate Knocks(w: World, f: int, ps: seq<string>) {
    && ps != [] && IsChannelName(ps[0]) && ps[0] in w.rooms && f !in w.rooms[ps[0]].members
  }

  predicate Uninvited(room: Room, f: int) { room.inviteOnly && f !in room.invited }

  predicate WrongKey(room: Room, ps: seq<string>) { room.key != "" && (|ps| < 2 || ps[1] != room.key) }

  const MODES := ["+i", "-i", "+t", "-t", "+k", "-k", "+l", "-l", "+o", "-o"]

  // A mode that lacks what it wants: a parameter, or for +l a positive number.
  predicate Lacks(ps: seq<string>)
    requires |ps| >= 2
  {
    || (ps[1] in ["+k", "-k", "+o", "-o"] && |ps| < 3)
    || (ps[1] == "+l" && (|ps| < 3 || !IsNumber(ps[2]) || Atoi(ps[2]) <= 0))
  }

  // Why a line is answered with a numeric, code by code, over all commands: verb and ps are the
  // command and its parameters, about are the words that the reply shows.
  ghost predicate Reason(w: World, f: int, verb: Verb, ps: seq<string>, code: int, about: seq<string>)
    requires f in w.people
  {
    var p := w.people[f];
    match code
    case 1 =>
      || (verb == NICK && p.passOk && !p.registered && p.userOk && ps != [] && IsNickname(ps[0]) &&
          forall g :: g in w.people && g != f ==> w.people[g].nick != ps[0])
      || (verb == USER && p.passOk && !p.registered && p.nickOk && |ps| >= 4)
    case 331 =>
      verb == TOPIC && p.registered && |ps| == 1 && ps[0] in w.rooms && w.rooms[ps[0]].topic == "" && about == ps
    case 341 => verb == INVITE && |ps| >= 2 && (exists t :: CanInvite(w, f, ps, t)) && about == ps[..2]
    case 366 =>
      verb == JOIN && p.registered && ps != [] && IsChannelName(ps[0]) && Admits(w, f, ps[0], ps) && about == [ps[0]]
    case 401 =>
      && p.registered && |ps| >= 2
      && ((verb == PRIVMSG && ToNick(ps) && Nobody(w, ps[0]) && about == [ps[0]])
       || (verb == KICK && Operates(w, f, ps[0]) && Nobody(w, ps[1]) && about == [ps[1]])
       || (verb == INVITE && Nobody(w, ps[0]) && about == [ps[0]])
       || (verb == MODE && Operates(w, f, ps[0]) && ps[1] in ["+o", "-o"] && |ps| >= 3 && Nobody(w, ps[2]) &&
           about == [ps[2]]))
    case 403 =>
      && p.registered && ps != []
      && ((verb == JOIN && !IsChannelName(ps[0]) && about == [ps[0]])
       || (verb == PRIVMSG && ToChannel(ps) && ps[0] !in w.rooms && about == [ps[0]])
       || (verb == TOPIC && ps[0] !in w.rooms && about == [ps[0]])
       || (verb in [KICK, MODE] && |ps| >= 2 && ps[0] !in w.rooms && about == [ps[0]])
       || (verb == INVITE && |ps| >= 2 && !Nobody(w, ps[0]) && ps[1] !in w.rooms && about == [ps[1]]))
    case 404 =>
      && verb == PRIVMSG && p.registered && ToChannel(ps) && about == [ps[0]]
      && ps[0] in w.rooms && f !in w.rooms[ps[0]].members
    case 411 => verb == PRIVMSG && p.registered && ps == []
    case 412 => verb == PRIVMSG && p.registered && ps != [] && (|ps| < 2 || ps[1] == "")
    case 431 => verb == NICK && p.passOk && ps == []
    case 432 => verb == NICK && p.passOk && ps != [] && !IsNickname(ps[0]) && about == [ps[0]]
    case 433 =>
      && verb == NICK && p.passOk && ps != [] && IsNickname(ps[0]) && about == [ps[0]]
      && (exists g :: g in w.people && g != f && w.people[g].nick == ps[0])
    case 441 =>
      && |ps| >= 2 && Operates(w, f, ps[0])
      && ((verb == KICK && NoSuchMember(w, ps[0], ps[1]) && about == [ps[1], ps[0]])
       || (verb == MODE && ps[1] in ["+o", "-o"] && |ps| >= 3 && NoSuchMember(w, ps[0], ps[2]) &&
           about == [ps[2], ps[0]]))
    case 442 =>
      && verb == TOPIC && p.registered && |ps| >= 2 && about == [ps[0]]
      && ps[0] in w.rooms && f !in w.rooms[ps[0]].members
    case 443 =>
      || (verb == JOIN && p.registered && ps != [] && IsChannelName(ps[0]) && ps[0] in w.rooms &&
          f in w.rooms[ps[0]].members && about == [ps[0]])
      || (verb == INVITE && |ps| >= 2 && Operates(w, f, ps[1]) && about == ps[..2] &&
          exists t :: MemberCalled(w, ps[1], ps[0], t))
    case 451 =>
      || (verb in [JOIN, PRIVMSG, TOPIC, KICK, INVITE, MODE] && !p.registered)
      || (verb == NICK && !p.passOk)
      || (verb == USER && !p.registered && !p.passOk)
    case 461 =>
      || (verb == PASS && !p.registered && ps == [] && about == ["PASS"])
      || (verb == USER && !p.registered && p.passOk && |ps| < 4 && about == ["USER"])
      || (verb == JOIN && p.registered && ps == [] && about == ["JOIN"])
      || (verb == TOPIC && p.registered && ps == [] && about == ["TOPIC"])
      || (verb == KICK && p.registered && |ps| < 2 && about == ["KICK"])
      || (verb == INVITE && p.registered && |ps| < 2 && about == ["INVITE"])
      || (verb == MODE && p.registered && (|ps| < 2 || (Operates(w, f, ps[0]) && Lacks(ps))) && about == ["MODE"])
    case 462 => verb in [PASS, USER] && p.registered
    case 464 => verb == PASS && !p.registered && ps != [] && ps[0] != w.passwd
    case 471 =>
      && verb == JOIN && p.registered && Knocks(w, f, ps) && about == [ps[0]]
      && var room := w.rooms[ps[0]];
         !Uninvited(room, f) && !WrongKey(room, ps) && 0 < room.limit <= |room.members|
    case 472 => verb == MODE && |ps| >= 2 && Operates(w, f, ps[0]) && ps[1] !in MODES && about == [ps[1]]
    case 473 =>
      verb == JOIN && p.registered && Knocks(w, f, ps) && about == [ps[0]] && Uninvited(w.rooms[ps[0]], f)
    case 475 =>
      && verb == JOIN && p.registered && Knocks(w, f, ps) && about == [ps[0]]
      && !Uninvited(w.rooms[ps[0]], f) && WrongKey(w.rooms[ps[0]], ps)
    case 482 =>
      && p.registered && |ps| >= 2
      && ((verb == TOPIC && ps[0] in w.rooms && f in w.rooms[ps[0]].members && w.rooms[ps[0]].topicLocked &&
           f !in w.rooms[ps[0]].ops && about == [ps[0]])
       || (verb in [KICK, MODE] && ps[0] in w.rooms && f !in w.rooms[ps[0]].ops && about == [ps[0]])
       || (verb == INVITE && !Nobody(w, ps[0]) && ps[1] in w.rooms && f !in w.rooms[ps[1]].ops && about == [ps[1]]))
    case _ => false
  }

  // A numeric of a code is sent to the sender, under its nick, about some words.
  ghost predicate Sent(mail: seq<Mail>, code: int, about: seq<string>) {
    exists k :: 0 <= k < |mail| && IsNumeric(mail[k].wire, code, about)
  }

  predicate IsNumeric(w: Wire, code: int, about: seq<string>) {
    w.Numeric? && w.code == code && (!HidesArg(code) ==> w.about == about)
  }

  lemma AnswerSent(w: World, f: int, c: int, arg: string, code: int, about: seq<string>)
    requires f in w.people
    ensures Sent(Answer(w, f, c, arg).mail, code, about) <==> code == c && (!HidesArg(c) ==> about == [arg])
  {
    hide HidesArg;
    assert IsNumeric(Answer(w, f, c, arg).mail[0].wire, code, about)
      <==> code == c && (!HidesArg(c) ==> about == [arg]);
  }

  lemma AnswerTwoSent(w: World, f: int, c: int, a: string, b: string, code: int, about: seq<string>)
    requires f in w.people && !HidesArg(c)
    ensures Sent(AnswerTwo(w, f, c, a, b).mail, code, about) <==> code == c && about == [a, b]
  {
    assert IsNumeric(AnswerTwo(w, f, c, a, b).mail[0].wire, code, about) <==> code == c && about == [a, b];
  }

  lemma NothingSent(code: int, about: seq<string>)
    ensures !Sent([], code, about)
  {
  }

  lemma PassReason(w: World, f: int, ps: seq<string>, code: int, about: seq<string>)
    requires f in w.people
    ensures Sent(DecidePass(w, f, ps).mail, code, about) <==> Reason(w, f, PASS, ps, code, about)
  {
    hide Answer, Sent;
    NothingSent(code, about);
    AnswerSent(w, f, 462, "PASS", code, about);
    AnswerSent(w, f, 461, "PASS", code, about);
    AnswerSent(w, f, 464, "PASS", code, about);
  }

  lemma OneSent(m: Mail, code: int, about: seq<string>)
    ensures Sent([m], code, about) <==> IsNumeric(m.wire, code, about)
  {
    hide IsNumeric;
    assert [m][0] == m;
  }

  lemma AppendSent(a: seq<Mail>, b: seq<Mail>, code: int, about: seq<string>)
    ensures Sent(a + b, code, about) <==> Sent(a, code, about) || Sent(b, code, about)
  {
    hide IsNumeric;
    if Sent(a, code, about) {
      var k :| 0 <= k < |a| && IsNumeric(a[k].wire, code, about);
      assert (a + b)[k] == a[k];
    }
    if Sent(b, code, about) {
      var k :| 0 <= k < |b| && IsNumeric(b[k].wire, code, about);
      assert (a + b)[|a| + k] == b[k];
    }
  }

  lemma RelaysSent(members: seq<int>, wire: Wire, code: int, about: seq<string>)
    requires !wire.Numeric?
    ensures !Sent(ToAll(members, wire), code, about)
  {
  }

  lemma NobodyHolds(w: World, nick: string)
    ensures Nobody(w, nick) <==> Holders(w, nick) == {}
    ensures forall f :: Holders(w, nick) - {f} != {} <==>
      exists g :: g in w.people && g != f && w.people[g].nick == nick
  {
    if Nobody(w, nick) {
      assert forall g :: g !in Holders(w, nick);
    } else {
      var g :| g in w.people && w.people[g].nick == nick;
      assert g in Holders(w, nick);
    }
    forall f ensures Holders(w, nick) - {f} != {} <==> exists g :: g in w.people && g != f && w.people[g].nick == nick {
      FreeNick(w, f, nick);
    }
  }

  lemma UserReason(w: World, f: int, ps: seq<string>, code: int, about: seq<string>)
    requires f in w.people
    ensures Sent(DecideUser(w, f, ps).mail, code, about) <==> Reason(w, f, USER, ps, code, about)
  {
    hide Answer, Sent;
    NothingSent(code, about);
    AnswerSent(w, f, 462, "USER", code, about);
    AnswerSent(w, f, 451, USER_FIRST, code, about);
    AnswerSent(w, f, 461, "USER", code, about);
    OneSent(Mail(f, Numeric(1, w.people[f].nick, [])), code, about);
  }

  lemma NickReason(w: World, f: int, ps: seq<string>, code: int, about: seq<string>)
    requires f in w.people
    ensures Sent(DecideNick(w, f, ps).mail, code, about) <==> Reason(w, f, NICK, ps, code, about)
  {
    hide Answer, Sent, IsNickname, Holders;
    NothingSent(code, about);
    AnswerSent(w, f, 451, NICK_FIRST, code, about);
    AnswerSent(w, f, 431, NO_NICK, code, about);
    if ps != [] {
      NobodyHolds(w, ps[0]);
      AnswerSent(w, f, 432, ps[0], code, about);
      AnswerSent(w, f, 433, ps[0], code, about);
      OneSent(Mail(f, Numeric(1, ps[0], [])), code, about);
      OneSent(Mail(f, NickEcho(ps[0])), code, about);
    }
  }

  lemma JoinReason(w: World, f: int, ps: seq<string>, code: int, about: seq<string>)
    requires Inv(w) && f in w.people
    ensures Sent(DecideJoin(w, f, ps).mail, code, about) <==> Reason(w, f, JOIN, ps, code, about)
  {
    hide Answer, Sent, IsChannelName, JoinMail, Inv;
    AnswerSent(w, f, 451, "JOIN", code, about);
    AnswerSent(w, f, 461, "JOIN", code, about);
    if ps != [] {
      AnswerSent(w, f, 403, ps[0], code, about);
      AnswerSent(w, f, JoinRefusal(RoomAt(w, ps[0]), f, ps), ps[0], code, about);
      JoinMailSent(w, f, ps[0], code, about);
    }
  }

  lemma JoinMailSent(w: World, f: int, name: string, code: int, about: seq<string>)
    requires f in w.people
    ensures Sent(JoinMail(w, f, name), code, about) <==> code == 366 && about == [name]
  {
    hide Sent, Entries, Apply;
    var joined, nick := RoomAt(Apply(w, f, Enter(name)), name), w.people[f].nick;
    var told := ToAll(joined.members, Relay(nick, "JOIN", [], Some(name)));
    var names, end := Mail(f, NamesAre(nick, name, Entries(w, joined))), Mail(f, Numeric(366, nick, [name]));
    RelaysSent(joined.members, Relay(nick, "JOIN", [], Some(name)), code, about);
    AppendSent(told, [names], code, about);
    AppendSent(told + [names], [end], code, about);
    OneSent(names, code, about);
    OneSent(end, code, about);
  }

  lemma PrivmsgReason(w: World, f: int, ps: seq<string>, code: int, about: seq<string>)
    requires f in w.people
    ensures Sent(DecidePrivmsg(w, f, ps).mail, code, about) <==> Reason(w, f, PRIVMSG, ps, code, about)
  {
    hide Answer, Sent, Holders;
    AnswerSent(w, f, 451, "PRIVMSG", code, about);
    AnswerSent(w, f, 411, "", code, about);
    AnswerSent(w, f, 412, "", code, about);
    if |ps| >= 2 {
      var target, wire := ps[0], Relay(w.people[f].nick, "PRIVMSG", [ps[0]], Some(ps[1]));
      NobodyHolds(w, target);
      AnswerSent(w, f, 403, target, code, about);
      AnswerSent(w, f, 404, target, code, about);
      AnswerSent(w, f, 401, target, code, about);
      RelaysSent(Without(RoomAt(w, target).members, f), wire, code, about);
      if Holders(w, target) != {} {
        OneSent(Mail(Pick(Holders(w, target)), wire), code, about);
      }
    }
  }

  lemma TopicReason(w: World, f: int, ps: seq<string>, code: int, about: seq<string>)
    requires f in w.people
    ensures Sent(DecideTopic(w, f, ps).mail, code, about) <==> Reason(w, f, TOPIC, ps, code, about)
  {
    hide Answer, Sent;
    AnswerSent(w, f, 451, "TOPIC", code, about);
    AnswerSent(w, f, 461, "TOPIC", code, about);
    if ps != [] {
      var name, nick := ps[0], w.people[f].nick;
      AnswerSent(w, f, 403, name, code, about);
      AnswerSent(w, f, 331, name, code, about);
      AnswerSent(w, f, 442, name, code, about);
      AnswerSent(w, f, 482, name, code, about);
      assert |ps| == 1 ==> ps == [name];
      OneSent(Mail(f, TopicIs(nick, name, RoomAt(w, name).topic)), code, about);
      if |ps| >= 2 {
        var wire, others := Relay(nick, "TOPIC", [name], Some(ps[1])), Without(RoomAt(w, name).members, f);
        RelaysSent(others, wire, code, about);
        OneSent(Mail(f, wire), code, about);
        AppendSent(ToAll(others, wire), [Mail(f, wire)], code, about);
      }
    }
  }

  lemma NoMemberOfThatNick(w: World, name: string, nick: string)
    requires name in w.rooms
    ensures NoSuchMember(w, name, nick)
       <==> Holders(w, nick) != {} && forall t :: t in Holders(w, nick) ==> t !in w.rooms[name].members
  {
    NobodyHolds(w, nick);
    forall t | t in Holders(w, nick) && t in w.rooms[name].members ensures MemberCalled(w, name, nick, t) {
    }
  }

  lemma KickReason(w: World, f: int, ps: seq<string>, code: int, about: seq<string>)
    requires Inv(w) && f in w.people
    ensures Sent(DecideKick(w, f, ps).mail, code, about) <==> Reason(w, f, KICK, ps, code, about)
  {
    hide Answer, AnswerTwo, Sent, Holders, NoSuchMember, Nobody, Inv;
    AnswerSent(w, f, 451, "KICK", code, about);
    AnswerSent(w, f, 461, "KICK", code, about);
    if |ps| >= 2 {
      var name, nick := ps[0], w.people[f].nick;
      AnswerSent(w, f, 403, name, code, about);
      AnswerSent(w, f, 482, name, code, about);
      AnswerSent(w, f, 401, ps[1], code, about);
      AnswerTwoSent(w, f, 441, ps[1], name, code, about);
      OneSent(Mail(f, Notice(nick, KICK_NOTICE)), code, about);
      NobodyHolds(w, ps[1]);
      if name in w.rooms {
        NoMemberOfThatNick(w, name, ps[1]);
        var reason := if |ps| > 2 then ps[2] else nick;
        RelaysSent(w.rooms[name].members, Relay(nick, "KICK", [name, ps[1]], Some(reason)), code, about);
        if Operates(w, f, name) {
          OperatorIsMember(w, f, name);
        }
      }
    }
  }

  lemma InviteMailSent(sender: string, f: int, t: int, nick: string, name: string, code: int, about: seq<string>)
    ensures Sent([Mail(t, Relay(sender, "INVITE", [nick], Some(name)))] + [Mail(f, Numeric(341, sender, [nick, name]))],
                 code, about)
       <==> code == 341 && about == [nick, name]
  {
    hide Sent;
    var relay := Mail(t, Relay(sender, "INVITE", [nick], Some(name)));
    var told := Mail(f, Numeric(341, sender, [nick, name]));
    OneSent(relay, code, about);
    OneSent(told, code, about);
    AppendSent([relay], [told], code, about);
  }

  // Whether the invitation is possible depends on the one holder of the nick.
  lemma HolderDecides(w: World, f: int, ps: seq<string>, t: int)
    requires f in w.people && |ps| >= 2 && Holders(w, ps[0]) == {t}
    requires Operates(w, f, ps[1]) ==> w.people[f].registered
    ensures (exists u :: CanInvite(w, f, ps, u)) <==> Operates(w, f, ps[1]) && t !in w.rooms[ps[1]].members
    ensures Operates(w, f, ps[1]) ==>
      ((exists u :: MemberCalled(w, ps[1], ps[0], u)) <==> t in w.rooms[ps[1]].members)
  {
    assert t in Holders(w, ps[0]);
    forall u | CanInvite(w, f, ps, u) ensures u == t {
      assert u in Holders(w, ps[0]);
    }
    forall u | MemberCalled(w, ps[1], ps[0], u) ensures u == t {
      assert u in Holders(w, ps[0]);
    }
    if Operates(w, f, ps[1]) {
      assert t in w.rooms[ps[1]].members ==> MemberCalled(w, ps[1], ps[0], t);
      assert t !in w.rooms[ps[1]].members ==> CanInvite(w, f, ps, t);
    }
  }

  lemma NoHolderDecides(w: World, f: int, ps: seq<string>)
    requires |ps| >= 2 && Nobody(w, ps[0])
    ensures (forall u :: !CanInvite(w, f, ps, u)) && forall u :: !MemberCalled(w, ps[1], ps[0], u)
  {
  }

  lemma InviteReason(w: World, f: int, ps: seq<string>, code: int, about: seq<string>)
    requires Inv(w) && f in w.people && ParsedParams(ps)
    ensures Sent(DecideInvite(w, f, ps).mail, code, about) <==> Reason(w, f, INVITE, ps, code, about)
  {
    hide Answer, AnswerTwo, Sent, Nobody, Inv, Holders, CanInvite, MemberCalled;
    AnswerSent(w, f, 451, "INVITE", code, about);
    AnswerSent(w, f, 461, "INVITE", code, about);
    if |ps| >= 2 {
      var nick, name := ps[0], ps[1];
      assert ps[..2] == [nick, name] && IsMiddle(nick);
      AnswerSent(w, f, 401, nick, code, about);
      AnswerSent(w, f, 403, name, code, about);
      AnswerSent(w, f, 482, name, code, about);
      AnswerTwoSent(w, f, 443, nick, name, code, about);
      NobodyHolds(w, nick);
      if Operates(w, f, name) {
        OperatorIsMember(w, f, name);
      }
      if Nobody(w, nick) {
        NoHolderDecides(w, f, ps);
      } else {
        var t := Pick(Holders(w, nick));
        OnlyHolder(w, nick, t);
        HolderDecides(w, f, ps, t);
        InviteMailSent(w.people[f].nick, f, t, nick, name, code, about);
      }
    }
  }

  lemma OperatorReason(w: World, f: int, ps: seq<string>, code: int, about: seq<string>)
    requires Inv(w) && f in w.people && |ps| >= 2 && Operates(w, f, ps[0]) && ModeOf(ps[1]).Operator?
    ensures Sent(DecideOperator(w, f, ps[0], w.rooms[ps[0]], ModeOf(ps[1]).on, ps).mail, code, about)
       <==> Reason(w, f, MODE, ps, code, about)
  {
    hide Answer, AnswerTwo, Sent, Holders, NoSuchMember, Nobody, Inv;
    OperatorIsMember(w, f, ps[0]);
    AnswerSent(w, f, 461, "MODE", code, about);
    NothingSent(code, about);
    if |ps| >= 3 {
      var name, nick, members := ps[0], w.people[f].nick, w.rooms[ps[0]].members;
      AnswerSent(w, f, 401, ps[2], code, about);
      AnswerTwoSent(w, f, 441, ps[2], name, code, about);
      NobodyHolds(w, ps[2]);
      NoMemberOfThatNick(w, name, ps[2]);
      OneSent(Mail(f, Notice(nick, REVOKE_NOTICE)), code, about);
      RelaysSent(members, Relay(nick, "MODE", [name, "+o", ps[2]], None), code, about);
      RelaysSent(members, Relay(nick, "MODE", [name, "-o", ps[2]], None), code, about);
    }
  }

  lemma KeyReason(w: World, f: int, ps: seq<string>, code: int, about: seq<string>)
    requires Inv(w) && f in w.people && |ps| >= 2 && Operates(w, f, ps[0]) && ModeOf(ps[1]).Key?
    ensures Sent(DecideKey(w, f, ps[0], w.rooms[ps[0]], ModeOf(ps[1]).on, ps).mail, code, about)
       <==> Reason(w, f, MODE, ps, code, about)
  {
    hide Answer, Sent, Inv;
    OperatorIsMember(w, f, ps[0]);
    var name, nick, members := ps[0], w.people[f].nick, w.rooms[ps[0]].members;
    AnswerSent(w, f, 461, "MODE", code, about);
    RelaysSent(members, Relay(nick, "MODE", [name, "-k"], None), code, about);
    if |ps| >= 3 {
      RelaysSent(members, Relay(nick, "MODE", [name, "+k", ps[2]], None), code, about);
    }
  }

  lemma LimitReason(w: World, f: int, ps: seq<string>, code: int, about: seq<string>)
    requires Inv(w) && f in w.people && |ps| >= 2 && Operates(w, f, ps[0]) && ModeOf(ps[1]).Limit?
    ensures Sent(DecideLimit(w, f, ps[0], w.rooms[ps[0]], ModeOf(ps[1]).on, ps).mail, code, about)
       <==> Reason(w, f, MODE, ps, code, about)
  {
    hide Answer, Sent, Inv, IsNumber, Atoi;
    OperatorIsMember(w, f, ps[0]);
    var name, nick, members := ps[0], w.people[f].nick, w.rooms[ps[0]].members;
    AnswerSent(w, f, 461, "MODE", code, about);
    RelaysSent(members, Relay(nick, "MODE", [name, "-l"], None), code, about);
    if |ps| >= 3 {
      RelaysSent(members, Relay(nick, "MODE", [name, "+l", ps[2]], None), code, about);
    }
  }

  lemma OtherModeReason(w: World, f: int, ps: seq<string>, code: int, about: seq<string>)
    requires Inv(w) && f in w.people && |ps| >= 2 && Operates(w, f, ps[0])
    requires ModeOf(ps[1]).InviteOnly? || ModeOf(ps[1]).TopicLock? || ModeOf(ps[1]).NoMode?
    ensures Sent(ModeOutcome(w, f, ps[0], ps).mail, code, about) <==> Reason(w, f, MODE, ps, code, about)
  {
    hide Answer, Sent, Inv;
    OperatorIsMember(w, f, ps[0]);
    AnswerSent(w, f, 472, ps[1], code, about);
    RelaysSent(w.rooms[ps[0]].members, Relay(w.people[f].nick, "MODE", [ps[0], ps[1]], None), code, about);
  }

  lemma ModeReason(w: World, f: int, ps: seq<string>, code: int, about: seq<string>)
    requires Inv(w) && f in w.people
    ensures Sent(DecideMode(w, f, ps).mail, code, about) <==> Reason(w, f, MODE, ps, code, about)
  {
    if |ps| >= 2 && Operates(w, f, ps[0]) {
      hide Answer, Sent, Inv, DecideOperator, DecideKey, DecideLimit, Announce, Reason, ModeOf;
      OperatorIsMember(w, f, ps[0]);
      match ModeOf(ps[1])
      case Operator(_) => OperatorReason(w, f, ps, code, about);
      case Key(_) => KeyReason(w, f, ps, code, about);
      case Limit(_) => LimitReason(w, f, ps, code, about);
      case _ => OtherModeReason(w, f, ps, code, about);
    } else {
      hide Answer, Sent, Inv, ModeOutcome;
      AnswerSent(w, f, 451, "MODE", code, about);
      AnswerSent(w, f, 461, "MODE", code, about);
      if |ps| >= 2 {
        AnswerSent(w, f, 403, ps[0], code, about);
        AnswerSent(w, f, 482, ps[0], code, about);
      }
    }
  }

  // A numeric of a code, about some words, is sent exactly when the line gives a reason for it;
  // and a 421 when the command is none of the nine.
  lemma NumericsExactly(w: World, f: int, line: string, code: int, about: seq<string>)
    requires Inv(w) && f in w.people
    ensures var m := Parse(line);
            Sent(React(w, f, line).mail, code, about) <==>
              if VerbOf(UpperCase(m.cmd)) == Unknown then code == 421 && m.cmd != "" && about == [UpperCase(m.cmd)]
              else Reason(w, f, VerbOf(UpperCase(m.cmd)), m.params, code, about)
  {
    hide Inv, VerbOf, UpperCase, Answer, Sent, Reason, DecidePass, DecideNick, DecideUser, DecideJoin, DecidePrivmsg,
      DecideTopic, DecideKick, DecideInvite, DecideMode, Parse;
    var m := Parse(line);
    var ps := m.params;
    ParseCanonical(line);
    match VerbOf(UpperCase(m.cmd))
    case PASS => PassReason(w, f, ps, code, about);
    case NICK => NickReason(w, f, ps, code, about);
    case USER => UserReason(w, f, ps, code, about);
    case JOIN => JoinReason(w, f, ps, code, about);
    case PRIVMSG => PrivmsgReason(w, f, ps, code, about);
    case TOPIC => TopicReason(w, f, ps, code, about);
    case KICK => KickReason(w, f, ps, code, about);
    case INVITE => InviteReason(w, f, ps, code, about);
    case MODE => ModeReason(w, f, ps, code, about);
    case Unknown =>
      NothingSent(code, about);
      AnswerSent(w, f, 421, UpperCase(m.cmd), code, about);
  }

  // A numeric goes to the sender of the line, under its nick, or under the one it has just taken.
  ghost predicate ToSender(w: World, f: int, o: Outcome)
    requires f in w.people
  {
    forall k :: 0 <= k < |o.mail| && o.mail[k].wire.Numeric? ==>
      o.mail[k].to == f && o.mail[k].wire.nick == if o.edit.TakeNick? then o.edit.nick else w.people[f].nick
  }

  lemma NumericsToSender(w: World, f: int, m: Message)
    requires f in w.people
    ensures ToSender(w, f, Decide(w, f, m))
  {
    hide VerbOf, UpperCase, Holders, IsNickname, IsChannelName, JoinMail, KeyFits, HasSpace, ModeOutcome, Without;
    if m.params != [] {
      JoinToSender(w, f, m.params[0]);
    }
    if VerbOf(UpperCase(m.cmd)) == MODE && |m.params| >= 2 {
      ModeToSender(w, f, m.params[0], m.params);
    }
  }

  lemma JoinToSender(w: World, f: int, name: string)
    requires f in w.people
    ensures ToSender(w, f, Outcome(Enter(name), JoinMail(w, f, name)))
  {
    hide Entries;
  }

  lemma ModeToSender(w: World, f: int, name: string, ps: seq<string>)
    requires f in w.people && |ps| >= 2
    ensures ToSender(w, f, ModeOutcome(w, f, name, ps))
  {
    hide Holders, IsNumber, Atoi;
  }
}
