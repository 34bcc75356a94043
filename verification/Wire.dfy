// The messages the handlers queue: their structure, and the bytes it stands for.
module Wire {
  import opened Text
  import opened Parser

  // One entry of a NAMES list: a member's nick, marked '@' for an operator.
  datatype NameEntry = NameEntry(op: bool, nick: string)

  datatype Wire =
    | Numeric(code: int, nick: string, about: seq<string>)
    | TopicIs(nick: string, channel: string, topic: string)
    | NamesAre(nick: string, channel: string, entries: seq<NameEntry>)
    | Notice(nick: string, notice: string)
    | Relay(source: string, verb: string, args: seq<string>, text: Option<string>)
    | NickEcho(nick: string)

  // A numeric that refuses a command, or a last-operator notice.
  predicate IsRefusal(w: Wire) { w.Notice? || (w.Numeric? && 400 <= w.code < 500) }

  predicate IsWelcome(w: Wire) { w.Numeric? && w.code == 1 }

  // ---------- Numeric replies, srcs/commands/replayCmd.cpp ----------

  function InfoText(code: int): (text: string)
    ensures LfFree(text)
  {
    match code
    case 331 => "No topic is set"
    case 332 => "Topic"
    case 341 => "Inviting"
    case 353 => "Names"
    case 366 => "End of /NAMES list"
    case 324 => "Channel mode"
    case _ => ""
  }

  function TargetErrorText(code: int): (text: string)
    ensures LfFree(text)
  {
    match code
    case 401 => "No such nick/channel"
    case 403 => "No such channel"
    case 404 => "Cannot send to channel"
    case 421 => "Unknown command"
    case 431 => "No nickname given"
    case 432 => "Erroneous nickname"
    case 433 => "Nickname is already in use"
    case 411 => "No recipient given (PRIVMSG)"
    case 412 => "No text to send"
    case _ => ""
  }

  function StateErrorText(code: int): (text: string)
    ensures LfFree(text)
  {
    match code
    case 441 => "They aren't on that channel"
    case 442 => "You're not on that channel"
    case 443 => "is already on channel"
    case _ => ""
  }

  function RegistrationErrorText(code: int): (text: string)
    ensures LfFree(text)
  {
    match code
    case 451 => "You have not registered"
    case 461 => "Not enough parameters"
    case 462 => "Unauthorized command (already registered)"
    case 464 => "Password incorrect"
    case _ => ""
  }

  function ChannelErrorText(code: int): (text: string)
    ensures LfFree(text)
  {
    match code
    case 471 => "Cannot join channel (+l)"
    case 472 => "is unknown mode char to me"
    case 473 => "Cannot join channel (+i)"
    case 475 => "Cannot join channel (+k)"
    case 482 => "You're not channel operator"
    case _ => ""
  }

  function Explanation(code: int, nick: string): (text: string)
    ensures LfFree(nick) ==> LfFree(text)
  {
    if code == 1 then "Welcome to the Internet Relay Network " + nick
    else if code < 400 then InfoText(code)
    else if code < 440 then TargetErrorText(code)
    else if code < 450 then StateErrorText(code)
    else if code < 465 then RegistrationErrorText(code)
    else ChannelErrorText(code)
  }

  predicate KnownCode(code: int) {
    code in {1, 331, 332, 341, 353, 366, 324, 401, 403, 404, 421, 431, 432, 433, 441, 442, 443,
             451, 411, 412, 461, 462, 464, 471, 472, 473, 475, 482}
  }

  // The codes whose line does not show the argument.
  predicate HidesArg(code: int) { code in {1, 431, 451, 411, 412, 462, 464} }

  function Digit(n: int): char
    requires 0 <= n <= 9
  {
    ('0' as int + n) as char
  }

  function CodeText(code: int): string
    requires 0 <= code < 1000
  {
    [Digit(code / 100), Digit(code / 10 % 10), Digit(code % 10)]
  }

  function ReplyCmd(code: int, nick: string, arg: string): string {
    if KnownCode(code) then
      ":ircserv " + CodeText(code) + " " + nick + (if HidesArg(code) then "" else " " + arg) +
      " :" + Explanation(code, nick) + "\r\n"
    else ""
  }

  // ---------- NAMES ----------

  function EntryText(e: NameEntry): string { (if e.op then "@" else "") + e.nick }

  // Built front to back, with a space before every entry once the text is non-empty.
  function NamesText(entries: seq<NameEntry>): string {
    if entries == [] then ""
    else
      var front := NamesText(entries[..|entries| - 1]);
      front + (if front == "" then "" else " ") + EntryText(entries[|entries| - 1])
  }

  // ---------- Rendering ----------

  datatype Parts = Parts(prefix: string, cmd: string, args: seq<string>, text: Option<string>)

  // The arguments between the command and the text.
  function Args(w: Wire): seq<string> {
    match w
    case Numeric(code, nick, about) => [nick] + (if HidesArg(code) then [] else about)
    case TopicIs(nick, channel, _) => [nick, channel]
    case NamesAre(nick, channel, _) => [nick, "=", channel]
    case Notice(nick, _) => [nick]
    case Relay(_, _, args, _) => args
    case NickEcho(_) => []
  }

  function Sections(w: Wire): Parts
    requires !w.NickEcho? && (w.Numeric? ==> KnownCode(w.code))
  {
    match w
    case Numeric(code, nick, _) => Parts("ircserv", CodeText(code), Args(w), Some(Explanation(code, nick)))
    case TopicIs(_, _, topic) => Parts("ircserv", CodeText(332), Args(w), Some(topic))
    case NamesAre(_, _, entries) => Parts("ircserv", CodeText(353), Args(w), Some(NamesText(entries)))
    case Notice(_, notice) => Parts("ircserv", "NOTICE", Args(w), Some(notice))
    case Relay(source, verb, _, text) => Parts(source, verb, Args(w), text)
  }

  function PartsText(p: Parts): string {
    ":" + p.prefix + " " + p.cmd + (PrintArgs(p.args) + PrintText(p.text))
  }

  // srcs/commands/nick.cpp:59 queues the one message without a terminator.
  function Render(w: Wire): string {
    if w.NickEcho? then "NICK :" + w.nick
    else if w.Numeric? && !KnownCode(w.code) then ""
    else PartsText(Sections(w)) + "\r\n"
  }

  // ---------- The exact bytes ----------

  lemma OneArg(prefix: string, cmd: string, a: string, text: Option<string>)
    ensures PartsText(Parts(prefix, cmd, [a], text)) == ":" + prefix + " " + cmd + " " + a + PrintText(text)
  {
    assert PrintArgs([a]) == " " + a;
    var head := ":" + prefix + " " + cmd;
    assert head + (" " + a + PrintText(text)) == head + " " + a + PrintText(text);
  }

  lemma TwoArgs(prefix: string, cmd: string, a: string, b: string, text: Option<string>)
    ensures PartsText(Parts(prefix, cmd, [a, b], text))
         == ":" + prefix + " " + cmd + " " + a + " " + b + PrintText(text)
  {
    assert [a, b][1..] == [b];
    assert PrintArgs([b]) == " " + b;
    assert PrintArgs([a, b]) == " " + a + (" " + b);
    var head := ":" + prefix + " " + cmd;
    assert head + (" " + a + (" " + b) + PrintText(text)) == head + " " + a + " " + b + PrintText(text);
  }

  lemma ThreeArgs(prefix: string, cmd: string, a: string, b: string, c: string, text: Option<string>)
    ensures PartsText(Parts(prefix, cmd, [a, b, c], text))
         == ":" + prefix + " " + cmd + " " + a + " " + b + " " + c + PrintText(text)
  {
    assert [a, b, c][1..] == [b, c];
    assert [b, c][1..] == [c];
    assert PrintArgs([c]) == " " + c;
    assert PrintArgs([b, c]) == " " + b + (" " + c);
    assert PrintArgs([a, b, c]) == " " + a + (" " + b + (" " + c));
    var head := ":" + prefix + " " + cmd;
    assert head + (" " + a + (" " + b + (" " + c)) + PrintText(text))
        == head + " " + a + " " + b + " " + c + PrintText(text);
  }

  // The one string that replyCmd is given for several words.
  function Spaced(words: seq<string>): string {
    if words == [] then "" else if |words| == 1 then words[0] else words[0] + " " + Spaced(words[1..])
  }

  lemma SpacedTwo(a: string, b: string)
    ensures Spaced([a, b]) == a + " " + b
  {
    assert [a, b][1..] == [b];
  }

  lemma {:induction false} SpacedArgs(words: seq<string>)
    requires words != []
    ensures PrintArgs(words) == " " + Spaced(words)
  {
    if |words| > 1 {
      SpacedArgs(words[1..]);
      var a, b := words[0], Spaced(words[1..]);
      assert " " + a + (" " + b) == " " + (a + " " + b);
    } else {
      assert words[1..] == [];
      assert " " + words[0] + "" == " " + words[0];
    }
  }

  lemma MoreArgs(prefix: string, cmd: string, nick: string, about: seq<string>, text: Option<string>)
    requires about != []
    ensures PartsText(Parts(prefix, cmd, [nick] + about, text))
         == ":" + prefix + " " + cmd + " " + nick + " " + Spaced(about) + PrintText(text)
  {
    assert ([nick] + about)[1..] == about;
    SpacedArgs(about);
    var head, more := ":" + prefix + " " + cmd, Spaced(about);
    assert head + (" " + nick + (" " + more) + PrintText(text)) == head + " " + nick + " " + more + PrintText(text);
  }

  lemma ServerWord(c: string)
    ensures ":" + "ircserv" + " " + c == ":ircserv " + c
  {
    assert ":" + "ircserv" + " " == ":ircserv ";
  }

  lemma EndOfLine(head: string, text: string)
    ensures head + (" :" + text) + "\r\n" == head + " :" + text + "\r\n"
  {
  }

  lemma HiddenNumeric(c: string, nick: string, text: string)
    ensures PartsText(Parts("ircserv", c, [nick], Some(text))) + "\r\n"
         == ":ircserv " + c + " " + nick + "" + " :" + text + "\r\n"
  {
    hide PartsText;
    OneArg("ircserv", c, nick, Some(text));
    ServerWord(c);
    var head := ":ircserv " + c + " " + nick;
    assert head + "" == head;
    EndOfLine(head, text);
  }

  lemma ShownNumeric(c: string, nick: string, about: seq<string>, text: string)
    requires about != []
    ensures PartsText(Parts("ircserv", c, [nick] + about, Some(text))) + "\r\n"
         == ":ircserv " + c + " " + nick + (" " + Spaced(about)) + " :" + text + "\r\n"
  {
    hide PartsText, Spaced;
    MoreArgs("ircserv", c, nick, about, Some(text));
    ServerWord(c);
    var head := ":ircserv " + c + " " + nick;
    Reassociate(head, " ", Spaced(about));
    EndOfLine(head + " " + Spaced(about), text);
  }

  lemma CodesAreSmall()
    ensures forall code :: KnownCode(code) ==> 0 <= code < 1000
  {
  }

  // A numeric reply is the message it is meant to be.
  lemma RenderNumeric(code: int, nick: string, about: seq<string>)
    requires about == [] ==> HidesArg(code)
    ensures Render(Numeric(code, nick, about)) == ReplyCmd(code, nick, Spaced(about))
  {
    hide CodeText, Explanation, KnownCode, HidesArg, PartsText, Spaced;
    CodesAreSmall();
    if KnownCode(code) {
      assert [nick] + [] == [nick];
      HiddenNumeric(CodeText(code), nick, Explanation(code, nick));
      if about != [] {
        ShownNumeric(CodeText(code), nick, about, Explanation(code, nick));
      }
    }
  }

  lemma RenderNickEcho(nick: string)
    ensures Render(NickEcho(nick)) == "NICK :" + nick
  {
  }

  // The strings that the handlers concatenate, kind by kind.

  lemma RenderJoin(nick: string, channel: string)
    ensures Render(Relay(nick, "JOIN", [], Some(channel))) == ":" + nick + " JOIN :" + channel + "\r\n"
  {
    assert " JOIN :" == " " + "JOIN" + " :";
    assert PartsText(Parts(nick, "JOIN", [], Some(channel))) == ":" + nick + " JOIN :" + channel;
  }

  lemma NamesWords(nick: string, rest: string)
    ensures ":" + "ircserv" + " " + "353" + " " + nick + " " + "=" + " " + rest == ":ircserv 353 " + nick + " = " + rest
  {
    assert ":ircserv 353 " == ":" + "ircserv" + " " + "353" + " ";
    assert " = " == " " + "=" + " ";
  }

  lemma RenderNames(nick: string, channel: string, entries: seq<NameEntry>)
    ensures Render(NamesAre(nick, channel, entries))
         == ":ircserv 353 " + nick + " = " + channel + " :" + NamesText(entries) + "\r\n"
  {
    hide NamesText, PartsText;
    var names := NamesText(entries);
    assert CodeText(353) == "353";
    ThreeArgs("ircserv", "353", nick, "=", channel, Some(names));
    NamesWords(nick, channel);
    Reassociate(":ircserv 353 " + nick + " = " + channel, " :", names);
  }

  lemma Reassociate(a: string, b: string, c: string)
    ensures a + (b + c) == a + b + c
  {
  }

  lemma RenderPrivmsg(nick: string, target: string, text: string)
    ensures Render(Relay(nick, "PRIVMSG", [target], Some(text)))
         == ":" + nick + " PRIVMSG " + target + " :" + text + "\r\n"
  {
    hide PartsText;
    assert " PRIVMSG " == " " + "PRIVMSG" + " ";
    OneArg(nick, "PRIVMSG", target, Some(text));
  }

  lemma RenderTopic(nick: string, channel: string, topic: string)
    ensures Render(Relay(nick, "TOPIC", [channel], Some(topic)))
         == ":" + nick + " TOPIC " + channel + " :" + topic + "\r\n"
  {
    hide PartsText;
    assert " TOPIC " == " " + "TOPIC" + " ";
    OneArg(nick, "TOPIC", channel, Some(topic));
  }

  lemma RenderTopicIs(nick: string, channel: string, topic: string)
    ensures Render(TopicIs(nick, channel, topic))
         == ":ircserv 332 " + nick + " " + channel + " :" + topic + "\r\n"
  {
    hide PartsText;
    assert ":ircserv 332 " == ":" + "ircserv" + " " + "332" + " ";
    assert CodeText(332) == "332";
    TwoArgs("ircserv", "332", nick, channel, Some(topic));
  }

  lemma RenderKick(nick: string, channel: string, target: string, reason: string)
    ensures Render(Relay(nick, "KICK", [channel, target], Some(reason)))
         == ":" + nick + " KICK " + channel + " " + target + " :" + reason + "\r\n"
  {
    hide PartsText;
    assert " KICK " == " " + "KICK" + " ";
    TwoArgs(nick, "KICK", channel, target, Some(reason));
  }

  lemma RenderInvite(nick: string, target: string, channel: string)
    ensures Render(Relay(nick, "INVITE", [target], Some(channel)))
         == ":" + nick + " INVITE " + target + " :" + channel + "\r\n"
  {
    hide PartsText;
    assert " INVITE " == " " + "INVITE" + " ";
    OneArg(nick, "INVITE", target, Some(channel));
  }

  lemma RenderNotice(nick: string, notice: string)
    ensures Render(Notice(nick, notice)) == ":ircserv NOTICE " + nick + " :" + notice + "\r\n"
  {
    hide PartsText;
    assert ":ircserv NOTICE " == ":" + "ircserv" + " " + "NOTICE" + " ";
    OneArg("ircserv", "NOTICE", nick, Some(notice));
  }

  lemma ModeWord(nick: string, rest: string)
    ensures ":" + nick + " " + "MODE" + " " + rest == ":" + nick + " MODE " + rest
  {
    assert " MODE " == " " + "MODE" + " ";
  }

  lemma RenderMode(nick: string, channel: string, mode: string)
    ensures Render(Relay(nick, "MODE", [channel, mode], None))
         == ":" + nick + " MODE " + channel + " " + mode + "\r\n"
  {
    hide PartsText;
    TwoArgs(nick, "MODE", channel, mode, None);
    ModeWord(nick, channel);
    assert ":" + nick + " MODE " + channel + " " + mode + "" == ":" + nick + " MODE " + channel + " " + mode;
  }

  lemma RenderModeArg(nick: string, channel: string, mode: string, arg: string)
    ensures Render(Relay(nick, "MODE", [channel, mode, arg], None))
         == ":" + nick + " MODE " + channel + " " + mode + " " + arg + "\r\n"
  {
    hide PartsText;
    ThreeArgs(nick, "MODE", channel, mode, arg, None);
    ModeWord(nick, channel);
    var text := ":" + nick + " MODE " + channel + " " + mode + " " + arg;
    assert text + "" == text;
  }
}
