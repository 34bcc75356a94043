// The exact bytes that an obeyed command puts into each send buffer.
module TellingLaws {
  import opened Text
  import opened Parser
  import opened Wire
  import opened World
  import opened Invariant
  import opened Net
  import opened CommandLaws
  import opened RegistrationLaws
  import opened RelayLaws
  import opened SettingLaws
  import opened StandingLaws

  // Each of some people gets a text, once, and nobody else gets anything.
  ghost predicate Hear(mail: seq<Mail>, people: seq<int>, text: string) {
    forall g :: TextsTo(mail, g) == if g in people then text else ""
  }

  lemma AllHear(members: seq<int>, wire: Wire)
    requires NoDup(members)
    ensures Hear(ToAll(members, wire), members, Render(wire))
  {
    hide Render, TextsTo, ToAll;
    forall g ensures TextsTo(ToAll(members, wire), g) == if g in members then Render(wire) else "" {
      BroadcastExact(members, wire, g);
    }
  }

  lemma OneHears(f: int, wire: Wire)
    ensures Hear([Mail(f, wire)], [f], Render(wire))
  {
    hide Render, TextsTo;
    forall g ensures TextsTo([Mail(f, wire)], g) == if g in [f] then Render(wire) else "" {
      OneText(Mail(f, wire), g);
    }
  }

  // ---------- MODE ----------

  // The mode string, and the argument where one is shown.
  function ModeWords(ps: seq<string>): string
    requires |ps| >= 2 && (ps[1] in ["+k", "+l", "+o", "-o"] ==> |ps| >= 3)
  {
    ps[1] + (if ps[1] in ["+k", "+l", "+o", "-o"] then " " + ps[2] else "")
  }

  lemma ModeText(nick: string, name: string, mode: string)
    ensures Render(Relay(nick, "MODE", [name, mode], None)) == ":" + nick + " MODE " + name + " " + (mode + "") + "\r\n"
  {
    hide Render;
    RenderMode(nick, name, mode);
    assert mode + "" == mode;
  }

  lemma ModeArgText(nick: string, name: string, mode: string, arg: string)
    ensures Render(Relay(nick, "MODE", [name, mode, arg], None))
         == ":" + nick + " MODE " + name + " " + (mode + (" " + arg)) + "\r\n"
  {
    hide Render;
    RenderModeArg(nick, name, mode, arg);
    var head := ":" + nick + " MODE " + name + " ";
    assert head + (mode + (" " + arg)) == head + mode + " " + arg;
  }

  lemma AnnounceTells(room: Room, nick: string, edit: Edit, args: seq<string>)
    requires NoDup(room.members)
    ensures Hear(Announce(room, nick, edit, args).mail, room.members, Render(Relay(nick, "MODE", args, None)))
  {
    hide Render, Hear;
    AllHear(room.members, Relay(nick, "MODE", args, None));
  }

  lemma ModeStepTells(w: World, f: int, ps: seq<string>, d: Edit)
    requires Inv(w) && f in w.people && IsSetting(d) && d.name in w.rooms
    requires |ps| >= 2 && ps[0] == d.name && Words(ps, d)
    ensures ps[1] in ["+k", "+l", "+o", "-o"] ==> |ps| >= 3
    ensures Hear(ModeOutcome(w, f, ps[0], ps).mail, w.rooms[d.name].members,
                 ":" + w.people[f].nick + " MODE " + d.name + " " + ModeWords(ps) + "\r\n")
  {
    hide Inv, Render, Hear, IsNumber, Atoi, DecideOperator, Announce;
    RoomsHaveMembers(w);
    var room, nick := w.rooms[d.name], w.people[f].nick;
    var edit := ModeOutcome(w, f, ps[0], ps).edit;
    if ps[1] in ["+k", "+l"] {
      ModeArgText(nick, d.name, ps[1], ps[2]);
      AnnounceTells(room, nick, d, [d.name, ps[1], ps[2]]);
    } else {
      ModeText(nick, d.name, ps[1]);
      AnnounceTells(room, nick, d, [d.name, ps[1]]);
    }
  }

  // An order about the key, the limit or a flag is announced to every member in the same words.
  lemma ModeTold(w: World, f: int, line: string, d: Edit)
    requires Inv(w) && IsSetting(d) && !d.SetTopic? && Orders(w, Command(f, line), d)
    ensures var ps := Parse(line).params;
            && |ps| >= 2 && (ps[1] in ["+k", "+l", "+o", "-o"] ==> |ps| >= 3)
            && Hear(React(w, f, line).mail, w.rooms[d.name].members,
                    ":" + w.people[f].nick + " MODE " + d.name + " " + ModeWords(ps) + "\r\n")
  {
    hide Inv, Hear, ModeOutcome, VerbOf, UpperCase, Parse, Words, ModeWords;
    var ps := Parse(line).params;
    OperatorIsMember(w, f, d.name);
    ModeStepTells(w, f, ps, d);
  }

  // A MODE +o or -o that changes something is announced to every member; one that would take the
  // last operator is answered with a notice; one that changes nothing is passed over in silence.
  lemma OperatorTold(w: World, f: int, line: string, name: string, on: bool, t: int)
    requires Inv(w) && f in w.people && Operates(w, f, name)
    requires var m := Parse(line);
             && VerbOf(UpperCase(m.cmd)) == MODE && |m.params| >= 3 && m.params[0] == name
             && m.params[1] == (if on then "+o" else "-o") && MemberCalled(w, name, m.params[2], t)
    ensures var mail, nick, ops := React(w, f, line).mail, w.people[f].nick, w.rooms[name].ops;
            if on <==> t in ops then mail == []
            else if !on && ops == {t} then
              Hear(mail, [f], ":ircserv NOTICE " + nick + " :" + "You cannot remove the last channel operator" + "\r\n")
            else
              var mode, who := if on then "+o" else "-o", Parse(line).params[2];
              Hear(mail, w.rooms[name].members, ":" + nick + " MODE " + name + " " + mode + " " + who + "\r\n")
  {
    hide Inv, Hear, VerbOf, UpperCase, Parse, IsNickname, Render, ToAll;
    var ps, nick, room := Parse(line).params, w.people[f].nick, w.rooms[name];
    OperatorIsMember(w, f, name);
    RoomsHaveMembers(w);
    MemberHolder(w, name, ps[2], t);
    OneElement(room.ops, t);
    RenderNotice(nick, REVOKE_NOTICE);
    OneHears(f, Notice(nick, REVOKE_NOTICE));
    RenderModeArg(nick, name, "+o", ps[2]);
    RenderModeArg(nick, name, "-o", ps[2]);
    AllHear(room.members, Relay(nick, "MODE", [name, "+o", ps[2]], None));
    AllHear(room.members, Relay(nick, "MODE", [name, "-o", ps[2]], None));
    assert ps[1] == "+o" || ps[1] == "-o";
    assert |room.ops| == 1 && t in room.ops ==> room.ops == {t};
  }

  // ---------- KICK and INVITE ----------

  // An obeyed KICK is told to every member, the target included, with the reason given or else the
  // sender's nick.
  lemma KickTold(w: World, f: int, line: string, name: string, t: int)
    requires Inv(w) && KickLine(w, f, Parse(line), name, t)
    ensures f in w.people
    ensures var ps, nick := Parse(line).params, w.people[f].nick;
            Hear(React(w, f, line).mail, w.rooms[name].members,
                 ":" + nick + " KICK " + name + " " + ps[1] + " :" + (if |ps| > 2 then ps[2] else nick) + "\r\n")
  {
    hide Inv, Hear, VerbOf, UpperCase, Parse, IsNickname, Render, ToAll, KickRefused;
    OperatorIsMember(w, f, name);
    RoomsHaveMembers(w);
    var ps, nick, room := Parse(line).params, w.people[f].nick, w.rooms[name];
    MemberHolder(w, name, ps[1], t);
    RefusedWhenLast(room, f, t);
    var reason := if |ps| > 2 then ps[2] else nick;
    RenderKick(nick, name, ps[1], reason);
    AllHear(room.members, Relay(nick, "KICK", [name, ps[1]], Some(reason)));
  }

  // A KICK of the last operator with others present is answered with a notice.
  lemma KickSpared(w: World, f: int, line: string, name: string, t: int)
    requires Inv(w) && f in w.people && Operates(w, f, name)
    requires var m := Parse(line);
             && VerbOf(UpperCase(m.cmd)) == KICK && |m.params| >= 2 && m.params[0] == name
             && MemberCalled(w, name, m.params[1], t)
    requires w.rooms[name].ops == {t} && w.rooms[name].members != [t]
    ensures Hear(React(w, f, line).mail, [f],
                 ":ircserv NOTICE " + w.people[f].nick + " :" + "You cannot kick the last channel operator" + "\r\n")
  {
    hide Inv, Hear, VerbOf, UpperCase, Parse, IsNickname, Render, ToAll, KickRefused;
    OperatorIsMember(w, f, name);
    var ps, nick, room := Parse(line).params, w.people[f].nick, w.rooms[name];
    MemberHolder(w, name, ps[1], t);
    assert KickRefused(room, f, t) by { KickIsRefused(room, f, t); }
    RefusedWhenLast(room, f, t);
    RenderNotice(nick, KICK_NOTICE);
    OneHears(f, Notice(nick, KICK_NOTICE));
  }

  lemma KickIsRefused(room: Room, f: int, t: int)
    requires room.ops == {t} && room.members != [t]
    ensures KickRefused(room, f, t)
  {
  }

  // The invited hears of an obeyed INVITE, and the sender is told; nobody else is.
  lemma InviteTold(w: World, f: int, line: string, name: string, t: int)
    requires Inv(w) && InviteLine(w, f, Parse(line), name, t)
    ensures f in w.people && f != t
    ensures var nick, who, mail := w.people[f].nick, Parse(line).params[0], React(w, f, line).mail;
            && TextsTo(mail, t) == ":" + nick + " INVITE " + who + " :" + name + "\r\n"
            && TextsTo(mail, f) == Render(Numeric(341, nick, [who, name]))
            && forall g :: g != f && g != t ==> TextsTo(mail, g) == ""
  {
    hide Inv, VerbOf, UpperCase, IsNickname, Render, TextsTo;
    OperatorIsMember(w, f, name);
    ParseCanonical(line);
    var ps, nick := Parse(line).params, w.people[f].nick;
    assert IsMiddle(ps[0]) && t in Holders(w, ps[0]);
    OnlyHolder(w, ps[0], t);
    RenderInvite(nick, ps[0], name);
    var relay, told := Relay(nick, "INVITE", [ps[0]], Some(name)), Numeric(341, nick, [ps[0], name]);
    forall g {
      TwoTexts(Mail(t, relay), Mail(f, told), g);
    }
  }

  lemma TwoTexts(a: Mail, b: Mail, g: int)
    ensures a.to != b.to ==>
      TextsTo([a] + [b], g) == (if a.to == g then Render(a.wire) else if b.to == g then Render(b.wire) else "")
  {
    hide Render;
    TextsToAppend([a], [b], g);
    OneText(a, g);
    OneText(b, g);
    assert Render(a.wire) + "" == Render(a.wire) && "" + Render(b.wire) == Render(b.wire);
  }

  // ---------- TOPIC and PRIVMSG ----------

  lemma SenderLast(members: seq<int>, f: int, wire: Wire)
    requires NoDup(members) && f in members
    ensures Hear(ToAll(Without(members, f), wire) + [Mail(f, wire)], members, Render(wire))
  {
    hide Render, TextsTo, ToAll;
    var others := Without(members, f);
    WithoutNoDup(members, f);
    forall g ensures TextsTo(ToAll(others, wire) + [Mail(f, wire)], g) == if g in members then Render(wire) else "" {
      TextsToAppend(ToAll(others, wire), [Mail(f, wire)], g);
      BroadcastExact(others, wire, g);
      OneText(Mail(f, wire), g);
      assert Render(wire) + "" == Render(wire) && "" + Render(wire) == Render(wire);
    }
  }

  lemma TopicMail(w: World, f: int, ps: seq<string>, d: Edit)
    requires f in w.people && d.SetTopic? && DecideTopic(w, f, ps).edit == d
    ensures d.name in w.rooms && f in w.rooms[d.name].members
    ensures var wire := Relay(w.people[f].nick, "TOPIC", [d.name], Some(d.topic));
            DecideTopic(w, f, ps).mail == ToAll(Without(w.rooms[d.name].members, f), wire) + [Mail(f, wire)]
  {
  }

  // A new topic is told to every member, the sender included, once.
  lemma TopicTold(w: World, f: int, line: string, d: Edit)
    requires Inv(w) && d.SetTopic? && Orders(w, Command(f, line), d)
    ensures Hear(React(w, f, line).mail, w.rooms[d.name].members,
                 ":" + w.people[f].nick + " TOPIC " + d.name + " :" + d.topic + "\r\n")
  {
    hide Inv, VerbOf, UpperCase, Render, Hear, DecideTopic, Parse;
    OrdersSet(w, Command(f, line), d);
    RoomsHaveMembers(w);
    var nick, members := w.people[f].nick, w.rooms[d.name].members;
    var wire := Relay(nick, "TOPIC", [d.name], Some(d.topic));
    RenderTopic(nick, d.name, d.topic);
    SenderLast(members, f, wire);
    TopicMail(w, f, Parse(line).params, d);
  }

  // Asking for a topic that is set is answered with it.
  lemma TopicAsked(w: World, f: int, line: string)
    requires f in w.people && w.people[f].registered && VerbOf(UpperCase(Parse(line).cmd)) == TOPIC
    requires var ps := Parse(line).params; |ps| == 1 && ps[0] in w.rooms && w.rooms[ps[0]].topic != ""
    ensures var name := Parse(line).params[0];
            Hear(React(w, f, line).mail, [f],
                 ":ircserv 332 " + w.people[f].nick + " " + name + " :" + w.rooms[name].topic + "\r\n")
  {
    hide Hear, VerbOf, UpperCase, Render, Parse;
    var nick, name := w.people[f].nick, Parse(line).params[0];
    RenderTopicIs(nick, name, w.rooms[name].topic);
    OneHears(f, TopicIs(nick, name, w.rooms[name].topic));
  }

  // A PRIVMSG to a channel is heard by its other members, one to a nick by its holder.
  lemma PrivmsgTold(w: World, f: int, line: string)
    requires Inv(w) && f in w.people && w.people[f].registered && VerbOf(UpperCase(Parse(line).cmd)) == PRIVMSG
    requires |Parse(line).params| >= 2 && Parse(line).params[1] != ""
    ensures var mail, target := React(w, f, line).mail, Parse(line).params[0];
            var text := ":" + w.people[f].nick + " PRIVMSG " + target + " :" + Parse(line).params[1] + "\r\n";
            && target != ""
            && (target[0] == '#' && target in w.rooms && f in w.rooms[target].members ==>
                  forall g :: TextsTo(mail, g) == if g in w.rooms[target].members && g != f then text else "")
            && (target[0] != '#' ==> forall t :: t in w.people && w.people[t].nick == target ==> Hear(mail, [t], text))
  {
    hide Inv, VerbOf, UpperCase, Render, TextsTo, ToAll, Hear;
    ParseCanonical(line);
    RoomsHaveMembers(w);
    var nick, target, said := w.people[f].nick, Parse(line).params[0], Parse(line).params[1];
    var wire := Relay(nick, "PRIVMSG", [target], Some(said));
    assert IsMiddle(target);
    RenderPrivmsg(nick, target, said);
    if target[0] == '#' {
      if target in w.rooms && f in w.rooms[target].members {
        WithoutNoDup(w.rooms[target].members, f);
        AllHear(Without(w.rooms[target].members, f), wire);
        HearUnfold(ToAll(Without(w.rooms[target].members, f), wire), Without(w.rooms[target].members, f), Render(wire));
      }
    } else {
      forall t | t in w.people && w.people[t].nick == target
        ensures Hear(React(w, f, line).mail, [t], Render(wire)) {
        assert t in Holders(w, target);
        OnlyHolder(w, target, t);
        OneHears(t, wire);
      }
    }
  }

  lemma HearUnfold(mail: seq<Mail>, people: seq<int>, text: string)
    requires Hear(mail, people, text)
    ensures forall g :: TextsTo(mail, g) == if g in people then text else ""
  {
  }

  // ---------- PASS, NICK and USER ----------

  // An accepted PASS is passed over in silence. An accepted NICK or USER that completes the
  // registration is answered with the welcome, to the nick then held; a NICK after registration
  // with the echo of the new nick; any other one with nothing.
  lemma RegistrationTold(w: World, f: int, line: string, verb: Verb)
    requires Inv(w) && Accepted(w, Command(f, line), f, verb)
    ensures f in w.people
    ensures var p, mail, ps := w.people[f], React(w, f, line).mail, Parse(line).params;
            match verb
            case PASS => mail == []
            case NICK =>
              if p.registered then Hear(mail, [f], "NICK :" + ps[0])
              else if p.userOk then Hear(mail, [f], Render(Numeric(1, ps[0], [])))
              else mail == []
            case USER => if p.nickOk then Hear(mail, [f], Render(Numeric(1, p.nick, []))) else mail == []
            case _ => true
  {
    hide Inv, VerbOf, UpperCase, Render, Hear, IsNickname, Holders, Parse;
    var p, ps := w.people[f], Parse(line).params;
    match verb
    case NICK =>
      FreeNick(w, f, ps[0]);
      RenderNickEcho(ps[0]);
      OneHears(f, NickEcho(ps[0]));
      OneHears(f, Numeric(1, ps[0], []));
    case USER => OneHears(f, Numeric(1, p.nick, []));
    case _ =>
  }
}
