// Where a client stands with a channel over histories: member, operator, invited.
module StandingLaws {
  import opened Text
  import opened Parser
  import opened World
  import opened Invariant
  import opened CommandLaws
  import opened Runs

  datatype Standing = Member | Operator | Invitee

  ghost predicate Has(w: World, f: int, name: string, s: Standing) {
    && name in w.rooms && f in w.people
    && var room := w.rooms[name];
       match s case Member => f in room.members case Operator => f in room.ops case Invitee => f in room.invited
  }

  // ---------- Lines that change it ----------

  // A JOIN that passes every guard.
  ghost predicate JoinLine(w: World, f: int, m: Message, name: string) {
    && f in w.people && w.people[f].registered && VerbOf(UpperCase(m.cmd)) == JOIN
    && m.params != [] && m.params[0] == name && IsChannelName(name) && Admits(w, f, name, m.params)
  }

  // A KICK, by an operator, of a member that is not the last operator with others present.
  ghost predicate KickLine(w: World, f: int, m: Message, name: string, t: int) {
    && Operates(w, f, name) && VerbOf(UpperCase(m.cmd)) == KICK
    && |m.params| >= 2 && m.params[0] == name && MemberCalled(w, name, m.params[1], t)
    && !KickRefused(w.rooms[name], f, t)
  }

  // An INVITE, by an operator, of the holder of a nick who is not a member.
  ghost predicate InviteLine(w: World, f: int, m: Message, name: string, t: int) {
    && Operates(w, f, name) && VerbOf(UpperCase(m.cmd)) == INVITE
    && |m.params| >= 2 && m.params[1] == name
    && t in w.people && w.people[t].nick == m.params[0] && t !in w.rooms[name].members
  }

  // A MODE +o, by an operator, of a member that is no operator; or a MODE -o of one that is not the last.
  ghost predicate OperatorLine(w: World, f: int, m: Message, name: string, on: bool, t: int) {
    && Operates(w, f, name) && VerbOf(UpperCase(m.cmd)) == MODE
    && |m.params| >= 3 && m.params[0] == name && m.params[1] == (if on then "+o" else "-o")
    && MemberCalled(w, name, m.params[2], t)
    && (if on then t !in w.rooms[name].ops else t in w.rooms[name].ops && |w.rooms[name].ops| != 1)
  }

  // Lines that give a standing. The founder of a channel is its operator at once.
  ghost predicate Gains(w: World, a: Act, t: int, name: string, s: Standing) {
    && a.Command? && a.who in w.people
    && var f, m := a.who, Parse(a.line);
       match s
       case Member => f == t && JoinLine(w, f, m, name)
       case Operator => (f == t && name !in w.rooms && JoinLine(w, f, m, name)) || OperatorLine(w, f, m, name, true, t)
       case Invitee => InviteLine(w, f, m, name, t)
  }

  // Lines that take it away. Nothing takes an invitation away.
  ghost predicate Loses(w: World, a: Act, t: int, name: string, s: Standing) {
    && a.Command? && a.who in w.people
    && var f, m := a.who, Parse(a.line);
       match s
       case Member => KickLine(w, f, m, name, t)
       case Operator => KickLine(w, f, m, name, t) || OperatorLine(w, f, m, name, false, t)
       case Invitee => false
  }

  // ---------- Edits ----------

  predicate EditGains(w: World, f: int, e: Edit, t: int, name: string, s: Standing) {
    match s
    case Member => e == Enter(name) && f == t
    case Operator => (e == Enter(name) && f == t && name !in w.rooms) || e == Grant(name, t)
    case Invitee => e == Edit.Invite(name, t)
  }

  predicate EditLoses(e: Edit, t: int, name: string, s: Standing) {
    match s
    case Member => e == Expel(name, t)
    case Operator => e == Expel(name, t) || e == Revoke(name, t)
    case Invitee => false
  }

  ghost predicate MovesRightly(w: World, f: int, e: Edit, t: int, name: string, s: Standing)
    requires f in w.people
  {
    Has(Apply(w, f, e), t, name, s) <==>
      && name in Apply(w, f, e).rooms && t in w.people
      && (EditGains(w, f, e, t, name, s) || (Has(w, t, name, s) && !EditLoses(e, t, name, s)))
  }

  lemma EditMember(w: World, f: int, e: Edit, t: int, name: string)
    requires Inv(w) && f in w.people && Allowed(w, f, e)
    ensures MovesRightly(w, f, e, t, name, Member)
  {
    hide Inv, IsChannelName, IsNickname, Admits;
  }

  lemma EditOperator(w: World, f: int, e: Edit, t: int, name: string)
    requires Inv(w) && f in w.people && Allowed(w, f, e)
    ensures MovesRightly(w, f, e, t, name, Standing.Operator)
  {
    hide Inv, IsChannelName, IsNickname, Admits;
    RoomsHaveMembers(w);
  }

  lemma EditInvitee(w: World, f: int, e: Edit, t: int, name: string)
    requires Inv(w) && f in w.people && Allowed(w, f, e)
    ensures MovesRightly(w, f, e, t, name, Invitee)
  {
    hide Inv, IsChannelName, IsNickname, Admits;
  }

  lemma EditStanding(w: World, f: int, e: Edit, t: int, name: string, s: Standing)
    requires Inv(w) && f in w.people && Allowed(w, f, e)
    ensures MovesRightly(w, f, e, t, name, s)
  {
    hide Inv, Allowed, MovesRightly;
    match s
    case Member => EditMember(w, f, e, t, name);
    case Operator => EditOperator(w, f, e, t, name);
    case Invitee => EditInvitee(w, f, e, t, name);
  }

  // ---------- Lines and their edits ----------

  // Each of the edits comes from one command.
  lemma VerbOfEdit(w: World, f: int, m: Message)
    requires f in w.people
    ensures var e, verb := Decide(w, f, m).edit, VerbOf(UpperCase(m.cmd));
            && (e.Enter? ==> verb == JOIN)
            && (e.Expel? ==> verb == KICK)
            && (e.Invite? ==> verb == INVITE)
            && (e.Grant? || e.Revoke? ==> verb == MODE)
  {
    hide VerbOf, UpperCase, Holders, IsNickname, IsChannelName, JoinMail, KeyFits, HasSpace, ModeOutcome;
    if VerbOf(UpperCase(m.cmd)) == MODE && |m.params| >= 2 {
      EditsOfMode(w, f, m.params[0], m.params);
    }
  }

  lemma EditsOfMode(w: World, f: int, name: string, ps: seq<string>)
    requires f in w.people && |ps| >= 2
    ensures var e := ModeOutcome(w, f, name, ps).edit; !e.Enter? && !e.Expel? && !e.Invite?
  {
    hide Holders, IsNumber, Atoi;
  }

  lemma JoinEdits(w: World, f: int, m: Message, name: string)
    requires Inv(w) && f in w.people && VerbOf(UpperCase(m.cmd)) == JOIN
    ensures Decide(w, f, m).edit == Enter(name) <==> JoinLine(w, f, m, name)
  {
    hide Inv, IsChannelName, JoinMail, VerbOf, UpperCase, JoinRefusal, Admits;
    var ps := m.params;
    if w.people[f].registered && ps != [] && IsChannelName(ps[0]) {
      JoinAdmission(w, f, ps);
    }
  }

  lemma KickEdits(w: World, f: int, m: Message, name: string, t: int)
    requires Inv(w) && f in w.people && VerbOf(UpperCase(m.cmd)) == KICK
    ensures Decide(w, f, m).edit == Expel(name, t) <==> KickLine(w, f, m, name, t)
  {
    hide Inv, VerbOf, UpperCase, IsNickname, KickRefused;
    var ps := m.params;
    if |ps| >= 2 && Operates(w, f, ps[0]) {
      OperatorIsMember(w, f, ps[0]);
      if exists u :: MemberCalled(w, ps[0], ps[1], u) {
        var u :| MemberCalled(w, ps[0], ps[1], u);
        MemberHolder(w, ps[0], ps[1], u);
        RefusedWhenLast(w.rooms[ps[0]], f, u);
        assert MemberCalled(w, ps[0], ps[1], t) ==> t in Holders(w, ps[1]);
      } else {
        assert forall u :: u in Holders(w, ps[1]) && u in w.rooms[ps[0]].members ==> MemberCalled(w, ps[0], ps[1], u);
      }
    }
  }

  lemma InviteEdits(w: World, f: int, m: Message, name: string, t: int)
    requires Inv(w) && f in w.people && VerbOf(UpperCase(m.cmd)) == INVITE && ParsedParams(m.params)
    ensures Decide(w, f, m).edit == Edit.Invite(name, t) <==> InviteLine(w, f, m, name, t)
  {
    hide Inv, VerbOf, UpperCase, IsNickname;
    var ps := m.params;
    if |ps| >= 2 && Operates(w, f, ps[1]) {
      assert IsMiddle(ps[0]);
      OperatorIsMember(w, f, ps[1]);
      assert t in w.people && w.people[t].nick == ps[0] ==> t in Holders(w, ps[0]);
      if Holders(w, ps[0]) != {} {
        OnlyHolder(w, ps[0], Pick(Holders(w, ps[0])));
      }
    }
  }

  lemma OperatorEdits(w: World, f: int, m: Message, name: string, on: bool, t: int)
    requires Inv(w) && f in w.people && VerbOf(UpperCase(m.cmd)) == MODE
    ensures Decide(w, f, m).edit == (if on then Grant(name, t) else Revoke(name, t))
       <==> OperatorLine(w, f, m, name, on, t)
  {
    hide Inv, VerbOf, UpperCase, IsNickname, IsNumber, Atoi, ToAll;
    var ps := m.params;
    if |ps| >= 2 && Operates(w, f, ps[0]) {
      OperatorIsMember(w, f, ps[0]);
      if |ps| >= 3 {
        if exists u :: MemberCalled(w, ps[0], ps[2], u) {
          var u :| MemberCalled(w, ps[0], ps[2], u);
          MemberHolder(w, ps[0], ps[2], u);
          assert MemberCalled(w, ps[0], ps[2], t) ==> t in Holders(w, ps[2]);
        } else {
          assert forall u :: u in Holders(w, ps[2]) && u in w.rooms[ps[0]].members ==> MemberCalled(w, ps[0], ps[2], u);
        }
      }
    }
  }

  // ---------- Standings over histories ----------

  lemma LineStanding(w: World, a: Act, t: int, name: string, s: Standing)
    requires Inv(w) && a.Command? && a.who in w.people
    ensures Gains(w, a, t, name, s) <==> EditGains(w, a.who, EditOf(w, a), t, name, s)
    ensures Loses(w, a, t, name, s) <==> EditLoses(EditOf(w, a), t, name, s)
  {
    hide Inv, Decide, VerbOf, UpperCase, Parse, JoinLine, KickLine, InviteLine, OperatorLine;
    var f, m := a.who, Parse(a.line);
    ParseCanonical(a.line);
    VerbOfEdit(w, f, m);
    LinesAreCommands(w, f, m, name, t);
    match VerbOf(UpperCase(m.cmd))
    case JOIN => JoinEdits(w, f, m, name);
    case KICK => KickEdits(w, f, m, name, t);
    case INVITE => InviteEdits(w, f, m, name, t);
    case MODE =>
      OperatorEdits(w, f, m, name, true, t);
      OperatorEdits(w, f, m, name, false, t);
    case _ =>
  }

  lemma LinesAreCommands(w: World, f: int, m: Message, name: string, t: int)
    ensures JoinLine(w, f, m, name) ==> VerbOf(UpperCase(m.cmd)) == JOIN
    ensures KickLine(w, f, m, name, t) ==> VerbOf(UpperCase(m.cmd)) == KICK
    ensures InviteLine(w, f, m, name, t) ==> VerbOf(UpperCase(m.cmd)) == INVITE
    ensures forall on :: OperatorLine(w, f, m, name, on, t) ==> VerbOf(UpperCase(m.cmd)) == MODE
  {
    hide VerbOf, UpperCase, MemberCalled, Operates, IsChannelName, Admits;
  }

  // The channel is open and the client connected.
  ghost predicate Both(w: World, t: int, name: string) { name in w.rooms && t in w.people }

  lemma DepartureStanding(w: World, f: int, t: int, name: string, s: Standing)
    ensures Has(Depart(w, f), t, name, s) <==> Both(Depart(w, f), t, name) && Has(w, t, name, s)
  {
  }

  lemma ActStanding(w: World, a: Act, t: int, name: string, s: Standing)
    requires Inv(w)
    ensures Has(Perform(w, a), t, name, s) <==>
      Both(Perform(w, a), t, name) && (Gains(w, a, t, name, s) || (Has(w, t, name, s) && !Loses(w, a, t, name, s)))
  {
    hide Inv, Apply, React, Depart, Has, Gains, Loses, EditGains, EditLoses, Allowed;
    match a
    case Connect(f) => ArrivalStanding(w, f, t, name, s);
    case Command(f, line) =>
      if f in w.people {
        CommandIsAllowed(w, f, line);
        LineStanding(w, a, t, name, s);
        EditStanding(w, f, EditOf(w, a), t, name, s);
      } else {
        NoCommand(w, a, t, name, s);
      }
    case Leave(f) =>
      NoCommand(w, a, t, name, s);
      DepartureStanding(w, f, t, name, s);
  }

  lemma NoCommand(w: World, a: Act, t: int, name: string, s: Standing)
    ensures !(a.Command? && a.who in w.people) ==> !Gains(w, a, t, name, s) && !Loses(w, a, t, name, s)
    ensures Has(w, t, name, s) ==> Both(w, t, name)
  {
  }

  lemma ArrivalStanding(w: World, f: int, t: int, name: string, s: Standing)
    requires Inv(w)
    ensures var a := Connect(f);
            Has(Perform(w, a), t, name, s) <==>
              && Both(Perform(w, a), t, name)
              && (Gains(w, a, t, name, s) || (Has(w, t, name, s) && !Loses(w, a, t, name, s)))
  {
    if name in w.rooms && f !in w.people {
      NoStalePrivileges(w, f, name);
    }
  }

  // The standing was given at some moment, has not been taken away since, and ever since the
  // channel has been open and the client connected.
  ghost predicate GainedAt(w: World, acts: seq<Act>, i: nat, t: int, name: string, s: Standing)
    requires i < |acts|
  {
    && Gains(At(w, acts, i), acts[i], t, name, s)
    && (forall u :: i < u <= |acts| ==> Both(At(w, acts, u), t, name))
    && (forall u :: i < u < |acts| ==> !Loses(At(w, acts, u), acts[u], t, name, s))
  }

  lemma StandingLatch(t: int, name: string, s: Standing) returns (l: Latch)
    ensures l.Sound() && forall w :: l.holds(w) == Has(w, t, name, s)
    ensures forall w :: l.alive(w) == Both(w, t, name)
    ensures forall w, a :: l.sets(w, a) == Gains(w, a, t, name, s) && l.ends(w, a) == Loses(w, a, t, name, s)
  {
    hide Inv, Perform, Has, Both, Gains, Loses;
    l := Latch(w => Has(w, t, name, s), w => Both(w, t, name), (w, a) => Gains(w, a, t, name, s),
               (w, a) => Loses(w, a, t, name, s));
    forall w, a | Inv(w)
      ensures Has(Perform(w, a), t, name, s) <==>
        Both(Perform(w, a), t, name) && (Gains(w, a, t, name, s) || (Has(w, t, name, s) && !Loses(w, a, t, name, s))) {
      ActStanding(w, a, t, name, s);
    }
  }

  // Over any history a client is a member, an operator or invited exactly when a line of the right
  // kind made it so, none has undone that, and neither the channel nor the connection has gone.
  lemma StandingExactly(w: World, acts: seq<Act>, t: int, name: string, s: Standing)
    requires Inv(w) && !Has(w, t, name, s)
    ensures Has(PerformAll(w, acts), t, name, s) <==> exists i :: 0 <= i < |acts| && GainedAt(w, acts, i, t, name, s)
  {
    hide Inv, PerformAll, At, Has, Both, Perform, Gains, Loses;
    var l := StandingLatch(t, name, s);
    LatchOverHistory(w, acts, l);
    forall i | 0 <= i < |acts| ensures l.SetAndKept(w, acts, i) <==> GainedAt(w, acts, i, t, name, s) {
    }
  }

  // Whoever has become a member did so by a JOIN of the channel that founded it, or that met the
  // channel's terms as they were: it gave the key if there was one, its sender was invited if
  // that was needed, and the limit left room; and it has been neither closed nor left since.
  lemma MembersMetTheTerms(w: World, acts: seq<Act>, t: int, name: string) returns (i: nat)
    requires Inv(w) && !Has(w, t, name, Member) && Has(PerformAll(w, acts), t, name, Member)
    ensures i < |acts| && acts[i].Command? && acts[i].who == t
    ensures var v, m := At(w, acts, i), Parse(acts[i].line);
            && VerbOf(UpperCase(m.cmd)) == JOIN && m.params != [] && m.params[0] == name
            && t in v.people && v.people[t].registered
            && (name in v.rooms ==>
                  var room := v.rooms[name];
                  && (room.key != "" ==> |m.params| >= 2 && m.params[1] == room.key)
                  && (room.inviteOnly ==> t in room.invited)
                  && (room.limit > 0 ==> |room.members| < room.limit))
    ensures forall u :: i < u <= |acts| ==> Both(At(w, acts, u), t, name)
  {
    hide Inv, PerformAll, At, Has, Both, Parse, VerbOf, UpperCase, IsChannelName;
    StandingExactly(w, acts, t, name, Member);
    i :| 0 <= i < |acts| && GainedAt(w, acts, i, t, name, Member);
  }

  // ---------- Channels over histories ----------

  // The JOIN of a channel that is not there.
  ghost predicate Creates(w: World, a: Act, name: string) {
    a.Command? && a.who in w.people && name !in w.rooms && JoinLine(w, a.who, Parse(a.line), name)
  }

  // The only member departs, or kicks itself out.
  ghost predicate Empties(w: World, a: Act, name: string) {
    && name in w.rooms && a.who in w.people
    && ((a.Leave? && w.rooms[name].members == [a.who])
     || (a.Command? && exists t :: w.rooms[name].members == [t] && KickLine(w, a.who, Parse(a.line), name, t)))
  }

  lemma EditOpens(w: World, f: int, e: Edit, name: string)
    requires Inv(w) && f in w.people && Allowed(w, f, e)
    ensures Open(Apply(w, f, e), name) <==>
      || (e == Enter(name) && name !in w.rooms)
      || (Open(w, name) && !exists t :: e == Expel(name, t) && w.rooms[name].members == [t])
  {
    hide IsChannelName, IsNickname, Admits;
    RoomsHaveMembers(w);
    if e.Expel? && e.name == name {
      OnlyOneLeft(w.rooms[name].members, e.target);
    }
  }

  lemma DepartureOpens(w: World, f: int, name: string)
    requires Inv(w) && f in w.people
    ensures Open(Depart(w, f), name) <==> Open(w, name) && w.rooms[name].members != [f]
  {
    hide Inv;
    RoomsHaveMembers(w);
    if name in w.rooms && f in w.rooms[name].members {
      OnlyOneLeft(w.rooms[name].members, f);
    }
  }

  lemma ActOpens(w: World, a: Act, name: string)
    requires Inv(w)
    ensures Open(Perform(w, a), name) <==> Creates(w, a, name) || (Open(w, name) && !Empties(w, a, name))
  {
    hide Inv, Apply, React, Depart, Allowed, JoinLine, KickLine;
    match a
    case Connect(f) =>
    case Command(f, line) =>
      if f in w.people {
        CommandIsAllowed(w, f, line);
        EditOpens(w, f, EditOf(w, a), name);
        LineStanding(w, a, f, name, Member);
        forall t ensures KickLine(w, f, Parse(line), name, t) <==> EditOf(w, a) == Expel(name, t) {
          LineStanding(w, a, t, name, Member);
        }
      }
    case Leave(f) =>
      if f in w.people {
        DepartureOpens(w, f, name);
      }
  }

  ghost predicate CreatedAt(w: World, acts: seq<Act>, i: nat, name: string)
    requires i < |acts|
  {
    Creates(At(w, acts, i), acts[i], name) && forall u :: i < u < |acts| ==> !Empties(At(w, acts, u), acts[u], name)
  }

  lemma OpenLatch(name: string) returns (l: Latch)
    ensures l.Sound() && forall w :: l.holds(w) == Open(w, name)
    ensures forall w :: l.alive(w)
    ensures forall w, a :: l.sets(w, a) == Creates(w, a, name) && l.ends(w, a) == Empties(w, a, name)
  {
    hide Inv, Perform, Creates, Empties, Open;
    l := Latch(w => Open(w, name), w => true, (w, a) => Creates(w, a, name), (w, a) => Empties(w, a, name));
    forall w, a | Inv(w)
      ensures Open(Perform(w, a), name) <==> Creates(w, a, name) || (Open(w, name) && !Empties(w, a, name)) {
      ActOpens(w, a, name);
    }
  }

  // Over any history a channel is open exactly when some JOIN created it and its only member has
  // not departed or been kicked since.
  lemma OpenExactly(w: World, acts: seq<Act>, name: string)
    requires Inv(w) && !Open(w, name)
    ensures Open(PerformAll(w, acts), name) <==> exists i :: 0 <= i < |acts| && CreatedAt(w, acts, i, name)
  {
    hide Inv, PerformAll, At, Open, Perform, Creates, Empties;
    var l := OpenLatch(name);
    LatchOverHistory(w, acts, l);
    forall i | 0 <= i < |acts| ensures l.SetAndKept(w, acts, i) <==> CreatedAt(w, acts, i, name) {
    }
  }
}
