// What one command can and cannot do, for every world, sender and line.
module CommandLaws {
  import opened Text
  import opened Parser
  import opened Wire
  import opened World
  import opened Invariant

  // ---------- Refused commands are atomic ----------

  // An outcome that refuses consists of that one message to the sender and nothing else.
  ghost predicate AtomicRefusal(f: int, o: Outcome) {
    forall m :: m in o.mail && IsRefusal(m.wire) ==> o == Outcome(Nothing, [m]) && m.to == f
  }

  lemma ModeAtomic(w: World, f: int, name: string, ps: seq<string>)
    requires f in w.people && |ps| >= 2
    ensures AtomicRefusal(f, ModeOutcome(w, f, name, ps))
  {
    hide Holders, IsNumber, Atoi;
  }

  lemma KickAtomic(w: World, f: int, ps: seq<string>)
    requires f in w.people
    ensures AtomicRefusal(f, DecideKick(w, f, ps))
  {
    hide Holders;
  }

  lemma InviteAtomic(w: World, f: int, ps: seq<string>)
    requires f in w.people
    ensures AtomicRefusal(f, DecideInvite(w, f, ps))
  {
    hide Holders;
  }

  lemma MessageAtomic(w: World, f: int, ps: seq<string>)
    requires f in w.people
    ensures AtomicRefusal(f, DecidePrivmsg(w, f, ps)) && AtomicRefusal(f, DecideTopic(w, f, ps))
  {
    hide Holders, Without;
  }

  // Any command that queues a 4xx numeric or a last-operator notice changes nothing else, for
  // the sender or for anybody.
  lemma RefusalIsAtomic(w: World, f: int, m: Message)
    requires f in w.people
    ensures AtomicRefusal(f, Decide(w, f, m))
  {
    hide Holders, DecideJoin, DecideKick, DecideInvite, DecidePrivmsg, DecideTopic, ModeOutcome, IsNickname,
      VerbOf, UpperCase;
    var ps := m.params;
    match VerbOf(UpperCase(m.cmd))
    case JOIN => JoinAtomic(w, f, ps);
    case PRIVMSG => MessageAtomic(w, f, ps);
    case TOPIC => MessageAtomic(w, f, ps);
    case KICK => KickAtomic(w, f, ps);
    case INVITE => InviteAtomic(w, f, ps);
    case MODE =>
      if |ps| >= 2 {
        ModeAtomic(w, f, ps[0], ps);
      }
    case _ =>
  }

  lemma JoinAtomic(w: World, f: int, ps: seq<string>)
    requires f in w.people
    ensures AtomicRefusal(f, DecideJoin(w, f, ps))
  {
    hide Entries, Apply, IsChannelName, KeyFits;
  }

  // ---------- Who can do what ----------

  // Before registration a command touches no room and no other person, and answers only its sender.
  lemma UnregisteredIsConfined(w: World, f: int, m: Message)
    requires f in w.people && !w.people[f].registered
    ensures var o := Decide(w, f, m);
            && Apply(w, f, o.edit).rooms == w.rooms
            && (forall g :: g in w.people && g != f ==> Apply(w, f, o.edit).people[g] == w.people[g])
            && (forall k :: 0 <= k < |o.mail| ==> o.mail[k].to == f)
  {
    hide Holders, IsNickname, VerbOf, UpperCase;
  }

  // JOIN admits a registered client exactly when the channel is absent or every guard holds; it
  // then becomes the last member, and the first member of a channel is its operator.
  lemma JoinAdmission(w: World, f: int, ps: seq<string>)
    requires Inv(w) && f in w.people && w.people[f].registered && ps != [] && IsChannelName(ps[0])
    ensures var name, o := ps[0], DecideJoin(w, f, ps);
            var after := Apply(w, f, o.edit);
            && (Admits(w, f, name, ps) <==> o.edit == Enter(name))
            && (!Admits(w, f, name, ps) ==> after == w)
            && (Admits(w, f, name, ps) ==>
                  && name in after.rooms
                  && after.rooms[name].members == RoomAt(w, name).members + [f]
                  && after.rooms[name].ops == (if name in w.rooms then w.rooms[name].ops else {f})
                  && after.rooms - {name} == w.rooms - {name})
  {
    hide JoinMail, IsChannelName;
    if ps[0] in w.rooms {
      assert RoomOk(w.people, w.rooms[ps[0]]);
    }
  }

  // Everything but one room is as it was.
  ghost predicate OnlyRoom(w: World, after: World, name: string) {
    && after.people == w.people && after.listener == w.listener && after.passwd == w.passwd
    && after.rooms - {name} == w.rooms - {name}
  }

  // The member of a room who goes by a nick.
  ghost predicate MemberCalled(w: World, name: string, nick: string, t: int) {
    name in w.rooms && t in w.rooms[name].members && t in w.people && w.people[t].nick == nick
  }

  predicate KickRefused(room: Room, f: int, t: int) {
    f !in room.ops || (room.ops == {t} && room.members != [t])
  }

  lemma OneElement(s: set<int>, t: int)
    ensures t in s && |s| == 1 <==> s == {t}
  {
    if t in s && |s| == 1 {
      assert |s - {t}| == 0;
      assert s == {t} + (s - {t});
    }
  }

  lemma RefusedWhenLast(room: Room, f: int, t: int)
    requires t in room.members
    ensures KickRefused(room, f, t) <==> f !in room.ops || (LastOperator(room, t) && |room.members| > 1)
  {
    OneElement(room.ops, t);
    assert |room.members| == 1 ==> room.members == [room.members[0]];
  }

  // KICK succeeds exactly when the sender operates the channel, somebody in it goes by the nick, and
  // that is not its last operator with others present; then everybody present is told.
  lemma KickDecision(w: World, f: int, ps: seq<string>, t: int)
    requires Inv(w) && f in w.people && w.people[f].registered && |ps| >= 2
    requires MemberCalled(w, ps[0], ps[1], t)
    ensures var o, room := DecideKick(w, f, ps), w.rooms[ps[0]];
            && o.edit == (if KickRefused(room, f, t) then Nothing else Expel(ps[0], t))
            && (!KickRefused(room, f, t) ==>
                  |o.mail| == |room.members| && forall k :: 0 <= k < |o.mail| ==> o.mail[k].to == room.members[k])
  {
    hide IsNickname, KickRefused;
    MemberHolder(w, ps[0], ps[1], t);
    RefusedWhenLast(w.rooms[ps[0]], f, t);
  }

  // The target loses membership and operator right, and a channel left empty is dissolved;
  // invitations survive.
  lemma KickLaw(w: World, f: int, ps: seq<string>, t: int)
    requires Inv(w) && f in w.people && w.people[f].registered && |ps| >= 2
    requires MemberCalled(w, ps[0], ps[1], t)
    ensures var name, room, after := ps[0], w.rooms[ps[0]], Apply(w, f, DecideKick(w, f, ps).edit);
            if KickRefused(room, f, t) then after == w
            else
              && OnlyRoom(w, after, name)
              && (name !in after.rooms <==> room.members == [t])
              && (name in after.rooms ==>
                    && after.rooms[name].members == Without(room.members, t)
                    && after.rooms[name] == room.(members := after.rooms[name].members, ops := room.ops - {t}))
  {
    hide DecideKick, IsNickname;
    KickDecision(w, f, ps, t);
    assert RoomOk(w.people, w.rooms[ps[0]]);
    OnlyOneLeft(w.rooms[ps[0]].members, t);
  }

  lemma KickNeedsMember(w: World, f: int, ps: seq<string>)
    requires Inv(w) && f in w.people && forall t :: |ps| >= 2 ==> !MemberCalled(w, ps[0], ps[1], t)
    ensures Apply(w, f, DecideKick(w, f, ps).edit) == w
  {
    hide IsNickname;
    if |ps| >= 2 && ps[0] in w.rooms && Holders(w, ps[1]) != {} {
      forall t | t in Holders(w, ps[1]) ensures t !in w.rooms[ps[0]].members {
        assert !MemberCalled(w, ps[0], ps[1], t);
      }
    }
  }

  lemma OnlyOneLeft(members: seq<int>, t: int)
    requires NoDup(members) && t in members
    ensures Without(members, t) == [] <==> members == [t]
  {
    WithoutNoDup(members, t);
    assert |members| == 1 ==> members[0] == t;
  }

  // What INVITE wants: a registered operator of the channel, and somebody of that nick outside it.
  ghost predicate CanInvite(w: World, f: int, ps: seq<string>, t: int) {
    && f in w.people && w.people[f].registered && |ps| >= 2 && Operates(w, f, ps[1])
    && t in w.people && w.people[t].nick == ps[0] && t !in w.rooms[ps[1]].members
  }

  // INVITE adds one invitation and tells the invited and the sender if it can; otherwise it is
  // refused, and nothing else happens.
  lemma InviteLaw(w: World, f: int, ps: seq<string>)
    requires Inv(w) && f in w.people && ParsedParams(ps)
    ensures var o := DecideInvite(w, f, ps);
            var after := Apply(w, f, o.edit);
            && (forall t :: CanInvite(w, f, ps, t) ==>
                  && OnlyRoom(w, after, ps[1]) && ps[1] in after.rooms
                  && after.rooms[ps[1]] == w.rooms[ps[1]].(invited := w.rooms[ps[1]].invited + {t})
                  && |o.mail| == 2 && o.mail[0].to == t && o.mail[1].to == f)
            && ((forall t :: !CanInvite(w, f, ps, t)) ==>
                  after == w && |o.mail| == 1 && o.mail[0].to == f && IsRefusal(o.mail[0].wire))
  {
    hide Inv;
    if |ps| >= 2 && Holders(w, ps[0]) != {} {
      var t := Pick(Holders(w, ps[0]));
      assert IsMiddle(ps[0]);
      OnlyHolder(w, ps[0], t);
      assert forall u :: CanInvite(w, f, ps, u) ==> u in Holders(w, ps[0]);
      assert DecideInvite(w, f, ps).edit != Nothing ==> CanInvite(w, f, ps, t);
    } else {
      assert forall u :: CanInvite(w, f, ps, u) ==> u in Holders(w, ps[0]);
    }
  }

  // MODE +o and -o on a member: an operator may grant, and may revoke unless that would leave none.
  lemma OperatorLaw(w: World, f: int, ps: seq<string>, t: int)
    requires Inv(w) && f in w.people && w.people[f].registered && |ps| >= 3
    requires ModeOf(ps[1]).Operator? && MemberCalled(w, ps[0], ps[2], t)
    ensures var name, on := ps[0], ModeOf(ps[1]).on;
            var room, after := w.rooms[name], Apply(w, f, DecideMode(w, f, ps).edit);
            && OnlyRoom(w, after, name) && name in after.rooms
            && after.rooms[name] ==
                 (if f !in room.ops then room
                  else if on then room.(ops := room.ops + {t})
                  else if |room.ops| == 1 then room
                  else room.(ops := room.ops - {t}))
  {
    hide IsNickname, ModeOf, ToAll, RoomOk, PeopleOk, DecideKey, DecideLimit;
    MemberHolder(w, ps[0], ps[2], t);
    var room := w.rooms[ps[0]];
    assert w.rooms[ps[0] := room] == w.rooms;
    assert t in room.ops ==> room.ops + {t} == room.ops;
    assert t !in room.ops ==> room.ops - {t} == room.ops;
  }

  // NICK succeeds exactly with PASS accepted, a valid nick and no other holder of it; it then
  // registers a sender whose USER was accepted before.
  lemma NickLaw(w: World, f: int, ps: seq<string>)
    requires Inv(w) && f in w.people && ps != []
    ensures var p, after := w.people[f], Apply(w, f, DecideNick(w, f, ps).edit);
            if p.passOk && IsNickname(ps[0]) && (forall g :: g in w.people && g != f ==> w.people[g].nick != ps[0]) then
              after == w.(people := w.people[f := p.(nick := ps[0], nickOk := true, registered := p.userOk)])
            else after == w
  {
    hide IsNickname;
    assert PersonOk(w.people[f]);
    if forall g :: g in w.people && g != f ==> w.people[g].nick != ps[0] {
      assert Holders(w, ps[0]) - {f} == {};
    } else {
      var g :| g in w.people && g != f && w.people[g].nick == ps[0];
      assert g in Holders(w, ps[0]) - {f};
    }
  }

  // PASS counts exactly with the right word before registration, USER exactly with PASS accepted
  // and four parameters before registration; USER registers a sender whose NICK was accepted.
  lemma PassAndUserLaw(w: World, f: int, ps: seq<string>)
    requires Inv(w) && f in w.people
    ensures var p := w.people[f];
            && Apply(w, f, DecidePass(w, f, ps).edit) ==
                 (if !p.registered && ps != [] && ps[0] == w.passwd
                  then w.(people := w.people[f := p.(passOk := true)]) else w)
            && Apply(w, f, DecideUser(w, f, ps).edit) ==
                 (if !p.registered && p.passOk && |ps| >= 4
                  then w.(people := w.people[f := p.(user := ps[0], userOk := true, registered := p.nickOk)]) else w)
  {
  }

  // ---------- Operators ----------

  lemma LastOfTwo(s: set<int>, t: int)
    requires t in s && |s| != 1
    ensures s - {t} != {}
  {
    assert |s - {t}| == |s| - 1 && |s| > 0;
  }

  // No allowed edit takes the last operator from a room that remains.
  lemma EditKeepsOperators(w: World, f: int, e: Edit, name: string)
    requires Inv(w) && f in w.people && Allowed(w, f, e)
    requires name in w.rooms && w.rooms[name].ops != {}
    ensures name in Apply(w, f, e).rooms ==> Apply(w, f, e).rooms[name].ops != {}
  {
    match e
    case Expel(n, t) =>
      if n == name && t in w.rooms[name].ops {
        if |w.rooms[name].ops| == 1 {
          OnlyMember(w.rooms[name].members, t);
        } else {
          LastOfTwo(w.rooms[name].ops, t);
        }
      }
    case Revoke(n, t) =>
      if n == name {
        LastOfTwo(w.rooms[name].ops, t);
      }
    case Grant(n, t) =>
      if n == name {
        assert t in w.rooms[name].ops + {t};
      }
    case _ =>
  }

  lemma OnlyMember(members: seq<int>, t: int)
    requires |members| <= 1 && t in members
    ensures Without(members, t) == []
  {
    assert members == [t];
    assert members[1..] == [];
  }

  // What an edit may do to a room that has no operator: nothing but a change of topic, members or
  // existence.
  lemma EditFreezesOrphan(w: World, f: int, e: Edit, name: string)
    requires Inv(w) && f in w.people && Allowed(w, f, e)
    requires name in w.rooms && w.rooms[name].ops == {} && name in Apply(w, f, e).rooms
    ensures SameRules(w.rooms[name], Apply(w, f, e).rooms[name])
    ensures Apply(w, f, e).rooms[name].invited == w.rooms[name].invited
  {
    hide Inv, IsChannelName, NoDup;
    RoomsHaveMembers(w);
    assert !Operates(w, f, name);
  }

  // Operators, modes, key and limit are the same.
  predicate SameRules(a: Room, b: Room) {
    a.ops == b.ops && a.inviteOnly == b.inviteOnly && a.topicLocked == b.topicLocked &&
    a.key == b.key && a.limit == b.limit
  }

  // A positive limit that a command leaves alone is respected by it: the room does not grow past
  // the limit, or not at all if it was past it already.
  lemma EditRespectsLimit(w: World, f: int, e: Edit, name: string)
    requires Inv(w) && f in w.people && Allowed(w, f, e)
    requires name in w.rooms && name in Apply(w, f, e).rooms
    requires w.rooms[name].limit > 0 && Apply(w, f, e).rooms[name].limit == w.rooms[name].limit
    ensures var before, after := |w.rooms[name].members|, |Apply(w, f, e).rooms[name].members|;
            after <= before || after <= w.rooms[name].limit
  {
    if e.Expel? && e.name == name {
      WithoutNoDup(w.rooms[name].members, e.target);
    }
  }
}
