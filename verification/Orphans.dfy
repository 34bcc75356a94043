// Channels without an operator: how they come about, and what becomes of them.
module OrphanLaws {
  import opened World
  import opened Invariant
  import opened CommandLaws
  import opened Runs

  ghost predicate IsOrphan(w: World, name: string) { name in w.rooms && w.rooms[name].ops == {} }

  lemma EditFoundsWithOperator(w: World, f: int, e: Edit, name: string)
    requires Inv(w) && f in w.people && Allowed(w, f, e)
    requires name !in w.rooms && name in Apply(w, f, e).rooms
    ensures e == Enter(name) && Apply(w, f, e).rooms[name].members == [f] && Apply(w, f, e).rooms[name].ops == {f}
  {
    assert [] + [f] == [f] && {} + {f} == {f};
  }

  // Only a departure can leave a room without an operator.
  lemma OnlyLeaveOrphans(w: World, a: Act, name: string)
    requires Inv(w) && !a.Leave? && !IsOrphan(w, name)
    ensures !IsOrphan(Perform(w, a), name)
  {
    hide React, Apply, Allowed, Inv;
    if a.Command? && a.who in w.people {
      CommandIsAllowed(w, a.who, a.line);
      if name in Perform(w, a).rooms {
        if name in w.rooms {
          EditKeepsOperators(w, a.who, React(w, a.who, a.line).edit, name);
        } else {
          EditFoundsWithOperator(w, a.who, React(w, a.who, a.line).edit, name);
        }
      }
    }
  }

  // The departure of the only operator of a channel that has another member.
  ghost predicate Orphans(w: World, a: Act, name: string) {
    && a.Leave? && a.who in w.people
    && name in w.rooms && w.rooms[name].ops == {a.who} && w.rooms[name].members != [a.who]
  }

  lemma DepartureOrphans(w: World, f: int, name: string)
    requires Inv(w) && f in w.people && !IsOrphan(w, name)
    ensures IsOrphan(Depart(w, f), name) <==> Orphans(w, Leave(f), name)
  {
    if name in w.rooms {
      var room := w.rooms[name];
      assert RoomOk(w.people, room);
      if room.ops == {f} {
        assert f in room.ops;
        OnlyOneLeft(room.members, f);
      } else {
        OtherOperator(room, f);
      }
    }
  }

  lemma OtherOperator(room: Room, f: int)
    requires room.ops != {} && room.ops != {f}
    ensures room.ops - {f} != {}
  {
    assert room.ops <= {f} + (room.ops - {f});
  }

  // An act orphans a channel exactly when it is the departure of its only operator with somebody
  // else left in it.
  lemma ActOrphans(w: World, a: Act, name: string)
    requires Inv(w) && !IsOrphan(w, name)
    ensures IsOrphan(Perform(w, a), name) <==> Orphans(w, a, name)
  {
    hide Inv, React, Apply, Depart;
    if a.Leave? {
      if a.who in w.people {
        DepartureOrphans(w, a.who, name);
      }
    } else {
      OnlyLeaveOrphans(w, a, name);
    }
  }

  lemma OrphanLatch(name: string) returns (l: Latch)
    ensures l.Sound() && forall w :: l.holds(w) == IsOrphan(w, name)
    ensures forall w :: l.alive(w) == Open(w, name)
    ensures forall w, a :: l.sets(w, a) == Orphans(w, a, name) && !l.ends(w, a)
  {
    hide Inv, Perform;
    l := Latch(w => IsOrphan(w, name), w => Open(w, name), (w, a) => Orphans(w, a, name), (w, a) => false);
    forall w, a | Inv(w)
      ensures IsOrphan(Perform(w, a), name)
         <==> Open(Perform(w, a), name) && (Orphans(w, a, name) || IsOrphan(w, name)) {
      if !IsOrphan(w, name) {
        ActOrphans(w, a, name);
      } else if name in Perform(w, a).rooms {
        ActFreezesOrphan(w, a, name);
      }
    }
  }

  ghost predicate OrphanedAt(w: World, acts: seq<Act>, t: nat, name: string)
    requires t < |acts|
  {
    Orphans(At(w, acts, t), acts[t], name) && forall u :: t < u <= |acts| ==> Open(At(w, acts, u), name)
  }

  // Over any history a channel ends without an operator exactly when at some moment its only
  // operator departed, leaving somebody in it, and it has not been dissolved since.
  lemma OrphanedExactly(w: World, acts: seq<Act>, name: string)
    requires Inv(w) && !IsOrphan(w, name)
    ensures IsOrphan(PerformAll(w, acts), name) <==> exists t :: 0 <= t < |acts| && OrphanedAt(w, acts, t, name)
  {
    hide Inv, IsOrphan, Orphans, PerformAll, At, Open, Perform;
    var l := OrphanLatch(name);
    LatchOverHistory(w, acts, l);
    forall t | 0 <= t < |acts| ensures l.SetAndKept(w, acts, t) <==> OrphanedAt(w, acts, t, name) {
    }
  }

  // ---------- Orphaned rooms ----------

  ghost predicate OpenThroughout(w: World, acts: seq<Act>, name: string) {
    forall t :: 0 <= t <= |acts| ==> name in At(w, acts, t).rooms
  }

  function Leavers(acts: seq<Act>): set<int> { set a | a in acts && a.Leave? :: a.who }

  lemma ActFreezesOrphan(w: World, a: Act, name: string)
    requires Inv(w) && IsOrphan(w, name) && name in Perform(w, a).rooms
    ensures SameRules(w.rooms[name], Perform(w, a).rooms[name])
    ensures Perform(w, a).rooms[name].invited == w.rooms[name].invited - Leavers([a])
  {
    hide React, Apply, Allowed, RoomOk;
    assert Leavers([a]) == if a.Leave? then {a.who} else {};
    match a
    case Command(f, line) =>
      if f in w.people {
        CommandIsAllowed(w, f, line);
        EditFreezesOrphan(w, f, React(w, f, line).edit, name);
      }
    case Leave(f) =>
      if f !in w.people {
        assert f !in w.rooms[name].invited by {
          assert RoomOk(w.people, w.rooms[name]);
          InvitedAreKnown(w.people, w.rooms[name]);
        }
      }
    case _ =>
  }

  lemma InvitedAreKnown(people: map<int, Person>, room: Room)
    requires RoomOk(people, room)
    ensures room.invited <= people.Keys
  {
  }

  // A room without operators stays so until it is dissolved, with its modes, key and limit
  // frozen, and its invitations changing only by those of the departed being dropped.
  lemma {:induction false} OrphanIsFrozen(w: World, acts: seq<Act>, name: string)
    requires Inv(w) && IsOrphan(w, name) && OpenThroughout(w, acts, name)
    ensures IsOrphan(PerformAll(w, acts), name)
    ensures SameRules(w.rooms[name], PerformAll(w, acts).rooms[name])
    ensures PerformAll(w, acts).rooms[name].invited == w.rooms[name].invited - Leavers(acts)
    decreases |acts|
  {
    hide Perform, Inv;
    if acts == [] {
      assert Leavers(acts) == {};
    } else {
      var n := |acts| - 1;
      var front, last := acts[..n], acts[n];
      assert forall t :: 0 <= t <= n ==> front[..t] == acts[..t];
      assert forall t :: 0 <= t <= n ==> At(w, front, t) == At(w, acts, t);
      OrphanIsFrozen(w, front, name);
      PerformAllKeepsInv(w, front);
      assert front + [last] == acts && acts[..|acts|] == acts;
      PerformLast(w, front, last);
      assert name in At(w, acts, |acts|).rooms;
      ActFreezesOrphan(PerformAll(w, front), last, name);
      assert Leavers(acts) == Leavers(front) + Leavers([last]);
    }
  }
}
