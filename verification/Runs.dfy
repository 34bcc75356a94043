// What holds over whole histories of connections, commands and departures.
module Runs {
  import opened Parser
  import opened World
  import opened Invariant
  import opened CommandLaws

  // ---------- The last act of a history ----------

  lemma PerformLast(w: World, acts: seq<Act>, a: Act)
    ensures PerformAll(w, acts + [a]) == Perform(PerformAll(w, acts), a)
    ensures EmitAll(w, acts + [a]) == EmitAll(w, acts) + Emit(PerformAll(w, acts), a)
  {
    hide Perform, Emit;
    PerformAppend(w, acts, [a]);
    assert [a][1..] == [];
    var x := Emit(PerformAll(w, acts), a);
    assert x + [] == x;
  }

  // The world after the first t acts.
  ghost function At(w: World, acts: seq<Act>, t: nat): World
    requires t <= |acts|
  {
    PerformAll(w, acts[..t])
  }

  // ---------- Single acts ----------

  lemma CommandIsAllowed(w: World, f: int, line: string)
    requires Inv(w) && f in w.people
    ensures Allowed(w, f, React(w, f, line).edit)
    ensures Perform(w, Command(f, line)) == Apply(w, f, React(w, f, line).edit)
  {
    hide Allowed, Apply, Decide, Inv;
    DecideAllowed(w, f, Parse(line));
  }

  predicate Open(w: World, name: string) { name in w.rooms }

  // The edit that an act makes.
  ghost function EditOf(w: World, a: Act): Edit {
    if a.Command? && a.who in w.people then React(w, a.who, a.line).edit else Nothing
  }

  lemma AtFront(w: World, front: seq<Act>, last: Act)
    ensures forall t :: 0 <= t <= |front| ==> At(w, front + [last], t) == At(w, front, t)
    ensures At(w, front, |front|) == PerformAll(w, front)
    ensures At(w, front + [last], |front| + 1) == PerformAll(w, front + [last])
  {
    assert forall t :: 0 <= t <= |front| ==> (front + [last])[..t] == front[..t];
    assert front[..|front|] == front && (front + [last])[..|front| + 1] == front + [last];
  }

  // ---------- Conditions that acts bring about and that last as long as their subject ----------

  // Some acts bring the condition about, some end it, and it does not outlive its subject.
  datatype Latch = Latch(holds: World -> bool, alive: World -> bool,
                         sets: (World, Act) -> bool, ends: (World, Act) -> bool)
  {
    ghost predicate Sound() {
      forall w, a :: Inv(w) ==>
        (holds(Perform(w, a)) <==> alive(Perform(w, a)) && (sets(w, a) || (holds(w) && !ends(w, a))))
    }

    ghost predicate SetAndKept(w: World, acts: seq<Act>, t: nat)
      requires t < |acts|
    {
      && sets(At(w, acts, t), acts[t])
      && (forall u :: t < u <= |acts| ==> alive(At(w, acts, u)))
      && (forall u :: t < u < |acts| ==> !ends(At(w, acts, u), acts[u]))
    }

    ghost predicate WasSet(w: World, acts: seq<Act>) {
      exists t :: 0 <= t < |acts| && SetAndKept(w, acts, t)
    }
  }

  lemma SetEarlier(w: World, front: seq<Act>, last: Act, t: nat, l: Latch)
    requires t < |front|
    ensures l.SetAndKept(w, front + [last], t)
       <==> l.SetAndKept(w, front, t) && l.alive(PerformAll(w, front + [last])) && !l.ends(PerformAll(w, front), last)
  {
    hide PerformAll, At;
    AtFront(w, front, last);
  }

  lemma SetJustNow(w: World, front: seq<Act>, last: Act, l: Latch)
    ensures l.SetAndKept(w, front + [last], |front|)
       <==> l.alive(PerformAll(w, front + [last])) && l.sets(PerformAll(w, front), last)
  {
    hide PerformAll, At;
    AtFront(w, front, last);
  }

  lemma WasSetByLast(w: World, front: seq<Act>, last: Act, l: Latch)
    ensures l.WasSet(w, front + [last])
       <==> (l.alive(PerformAll(w, front + [last])) &&
             (l.sets(PerformAll(w, front), last) || (l.WasSet(w, front) && !l.ends(PerformAll(w, front), last))))
  {
    hide PerformAll, At, Latch.SetAndKept;
    var n, acts := |front|, front + [last];
    SetJustNow(w, front, last, l);
    forall t | 0 <= t < n
      ensures l.SetAndKept(w, acts, t)
         <==> l.SetAndKept(w, front, t) && l.alive(PerformAll(w, acts)) && !l.ends(PerformAll(w, front), last) {
      SetEarlier(w, front, last, t, l);
    }
  }

  // Such a condition holds at the end exactly when an act of the history brought it about, none has
  // ended it, and its subject has been there ever since.
  lemma {:induction false} LatchOverHistory(w: World, acts: seq<Act>, l: Latch)
    requires Inv(w) && !l.holds(w) && l.Sound()
    ensures l.holds(PerformAll(w, acts)) <==> l.WasSet(w, acts)
    decreases |acts|
  {
    hide Perform, Inv, Latch.SetAndKept;
    if acts != [] {
      var n := |acts| - 1;
      var front, last := acts[..n], acts[n];
      assert front + [last] == acts;
      LatchOverHistory(w, front, l);
      PerformAllKeepsInv(w, front);
      PerformLast(w, front, last);
      WasSetByLast(w, front, last, l);
    }
  }

  // ---------- Limits ----------

  function Larger(a: int, b: int): int { if a < b then b else a }

  // While a room stays open under one positive limit it never holds more members than the limit,
  // or than it held when the limit was set.
  lemma {:induction false} LimitHolds(w: World, acts: seq<Act>, name: string, limit: int)
    requires Inv(w) && limit > 0
    requires forall t :: 0 <= t <= |acts| ==> name in At(w, acts, t).rooms && At(w, acts, t).rooms[name].limit == limit
    ensures name in w.rooms && name in PerformAll(w, acts).rooms
    ensures |PerformAll(w, acts).rooms[name].members| <= Larger(|w.rooms[name].members|, limit)
    decreases |acts|
  {
    hide Perform, Inv;
    assert At(w, acts, 0) == w && acts[..|acts|] == acts;
    if acts != [] {
      var n := |acts| - 1;
      var front, last := acts[..n], acts[n];
      assert front + [last] == acts;
      AtFront(w, front, last);
      LimitHolds(w, front, name, limit);
      PerformAllKeepsInv(w, front);
      PerformLast(w, front, last);
      assert At(w, acts, |acts|).rooms[name].limit == limit && At(w, acts, n).rooms[name].limit == limit;
      ActRespectsLimit(PerformAll(w, front), last, name);
    }
  }

  lemma ActRespectsLimit(w: World, a: Act, name: string)
    requires Inv(w) && name in w.rooms && name in Perform(w, a).rooms
    requires w.rooms[name].limit > 0 && Perform(w, a).rooms[name].limit == w.rooms[name].limit
    ensures var before, after := |w.rooms[name].members|, |Perform(w, a).rooms[name].members|;
            after <= before || after <= w.rooms[name].limit
  {
    hide React, Apply, Allowed, RoomOk;
    match a
    case Command(f, line) =>
      if f in w.people {
        CommandIsAllowed(w, f, line);
        EditRespectsLimit(w, f, React(w, f, line).edit, name);
      }
    case Leave(f) => WithoutShrinks(w.rooms[name].members, f);
    case _ =>
  }

  lemma WithoutShrinks(s: seq<int>, x: int)
    ensures |Without(s, x)| <= |s|
  {
  }

  // ---------- Descriptors that come back ----------

  // After a departure no room mentions the descriptor, so whoever is given it next starts with no
  // membership, no operator right and no invitation.
  lemma NoStalePrivileges(w: World, f: int, name: string)
    requires Inv(w) && name in w.rooms && f !in w.people
    ensures var room := w.rooms[name]; f !in room.members && f !in room.ops && f !in room.invited
  {
    assert RoomOk(w.people, w.rooms[name]);
  }

  lemma {:induction false} ReusedDescriptorStartsClean(w: World, before: seq<Act>, f: int, name: string)
    requires Inv(w)
    ensures var given := PerformAll(w, before + [Leave(f)] + [Connect(f)]);
            name in given.rooms ==>
              var room := given.rooms[name]; f !in room.members && f !in room.ops && f !in room.invited
  {
    hide Inv;
    PerformLast(w, before, Leave(f));
    PerformLast(w, before + [Leave(f)], Connect(f));
    var gone := PerformAll(w, before + [Leave(f)]);
    PerformAllKeepsInv(w, before + [Leave(f)]);
    if name in gone.rooms {
      NoStalePrivileges(gone, f, name);
    }
  }
}
