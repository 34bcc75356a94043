// Operator rights over histories: each goes back to the founder of its channel.
module LineageLaws {
  import opened World
  import opened Invariant
  import opened Runs

  // At a time, an act by a person made another (or, as founder, itself) operator of the room.
  datatype Link = Link(time: nat, who: int)

  ghost predicate Founds(w: World, a: Act, name: string, who: int) {
    && a.Command? && a.who == who && who in w.people && name !in w.rooms
    && React(w, who, a.line).edit == Enter(name)
    && name in Perform(w, a).rooms && Perform(w, a).rooms[name].members == [who]
  }

  ghost predicate Grants(w: World, a: Act, name: string, granter: int, who: int) {
    && a.Command? && a.who == granter && granter in w.people && Operates(w, granter, name)
    && React(w, granter, a.line).edit == Grant(name, who)
  }

  // The right has been held without interruption since the link's act, until a time.
  ghost predicate Holds(w: World, acts: seq<Act>, name: string, l: Link, until: nat)
    requires until <= |acts|
  {
    forall t :: l.time < t <= until ==> Operates(At(w, acts, t), l.who, name)
  }

  // The first link founds the room; each other one is a grant by the person before it, who held
  // the right from its own link to that moment; the last holds it to the end.
  ghost predicate Lineage(w: World, acts: seq<Act>, name: string, chain: seq<Link>) {
    && chain != []
    && (forall k :: 0 <= k < |chain| ==> chain[k].time < |acts|)
    && (forall k :: 0 <= k < |chain| - 1 ==> chain[k].time < chain[k + 1].time)
    && Founds(At(w, acts, chain[0].time), acts[chain[0].time], name, chain[0].who)
    && (forall k :: 0 < k < |chain| ==>
          Grants(At(w, acts, chain[k].time), acts[chain[k].time], name, chain[k - 1].who, chain[k].who))
    && (forall k :: 0 < k < |chain| ==> Holds(w, acts, name, chain[k - 1], chain[k].time))
    && Holds(w, acts, name, chain[|chain| - 1], |acts|)
  }

  lemma EditAppoints(w: World, f: int, e: Edit, name: string, g: int)
    requires Inv(w) && f in w.people && Allowed(w, f, e)
    requires !Operates(w, g, name) && Operates(Apply(w, f, e), g, name)
    ensures (e == Enter(name) && g == f && name !in w.rooms && Apply(w, f, e).rooms[name].members == [f])
         || (e == Grant(name, g) && Operates(w, f, name))
  {
    assert name in w.rooms ==> RoomOk(w.people, w.rooms[name]);
    assert [] + [f] == [f];
  }

  // The only two ways to become an operator.
  lemma ActAppoints(w: World, a: Act, name: string, g: int)
    requires Inv(w) && !Operates(w, g, name)
    ensures Operates(Perform(w, a), g, name) ==>
      a.Command? && a.who in w.people && (Founds(w, a, name, g) || Grants(w, a, name, a.who, g))
  {
    hide React, Apply, Allowed, Inv;
    if a.Command? && a.who in w.people && Operates(Perform(w, a), g, name) {
      CommandIsAllowed(w, a.who, a.line);
      EditAppoints(w, a.who, React(w, a.who, a.line).edit, name, g);
    }
  }

  // A lineage survives an act after which its last link still holds.
  lemma LineageContinues(w: World, front: seq<Act>, last: Act, name: string, chain: seq<Link>)
    requires Lineage(w, front, name, chain)
    requires Operates(PerformAll(w, front + [last]), chain[|chain| - 1].who, name)
    ensures Lineage(w, front + [last], name, chain)
  {
    hide Founds, Grants, Operates, At, PerformAll;
    AtFront(w, front, last);
  }

  // A grant by the last link's person appends a link.
  lemma LineageGrows(w: World, front: seq<Act>, last: Act, name: string, chain: seq<Link>, g: int)
    requires Lineage(w, front, name, chain)
    ensures Grants(PerformAll(w, front), last, name, chain[|chain| - 1].who, g)
         && Operates(PerformAll(w, front + [last]), g, name)
        ==> Lineage(w, front + [last], name, chain + [Link(|front|, g)])
  {
    hide Founds, Grants, Operates, At, PerformAll;
    AtFront(w, front, last);
    var n, longer := |chain|, chain + [Link(|front|, g)];
    assert forall k :: 0 <= k < n ==> longer[k] == chain[k];
  }

  lemma LineageStarts(w: World, front: seq<Act>, last: Act, name: string, g: int)
    requires Founds(PerformAll(w, front), last, name, g)
    requires Operates(PerformAll(w, front + [last]), g, name)
    ensures Lineage(w, front + [last], name, [Link(|front|, g)])
  {
    hide Founds, Grants, Operates, At, PerformAll;
    AtFront(w, front, last);
  }

  // Every operator right, at any moment, goes back to the founder of the channel through grants
  // each made by somebody who was then an operator.
  lemma {:induction false} OperatorsHaveLineage(w: World, acts: seq<Act>, name: string, g: int)
    returns (chain: seq<Link>)
    requires Inv(w) && w.rooms == map[] && Operates(PerformAll(w, acts), g, name)
    ensures Lineage(w, acts, name, chain) && chain[|chain| - 1].who == g
    decreases |acts|
  {
    hide Perform, Inv, Lineage, Founds, Grants;
    var n := |acts| - 1;
    var front, last := acts[..n], acts[n];
    assert front + [last] == acts;
    PerformLast(w, front, last);
    PerformAllKeepsInv(w, front);
    if Operates(PerformAll(w, front), g, name) {
      chain := OperatorsHaveLineage(w, front, name, g);
      LineageContinues(w, front, last, name, chain);
    } else {
      ActAppoints(PerformAll(w, front), last, name, g);
      if Founds(PerformAll(w, front), last, name, g) {
        chain := [Link(n, g)];
        LineageStarts(w, front, last, name, g);
      } else {
        GranterOperates(PerformAll(w, front), last, name, last.who, g);
        var before := OperatorsHaveLineage(w, front, name, last.who);
        LineageGrows(w, front, last, name, before, g);
        chain := before + [Link(n, g)];
      }
    }
  }

  lemma GranterOperates(w: World, a: Act, name: string, granter: int, g: int)
    requires Grants(w, a, name, granter, g)
    ensures Operates(w, granter, name)
  {
  }
}
