// The settings of a channel over histories: its key, its limit, its two flags and its topic.
module SettingLaws {
  import opened Text
  import opened Parser
  import opened World
  import opened Invariant
  import opened Runs

  // ---------- What makes a setting ----------

  // An edit that makes one of the five settings of a channel stands for that setting.
  predicate IsSetting(e: Edit) { e.SetInviteOnly? || e.LockTopic? || e.SetKey? || e.SetLimit? || e.SetTopic? }

  // What a channel starts with.
  predicate IsDefault(d: Edit) {
    match d
    case SetInviteOnly(_, on) => !on
    case LockTopic(_, on) => !on
    case SetKey(_, key) => key == ""
    case SetLimit(_, limit) => limit == 0
    case SetTopic(_, topic) => topic == ""
    case _ => false
  }

  predicate SameSetting(e: Edit, d: Edit) {
    match e
    case SetInviteOnly(name, _) => d.SetInviteOnly? && d.name == name
    case LockTopic(name, _) => d.LockTopic? && d.name == name
    case SetKey(name, _) => d.SetKey? && d.name == name
    case SetLimit(name, _) => d.SetLimit? && d.name == name
    case SetTopic(name, _) => d.SetTopic? && d.name == name
    case _ => false
  }

  predicate InForce(w: World, d: Edit) {
    match d
    case SetInviteOnly(name, on) => name in w.rooms && w.rooms[name].inviteOnly == on
    case LockTopic(name, on) => name in w.rooms && w.rooms[name].topicLocked == on
    case SetKey(name, key) => name in w.rooms && w.rooms[name].key == key
    case SetLimit(name, limit) => name in w.rooms && w.rooms[name].limit == limit
    case SetTopic(name, topic) => name in w.rooms && w.rooms[name].topic == topic
    case _ => false
  }

  // The mode string and argument by which MODE asks for a setting. -k wants an argument that it does
  // not use, +k takes the empty key for none, and +l takes positive numbers only.
  predicate Words(ps: seq<string>, d: Edit)
    requires |ps| >= 2
  {
    match d
    case SetInviteOnly(_, on) => ps[1] == (if on then "+i" else "-i")
    case LockTopic(_, on) => ps[1] == (if on then "+t" else "-t")
    case SetKey(_, key) => |ps| >= 3 && ((ps[1] == "+k" && ps[2] == key) || (ps[1] == "-k" && key == ""))
    case SetLimit(_, limit) =>
      (ps[1] == "-l" && limit == 0) || (ps[1] == "+l" && |ps| >= 3 && IsNumber(ps[2]) && Atoi(ps[2]) == limit > 0)
    case _ => false
  }

  // The members who may make a setting: operators, and for an unlocked topic everybody.
  ghost predicate MayMake(w: World, f: int, d: Edit)
    requires IsSetting(d)
  {
    && d.name in w.rooms
    && var room := w.rooms[d.name];
       if d.SetTopic? then f in room.members && (room.topicLocked ==> f in room.ops) else f in room.ops
  }

  // A MODE or TOPIC line of somebody who may that asks for the setting.
  ghost predicate Orders(w: World, a: Act, d: Edit)
    requires IsSetting(d)
  {
    && a.Command? && a.who in w.people && MayMake(w, a.who, d)
    && var m := Parse(a.line);
       && |m.params| >= 2 && m.params[0] == d.name
       && (if d.SetTopic? then VerbOf(UpperCase(m.cmd)) == TOPIC && m.params[1] == d.topic
           else VerbOf(UpperCase(m.cmd)) == MODE && Words(m.params, d))
  }

  lemma ModeSets(w: World, f: int, ps: seq<string>, d: Edit)
    requires f in w.people && IsSetting(d) && |ps| >= 2 && ps[0] in w.rooms
    ensures ModeOutcome(w, f, ps[0], ps).edit == d <==> ps[0] == d.name && Words(ps, d)
    ensures d.SetTopic? ==> !Words(ps, d)
  {
    hide IsNumber, Atoi, Holders, ToAll;
  }

  lemma TopicSets(w: World, f: int, ps: seq<string>, d: Edit)
    requires Inv(w) && f in w.people && IsSetting(d)
    ensures DecideTopic(w, f, ps).edit == d <==>
      d.SetTopic? && MayMake(w, f, d) && |ps| >= 2 && ps[0] == d.name && ps[1] == d.topic
  {
    if |ps| >= 2 && ps[0] in w.rooms {
      assert RoomOk(w.people, w.rooms[ps[0]]);
    }
  }

  lemma OtherVerbsSetNothing(w: World, f: int, m: Message)
    requires f in w.people && VerbOf(UpperCase(m.cmd)) != MODE && VerbOf(UpperCase(m.cmd)) != TOPIC
    ensures !IsSetting(Decide(w, f, m).edit)
  {
    hide VerbOf, UpperCase, Holders, IsNickname, IsChannelName, JoinMail, KeyFits, HasSpace;
  }

  // A line makes a setting exactly when it is such a line.
  lemma OrdersSet(w: World, a: Act, d: Edit)
    requires Inv(w) && IsSetting(d)
    ensures EditOf(w, a) == d <==> Orders(w, a, d)
  {
    hide ModeOutcome, DecideTopic, VerbOf, UpperCase, Words, Parse;
    if a.Command? && a.who in w.people {
      var m := Parse(a.line);
      if VerbOf(UpperCase(m.cmd)) == TOPIC {
        TopicSets(w, a.who, m.params, d);
      } else if VerbOf(UpperCase(m.cmd)) != MODE {
        OtherVerbsSetNothing(w, a.who, m);
      } else if |m.params| >= 2 && m.params[0] in w.rooms {
        assert RoomOk(w.people, w.rooms[m.params[0]]);
        ModeSets(w, a.who, m.params, d);
      }
    }
  }

  // ---------- Settings over histories ----------

  ghost predicate Opens(w: World, a: Act, name: string) { !Open(w, name) && Open(Perform(w, a), name) }

  // The act puts the setting in force: an order or, for a default, the founding.
  ghost predicate Sets(w: World, a: Act, d: Edit)
    requires IsSetting(d)
  {
    Orders(w, a, d) || (IsDefault(d) && Opens(w, a, d.name))
  }

  // An order about the same setting of the same channel, whatever it asks for.
  ghost predicate Overrules(w: World, a: Act, d: Edit) {
    exists e :: IsSetting(e) && SameSetting(e, d) && Orders(w, a, e)
  }

  // In force after an edit: what the edit makes, a default at the founding, or what was in force.
  ghost predicate SetsRightly(w: World, f: int, e: Edit, d: Edit)
    requires f in w.people && IsSetting(d)
  {
    InForce(Apply(w, f, e), d) <==>
      && d.name in Apply(w, f, e).rooms
      && (e == d || (IsDefault(d) && d.name !in w.rooms) || (InForce(w, d) && !SameSetting(e, d)))
  }

  lemma SettingSets(w: World, f: int, e: Edit, d: Edit)
    requires f in w.people && IsSetting(d) && IsSetting(e) && e.name in w.rooms
    ensures SetsRightly(w, f, e, d)
  {
  }

  lemma OthersSetNothing(w: World, f: int, e: Edit, d: Edit)
    requires f in w.people && IsSetting(d) && !IsSetting(e)
    requires (e.Expel? || e.Invite? || e.Grant? || e.Revoke?) ==> e.name in w.rooms
    ensures SetsRightly(w, f, e, d)
  {
  }

  lemma EditSets(w: World, f: int, e: Edit, d: Edit)
    requires f in w.people && Allowed(w, f, e) && IsSetting(d)
    ensures SetsRightly(w, f, e, d)
  {
    hide SetsRightly, IsChannelName, IsNickname;
    if IsSetting(e) {
      SettingSets(w, f, e, d);
    } else {
      OthersSetNothing(w, f, e, d);
    }
  }

  lemma OrdersOverrule(w: World, a: Act, d: Edit)
    requires Inv(w) && IsSetting(d)
    ensures Overrules(w, a, d) <==> SameSetting(EditOf(w, a), d)
  {
    hide Inv, EditOf, Orders;
    forall e | IsSetting(e) ensures Orders(w, a, e) <==> EditOf(w, a) == e {
      OrdersSet(w, a, e);
    }
    if SameSetting(EditOf(w, a), d) {
      assert Orders(w, a, EditOf(w, a));
    }
  }

  lemma ActSets(w: World, a: Act, d: Edit)
    requires Inv(w) && IsSetting(d)
    ensures InForce(Perform(w, a), d)
       <==> (Open(Perform(w, a), d.name) && (Sets(w, a, d) || (InForce(w, d) && !Overrules(w, a, d))))
  {
    hide Inv, Apply, React, Orders, Overrules, Allowed;
    OrdersSet(w, a, d);
    OrdersOverrule(w, a, d);
    if a.Command? && a.who in w.people {
      CommandIsAllowed(w, a.who, a.line);
      EditSets(w, a.who, EditOf(w, a), d);
    }
  }

  ghost predicate SetAt(w: World, acts: seq<Act>, t: nat, d: Edit)
    requires t < |acts| && IsSetting(d)
  {
    && Sets(At(w, acts, t), acts[t], d)
    && (forall u :: t < u <= |acts| ==> Open(At(w, acts, u), d.name))
    && (forall u :: t < u < |acts| ==> !Overrules(At(w, acts, u), acts[u], d))
  }

  lemma SettingLatch(d: Edit) returns (l: Latch)
    requires IsSetting(d)
    ensures l.Sound() && forall w :: l.holds(w) == InForce(w, d)
    ensures forall w :: l.alive(w) == Open(w, d.name)
    ensures forall w, a :: l.sets(w, a) == Sets(w, a, d) && l.ends(w, a) == Overrules(w, a, d)
  {
    hide Inv, Perform, Sets, Overrules, InForce;
    l := Latch(w => InForce(w, d), w => Open(w, d.name), (w, a) => Sets(w, a, d), (w, a) => Overrules(w, a, d));
    forall w, a | Inv(w)
      ensures InForce(Perform(w, a), d)
         <==> (Open(Perform(w, a), d.name) && (Sets(w, a, d) || (InForce(w, d) && !Overrules(w, a, d)))) {
      ActSets(w, a, d);
    }
  }

  // A channel's key, limit, flag or topic is what the last order about it asked for, since the
  // channel was founded, or the default if there was no such order; nothing else changes it.
  lemma SettingsAreLastOrdered(w: World, acts: seq<Act>, d: Edit)
    requires Inv(w) && w.rooms == map[] && IsSetting(d)
    ensures InForce(PerformAll(w, acts), d) <==> exists t :: 0 <= t < |acts| && SetAt(w, acts, t, d)
  {
    hide Inv, PerformAll, At, Open, Perform, Sets, Overrules;
    var l := SettingLatch(d);
    LatchOverHistory(w, acts, l);
    forall t | 0 <= t < |acts| ensures l.SetAndKept(w, acts, t) <==> SetAt(w, acts, t, d) {
    }
  }
}
