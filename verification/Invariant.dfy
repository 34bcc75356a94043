// What holds of the abstract server in every reachable state.
module Invariant {
  import opened Text
  import opened Parser
  import opened World

  // Registration: NICK and USER need PASS, a nick is held exactly when NICK was accepted, and
  // registered means that both have been.
  ghost predicate PersonOk(p: Person) {
    && (p.registered <==> p.nickOk && p.userOk)
    && (p.nickOk ==> p.passOk && IsNickname(p.nick))
    && (p.userOk ==> p.passOk)
    && (!p.nickOk ==> p.nick == "")
  }

  ghost predicate RoomOk(people: map<int, Person>, room: Room) {
    && room.members != [] && NoDup(room.members)
    && (forall m :: m in room.members ==> m in people && people[m].registered)
    && (forall o :: o in room.ops ==> o in room.members)
    && room.invited <= people.Keys
    && 0 <= room.limit <= INT_MAX
  }

  ghost predicate UniqueNicks(people: map<int, Person>) {
    forall f, g :: f in people && g in people && f != g && people[f].nick == people[g].nick ==> people[f].nick == ""
  }

  ghost predicate PeopleOk(w: World) {
    && 0 <= w.listener <= INT_MAX && w.listener !in w.people
    && (forall f :: f in w.people ==> 0 <= f <= INT_MAX && PersonOk(w.people[f]))
    && UniqueNicks(w.people)
  }

  ghost predicate RoomsOk(w: World) {
    forall name :: name in w.rooms ==> IsChannelName(name) && RoomOk(w.people, w.rooms[name])
  }

  ghost predicate Inv(w: World) { PeopleOk(w) && RoomsOk(w) }

  // ---------- When each edit is allowed ----------

  ghost predicate Operates(w: World, f: int, name: string) { name in w.rooms && f in w.rooms[name].ops }

  ghost predicate Admits(w: World, f: int, name: string, ps: seq<string>) {
    name in w.rooms ==>
      var room := w.rooms[name];
      && f !in room.members
      && (room.inviteOnly ==> f in room.invited)
      && (room.key != "" ==> |ps| >= 2 && ps[1] == room.key)
      && (room.limit > 0 ==> |room.members| < room.limit)
  }

  ghost predicate Allowed(w: World, f: int, e: Edit)
    requires f in w.people
  {
    match e
    case Nothing => true
    case AcceptPass => !w.people[f].registered
    case TakeNick(nick) => w.people[f].passOk && IsNickname(nick) && Holders(w, nick) <= {f}
    case GiveUser(_) => w.people[f].passOk && !w.people[f].registered
    case Enter(name) => w.people[f].registered && IsChannelName(name) && exists ps :: Admits(w, f, name, ps)
    case Expel(name, t) =>
      Operates(w, f, name) &&
      var room := w.rooms[name]; t in room.members && !(LastOperator(room, t) && |room.members| > 1)
    case SetTopic(name, _) =>
      name in w.rooms && var room := w.rooms[name]; f in room.members && (room.topicLocked ==> f in room.ops)
    case Invite(name, t) => Operates(w, f, name) && t in w.people && t !in w.rooms[name].members
    case SetInviteOnly(name, _) => Operates(w, f, name)
    case LockTopic(name, _) => Operates(w, f, name)
    case SetKey(name, _) => Operates(w, f, name)
    case SetLimit(name, limit) => Operates(w, f, name) && 0 <= limit <= INT_MAX
    case Grant(name, t) => Operates(w, f, name) && t in w.rooms[name].members && t !in w.rooms[name].ops
    case Revoke(name, t) => Operates(w, f, name) && t in w.rooms[name].ops && |w.rooms[name].ops| != 1
  }

  lemma RoomsHaveMembers(w: World)
    requires Inv(w)
    ensures forall name :: name in w.rooms ==> w.rooms[name].members != [] && NoDup(w.rooms[name].members)
  {
    forall name | name in w.rooms ensures w.rooms[name].members != [] && NoDup(w.rooms[name].members) {
      assert RoomOk(w.people, w.rooms[name]);
    }
  }

  lemma OperatorIsMember(w: World, f: int, name: string)
    requires Inv(w) && Operates(w, f, name)
    ensures f in w.people && w.people[f].registered && f in w.rooms[name].members
  {
    assert RoomOk(w.people, w.rooms[name]);
  }

  lemma FreeNick(w: World, f: int, nick: string)
    ensures Holders(w, nick) - {f} == {} <==> forall g :: g in w.people && g != f ==> w.people[g].nick != nick
  {
    forall g | g in w.people && g != f && w.people[g].nick == nick ensures Holders(w, nick) - {f} != {} {
      assert g in Holders(w, nick) - {f};
    }
    if forall g :: g in w.people && g != f ==> w.people[g].nick != nick {
      assert forall g :: g !in Holders(w, nick) - {f};
    }
  }

  // A nick other than "" has at most one holder.
  lemma OneHolder(w: World, f: int)
    requires Inv(w) && f in w.people && w.people[f].nick != ""
    ensures Holders(w, w.people[f].nick) == {f}
  {
    forall g | g in Holders(w, w.people[f].nick) ensures g == f {
    }
  }

  lemma OnlyHolder(w: World, nick: string, t: int)
    requires Inv(w) && t in Holders(w, nick) && nick != ""
    ensures Holders(w, nick) == {t} && Pick(Holders(w, nick)) == t
  {
    OneHolder(w, t);
  }

  // A nick with a holder in a room has exactly that holder: members are registered, so named.
  lemma MemberHolder(w: World, name: string, nick: string, t: int)
    requires Inv(w) && name in w.rooms && t in w.rooms[name].members && t in Holders(w, nick)
    ensures Holders(w, nick) == {t} && nick != "" && Pick(Holders(w, nick)) == t
  {
    OneHolder(w, t);
  }

  // The same for any holder of a nick: one outside the room means that none is inside.
  lemma HolderInRoom(w: World, name: string, nick: string, t: int)
    requires Inv(w) && name in w.rooms && t in Holders(w, nick)
    ensures t in w.rooms[name].members ==> Pick(Holders(w, nick)) == t
    ensures t !in w.rooms[name].members ==> forall u :: u in Holders(w, nick) ==> u !in w.rooms[name].members
  {
    forall u | u in Holders(w, nick) && u in w.rooms[name].members ensures u == t && Pick(Holders(w, nick)) == t {
      MemberHolder(w, name, nick, u);
    }
  }

  lemma DecideOperatorAllowed(w: World, f: int, name: string, on: bool, ps: seq<string>)
    requires Inv(w) && f in w.people && Operates(w, f, name)
    ensures Allowed(w, f, DecideOperator(w, f, name, w.rooms[name], on, ps).edit)
  {
    if |ps| >= 3 && exists t :: t in Holders(w, ps[2]) && t in w.rooms[name].members {
      var t :| t in Holders(w, ps[2]) && t in w.rooms[name].members;
      MemberHolder(w, name, ps[2], t);
    }
  }

  lemma DecideKickAllowed(w: World, f: int, ps: seq<string>)
    requires Inv(w) && f in w.people
    ensures Allowed(w, f, DecideKick(w, f, ps).edit)
  {
    if |ps| >= 2 && ps[0] in w.rooms && exists t :: t in Holders(w, ps[1]) && t in w.rooms[ps[0]].members {
      var t :| t in Holders(w, ps[1]) && t in w.rooms[ps[0]].members;
      MemberHolder(w, ps[0], ps[1], t);
    }
  }

  lemma DecideJoinAllowed(w: World, f: int, ps: seq<string>)
    requires Inv(w) && f in w.people
    ensures Allowed(w, f, DecideJoin(w, f, ps).edit)
  {
    if DecideJoin(w, f, ps).edit.Enter? {
      assert Admits(w, f, ps[0], ps);
    }
  }

  lemma DecideModeAllowed(w: World, f: int, ps: seq<string>)
    requires Inv(w) && f in w.people
    ensures Allowed(w, f, DecideMode(w, f, ps).edit)
  {
    hide DecideOperator, Inv;
    if |ps| >= 2 && Operates(w, f, ps[0]) && ModeOf(ps[1]).Operator? {
      DecideOperatorAllowed(w, f, ps[0], ModeOf(ps[1]).on, ps);
    }
  }

  // Every command, well formed or not, decides on an allowed edit.
  lemma DecideAllowed(w: World, f: int, m: Message)
    requires Inv(w) && f in w.people
    ensures Allowed(w, f, Decide(w, f, m).edit)
  {
    hide Inv, DecideMode, DecideJoin, DecideKick, VerbOf, UpperCase, IsNickname, IsChannelName, KeyFits;
    DecideJoinAllowed(w, f, m.params);
    DecideKickAllowed(w, f, m.params);
    DecideModeAllowed(w, f, m.params);
  }

  // ---------- Preservation ----------

  lemma {:induction false} WithoutNoDup(s: seq<int>, x: int)
    requires NoDup(s)
    ensures NoDup(Without(s, x))
    ensures x in s ==> |Without(s, x)| == |s| - 1
  {
    if s != [] {
      var rest := s[1..];
      WithoutNoDup(rest, x);
      if s[0] == x {
        assert x !in rest;
      } else {
        assert s[0] !in Without(rest, x);
      }
    }
  }

  lemma ApplyKeepsPeople(w: World, f: int, e: Edit)
    requires Inv(w) && f in w.people && Allowed(w, f, e)
    ensures PeopleOk(Apply(w, f, e)) && Apply(w, f, e).people.Keys == w.people.Keys
    ensures forall g :: g in w.people && w.people[g].registered ==> Apply(w, f, e).people[g].registered
  {
    hide RoomOk, IsNickname, IsChannelName;
    if e.TakeNick? {
      assert forall g :: g in w.people && w.people[g].nick == e.nick ==> g in Holders(w, e.nick);
    }
  }

  lemma EnterKeepsRoom(w: World, f: int, name: string)
    requires Inv(w) && f in w.people && Allowed(w, f, Enter(name))
    ensures IsChannelName(name) && RoomOk(w.people, Apply(w, f, Enter(name)).rooms[name])
  {
    hide IsChannelName, PeopleOk;
    assert name in w.rooms ==> RoomOk(w.people, w.rooms[name]);
  }

  lemma ExpelKeepsRoom(w: World, f: int, name: string, t: int)
    requires Inv(w) && f in w.people && Allowed(w, f, Expel(name, t)) && name in Apply(w, f, Expel(name, t)).rooms
    ensures RoomOk(w.people, Apply(w, f, Expel(name, t)).rooms[name])
  {
    hide IsChannelName, PeopleOk;
    assert RoomOk(w.people, w.rooms[name]);
    WithoutNoDup(w.rooms[name].members, t);
  }

  lemma ApplyKeepsRoom(w: World, f: int, e: Edit, name: string)
    requires Inv(w) && f in w.people && Allowed(w, f, e) && name in Apply(w, f, e).rooms
    ensures IsChannelName(name) && RoomOk(w.people, Apply(w, f, e).rooms[name])
  {
    hide IsChannelName, PeopleOk;
    if e == Enter(name) {
      EnterKeepsRoom(w, f, name);
    } else {
      assert RoomOk(w.people, w.rooms[name]);
      if e.Expel? && e.name == name {
        ExpelKeepsRoom(w, f, name, e.target);
      }
    }
  }

  lemma ApplyKeepsRooms(w: World, f: int, e: Edit)
    requires Inv(w) && f in w.people && Allowed(w, f, e)
    ensures forall name :: name in Apply(w, f, e).rooms ==>
      IsChannelName(name) && RoomOk(w.people, Apply(w, f, e).rooms[name])
  {
    hide Inv, Allowed, Apply, RoomOk, IsChannelName;
    forall name | name in Apply(w, f, e).rooms
      ensures IsChannelName(name) && RoomOk(w.people, Apply(w, f, e).rooms[name]) {
      ApplyKeepsRoom(w, f, e, name);
    }
  }

  lemma ApplyKeepsInv(w: World, f: int, e: Edit)
    requires Inv(w) && f in w.people && Allowed(w, f, e)
    ensures Inv(Apply(w, f, e))
  {
    ApplyKeepsPeople(w, f, e);
    ApplyKeepsRooms(w, f, e);
  }

  lemma DepartKeepsInv(w: World, f: int)
    requires Inv(w) && f in w.people
    ensures Inv(Depart(w, f))
  {
    forall name | name in Depart(w, f).rooms
      ensures IsChannelName(name) && RoomOk(Depart(w, f).people, Depart(w, f).rooms[name]) {
      WithoutNoDup(w.rooms[name].members, f);
    }
  }

  lemma ReactKeepsInv(w: World, f: int, line: string)
    requires Inv(w) && f in w.people
    ensures Inv(Apply(w, f, React(w, f, line).edit))
  {
    hide Inv, Allowed, Apply, Decide;
    DecideAllowed(w, f, Parse(line));
    ApplyKeepsInv(w, f, React(w, f, line).edit);
  }

  lemma PerformKeepsInv(w: World, a: Act)
    requires Inv(w)
    ensures Inv(Perform(w, a))
  {
    match a
    case Connect(f) =>
      if CanConnect(w, f) {
        forall name | name in w.rooms ensures RoomOk(Perform(w, a).people, w.rooms[name]) {
          assert RoomOk(w.people, w.rooms[name]);
        }
      }
    case Command(f, line) =>
      if f in w.people {
        ReactKeepsInv(w, f, line);
      }
    case Leave(f) =>
      if f in w.people {
        DepartKeepsInv(w, f);
      }
  }

  lemma {:induction false} PerformAllKeepsInv(w: World, acts: seq<Act>)
    requires Inv(w)
    ensures Inv(PerformAll(w, acts))
    decreases |acts|
  {
    if acts != [] {
      PerformKeepsInv(w, acts[0]);
      PerformAllKeepsInv(Perform(w, acts[0]), acts[1..]);
    }
  }

  // In every history from the start, whatever the clients send, the invariant holds.
  lemma InvariantAlways(listener: int, passwd: string, acts: seq<Act>)
    requires 0 <= listener <= INT_MAX
    ensures Inv(PerformAll(Start(listener, passwd), acts))
  {
    PerformAllKeepsInv(Start(listener, passwd), acts);
  }

  // Every room has a member and every member a connection.
  lemma NoRoomsWithoutPeople(w: World)
    requires Inv(w) && w.people == map[]
    ensures w.rooms == map[]
  {
    forall name | name in w.rooms ensures false {
      SomeMember(w, name);
    }
  }

  lemma SomeMember(w: World, name: string)
    requires Inv(w) && name in w.rooms
    ensures exists m :: m in w.people && m in w.rooms[name].members
  {
    var room := w.rooms[name];
    var m := room.members[0];
    assert RoomOk(w.people, room) && m in room.members;
    assert m in w.people;
  }

  // ---------- The cast of a member count to int loses nothing ----------

  lemma {:induction false} IntsBelow(s: set<int>, n: nat)
    requires forall x :: x in s ==> 0 <= x < n
    ensures |s| <= n
  {
    if n > 0 {
      IntsBelow(s - {n - 1}, n - 1);
    } else {
      assert forall x :: x !in s;
    }
  }

  lemma {:induction false} DistinctCount(s: seq<int>)
    requires NoDup(s)
    ensures |set x | x in s| == |s|
  {
    if s != [] {
      var front, last := s[..|s| - 1], s[|s| - 1];
      DistinctCount(front);
      assert (set x | x in s) == (set x | x in front) + {last};
    }
  }

  // Members are distinct open descriptors and the listener is one more: at most INT_MAX of them.
  lemma MembersFitInt(w: World, name: string)
    requires Inv(w) && name in w.rooms
    ensures |w.rooms[name].members| <= INT_MAX
    ensures ToInt32(|w.rooms[name].members|) == |w.rooms[name].members|
  {
    var members := w.rooms[name].members;
    var open := (set m | m in members) + {w.listener};
    DistinctCount(members);
    IntsBelow(open, INT_MAX + 1);
  }
}
