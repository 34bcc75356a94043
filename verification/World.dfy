// The abstract server: people by descriptor and rooms by name. It has no vectors, no search order
// and no buffers. A command is decided by looking at the world, and its outcome is one edit of the
// world plus the messages to queue.
module World {
  import opened Text
  import opened Parser
  import opened Wire

  // What the server knows of a connection, apart from its two buffers.
  datatype Person = Person(nick: string, user: string, passOk: bool, nickOk: bool, userOk: bool, registered: bool)

  // A channel. Members are ordered (NAMES shows the order); operators and invitees are sets.
  datatype Room = Room(topic: string, members: seq<int>, ops: set<int>, invited: set<int>,
                       inviteOnly: bool, topicLocked: bool, key: string, limit: int)

  datatype World = World(listener: int, passwd: string, people: map<int, Person>, rooms: map<string, Room>)

  const NEWCOMER := Person("", "", false, false, false, false)
  const EMPTY_ROOM := Room("", [], {}, {}, false, false, "", 0)

  datatype Edit =
    | Nothing
    | AcceptPass
    | TakeNick(nick: string)
    | GiveUser(user: string)
    | Enter(name: string)
    | Expel(name: string, target: int)
    | SetTopic(name: string, topic: string)
    | Invite(name: string, target: int)
    | SetInviteOnly(name: string, on: bool)
    | LockTopic(name: string, on: bool)
    | SetKey(name: string, key: string)
    | SetLimit(name: string, limit: int)
    | Grant(name: string, target: int)
    | Revoke(name: string, target: int)

  datatype Mail = Mail(to: int, wire: Wire)

  datatype Outcome = Outcome(edit: Edit, mail: seq<Mail>)

  // ---------- Looking at the world ----------

  function Without(s: seq<int>, x: int): (r: seq<int>)
    ensures forall y :: y in r <==> y in s && y != x
    ensures x !in s ==> r == s
  {
    if s == [] then []
    else if s[0] == x then Without(s[1..], x)
    else [s[0]] + Without(s[1..], x)
  }

  ghost predicate NoDup<T>(s: seq<T>) { forall i, j :: 0 <= i < j < |s| ==> s[i] != s[j] }

  ghost function Holders(w: World, nick: string): set<int> {
    set f | f in w.people && w.people[f].nick == nick
  }

  ghost function Pick(s: set<int>): (x: int)
    requires s != {}
    ensures x in s
  {
    assert (forall x :: x !in s) ==> s == {};
    var x :| x in s; x
  }

  function RoomAt(w: World, name: string): Room {
    if name in w.rooms then w.rooms[name] else EMPTY_ROOM
  }

  function NickOf(w: World, f: int): string { if f in w.people then w.people[f].nick else "" }

  function Entries(w: World, room: Room): seq<NameEntry> {
    seq(|room.members|, i requires 0 <= i < |room.members| =>
      NameEntry(room.members[i] in room.ops, NickOf(w, room.members[i])))
  }

  lemma EntriesReadPeople(w: World, v: World, room: Room)
    requires w.people == v.people
    ensures Entries(w, room) == Entries(v, room)
  {
  }

  // ---------- Editing the world ----------

  function WithPerson(w: World, f: int, p: Person): World { w.(people := w.people[f := p]) }

  function WithRoom(w: World, name: string, room: Room): World { w.(rooms := w.rooms[name := room]) }

  function LeaveRoom(room: Room, f: int): Room {
    room.(members := Without(room.members, f), ops := room.ops - {f}, invited := room.invited - {f})
  }

  function Apply(w: World, f: int, e: Edit): (r: World)
    requires f in w.people
    ensures r.people.Keys == w.people.Keys && r.listener == w.listener && r.passwd == w.passwd
  {
    var p := w.people[f];
    match e
    case Nothing => w
    case AcceptPass => WithPerson(w, f, p.(passOk := true))
    case TakeNick(nick) => WithPerson(w, f, p.(nick := nick, nickOk := true, registered := p.registered || p.userOk))
    case GiveUser(user) => WithPerson(w, f, p.(user := user, userOk := true, registered := p.registered || p.nickOk))
    case Enter(name) =>
      var r := RoomAt(w, name);
      WithRoom(w, name, r.(members := r.members + [f], ops := if r.members == [] then r.ops + {f} else r.ops))
    case Expel(name, t) =>
      var r := RoomAt(w, name);
      var left := r.(members := Without(r.members, t), ops := r.ops - {t});
      if left.members == [] then w.(rooms := w.rooms - {name}) else WithRoom(w, name, left)
    case SetTopic(name, topic) => WithRoom(w, name, RoomAt(w, name).(topic := topic))
    case Invite(name, t) => var r := RoomAt(w, name); WithRoom(w, name, r.(invited := r.invited + {t}))
    case SetInviteOnly(name, on) => WithRoom(w, name, RoomAt(w, name).(inviteOnly := on))
    case LockTopic(name, on) => WithRoom(w, name, RoomAt(w, name).(topicLocked := on))
    case SetKey(name, key) => WithRoom(w, name, RoomAt(w, name).(key := key))
    case SetLimit(name, limit) => WithRoom(w, name, RoomAt(w, name).(limit := limit))
    case Grant(name, t) => var r := RoomAt(w, name); WithRoom(w, name, r.(ops := r.ops + {t}))
    case Revoke(name, t) => var r := RoomAt(w, name); WithRoom(w, name, r.(ops := r.ops - {t}))
  }

  lemma DepartPeople(w: World, f: int)
    ensures Depart(w, f).people == w.people - {f}
    ensures Depart(w, f).listener == w.listener && Depart(w, f).passwd == w.passwd
  {
  }

  lemma ApplyNothing(w: World, f: int)
    requires f in w.people
    ensures Apply(w, f, Nothing) == w
  {
  }

  // A connection goes away: it leaves every room, and rooms left empty are dissolved.
  function Depart(w: World, f: int): World {
    w.(people := w.people - {f},
       rooms := map n | n in w.rooms && Without(w.rooms[n].members, f) != [] :: LeaveRoom(w.rooms[n], f))
  }

  // ---------- Deciding a command ----------

  // The sender is sent one numeric, and nothing else happens.
  function Answer(w: World, f: int, code: int, arg: string): Outcome
    requires f in w.people
  {
    Outcome(Nothing, [Mail(f, Numeric(code, w.people[f].nick, [arg]))])
  }

  // The same for the numerics that name somebody and a channel.
  function AnswerTwo(w: World, f: int, code: int, nick: string, channel: string): Outcome
    requires f in w.people
  {
    Outcome(Nothing, [Mail(f, Numeric(code, w.people[f].nick, [nick, channel]))])
  }

  function ToAll(members: seq<int>, wire: Wire): seq<Mail> {
    seq(|members|, i requires 0 <= i < |members| => Mail(members[i], wire))
  }

  // The arguments that nick.cpp and user.cpp pass with 451 and 431, which the replies do not show.
  const NICK_FIRST := "NICK :You have not registered"
  const USER_FIRST := "USER :You have not registered"
  const NO_NICK := ":No nickname given"

  // srcs/commands/pass.cpp
  function DecidePass(w: World, f: int, ps: seq<string>): Outcome
    requires f in w.people
  {
    if w.people[f].registered then Answer(w, f, 462, "PASS")
    else if ps == [] then Answer(w, f, 461, "PASS")
    else if w.passwd == ps[0] then Outcome(AcceptPass, [])
    else Answer(w, f, 464, "PASS")
  }

  // srcs/commands/nick.cpp
  ghost function DecideNick(w: World, f: int, ps: seq<string>): Outcome
    requires f in w.people
  {
    var p := w.people[f];
    if !p.passOk then Answer(w, f, 451, NICK_FIRST)
    else if ps == [] then Answer(w, f, 431, NO_NICK)
    else if !IsNickname(ps[0]) then Answer(w, f, 432, ps[0])
    else if Holders(w, ps[0]) - {f} != {} then Answer(w, f, 433, ps[0])
    else Outcome(TakeNick(ps[0]),
                 if p.registered then [Mail(f, NickEcho(ps[0]))]
                 else if p.userOk then [Mail(f, Numeric(1, ps[0], []))]
                 else [])
  }

  // srcs/commands/user.cpp
  function DecideUser(w: World, f: int, ps: seq<string>): Outcome
    requires f in w.people
  {
    var p := w.people[f];
    if p.registered then Answer(w, f, 462, "USER")
    else if !p.passOk then Answer(w, f, 451, USER_FIRST)
    else if |ps| < 4 then Answer(w, f, 461, "USER")
    else Outcome(GiveUser(ps[0]), if p.nickOk then [Mail(f, Numeric(1, p.nick, []))] else [])
  }

  predicate KeyFits(room: Room, ps: seq<string>) { room.key == "" || (|ps| >= 2 && ps[1] == room.key) }

  predicate HasSpace(room: Room) { room.limit <= 0 || |room.members| < room.limit }

  // The first guard of JOIN that fails, as the code of its numeric, or 0.
  function JoinRefusal(room: Room, f: int, ps: seq<string>): int {
    if f in room.members then 443
    else if room.inviteOnly && f !in room.invited then 473
    else if !KeyFits(room, ps) then 475
    else if !HasSpace(room) then 471
    else 0
  }

  // Every member, the newcomer included, hears of the JOIN; the newcomer then gets the NAMES list.
  function JoinMail(w: World, f: int, name: string): seq<Mail>
    requires f in w.people
  {
    var joined, nick := RoomAt(Apply(w, f, Enter(name)), name), w.people[f].nick;
    ToAll(joined.members, Relay(nick, "JOIN", [], Some(name))) +
    [Mail(f, NamesAre(nick, name, Entries(w, joined)))] +
    [Mail(f, Numeric(366, nick, [name]))]
  }

  // srcs/commands/join.cpp
  function DecideJoin(w: World, f: int, ps: seq<string>): Outcome
    requires f in w.people
  {
    if !w.people[f].registered then Answer(w, f, 451, "JOIN")
    else if ps == [] then Answer(w, f, 461, "JOIN")
    else
      var name := ps[0];
      var room := RoomAt(w, name);
      if !IsChannelName(name) then Answer(w, f, 403, name)
      else if JoinRefusal(room, f, ps) != 0 then Answer(w, f, JoinRefusal(room, f, ps), name)
      else
        Outcome(Enter(name), JoinMail(w, f, name))
  }

  // srcs/commands/privmsg.cpp
  ghost function DecidePrivmsg(w: World, f: int, ps: seq<string>): Outcome
    requires f in w.people
  {
    if !w.people[f].registered then Answer(w, f, 451, "PRIVMSG")
    else if ps == [] then Answer(w, f, 411, "")
    else if |ps| < 2 || ps[1] == "" then Answer(w, f, 412, "")
    else
      var target, wire := ps[0], Relay(w.people[f].nick, "PRIVMSG", [ps[0]], Some(ps[1]));
      if target != "" && target[0] == '#' then
        if target !in w.rooms then Answer(w, f, 403, target)
        else if f !in w.rooms[target].members then Answer(w, f, 404, target)
        else Outcome(Nothing, ToAll(Without(w.rooms[target].members, f), wire))
      else if Holders(w, target) == {} then Answer(w, f, 401, target)
      else Outcome(Nothing, [Mail(Pick(Holders(w, target)), wire)])
  }

  // srcs/commands/topic.cpp
  function DecideTopic(w: World, f: int, ps: seq<string>): Outcome
    requires f in w.people
  {
    var nick := w.people[f].nick;
    if !w.people[f].registered then Answer(w, f, 451, "TOPIC")
    else if ps == [] then Answer(w, f, 461, "TOPIC")
    else if ps[0] !in w.rooms then Answer(w, f, 403, ps[0])
    else
      var name, room := ps[0], w.rooms[ps[0]];
      if |ps| == 1 then
        if room.topic == "" then Answer(w, f, 331, name)
        else Outcome(Nothing, [Mail(f, TopicIs(nick, name, room.topic))])
      else if f !in room.members then Answer(w, f, 442, name)
      else if room.topicLocked && f !in room.ops then Answer(w, f, 482, name)
      else
        var wire := Relay(nick, "TOPIC", [name], Some(ps[1]));
        Outcome(SetTopic(name, ps[1]), ToAll(Without(room.members, f), wire) + [Mail(f, wire)])
  }

  predicate LastOperator(room: Room, f: int) { f in room.ops && |room.ops| == 1 }

  const KICK_NOTICE := "You cannot kick the last channel operator"
  const REVOKE_NOTICE := "You cannot remove the last channel operator"

  // srcs/commands/kick.cpp
  ghost function DecideKick(w: World, f: int, ps: seq<string>): Outcome
    requires f in w.people
  {
    var nick := w.people[f].nick;
    if !w.people[f].registered then Answer(w, f, 451, "KICK")
    else if |ps| < 2 then Answer(w, f, 461, "KICK")
    else if ps[0] !in w.rooms then Answer(w, f, 403, ps[0])
    else
      var name, room, holders := ps[0], w.rooms[ps[0]], Holders(w, ps[1]);
      if f !in room.ops then Answer(w, f, 482, name)
      else if holders == {} then Answer(w, f, 401, ps[1])
      else if forall t :: t in holders ==> t !in room.members then AnswerTwo(w, f, 441, ps[1], name)
      else
        var t := Pick(holders);
        if LastOperator(room, t) && |room.members| > 1 then Outcome(Nothing, [Mail(f, Notice(nick, KICK_NOTICE))])
        else
          var reason := if |ps| > 2 then ps[2] else nick;
          Outcome(Expel(name, t), ToAll(room.members, Relay(nick, "KICK", [name, ps[1]], Some(reason))))
  }

  // srcs/commands/invite.cpp
  ghost function DecideInvite(w: World, f: int, ps: seq<string>): Outcome
    requires f in w.people
  {
    var nick := w.people[f].nick;
    if !w.people[f].registered then Answer(w, f, 451, "INVITE")
    else if |ps| < 2 then Answer(w, f, 461, "INVITE")
    else
      var holders, name := Holders(w, ps[0]), ps[1];
      if holders == {} then Answer(w, f, 401, ps[0])
      else if name !in w.rooms then Answer(w, f, 403, name)
      else if f !in w.rooms[name].ops then Answer(w, f, 482, name)
      else
        var t := Pick(holders);
        if t in w.rooms[name].members then AnswerTwo(w, f, 443, ps[0], name)
        else Outcome(Invite(name, t),
                     [Mail(t, Relay(nick, "INVITE", [ps[0]], Some(name)))] +
                     [Mail(f, Numeric(341, nick, [ps[0], name]))])
  }

  // The mode parameter: a sign and a letter.
  datatype Mode =
    | InviteOnly(on: bool)
    | TopicLock(on: bool)
    | Key(on: bool)
    | Limit(on: bool)
    | Operator(on: bool)
    | NoMode

  function ModeOf(mode: string): Mode {
    if mode == "+i" then InviteOnly(true)
    else if mode == "-i" then InviteOnly(false)
    else if mode == "+t" then TopicLock(true)
    else if mode == "-t" then TopicLock(false)
    else if mode == "+k" then Key(true)
    else if mode == "-k" then Key(false)
    else if mode == "+l" then Limit(true)
    else if mode == "-l" then Limit(false)
    else if mode == "+o" then Operator(true)
    else if mode == "-o" then Operator(false)
    else NoMode
  }

  // A mode change that every member is told of.
  function Announce(room: Room, nick: string, edit: Edit, args: seq<string>): Outcome {
    Outcome(edit, ToAll(room.members, Relay(nick, "MODE", args, None)))
  }

  // Granting or revoking, once the target is known to be a member.
  function OperatorChange(w: World, f: int, name: string, room: Room, on: bool, t: int, targetNick: string): Outcome
    requires f in w.people
  {
    var nick := w.people[f].nick;
    if on <==> t in room.ops then Outcome(Nothing, [])
    else if on then Announce(room, nick, Grant(name, t), [name, "+o", targetNick])
    else if |room.ops| == 1 then Outcome(Nothing, [Mail(f, Notice(nick, REVOKE_NOTICE))])
    else Announce(room, nick, Revoke(name, t), [name, "-o", targetNick])
  }

  // srcs/modes/operator.cpp
  ghost function DecideOperator(w: World, f: int, name: string, room: Room, on: bool, ps: seq<string>): Outcome
    requires f in w.people
  {
    if |ps| < 3 then Answer(w, f, 461, "MODE")
    else
      var holders := Holders(w, ps[2]);
      if holders == {} then Answer(w, f, 401, ps[2])
      else if forall t :: t in holders ==> t !in room.members then AnswerTwo(w, f, 441, ps[2], name)
      else OperatorChange(w, f, name, room, on, Pick(holders), ps[2])
  }

  // srcs/modes/secret_key.cpp: both signs need a third parameter, and an empty key is no key.
  function DecideKey(w: World, f: int, name: string, room: Room, on: bool, ps: seq<string>): Outcome
    requires f in w.people
  {
    var nick := w.people[f].nick;
    if |ps| < 3 then Answer(w, f, 461, "MODE")
    else if on then Announce(room, nick, SetKey(name, ps[2]), [name, "+k", ps[2]])
    else Announce(room, nick, SetKey(name, ""), [name, "-k"])
  }

  // srcs/modes/limited_usage.cpp
  function DecideLimit(w: World, f: int, name: string, room: Room, on: bool, ps: seq<string>): Outcome
    requires f in w.people
  {
    var nick := w.people[f].nick;
    if !on then Announce(room, nick, SetLimit(name, 0), [name, "-l"])
    else if |ps| < 3 || !IsNumber(ps[2]) || Atoi(ps[2]) <= 0 then Answer(w, f, 461, "MODE")
    else Announce(room, nick, SetLimit(name, Atoi(ps[2])), [name, "+l", ps[2]])
  }

  // The chain of mode steps, of which at most one applies.
  ghost function ModeOutcome(w: World, f: int, name: string, ps: seq<string>): Outcome
    requires f in w.people && |ps| >= 2
  {
    var room, nick := RoomAt(w, name), w.people[f].nick;
    match ModeOf(ps[1])
    case InviteOnly(on) => Announce(room, nick, SetInviteOnly(name, on), [name, ps[1]])
    case TopicLock(on) => Announce(room, nick, LockTopic(name, on), [name, ps[1]])
    case Key(on) => DecideKey(w, f, name, room, on, ps)
    case Limit(on) => DecideLimit(w, f, name, room, on, ps)
    case Operator(on) => DecideOperator(w, f, name, room, on, ps)
    case NoMode => Answer(w, f, 472, ps[1])
  }

  // srcs/modes/modes.cpp, with the two flag modes of invite_only.cpp and change_topic.cpp
  ghost function DecideMode(w: World, f: int, ps: seq<string>): Outcome
    requires f in w.people
  {
    if !w.people[f].registered then Answer(w, f, 451, "MODE")
    else if |ps| < 2 then Answer(w, f, 461, "MODE")
    else if ps[0] !in w.rooms then Answer(w, f, 403, ps[0])
    else
      if f !in w.rooms[ps[0]].ops then Answer(w, f, 482, ps[0])
      else ModeOutcome(w, f, ps[0], ps)
  }

  datatype Verb = PASS | NICK | USER | JOIN | PRIVMSG | TOPIC | KICK | INVITE | MODE | Unknown

  function VerbOf(cmd: string): Verb {
    if cmd == "PASS" then PASS
    else if cmd == "NICK" then NICK
    else if cmd == "USER" then USER
    else if cmd == "JOIN" then JOIN
    else if cmd == "PRIVMSG" then PRIVMSG
    else if cmd == "TOPIC" then TOPIC
    else if cmd == "KICK" then KICK
    else if cmd == "INVITE" then INVITE
    else if cmd == "MODE" then MODE
    else Unknown
  }

  // srcs/commands/CommandDispatcher.cpp
  ghost function Decide(w: World, f: int, m: Message): Outcome
    requires f in w.people
  {
    match VerbOf(UpperCase(m.cmd))
    case PASS => DecidePass(w, f, m.params)
    case NICK => DecideNick(w, f, m.params)
    case USER => DecideUser(w, f, m.params)
    case JOIN => DecideJoin(w, f, m.params)
    case PRIVMSG => DecidePrivmsg(w, f, m.params)
    case TOPIC => DecideTopic(w, f, m.params)
    case KICK => DecideKick(w, f, m.params)
    case INVITE => DecideInvite(w, f, m.params)
    case MODE => DecideMode(w, f, m.params)
    case Unknown => if m.cmd != "" then Answer(w, f, 421, UpperCase(m.cmd)) else Outcome(Nothing, [])
  }

  ghost function React(w: World, f: int, line: string): Outcome
    requires f in w.people
  {
    Decide(w, f, Parse(line))
  }

  // ---------- Histories ----------

  datatype Act = Connect(who: int) | Command(who: int, line: string) | Leave(who: int)

  ghost function Perform(w: World, a: Act): World {
    match a
    case Connect(f) => if CanConnect(w, f) then WithPerson(w, f, NEWCOMER) else w
    case Command(f, line) => if f in w.people then Apply(w, f, React(w, f, line).edit) else w
    case Leave(f) => if f in w.people then Depart(w, f) else w
  }

  // What accept promises of a new descriptor: a non-negative int that is not open.
  predicate CanConnect(w: World, f: int) { 0 <= f <= INT_MAX && f != w.listener && f !in w.people }

  ghost function Emit(w: World, a: Act): seq<Mail> {
    if a.Command? && a.who in w.people then React(w, a.who, a.line).mail else []
  }

  ghost function PerformAll(w: World, acts: seq<Act>): World
    decreases |acts|
  {
    if acts == [] then w else PerformAll(Perform(w, acts[0]), acts[1..])
  }

  ghost function EmitAll(w: World, acts: seq<Act>): seq<Mail>
    decreases |acts|
  {
    if acts == [] then [] else Emit(w, acts[0]) + EmitAll(Perform(w, acts[0]), acts[1..])
  }

  lemma {:induction false} PerformAppend(w: World, a: seq<Act>, b: seq<Act>)
    ensures PerformAll(w, a + b) == PerformAll(PerformAll(w, a), b)
    ensures EmitAll(w, a + b) == EmitAll(w, a) + EmitAll(PerformAll(w, a), b)
    decreases |a|
  {
    hide Perform, Emit;
    if a == [] {
      assert a + b == b;
    } else {
      assert (a + b)[1..] == a[1..] + b;
      PerformAppend(Perform(w, a[0]), a[1..], b);
      var x, y, z := Emit(w, a[0]), EmitAll(Perform(w, a[0]), a[1..]), EmitAll(PerformAll(w, a), b);
      assert x + (y + z) == x + y + z;
    }
  }

  function Start(listener: int, passwd: string): World { World(listener, passwd, map[], map[]) }
}
