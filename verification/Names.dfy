// The NAMES list: what a client makes of the 353 reply.
module NamesLaws {
  import opened Text
  import opened Parser
  import opened Wire
  import opened World
  import opened Invariant
  import opened RelayLaws
  import opened QuoteLaws

  predicate SpaceFree(s: string) { ' ' !in s }

  // Splitting at every space.
  function Fields(s: string): seq<string> {
    if s == "" then [""]
    else
      var rest := Fields(s[1..]);
      if s[0] == ' ' then [""] + rest
      else if rest == [] then [s]
      else [[s[0]] + rest[0]] + rest[1..]
  }

  function ReadEntry(t: string): NameEntry {
    if t != "" && t[0] == '@' then NameEntry(true, t[1..]) else NameEntry(false, t)
  }

  function ReadNames(s: string): seq<NameEntry> {
    if s == "" then []
    else seq(|Fields(s)|, k requires 0 <= k < |Fields(s)| => ReadEntry(Fields(s)[k]))
  }

  lemma {:induction false} FieldsOfWord(s: string)
    requires SpaceFree(s)
    ensures Fields(s) == [s]
  {
    if s != "" {
      FieldsOfWord(s[1..]);
      assert s == [s[0]] + s[1..] && s[0] in s;
    }
  }

  lemma {:induction false} FieldsAppend(a: string, e: string)
    requires SpaceFree(e)
    ensures Fields(a) != [] && Fields(a + " " + e) == Fields(a) + [e]
  {
    if a == "" {
      var s := " " + e;
      assert a + " " + e == s && s[1..] == e;
      FieldsOfWord(e);
    } else {
      FieldsAppend(a[1..], e);
      assert (a + " " + e)[1..] == a[1..] + " " + e;
    }
  }

  lemma NicknameText(e: NameEntry)
    requires IsNickname(e.nick)
    ensures SpaceFree(EntryText(e)) && EntryText(e) != "" && ReadEntry(EntryText(e)) == e
  {
    var t := EntryText(e);
    if e.op {
      assert t[1..] == e.nick;
    }
  }

  // Nicknames hold neither a space nor a leading '@', so the list reads back: every member in
  // order, with its operator flag.
  lemma {:induction false} NamesReadBack(entries: seq<NameEntry>)
    requires forall k :: 0 <= k < |entries| ==> IsNickname(entries[k].nick)
    ensures ReadNames(NamesText(entries)) == entries
    ensures entries != [] ==> NamesText(entries) != ""
    decreases |entries|
  {
    hide Fields, IsNickname, EntryText, SpaceFree, ReadEntry;
    if entries != [] {
      var n := |entries| - 1;
      var front, last := entries[..n], entries[n];
      var a, t := NamesText(front), EntryText(last);
      NamesReadBack(front);
      NicknameText(last);
      if front == [] {
        FieldsOfWord(t);
        assert "" + "" + t == t;
      } else {
        FieldsAppend(a, t);
      }
      assert front + [last] == entries;
    }
  }

  // The reply to an admitted JOIN lists exactly the members, the newcomer last, with their flags;
  // and as a message it reads back just when the channel name has no tab in it.
  lemma NamesReplyIsFaithful(w: World, f: int, ps: seq<string>)
    requires Inv(w) && Clean(w) && f in w.people && AllLfFree(ps) && DecideJoin(w, f, ps).edit.Enter?
    ensures var o, after := DecideJoin(w, f, ps), Apply(w, f, Enter(ps[0]));
            var wire, members, nick := o.mail[|o.mail| - 2].wire, after.rooms[ps[0]].members, w.people[f].nick;
            && o.mail[|o.mail| - 2].to == f && wire.NamesAre?
            && |ReadNames(NamesText(wire.entries))| == |members|
            && (forall k :: 0 <= k < |members| ==>
                  ReadNames(NamesText(wire.entries))[k]
                    == NameEntry(members[k] in after.rooms[ps[0]].ops, after.people[members[k]].nick))
            && (Received(Render(wire)) == [Message("ircserv", "353", [nick, "=", ps[0], NamesText(wire.entries)])]
                <==> BlankFree(ps[0]))
  {
    hide Clean, IsNickname, NamesText, ReadNames, Render, Received, IsChannelName, RelayLaws.CleanWire, JoinRefusal;
    var o, after := DecideJoin(w, f, ps), Apply(w, f, Enter(ps[0]));
    DecideJoinAllowed(w, f, ps);
    ApplyKeepsInv(w, f, Enter(ps[0]));
    var room := after.rooms[ps[0]];
    var entries := Entries(w, room);
    assert o.mail[|o.mail| - 2] == Mail(f, Wire.NamesAre(w.people[f].nick, ps[0], entries));
    assert RoomOk(after.people, room);
    forall k | 0 <= k < |entries| ensures IsNickname(entries[k].nick) {
      assert room.members[k] in room.members;
      assert PersonOk(after.people[room.members[k]]);
    }
    NamesReadBack(entries);
    JoinClean(w, f, ps);
    assert PersonOk(w.people[f]);
    NamesMessage(w.people[f].nick, ps[0], entries);
  }

  lemma NamesMessage(nick: string, channel: string, entries: seq<NameEntry>)
    requires IsNickname(nick) && IsChannelName(channel) && CleanWire(Wire.NamesAre(nick, channel, entries))
    ensures Received(Render(Wire.NamesAre(nick, channel, entries)))
              == [Message("ircserv", "353", [nick, "=", channel, NamesText(entries)])]
            <==> BlankFree(channel)
  {
    hide NamesText, Render, IsNickname, Received, IsMiddle, CleanWire;
    var w := Wire.NamesAre(nick, channel, entries);
    assert CodeText(353) == "353";
    NicknameIsMiddle(nick);
    MessageReadsBack(w);
    NamesPlain(nick, channel, entries);
    ChannelIsMiddle(channel);
    assert [nick, "=", channel] + [NamesText(entries)] == [nick, "=", channel, NamesText(entries)];
  }

  lemma ChannelIsMiddle(channel: string)
    requires IsChannelName(channel)
    ensures IsMiddle(channel) <==> BlankFree(channel)
  {
  }
}
