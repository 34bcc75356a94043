// srcs/Channel.cpp: a channel's vectors of descriptors, searched and erased in place.
module ChannelClass {
  import opened World
  import opened Invariant

  function Elems(s: seq<int>): set<int> { set x | x in s }

  lemma {:induction false} WithoutSplit(s: seq<int>, i: nat)
    requires i < |s| && NoDup(s)
    ensures Without(s, s[i]) == s[..i] + s[i + 1..]
  {
    if i > 0 {
      WithoutSplit(s[1..], i - 1);
      assert s[1..][..i - 1] == s[1..i] && s[1..][i..] == s[i + 1..];
      assert s[..i] == [s[0]] + s[1..i];
    } else {
      assert s[0] !in s[1..];
    }
  }

  // The search loops of hasMember, isOperator and isInvited.
  method Contains(s: seq<int>, f: int) returns (found: bool)
    ensures found <==> f in s
  {
    for i := 0 to |s|
      invariant f !in s[..i]
    {
      if s[i] == f {
        return true;
      }
    }
    return false;
  }

  // The erase loops of removeMember, remove_invite and remove_operator: the first occurrence only.
  // It is the only one when the vector has no duplicates.
  method EraseFirst(s: seq<int>, f: int) returns (r: seq<int>)
    ensures f !in s ==> r == s
    ensures f in s ==> exists i :: 0 <= i < |s| && s[i] == f && f !in s[..i] && r == s[..i] + s[i + 1..]
    ensures NoDup(s) ==> r == Without(s, f) && NoDup(r)
  {
    for i := 0 to |s|
      invariant f !in s[..i]
    {
      if s[i] == f {
        if NoDup(s) {
          WithoutSplit(s, i);
          WithoutNoDup(s, f);
        }
        return s[..i] + s[i + 1..];
      }
    }
    return s;
  }

  class Channel {
    const name: string
    var topic: string
    var memberFds: seq<int>
    var operatorFds: seq<int>
    var invitedFds: seq<int>
    var inviteOnly: bool
    var changeTopic: bool
    var key: string
    var limit: int

    ghost predicate Valid()
      reads this
    {
      NoDup(memberFds) && NoDup(operatorFds) && NoDup(invitedFds)
    }

    ghost function View(): Room
      reads this
    {
      Room(topic, memberFds, Elems(operatorFds), Elems(invitedFds), inviteOnly, changeTopic, key, limit)
    }

    // The length of the operator vector is the number of operators.
    lemma OperatorCount()
      requires Valid()
      ensures |View().ops| == |operatorFds|
    {
      DistinctCount(operatorFds);
    }

    constructor (name: string)
      ensures Valid() && this.name == name && View() == EMPTY_ROOM
    {
      this.name := name;
      topic, key := "", "";
      memberFds, operatorFds, invitedFds := [], [], [];
      inviteOnly, changeTopic := false, false;
      limit := 0;
    }

    method HasMember(f: int) returns (found: bool)
      ensures found <==> f in View().members
    {
      found := Contains(memberFds, f);
    }

    method AddMember(f: int)
      requires Valid()
      modifies this`memberFds
      ensures Valid()
      ensures View() == old(View()).(members := if f in old(memberFds) then old(memberFds) else old(memberFds) + [f])
    {
      var found := HasMember(f);
      if !found {
        memberFds := memberFds + [f];
      }
    }

    // Leaving takes the operator right along, but not an invitation.
    method RemoveMember(f: int)
      requires Valid()
      modifies this`memberFds, this`operatorFds
      ensures Valid()
      ensures View() == old(View()).(members := Without(old(memberFds), f), ops := old(View().ops) - {f})
    {
      memberFds := EraseFirst(memberFds, f);
      operatorFds := EraseFirst(operatorFds, f);
    }

    method IsOperator(f: int) returns (found: bool)
      ensures found <==> f in View().ops
    {
      found := Contains(operatorFds, f);
    }

    method AddOperator(f: int)
      requires Valid()
      modifies this`operatorFds
      ensures Valid()
      ensures View() == old(View()).(ops := old(View().ops) + {f})
    {
      var found := IsOperator(f);
      if !found {
        operatorFds := operatorFds + [f];
      }
    }

    method RemoveOperator(f: int)
      requires Valid()
      modifies this`operatorFds
      ensures Valid()
      ensures View() == old(View()).(ops := old(View().ops) - {f})
    {
      operatorFds := EraseFirst(operatorFds, f);
    }

    method IsInvited(f: int) returns (found: bool)
      ensures found <==> f in View().invited
    {
      found := Contains(invitedFds, f);
    }

    method AddInvite(f: int)
      requires Valid()
      modifies this`invitedFds
      ensures Valid()
      ensures View() == old(View()).(invited := old(View().invited) + {f})
    {
      var found := IsInvited(f);
      if !found {
        invitedFds := invitedFds + [f];
      }
    }

    method RemoveInvite(f: int)
      requires Valid()
      modifies this`invitedFds
      ensures Valid()
      ensures View() == old(View()).(invited := old(View().invited) - {f})
    {
      invitedFds := EraseFirst(invitedFds, f);
    }

    // What leave_chanels of srcs/Server.cpp does to one channel. The operator vector is searched twice.
    method Forget(f: int)
      requires Valid()
      modifies this
      ensures Valid()
      ensures View() == LeaveRoom(old(View()), f)
    {
      RemoveMember(f);
      RemoveInvite(f);
      RemoveOperator(f);
    }
  }
}
