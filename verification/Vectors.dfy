// Vectors of clients and channels: distinct keys, and what erasing and appending do to them.
module Vectors {
  import opened World
  import opened EventLoop
  import opened ChannelClass
  import opened ClientClass

  ghost predicate DistinctFds(cs: seq<Client>) {
    && (forall i, j :: 0 <= i < j < |cs| ==> cs[i] != cs[j])
    && (forall a, b :: a in cs && b in cs && a.fd == b.fd ==> a == b)
  }

  ghost predicate FdsAre(cs: seq<Client>, keys: set<int>) {
    && (forall c :: c in cs ==> c.fd in keys)
    && (forall f :: f in keys ==> exists c :: c in cs && c.fd == f)
  }

  ghost predicate DistinctNames(chs: seq<Channel>) {
    && (forall i, j :: 0 <= i < j < |chs| ==> chs[i] != chs[j])
    && (forall a, b :: a in chs && b in chs && a.name == b.name ==> a == b)
  }

  ghost predicate KeysAre(chs: seq<Channel>, keys: set<string>) {
    && (forall ch :: ch in chs ==> ch.name in keys)
    && (forall n :: n in keys ==> exists ch :: ch in chs && ch.name == n)
  }

  lemma {:induction false} WithoutLast(s: seq<int>, x: int, y: int)
    ensures Without(s + [x], y) == Without(s, y) + if x == y then [] else [x]
  {
    if s == [] {
      assert s + [x] == [x];
    } else {
      assert (s + [x])[1..] == s[1..] + [x];
      WithoutLast(s[1..], x, y);
    }
  }

  lemma EraseName(chs: seq<Channel>, index: nat)
    requires index < |chs| && DistinctNames(chs)
    ensures var left := chs[..index] + chs[index + 1..];
            && DistinctNames(left)
            && (forall ch :: ch in left <==> ch in chs && ch != chs[index])
            && (forall keys :: KeysAre(chs, keys) ==> KeysAre(left, keys - {chs[index].name}))
  {
    var left := chs[..index] + chs[index + 1..];
    forall ch | ch in chs && ch != chs[index] ensures ch in left {
      var k :| 0 <= k < |chs| && chs[k] == ch;
      assert k < index ==> left[k] == ch;
      assert k > index ==> left[k - 1] == ch;
    }
  }

  lemma AppendName(chs: seq<Channel>, channel: Channel, keys: set<string>)
    requires DistinctNames(chs) && KeysAre(chs, keys) && channel.name !in keys
    ensures DistinctNames(chs + [channel]) && KeysAre(chs + [channel], keys + {channel.name})
    ensures forall ch :: ch in chs + [channel] <==> ch in chs || ch == channel
  {
    assert channel !in chs && channel in chs + [channel];
    forall ch | ch in chs ensures ch in chs + [channel] {
    }
  }

  lemma EraseAt<T>(s: seq<T>, i: nat)
    requires i < |s|
    ensures (s[..i] + s[i + 1..])[..i] == s[..i] && (s[..i] + s[i + 1..])[i..] == s[i + 1..]
  {
  }

  lemma AppendClient(cs: seq<Client>, client: Client, keys: set<int>)
    requires DistinctFds(cs) && FdsAre(cs, keys) && client.fd !in keys
    ensures DistinctFds(cs + [client]) && FdsAre(cs + [client], keys + {client.fd})
  {
    assert client !in cs && client in cs + [client];
    forall c | c in cs ensures c in cs + [client] {
    }
  }

  lemma OnceOnly(cs: seq<Client>, j: nat)
    requires DistinctFds(cs) && j < |cs|
    ensures forall k :: 0 <= k < j ==> cs[k].fd != cs[j].fd
  {
    forall k | 0 <= k < j ensures cs[k].fd != cs[j].fd {
      assert cs[k] in cs && cs[j] in cs;
    }
  }

  // Erasing at neighbouring indices keeps the two vectors aligned.
  lemma EraseTogether(sockets: seq<PollFd>, cs: seq<Client>, i: nat)
    requires |sockets| == |cs| + 1 && 1 <= i < |sockets|
    ensures var a, b := sockets[..i] + sockets[i + 1..], cs[..i - 1] + cs[i..];
            && |a| == |b| + 1 && a[0] == sockets[0]
            && (forall k :: 0 <= k < |b| ==>
                  var j := if k < i - 1 then k else k + 1; a[k + 1] == sockets[j + 1] && b[k] == cs[j])
  {
  }

  lemma EraseClient(cs: seq<Client>, index: nat)
    requires index < |cs| && DistinctFds(cs)
    ensures var left := cs[..index] + cs[index + 1..];
            && DistinctFds(left)
            && (forall c :: c in left <==> c in cs && c != cs[index])
            && (forall keys :: FdsAre(cs, keys) ==> FdsAre(left, keys - {cs[index].fd}))
  {
    var left := cs[..index] + cs[index + 1..];
    forall c | c in cs && c != cs[index] ensures c in left {
      var k :| 0 <= k < |cs| && cs[k] == c;
      assert k < index ==> left[k] == c;
      assert k > index ==> left[k - 1] == c;
    }
  }
}
