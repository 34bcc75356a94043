// Cutting a byte stream into lines, as Server::extract_msg (srcs/Server.cpp) does.
module Framing {
  import opened Text

  // The position of the first LF, or the length when there is none.
  function FindLf(s: string): (p: nat)
    ensures p <= |s|
    ensures forall k :: 0 <= k < p ==> s[k] != '\n'
    ensures p < |s| ==> s[p] == '\n'
  {
    if s == "" || s[0] == '\n' then 0 else 1 + FindLf(s[1..])
  }

  // One CR before the LF is dropped, not more.
  function Chomp(raw: string): string {
    if raw != "" && raw[|raw| - 1] == '\r' then raw[..|raw| - 1] else raw
  }

  // The complete lines of a stream, each without its LF.
  function RawLines(s: string): seq<string> {
    var p := FindLf(s);
    if p == |s| then [] else [s[..p]] + RawLines(s[p + 1..])
  }

  // What follows the last LF.
  function Residual(s: string): string {
    var p := FindLf(s);
    if p == |s| then s else Residual(s[p + 1..])
  }

  // The stream that lines and a residual come from.
  function Unframe(lines: seq<string>, rest: string): string {
    if lines == [] then rest else lines[0] + "\n" + Unframe(lines[1..], rest)
  }

  lemma FindLfAfter(line: string, rest: string)
    requires LfFree(line)
    ensures FindLf(line + "\n" + rest) == |line|
    ensures (line + "\n" + rest)[..|line|] == line && (line + "\n" + rest)[|line| + 1..] == rest
  {
    var s := line + "\n" + rest;
    assert s[|line|] == '\n' && s[..|line|] == line;
    assert s[FindLf(s)] == '\n';
  }

  lemma UnframeFirst(line: string, lines: seq<string>, rest: string)
    ensures Unframe([line] + lines, rest) == line + "\n" + Unframe(lines, rest)
  {
    assert ([line] + lines)[1..] == lines;
  }

  // No byte is lost or invented by framing.
  lemma {:induction false} FramingConserves(s: string)
    ensures Unframe(RawLines(s), Residual(s)) == s
    ensures LfFree(Residual(s)) && forall k :: 0 <= k < |RawLines(s)| ==> LfFree(RawLines(s)[k])
  {
    var p := FindLf(s);
    if p < |s| {
      FramingConserves(s[p + 1..]);
      UnframeFirst(s[..p], RawLines(s[p + 1..]), Residual(s[p + 1..]));
      assert s == s[..p] + "\n" + s[p + 1..];
    }
  }

  lemma RawLinesCons(line: string, tail: string)
    requires LfFree(line)
    ensures RawLines(line + "\n" + tail) == [line] + RawLines(tail)
    ensures Residual(line + "\n" + tail) == Residual(tail)
  {
    FindLfAfter(line, tail);
  }

  // The cut is the only one: LF-free pieces are recovered from the stream they make.
  lemma {:induction false} FramingUnique(lines: seq<string>, rest: string)
    requires LfFree(rest) && forall k :: 0 <= k < |lines| ==> LfFree(lines[k])
    ensures RawLines(Unframe(lines, rest)) == lines && Residual(Unframe(lines, rest)) == rest
  {
    if lines == [] {
      assert FindLf(rest) == |rest|;
    } else {
      var line, tail := lines[0], Unframe(lines[1..], rest);
      FramingUnique(lines[1..], rest);
      RawLinesCons(line, tail);
      assert [line] + lines[1..] == lines;
    }
  }

  lemma {:induction false} UnframeAppend(a: seq<string>, b: seq<string>, rest: string)
    ensures Unframe(a + b, rest) == Unframe(a, Unframe(b, rest))
  {
    if a == [] {
      assert a + b == b;
    } else {
      assert (a + b)[1..] == a[1..] + b;
      UnframeAppend(a[1..], b, rest);
    }
  }

  lemma {:induction false} UnframeRest(a: seq<string>, rest: string, more: string)
    ensures Unframe(a, rest) + more == Unframe(a, rest + more)
  {
    if a != [] {
      UnframeRest(a[1..], rest, more);
    }
  }

  // Framing a stream delivered in two parts, where only the residual is carried over.
  lemma FramingAppend(a: string, b: string)
    ensures RawLines(a + b) == RawLines(a) + RawLines(Residual(a) + b)
    ensures Residual(a + b) == Residual(Residual(a) + b)
  {
    var tail := Residual(a) + b;
    var lines := RawLines(a) + RawLines(tail);
    FramingConserves(a);
    FramingConserves(tail);
    UnframeRest(RawLines(a), Residual(a), b);
    UnframeAppend(RawLines(a), RawLines(tail), Residual(tail));
    assert Unframe(lines, Residual(tail)) == a + b;
    FramingUnique(lines, Residual(tail));
  }
}
