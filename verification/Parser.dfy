// srcs/parsser/Parser.cpp: the message grammar of section 2.3.1 of RFC 2812 as the server relaxes it:
// tabs separate like spaces, and neither length nor parameter count is capped.
module Parser {
  import opened Text

  datatype Message = Message(prefix: string, cmd: string, params: seq<string>)

  // ---------- The grammar, read from the front of the remaining text ----------

  function SkipBlanks(s: string): (r: string)
    ensures |r| <= |s|
    ensures r != "" ==> !IsBlank(r[0])
  {
    if s != "" && IsBlank(s[0]) then SkipBlanks(s[1..]) else s
  }

  function Word(s: string): (w: string)
    ensures BlankFree(w)
    ensures w == "" <==> s == "" || IsBlank(s[0])
    ensures w != "" ==> w[0] == s[0]
  {
    if s == "" || IsBlank(s[0]) then "" else [s[0]] + Word(s[1..])
  }

  function AfterWord(s: string): (r: string)
    ensures |r| <= |s|
    ensures s != "" && !IsBlank(s[0]) ==> |r| < |s|
  {
    if s == "" || IsBlank(s[0]) then s else AfterWord(s[1..])
  }

  function Params(s: string): seq<string>
    decreases |s|
  {
    var t := SkipBlanks(s);
    if t == "" then []
    else if t[0] == ':' then [t[1..]]
    else [Word(t)] + Params(AfterWord(t))
  }

  function Parse(line: string): Message {
    var s := SkipBlanks(line);
    var marked := s != "" && s[0] == ':';
    var prefix := if marked then Word(s[1..]) else "";
    var rest := SkipBlanks(if marked then AfterWord(s[1..]) else s);
    Message(prefix, Word(rest), Params(AfterWord(rest)))
  }

  // ---------- The index-driven tokenizer ----------

  method SkipFrom(raw: string, start: nat) returns (i: nat)
    requires start <= |raw|
    ensures start <= i <= |raw| && raw[i..] == SkipBlanks(raw[start..])
  {
    i := start;
    while i < |raw| && (raw[i] == ' ' || raw[i] == '\t')
      invariant start <= i <= |raw|
      invariant SkipBlanks(raw[i..]) == SkipBlanks(raw[start..])
    {
      assert raw[i..][1..] == raw[i + 1..];
      i := i + 1;
    }
  }

  method WordFrom(raw: string, start: nat) returns (word: string, i: nat)
    requires start <= |raw|
    ensures start <= i <= |raw|
    ensures word == Word(raw[start..]) && raw[i..] == AfterWord(raw[start..])
  {
    word, i := "", start;
    while i < |raw| && raw[i] != ' ' && raw[i] != '\t'
      invariant start <= i <= |raw|
      invariant word + Word(raw[i..]) == Word(raw[start..])
      invariant AfterWord(raw[i..]) == AfterWord(raw[start..])
    {
      assert raw[i..][1..] == raw[i + 1..];
      word := word + [raw[i]];
      i := i + 1;
    }
    assert Word(raw[i..]) == "";
  }

  method ParamsFrom(raw: string, start: nat) returns (params: seq<string>)
    requires start <= |raw|
    ensures params == Params(raw[start..])
  {
    params := [];
    var i := start;
    while i < |raw|
      invariant i <= |raw|
      invariant params + Params(raw[i..]) == Params(raw[start..])
    {
      ghost var before, done := Params(raw[i..]), params;
      i := SkipFrom(raw, i);
      if i == |raw| {
        assert before == [];
        return;
      }
      if raw[i] == ':' {
        assert raw[i..][1..] == raw[i + 1..];
        i := i + 1;
        params := params + [raw[i..]];
        assert before == [raw[i..]];
        return;
      }
      var token;
      token, i := WordFrom(raw, i);
      assert before == [token] + Params(raw[i..]);
      params := params + [token];
      assert done + ([token] + Params(raw[i..])) == params + Params(raw[i..]);
    }
    assert Params(raw[i..]) == [];
  }

  method ParseLine(raw: string) returns (msg: Message)
    ensures msg == Parse(raw)
  {
    var prefix := "";
    assert raw[0..] == raw;
    var i := SkipFrom(raw, 0);
    if i < |raw| && raw[i] == ':' {
      assert raw[i..][1..] == raw[i + 1..];
      prefix, i := WordFrom(raw, i + 1);
    }
    i := SkipFrom(raw, i);
    var cmd;
    cmd, i := WordFrom(raw, i);
    var params := ParamsFrom(raw, i);
    return Message(prefix, cmd, params);
  }

  // ---------- The parser's image, and a printer that inverts it ----------

  // What a parameter other than the last can be.
  predicate IsMiddle(p: string) { p != "" && p[0] != ':' && BlankFree(p) }

  predicate ParsedParams(ps: seq<string>) { forall k :: 0 <= k < |ps| - 1 ==> IsMiddle(ps[k]) }

  predicate Canonical(m: Message) {
    && BlankFree(m.prefix) && BlankFree(m.cmd)
    && (m.cmd == "" ==> m.params == [])
    && ParsedParams(m.params)
  }

  function PrintArgs(ps: seq<string>): string {
    if ps == [] then "" else " " + ps[0] + PrintArgs(ps[1..])
  }

  function PrintParams(ps: seq<string>): string {
    if ps == [] then "" else PrintArgs(ps[..|ps| - 1]) + " :" + ps[|ps| - 1]
  }

  function Print(m: Message): string { ":" + m.prefix + " " + m.cmd + PrintParams(m.params) }

  lemma {:induction false} WordThenBlank(w: string, rest: string)
    requires BlankFree(w) && (rest != "" ==> IsBlank(rest[0]))
    ensures Word(w + rest) == w && AfterWord(w + rest) == rest
  {
    if w != "" {
      assert (w + rest)[1..] == w[1..] + rest;
      WordThenBlank(w[1..], rest);
    }
  }

  lemma {:induction false} ParseParamsCanonical(s: string)
    ensures ParsedParams(Params(s))
    decreases |s|
  {
    var t := SkipBlanks(s);
    if t != "" && t[0] != ':' {
      ParseParamsCanonical(AfterWord(t));
    }
  }

  // Every line, however malformed, parses into the canonical form.
  lemma ParseCanonical(line: string)
    ensures Canonical(Parse(line))
  {
    var s := SkipBlanks(line);
    var marked := s != "" && s[0] == ':';
    var rest := SkipBlanks(if marked then AfterWord(s[1..]) else s);
    ParseParamsCanonical(AfterWord(rest));
  }

  lemma ParamsStep(p: string, rest: string)
    requires IsMiddle(p) && (rest != "" ==> IsBlank(rest[0]))
    ensures Params(" " + p + rest) == [p] + Params(rest)
  {
    var s := " " + p + rest;
    assert s[1..] == p + rest;
    assert SkipBlanks(p + rest) == p + rest;
    WordThenBlank(p, rest);
  }

  lemma Regroup<T>(a: seq<T>, b: seq<T>, c: seq<T>)
    ensures a + b + c == a + (b + c)
  {
  }

  lemma ParamsTrailing(text: string)
    ensures Params(" :" + text) == [text]
  {
    var s := " :" + text;
    assert s[1..] == ":" + text;
    assert SkipBlanks(":" + text) == ":" + text;
    assert (":" + text)[1..] == text;
  }

  lemma ArgsStep(p: string, args: string, rest: string)
    requires IsMiddle(p) && (args != "" ==> IsBlank(args[0])) && (rest != "" ==> IsBlank(rest[0]))
    ensures Params(" " + p + args + rest) == [p] + Params(args + rest)
  {
    hide IsMiddle, Params;
    assert args + rest != "" ==> IsBlank((args + rest)[0]);
    ParamsStep(p, args + rest);
    Regroup(" " + p, args, rest);
  }

  lemma ArgsStartBlank(ps: seq<string>)
    ensures PrintArgs(ps) != "" ==> IsBlank(PrintArgs(ps)[0])
  {
  }

  // Leading middles are read back one by one, whatever follows them.
  lemma {:induction false} ParamsOfArgs(ps: seq<string>, rest: string)
    requires forall k :: 0 <= k < |ps| ==> IsMiddle(ps[k])
    requires rest != "" ==> IsBlank(rest[0])
    ensures Params(PrintArgs(ps) + rest) == ps + Params(rest)
  {
    hide IsMiddle, Params;
    if ps == [] {
      assert PrintArgs(ps) + rest == rest;
    } else {
      ParamsOfArgs(ps[1..], rest);
      ArgsStartBlank(ps[1..]);
      ArgsStep(ps[0], PrintArgs(ps[1..]), rest);
      assert [ps[0]] + (ps[1..] + Params(rest)) == ps + Params(rest);
    }
  }

  lemma SkipOneBlank(rest: string)
    requires rest != "" ==> !IsBlank(rest[0])
    ensures SkipBlanks(" " + rest) == SkipBlanks(rest) == rest
  {
    assert (" " + rest)[1..] == rest;
  }

  lemma HeadShape(prefix: string, cmd: string, tail: string)
    ensures var line := ":" + prefix + " " + cmd + tail;
            line[0] == ':' && line[1..] == prefix + (" " + (cmd + tail))
  {
  }

  // The prefix and command of a line that begins as the printer begins it.
  lemma ParseHead(prefix: string, cmd: string, tail: string)
    requires BlankFree(prefix) && BlankFree(cmd)
    requires tail != "" ==> IsBlank(tail[0]) && cmd != ""
    ensures Parse(":" + prefix + " " + cmd + tail) == Message(prefix, cmd, Params(tail))
  {
    var after := " " + (cmd + tail);
    HeadShape(prefix, cmd, tail);
    WordThenBlank(prefix, after);
    SkipOneBlank(cmd + tail);
    WordThenBlank(cmd, tail);
  }

  function PrintText(text: Option<string>): string { if text.Some? then " :" + text.value else "" }

  function TextParam(text: Option<string>): seq<string> { if text.Some? then [text.value] else [] }

  lemma ParseParts(prefix: string, cmd: string, args: seq<string>, text: Option<string>)
    requires BlankFree(prefix) && BlankFree(cmd) && cmd != ""
    requires forall k :: 0 <= k < |args| ==> IsMiddle(args[k])
    ensures Parse(":" + prefix + " " + cmd + (PrintArgs(args) + PrintText(text)))
         == Message(prefix, cmd, args + TextParam(text))
  {
    ParamsOfArgs(args, PrintText(text));
    if text.Some? {
      ParamsTrailing(text.value);
    }
    ParseHead(prefix, cmd, PrintArgs(args) + PrintText(text));
  }

  // Printing a canonical message and parsing it gives the message back.
  lemma RoundTrip(m: Message)
    requires Canonical(m)
    ensures Parse(Print(m)) == m
  {
    if m.params == [] {
      ParseHead(m.prefix, m.cmd, "");
    } else {
      var n := |m.params| - 1;
      ParseParts(m.prefix, m.cmd, m.params[..n], Some(m.params[n]));
      assert m.params[..n] + [m.params[n]] == m.params;
      assert PrintParams(m.params) == PrintArgs(m.params[..n]) + (" :" + m.params[n]);
    }
  }

  // The canonical form is exactly the parser's image, and printing is a normal form for lines.
  lemma ImageIsCanonical(m: Message)
    ensures Canonical(m) <==> exists line :: Parse(line) == m
  {
    if Canonical(m) {
      RoundTrip(m);
    }
    forall line | Parse(line) == m ensures Canonical(m) {
      ParseCanonical(line);
    }
  }

  lemma NormalForm(line: string)
    ensures Parse(Print(Parse(line))) == Parse(line)
  {
    ParseCanonical(line);
    RoundTrip(Parse(line));
  }

  // ---------- A line without LF yields fields without LF ----------

  lemma {:induction false} PiecesLfFree(s: string)
    requires LfFree(s)
    ensures LfFree(SkipBlanks(s)) && LfFree(Word(s)) && LfFree(AfterWord(s))
  {
    if s != "" {
      assert s == [s[0]] + s[1..];
      PiecesLfFree(s[1..]);
    }
  }

  lemma {:induction false} ParamsLfFree(s: string)
    requires LfFree(s)
    ensures forall k :: 0 <= k < |Params(s)| ==> LfFree(Params(s)[k])
    decreases |s|
  {
    var t := SkipBlanks(s);
    PiecesLfFree(s);
    if t != "" && t[0] != ':' {
      PiecesLfFree(t);
      ParamsLfFree(AfterWord(t));
    }
  }

  lemma ParseLfFree(line: string)
    requires LfFree(line)
    ensures LfFree(Parse(line).prefix) && LfFree(Parse(line).cmd)
    ensures forall k :: 0 <= k < |Parse(line).params| ==> LfFree(Parse(line).params[k])
  {
    PiecesLfFree(line);
    var s := SkipBlanks(line);
    var unmarked := s;
    if s != "" && s[0] == ':' {
      PiecesLfFree(s[1..]);
      unmarked := AfterWord(s[1..]);
    }
    PiecesLfFree(unmarked);
    var rest := SkipBlanks(unmarked);
    PiecesLfFree(rest);
    ParamsLfFree(AfterWord(rest));
  }
}
