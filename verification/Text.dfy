// Characters, nicknames, channel names and decimal numbers, as the handlers test them.
module Text {

  datatype Option<+T> = None | Some(value: T)

  const INT_MAX: int := 0x7FFF_FFFF
  const LONG_MAX: int := 0x7FFF_FFFF_FFFF_FFFF

  predicate IsBlank(c: char) { c == ' ' || c == '\t' }

  predicate IsLetter(c: char) { 'a' <= c <= 'z' || 'A' <= c <= 'Z' }

  predicate IsDigit(c: char) { '0' <= c <= '9' }

  // "special" of section 2.3.1 of RFC 2812: %x5B-60 / %x7B-7D.
  predicate IsSpecial(c: char) { 0x5B <= c as int <= 0x60 || 0x7B <= c as int <= 0x7D }

  function ToUpper(c: char): char { if 'a' <= c <= 'z' then (c as int - 32) as char else c }

  function UpperCase(s: string): string {
    seq(|s|, i requires 0 <= i < |s| => ToUpper(s[i]))
  }

  predicate BlankFree(s: string) { forall i :: 0 <= i < |s| ==> !IsBlank(s[i]) }

  predicate LfFree(s: string) { '\n' !in s }

  // nickname = ( letter / special ) *8( letter / digit / special / "-" ), section 2.3.1 of RFC 2812.
  predicate IsNickname(s: string) {
    && 1 <= |s| <= 9
    && (IsLetter(s[0]) || IsSpecial(s[0]))
    && forall i :: 1 <= i < |s| ==> IsLetter(s[i]) || IsDigit(s[i]) || IsSpecial(s[i]) || s[i] == '-'
  }

  // A '#', then at least one character, none of which is a space, comma, colon, CR or LF.
  predicate IsChannelName(s: string) {
    && |s| >= 2 && s[0] == '#'
    && ' ' !in s && ',' !in s && ':' !in s && '\r' !in s && '\n' !in s
  }

  predicate IsNumber(s: string) { s != "" && forall i :: 0 <= i < |s| ==> IsDigit(s[i]) }

  function DigitValue(c: char): (d: nat)
    requires IsDigit(c)
    ensures d <= 9
  {
    c as int - '0' as int
  }

  function DecimalValue(s: string): nat
    requires forall i :: 0 <= i < |s| ==> IsDigit(s[i])
  {
    if s == "" then 0 else 10 * DecimalValue(s[..|s| - 1]) + DigitValue(s[|s| - 1])
  }

  // The conversion to a 32-bit two's complement int.
  function ToInt32(n: int): (r: int)
    ensures -INT_MAX - 1 <= r <= INT_MAX
    ensures -INT_MAX - 1 <= n <= INT_MAX ==> r == n
  {
    (n + 0x8000_0000) % 0x1_0000_0000 - 0x8000_0000
  }

  // std::atoi on a string of digits: strtol, which stops at LONG_MAX, then the conversion to int.
  function Atoi(s: string): (r: int)
    requires IsNumber(s)
    ensures r <= INT_MAX
    ensures DecimalValue(s) <= INT_MAX ==> r == DecimalValue(s)
  {
    ToInt32(if DecimalValue(s) > LONG_MAX then LONG_MAX else DecimalValue(s))
  }

  // The loop of srcs/commands/CommandDispatcher.cpp over its copy of the command.
  method ToUpperCase(s: string) returns (command: string)
    ensures command == UpperCase(s)
  {
    command := s;
    for i := 0 to |command|
      invariant |command| == |s|
      invariant forall k :: 0 <= k < i ==> command[k] == ToUpper(s[k])
      invariant forall k :: i <= k < |s| ==> command[k] == s[k]
    {
      command := command[i := ToUpper(command[i])];
    }
  }

  // srcs/commands/nick.cpp: membership in the literal list of special characters.
  method CheckSpecialChar(c: char) returns (found: bool)
    ensures found <==> IsSpecial(c)
  {
    var s := "[]\\`_^{}|";
    var i := 0;
    while i < |s|
      invariant 0 <= i <= |s|
      invariant c !in s[..i]
    {
      if c == s[i] {
        return true;
      }
      i := i + 1;
    }
    assert c !in s by { assert s == s[..i]; }
    assert {'[', ']', '\\', '`', '_', '^', '{', '}', '|'} == set x | x in s;
    return false;
  }

  method CheckNickValid(nick: string) returns (valid: bool)
    ensures valid <==> IsNickname(nick)
  {
    if nick == "" {
      return false;
    }
    var special := CheckSpecialChar(nick[0]);
    if !IsLetter(nick[0]) && !special {
      return false;
    }
    if |nick| > 9 {
      return false;
    }
    for i := 1 to |nick|
      invariant forall k :: 1 <= k < i ==>
        IsLetter(nick[k]) || IsDigit(nick[k]) || IsSpecial(nick[k]) || nick[k] == '-'
    {
      special := CheckSpecialChar(nick[i]);
      if !IsLetter(nick[i]) && !IsDigit(nick[i]) && !special && nick[i] != '-' {
        return false;
      }
    }
    return true;
  }

  method ValidChannelName(name: string) returns (valid: bool)
    ensures valid <==> IsChannelName(name)
  {
    if |name| < 2 || name[0] != '#' {
      return false;
    }
    for i := 1 to |name|
      invariant forall k :: 0 <= k < i ==> name[k] !in " ,:\r\n"
    {
      if name[i] == ' ' || name[i] == ',' || name[i] == ':' || name[i] == '\r' || name[i] == '\n' {
        return false;
      }
    }
    return true;
  }

  // The digit loop of srcs/modes/limited_usage.cpp, whose flag also ends the loop.
  method ValidLimit(s: string) returns (valid: bool)
    ensures valid <==> IsNumber(s)
  {
    valid := s != "";
    var i := 0;
    while i < |s| && valid
      invariant 0 <= i <= |s|
      invariant valid ==> s != "" && forall k :: 0 <= k < i ==> IsDigit(s[k])
      invariant !valid ==> !IsNumber(s)
    {
      if !IsDigit(s[i]) {
        valid := false;
      }
      i := i + 1;
    }
  }
}
