// The lexical rules written out: commands, nicknames, channel names, numbers and blanks.
module WordLaws {
  import opened Text
  import opened Parser
  import opened World

  // ---------- Commands ----------

  // The word, in capitals or not: a small letter is 32 above its capital.
  predicate Spells(cmd: string, word: string) {
    |cmd| == |word| && forall i :: 0 <= i < |word| ==> cmd[i] == word[i] || cmd[i] as int == word[i] as int + 32
  }

  predicate Capitals(word: string) { forall i :: 0 <= i < |word| ==> 'A' <= word[i] <= 'Z' }

  lemma SpellsInCapitals(cmd: string, word: string)
    requires Capitals(word)
    ensures UpperCase(cmd) == word <==> Spells(cmd, word)
  {
    if UpperCase(cmd) == word {
      forall i | 0 <= i < |word| ensures cmd[i] == word[i] || cmd[i] as int == word[i] as int + 32 {
        assert word[i] == ToUpper(cmd[i]);
      }
    }
    if Spells(cmd, word) {
      forall i | 0 <= i < |word| ensures ToUpper(cmd[i]) == word[i] {
      }
    }
  }

  lemma AllCapitals()
    ensures Capitals("PASS") && Capitals("NICK") && Capitals("USER") && Capitals("JOIN") && Capitals("PRIVMSG")
    ensures Capitals("TOPIC") && Capitals("KICK") && Capitals("INVITE") && Capitals("MODE")
  {
  }

  // Each command is recognized by its word, in any mixture of capitals and small letters, and by
  // nothing else.
  lemma CommandsByName(cmd: string)
    ensures VerbOf(UpperCase(cmd)) == PASS <==> Spells(cmd, "PASS")
    ensures VerbOf(UpperCase(cmd)) == NICK <==> Spells(cmd, "NICK")
    ensures VerbOf(UpperCase(cmd)) == USER <==> Spells(cmd, "USER")
    ensures VerbOf(UpperCase(cmd)) == JOIN <==> Spells(cmd, "JOIN")
    ensures VerbOf(UpperCase(cmd)) == PRIVMSG <==> Spells(cmd, "PRIVMSG")
    ensures VerbOf(UpperCase(cmd)) == TOPIC <==> Spells(cmd, "TOPIC")
    ensures VerbOf(UpperCase(cmd)) == KICK <==> Spells(cmd, "KICK")
    ensures VerbOf(UpperCase(cmd)) == INVITE <==> Spells(cmd, "INVITE")
    ensures VerbOf(UpperCase(cmd)) == MODE <==> Spells(cmd, "MODE")
  {
    hide UpperCase, Spells, Capitals;
    AllCapitals();
    SpellsInCapitals(cmd, "PASS");
    SpellsInCapitals(cmd, "NICK");
    SpellsInCapitals(cmd, "USER");
    SpellsInCapitals(cmd, "JOIN");
    SpellsInCapitals(cmd, "PRIVMSG");
    SpellsInCapitals(cmd, "TOPIC");
    SpellsInCapitals(cmd, "KICK");
    SpellsInCapitals(cmd, "INVITE");
    SpellsInCapitals(cmd, "MODE");
  }

  // ---------- Nicknames and channel names ----------

  const SMALL := "abcdefghijklmnopqrstuvwxyz"
  const LARGE := "ABCDEFGHIJKLMNOPQRSTUVWXYZ"
  const LETTERS := SMALL + LARGE
  const DIGITS := "0123456789"
  const SPECIALS := "[]\\`_^{}|"

  predicate Opening(c: char) { c in LETTERS || c in SPECIALS }

  predicate Following(c: char) { c in LETTERS || c in DIGITS || c in SPECIALS || c == '-' }

  lemma Characters(c: char)
    ensures Opening(c) <==> IsLetter(c) || IsSpecial(c)
    ensures Following(c) <==> IsLetter(c) || IsDigit(c) || IsSpecial(c) || c == '-'
  {
    hide IsLetter, IsDigit, IsSpecial;
    Alphabets(c);
  }

  // A nickname is a letter or special, and up to eight letters, digits, specials and dashes.
  lemma NicknamesWrittenOut(s: string)
    ensures IsNickname(s) <==>
      s != "" && Opening(s[0]) && |s[1..]| <= 8 && forall k :: 0 <= k < |s[1..]| ==> Following(s[1..][k])
  {
    hide IsLetter, IsDigit, IsSpecial, Opening, Following;
    if s != "" {
      Characters(s[0]);
      forall k | 1 <= k < |s|
        ensures s[1..][k - 1] == s[k]
        ensures Following(s[k]) <==> IsLetter(s[k]) || IsDigit(s[k]) || IsSpecial(s[k]) || s[k] == '-' {
        Characters(s[k]);
      }
    }
  }

  lemma SmallLetters(c: char)
    ensures 'a' <= c <= 'z' <==> c in SMALL
  {
    if 'a' <= c <= 'z' {
      assert SMALL[c as int - 97] == c;
    }
  }

  lemma LargeLetters(c: char)
    ensures 'A' <= c <= 'Z' <==> c in LARGE
  {
    if 'A' <= c <= 'Z' {
      assert LARGE[c as int - 65] == c;
    }
  }

  lemma Specials(c: char)
    ensures IsSpecial(c) <==> c in SPECIALS
    ensures IsDigit(c) <==> c in DIGITS
  {
  }

  lemma Alphabets(c: char)
    ensures IsLetter(c) <==> c in LETTERS
    ensures IsDigit(c) <==> c in DIGITS
    ensures IsSpecial(c) <==> c in SPECIALS
  {
    SmallLetters(c);
    LargeLetters(c);
    Specials(c);
  }

  // A channel name is '#' and at least one character that is no space, comma, colon, CR or LF.
  lemma ChannelNamesWrittenOut(s: string)
    ensures IsChannelName(s) <==>
      exists rest: string :: s == "#" + rest && rest != "" && forall c :: c in rest ==> c !in " ,:\r\n"
  {
    if IsChannelName(s) {
      assert s == "#" + s[1..];
    }
  }

  // ---------- Numbers ----------

  // Digits as they are written, most significant first.
  function Decimal(n: nat): string {
    if n < 10 then [DIGITS[n]] else Decimal(n / 10) + [DIGITS[n % 10]]
  }

  lemma DigitsInOrder(d: nat)
    requires d < 10
    ensures IsDigit(DIGITS[d]) && DigitValue(DIGITS[d]) == d
  {
  }

  // The decimal numeral of a number is read back as the number, and up to INT_MAX as an int.
  lemma {:induction false} NumeralsReadBack(n: nat)
    ensures IsNumber(Decimal(n)) && DecimalValue(Decimal(n)) == n
    ensures n <= INT_MAX ==> Atoi(Decimal(n)) == n
  {
    hide DigitValue;
    DigitsInOrder(n % 10);
    if n < 10 {
      assert [DIGITS[n]][..0] == "";
    } else {
      NumeralsReadBack(n / 10);
      var s, front := Decimal(n), Decimal(n / 10);
      assert s[..|s| - 1] == front && s[|s| - 1] == DIGITS[n % 10];
    }
  }

  // ---------- Lines ----------

  predicate Blanks(s: string) { forall k :: 0 <= k < |s| ==> s[k] == ' ' || s[k] == '\t' }

  predicate Solid(s: string) { ' ' !in s && '\t' !in s }

  // Words, each behind a gap of its own.
  function Spread(gaps: seq<string>, words: seq<string>): string
    requires |gaps| == |words|
  {
    if words == [] then "" else gaps[0] + (words[0] + Spread(gaps[1..], words[1..]))
  }

  ghost predicate Gapped(gaps: seq<string>) { forall k :: 0 <= k < |gaps| ==> gaps[k] != "" && Blanks(gaps[k]) }

  ghost predicate Middles(words: seq<string>) {
    forall k :: 0 <= k < |words| ==> words[k] != "" && words[k][0] != ':' && Solid(words[k])
  }

  lemma SolidIsBlankFree(s: string)
    requires Solid(s)
    ensures BlankFree(s)
  {
  }

  lemma {:induction false} SkipGap(gap: string, rest: string)
    requires Blanks(gap)
    ensures SkipBlanks(gap + rest) == SkipBlanks(rest)
  {
    if gap == "" {
      assert gap + rest == rest;
    } else {
      assert (gap + rest)[1..] == gap[1..] + rest;
      SkipGap(gap[1..], rest);
    }
  }

  lemma StartsBlank(gap: string, rest: string)
    requires Blanks(gap) && gap != ""
    ensures gap + rest != "" && IsBlank((gap + rest)[0])
  {
  }

  lemma SkipNothing(s: string)
    requires s != "" && !IsBlank(s[0])
    ensures SkipBlanks(s) == s
  {
  }

  lemma OneWord(gap: string, word: string, rest: string)
    requires Blanks(gap) && word != "" && word[0] != ':' && Solid(word) && (rest != "" ==> IsBlank(rest[0]))
    ensures Params(gap + (word + rest)) == [word] + Params(rest)
  {
    hide SkipBlanks, Word, AfterWord, Blanks, Solid;
    SolidIsBlankFree(word);
    SkipGap(gap, word + rest);
    SkipNothing(word + rest);
    WordThenBlank(word, rest);
  }

  lemma EndOfLine(last: string, text: Option<string>)
    requires Blanks(last) && (text.Some? ==> last != "")
    ensures Params(last + PrintLast(text)) == TextParam(text)
    ensures last + PrintLast(text) != "" ==> IsBlank((last + PrintLast(text))[0])
  {
    hide SkipBlanks, Blanks;
    SkipGap(last, PrintLast(text));
    if last != "" {
      StartsBlank(last, PrintLast(text));
    }
    if text.Some? {
      SkipNothing(":" + text.value);
      assert (":" + text.value)[1..] == text.value;
    } else {
      NothingToSkip();
    }
  }

  lemma NothingToSkip()
    ensures SkipBlanks("") == ""
  {
  }

  function PrintLast(text: Option<string>): string { if text.Some? then ":" + text.value else "" }

  lemma {:induction false} SpreadReads(gaps: seq<string>, words: seq<string>, rest: string)
    requires |gaps| == |words| && Gapped(gaps) && Middles(words) && (rest != "" ==> IsBlank(rest[0]))
    ensures Params(Spread(gaps, words) + rest) == words + Params(rest)
    ensures Spread(gaps, words) + rest != "" ==> IsBlank((Spread(gaps, words) + rest)[0])
    decreases |words|
  {
    hide Params, Blanks, Solid;
    if words == [] {
      assert "" + rest == rest;
    } else {
      var more := Spread(gaps[1..], words[1..]);
      SpreadReads(gaps[1..], words[1..], rest);
      Regroup(words[0], more, rest);
      Regroup(gaps[0], words[0] + more, rest);
      OneWord(gaps[0], words[0], more + rest);
      StartsBlank(gaps[0], words[0] + (more + rest));
      assert [words[0]] + (words[1..] + Params(rest)) == words + Params(rest);
    }
  }

  // A line is read whatever its spacing: blanks before it, an optional prefix behind ':', the
  // command, words each behind a gap of blanks, and blanks or a gap and a text behind ':'.
  lemma LinesWrittenOut(lead: string, prefix: Option<string>, gap: string, cmd: string, gaps: seq<string>,
                        words: seq<string>, last: string, text: Option<string>)
    requires Blanks(lead) && Blanks(gap) && gap != "" && Blanks(last) && (text.Some? ==> last != "")
    requires cmd != "" && Solid(cmd) && (prefix == None ==> cmd[0] != ':') && (prefix.Some? ==> Solid(prefix.value))
    requires |gaps| == |words| && Gapped(gaps) && Middles(words)
    ensures var body := cmd + (Spread(gaps, words) + (last + PrintLast(text)));
            Parse(lead + (if prefix.Some? then ":" + (prefix.value + (gap + body)) else body))
              == Message(if prefix.Some? then prefix.value else "", cmd, words + TextParam(text))
  {
    hide SkipBlanks, Word, AfterWord, Params, Blanks, Solid, Spread;
    var end := last + PrintLast(text);
    var tail := Spread(gaps, words) + end;
    var body := cmd + tail;
    EndOfLine(last, text);
    SpreadReads(gaps, words, end);
    SolidIsBlankFree(cmd);
    SkipNothing(body);
    WordThenBlank(cmd, tail);
    if prefix.Some? {
      var marked := ":" + (prefix.value + (gap + body));
      SkipGap(lead, marked);
      SkipNothing(marked);
      assert marked[1..] == prefix.value + (gap + body);
      SolidIsBlankFree(prefix.value);
      StartsBlank(gap, body);
      WordThenBlank(prefix.value, gap + body);
      SkipGap(gap, body);
    } else {
      SkipGap(lead, body);
    }
  }
}
