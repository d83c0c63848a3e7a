/**
 The text operations the program takes from its standard library: ASCII lower-casing,
 decimal printing, trimming and splitting at white space.
 */
module Text {

  // ---------- ASCII lower case ----------

  function LowerChar(c: char): char {
    if 'A' <= c <= 'Z' then (c as int + 32) as char else c
  }

  function Lower(s: string): (r: string)
    ensures |r| == |s|
    ensures forall i :: 0 <= i < |s| ==> r[i] == LowerChar(s[i])
  {
    seq(|s|, i requires 0 <= i < |s| => LowerChar(s[i]))
  }

  lemma LowerConcat(a: string, b: string)
    ensures Lower(a + b) == Lower(a) + Lower(b)
  {
  }

  lemma LowerIdempotent(s: string)
    ensures Lower(Lower(s)) == Lower(s)
  {
  }

  // ---------- Decimal numbers ----------

  predicate IsDigit(c: char) {
    '0' <= c <= '9'
  }

  predicate Digits(s: string) {
    forall i :: 0 <= i < |s| ==> IsDigit(s[i])
  }

  function DigitValue(c: char): nat
    requires IsDigit(c)
  {
    c as int - '0' as int
  }

  /** The unbounded number a digit string stands for. */
  function Value(s: string): nat
    requires Digits(s)
  {
    if s == "" then 0 else Value(s[..|s| - 1]) * 10 + DigitValue(s[|s| - 1])
  }

  /** Decimal printing, with no leading zero. */
  function ShowNat(n: nat): (s: string)
    ensures s != "" && Digits(s)
    ensures Value(s) == n
  {
    var last := ('0' as int + n % 10) as char;
    if n < 10 then [last] else ShowNat(n / 10) + [last]
  }

  lemma ShowNatInjective(m: nat, n: nat)
    requires ShowNat(m) == ShowNat(n)
    ensures m == n
  {
    assert Value(ShowNat(m)) == Value(ShowNat(n));
  }

  lemma DigitsAreLower(s: string)
    requires Digits(s)
    ensures Lower(s) == s
  {
    forall i | 0 <= i < |s|
      ensures LowerChar(s[i]) == s[i]
    {
      assert IsDigit(s[i]);
    }
  }

  // ---------- White space ----------

  /** The characters Unicode calls White_Space. */
  predicate IsWhitespace(c: char) {
    || '\U{0009}' <= c <= '\U{000D}'
    || c == ' '
    || c == '\U{0085}'
    || c == '\U{00A0}'
    || c == '\U{1680}'
    || '\U{2000}' <= c <= '\U{200A}'
    || c == '\U{2028}'
    || c == '\U{2029}'
    || c == '\U{202F}'
    || c == '\U{205F}'
    || c == '\U{3000}'
  }

  predicate AllWhitespace(s: string) {
    forall i :: 0 <= i < |s| ==> IsWhitespace(s[i])
  }

  predicate NoWhitespace(s: string) {
    forall i :: 0 <= i < |s| ==> !IsWhitespace(s[i])
  }

  function TrimStart(s: string): (r: string)
    ensures |r| <= |s|
    ensures r != "" ==> !IsWhitespace(r[0])
  {
    if s != "" && IsWhitespace(s[0]) then TrimStart(s[1..]) else s
  }

  function TrimEnd(s: string): (r: string)
    ensures |r| <= |s|
    ensures r != "" ==> !IsWhitespace(r[|r| - 1])
  {
    if s != "" && IsWhitespace(s[|s| - 1]) then TrimEnd(s[..|s| - 1]) else s
  }

  lemma TrimEndKept(s: string)
    requires s != "" && !IsWhitespace(s[|s| - 1])
    ensures TrimEnd(s) == s
  {
  }

  lemma DigitsAreNotWhitespace(c: char)
    requires IsDigit(c)
    ensures !IsWhitespace(c)
  {
  }

  function Trim(s: string): string {
    TrimEnd(TrimStart(s))
  }

  /** Any text between two runs of white space is what trimming leaves. */
  lemma TrimUnique(before: string, t: string, after: string)
    requires AllWhitespace(before) && AllWhitespace(after)
    requires t != "" ==> !IsWhitespace(t[0]) && !IsWhitespace(t[|t| - 1])
    ensures Trim(before + t + after) == t
  {
    TrimStartUnique(before, t + after);
    assert before + t + after == before + (t + after);
    if t == "" {
      AllWhitespaceTrims(before + t + after);
    } else {
      TrimEndUnique(t, after);
    }
  }

  lemma {:induction false} TrimStartUnique(before: string, t: string)
    requires AllWhitespace(before)
    ensures t != "" && !IsWhitespace(t[0]) ==> TrimStart(before + t) == t
  {
    if before != "" {
      assert IsWhitespace(before[0]);
      assert (before + t)[1..] == before[1..] + t;
      TrimStartUnique(before[1..], t);
    } else {
      assert before + t == t;
    }
  }

  lemma {:induction false} TrimEndUnique(t: string, after: string)
    requires AllWhitespace(after)
    ensures t != "" && !IsWhitespace(t[|t| - 1]) ==> TrimEnd(t + after) == t
  {
    if after != "" {
      assert IsWhitespace(after[|after| - 1]);
      assert (t + after)[..|t + after| - 1] == t + after[..|after| - 1];
      TrimEndUnique(t, after[..|after| - 1]);
    } else {
      assert t + after == t;
    }
  }

  lemma {:induction false} TrimStartBlank(s: string)
    requires AllWhitespace(s)
    ensures TrimStart(s) == ""
  {
    if s != "" {
      assert IsWhitespace(s[0]);
      TrimStartBlank(s[1..]);
    }
  }

  lemma AllWhitespaceTrims(s: string)
    requires AllWhitespace(s)
    ensures Trim(s) == ""
  {
    TrimStartBlank(s);
  }

  // ---------- Words ----------

  function WordLength(s: string): (n: nat)
    ensures n <= |s| && NoWhitespace(s[..n])
    ensures n < |s| ==> IsWhitespace(s[n])
  {
    if s == "" || IsWhitespace(s[0]) then 0 else 1 + WordLength(s[1..])
  }

  lemma {:induction false} WordLengthOf(word: string, rest: string)
    requires NoWhitespace(word)
    requires rest != "" ==> IsWhitespace(rest[0])
    ensures WordLength(word + rest) == |word|
  {
    if word == "" {
      assert word + rest == rest;
    } else {
      assert !IsWhitespace(word[0]);
      assert (word + rest)[1..] == word[1..] + rest;
      WordLengthOf(word[1..], rest);
    }
  }

  predicate IsWord(s: string) {
    s != "" && NoWhitespace(s)
  }

  /** The maximal runs of non-white characters, in order. */
  function SplitWhitespace(s: string): seq<string>
    decreases |s|
  {
    var t := TrimStart(s);
    if t == "" then [] else
    var n := WordLength(t);
    assert n > 0;
    [t[..n]] + SplitWhitespace(t[n..])
  }

  lemma {:induction false} SplitIntoWords(s: string)
    ensures forall i :: 0 <= i < |SplitWhitespace(s)| ==> IsWord(SplitWhitespace(s)[i])
    decreases |s|
  {
    var t := TrimStart(s);
    if t != "" {
      var n := WordLength(t);
      assert IsWord(t[..n]);
      SplitIntoWords(t[n..]);
      assert SplitWhitespace(s) == [t[..n]] + SplitWhitespace(t[n..]);
    }
  }

  /** A word before white space (or the end) is the first word, whatever white space precedes it. */
  lemma SplitFirstWord(before: string, word: string, rest: string)
    requires AllWhitespace(before) && IsWord(word)
    requires rest != "" ==> IsWhitespace(rest[0])
    ensures SplitWhitespace(before + word + rest) == [word] + SplitWhitespace(rest)
  {
    var t := word + rest;
    assert before + word + rest == before + t;
    TrimStartUnique(before, t);
    assert TrimStart(before + t) == t;
    WordLengthOf(word, rest);
    assert t[..|word|] == word && t[|word|..] == rest;
  }

  lemma SplitBlank(s: string)
    requires AllWhitespace(s)
    ensures SplitWhitespace(s) == []
  {
    TrimStartBlank(s);
  }

  // ---------- The characters themselves ----------

  const UPPER := "ABCDEFGHIJKLMNOPQRSTUVWXYZ"
  const LOWER := "abcdefghijklmnopqrstuvwxyz"

  /** Lower-casing maps the letters A to Z one by one and changes nothing else. */
  lemma LowerCharMeans(c: char)
    ensures forall i :: 0 <= i < 26 ==> LowerChar(UPPER[i]) == LOWER[i]
    ensures c !in UPPER ==> LowerChar(c) == c
  {
    if 'A' <= c <= 'Z' {
      var i := c as int - 'A' as int;
      assert UPPER[i] == c;
    }
  }

  /** The code points that count as white space. */
  lemma WhitespaceMeans(c: char)
    ensures IsWhitespace(c) <==>
            c as int in {9, 10, 11, 12, 13, 32, 133, 160, 5760, 8192, 8193, 8194, 8195, 8196, 8197, 8198, 8199, 8200,
                         8201, 8202, 8232, 8233, 8239, 8287, 12288}
  {
  }

  lemma DigitMeans(c: char)
    ensures IsDigit(c) <==> c in "0123456789"
    ensures IsDigit(c) ==> "0123456789"[DigitValue(c)] == c
  {
    if IsDigit(c) {
      assert "0123456789"[c as int - '0' as int] == c;
    }
  }

  /** Decimal printing is the inverse of reading digits without a needless zero in front. */
  lemma {:induction false} ShowValue(s: string)
    requires s != "" && Digits(s) && (|s| > 1 ==> s[0] != '0')
    ensures ShowNat(Value(s)) == s
  {
    var last := |s| - 1;
    assert IsDigit(s[last]) && Digits(s[..last]);
    var v := Value(s[..last]);
    assert (v * 10 + DigitValue(s[last])) / 10 == v && (v * 10 + DigitValue(s[last])) % 10 == DigitValue(s[last]);
    assert s == s[..last] + [s[last]];
    if last > 0 {
      ShowValue(s[..last]);
      ValuePositive(s[..last]);
    }
  }

  lemma {:induction false} ValuePositive(s: string)
    requires s != "" && Digits(s) && s[0] != '0'
    ensures Value(s) > 0
  {
    var last := |s| - 1;
    assert IsDigit(s[last]);
    if last > 0 {
      ValuePositive(s[..last]);
    }
  }
}
