/** Memory sizes such as `2G` or `100`: 64-bit arithmetic with two overflow checks. */
module Size {
  import opened Wrappers
  import opened Text

  const U64_LIMIT: nat := 0x1_0000_0000_0000_0000

  datatype SizeError = EmptySize | InvalidSize | SizeOverflow

  /** The multiplier of a unit letter; None for any other last character. */
  function UnitMultiplier(c: char): Option<nat> {
    match c
    case 'K' => Some(0x400)
    case 'k' => Some(0x400)
    case 'M' => Some(0x10_0000)
    case 'm' => Some(0x10_0000)
    case 'G' => Some(0x4000_0000)
    case 'g' => Some(0x4000_0000)
    case 'T' => Some(0x100_0000_0000)
    case 't' => Some(0x100_0000_0000)
    case _ => None
  }

  /** Digit accumulation as the standard library does it: both steps are checked. */
  function Accumulate(acc: nat, s: string): Option<nat>
    requires acc < U64_LIMIT
    decreases |s|
  {
    if s == "" then Some(acc)
    else if !IsDigit(s[0]) then None
    else if acc * 10 >= U64_LIMIT then None
    else if acc * 10 + DigitValue(s[0]) >= U64_LIMIT then None
    else Accumulate(acc * 10 + DigitValue(s[0]), s[1..])
  }

  /** Parsing of an unsigned 64-bit integer: an optional plus, then at least one digit. */
  function ParseU64(s: string): Option<nat> {
    var digits := if s != "" && s[0] == '+' then s[1..] else s;
    if digits == "" then None else Accumulate(0, digits)
  }

  predicate IsUnit(unit: string) {
    unit == "" || (|unit| == 1 && UnitMultiplier(unit[0]).Some?)
  }

  function Multiplier(unit: string): (m: nat)
    requires IsUnit(unit)
    ensures m >= 1
  {
    if unit == "" then 1 else UnitMultiplier(unit[0]).value
  }

  /** The number part and the unit part; the unit is decided by the last character alone. */
  function SplitUnit(s: string): (parts: (string, string))
    requires s != ""
    ensures s == parts.0 + parts.1 && IsUnit(parts.1)
    ensures parts.1 != "" <==> UnitMultiplier(s[|s| - 1]).Some?
  {
    var n := |s| - 1;
    if UnitMultiplier(s[n]).Some? then (s[..n], [s[n]]) else (s, "")
  }

  function ParseSize(text: string): Result<nat, SizeError> {
    var s := Trim(text);
    if s == "" then Failure(EmptySize) else
    var (num, unit) := SplitUnit(s);
    match ParseU64(num)
    case None => Failure(InvalidSize)
    case Some(value) =>
      var bytes := value * Multiplier(unit);
      if bytes >= U64_LIMIT then Failure(SizeOverflow) else Success(bytes)
  }

  // ---------- What a size text means, without any bound ----------

  /** `t` is an optional plus, decimal digits and an optional unit letter. */
  ghost predicate Spells(t: string, sign: string, digits: string, unit: string) {
    && t == sign + digits + unit
    && (sign == "" || sign == "+")
    && digits != "" && Digits(digits)
    && IsUnit(unit)
  }

  ghost predicate Denotes(t: string, v: nat) {
    exists sign, digits, unit ::
      Spells(t, sign, digits, unit) && v == Value(digits) * Multiplier(unit)
  }

  /** Accumulating more digits multiplies what was there by a power of ten and never shrinks it. */
  function Extend(acc: nat, s: string): nat
    requires Digits(s)
    decreases |s|
  {
    if s == "" then acc else
    assert IsDigit(s[0]);
    Extend(acc * 10 + DigitValue(s[0]), s[1..])
  }

  lemma {:induction false} ExtendGrows(acc: nat, s: string)
    requires Digits(s)
    ensures Extend(acc, s) >= acc
    decreases |s|
  {
    if s != "" {
      assert IsDigit(s[0]);
      ExtendGrows(acc * 10 + DigitValue(s[0]), s[1..]);
    }
  }

  lemma {:induction false} ExtendLast(acc: nat, s: string)
    requires Digits(s) && s != ""
    ensures IsDigit(s[|s| - 1]) && Digits(s[..|s| - 1])
    ensures Extend(acc, s) == Extend(acc, s[..|s| - 1]) * 10 + DigitValue(s[|s| - 1])
    decreases |s|
  {
    var init := s[..|s| - 1];
    assert IsDigit(s[0]) && IsDigit(s[|s| - 1]);
    if |s| > 1 {
      var next := acc * 10 + DigitValue(s[0]);
      ExtendLast(next, s[1..]);
      assert s[1..][..|s[1..]| - 1] == init[1..];
      assert init[0] == s[0];
    }
  }

  lemma {:induction false} ExtendIsValue(s: string)
    requires Digits(s)
    ensures Extend(0, s) == Value(s)
    decreases |s|
  {
    if s != "" {
      ExtendLast(0, s);
      ExtendIsValue(s[..|s| - 1]);
    }
  }

  /** The checked loop succeeds exactly on digit strings whose unbounded value fits in 64 bits. */
  lemma {:induction false} AccumulateExact(acc: nat, s: string)
    requires acc < U64_LIMIT
    ensures Accumulate(acc, s) ==
            if Digits(s) && Extend(acc, s) < U64_LIMIT then Some(Extend(acc, s)) else None
    decreases |s|
  {
    if s != "" && IsDigit(s[0]) {
      var next := acc * 10 + DigitValue(s[0]);
      assert Digits(s) <==> Digits(s[1..]) by {
        if Digits(s[1..]) {
          forall i | 0 <= i < |s| ensures IsDigit(s[i]) {
            if i > 0 { assert s[i] == s[1..][i - 1]; }
          }
        }
      }
      if next < U64_LIMIT {
        AccumulateExact(next, s[1..]);
      } else if Digits(s) {
        ExtendGrows(next, s[1..]);
      }
    }
  }

  lemma ParseU64Exact(s: string, sign: string, digits: string)
    requires s == sign + digits && (sign == "" || sign == "+")
    requires digits != "" && Digits(digits)
    ensures ParseU64(s) == if Value(digits) < U64_LIMIT then Some(Value(digits)) else None
  {
    assert IsDigit(digits[0]);
    var rest := if s != "" && s[0] == '+' then s[1..] else s;
    assert rest == digits;
    AccumulateExact(0, digits);
    ExtendIsValue(digits);
  }

  lemma ParseU64Sound(s: string) returns (sign: string, digits: string)
    requires ParseU64(s).Some?
    ensures s == sign + digits && (sign == "" || sign == "+")
    ensures digits != "" && Digits(digits)
  {
    if s != "" && s[0] == '+' {
      sign, digits := "+", s[1..];
    } else {
      sign, digits := "", s;
    }
    AccumulateExact(0, digits);
  }

  /** The letters that are units are never digits, so a text has one reading only. */
  lemma SpellsSplit(t: string, sign: string, digits: string, unit: string)
    requires Spells(t, sign, digits, unit)
    ensures t != "" && SplitUnit(t) == (sign + digits, unit)
  {
    assert IsDigit(digits[|digits| - 1]);
    assert (sign + digits + unit)[..|sign + digits|] == sign + digits;
    if unit == "" {
      assert t == sign + digits;
    }
  }

  /** What the parser returns on a text that spells a size. */
  lemma ParseSizeOf(text: string, sign: string, digits: string, unit: string)
    requires Spells(Trim(text), sign, digits, unit)
    ensures var v := Value(digits) * Multiplier(unit);
            ParseSize(text) == if Value(digits) >= U64_LIMIT then Failure(InvalidSize)
                               else if v >= U64_LIMIT then Failure(SizeOverflow)
                               else Success(v)
  {
    var t := Trim(text);
    SpellsSplit(t, sign, digits, unit);
    ParseU64Exact(sign + digits, sign, digits);
  }

  /** Outside the grammar the parser always fails. */
  lemma ParseSizeSpells(text: string) returns (sign: string, digits: string, unit: string)
    requires !ParseSize(text).Failure? || ParseSize(text).error == SizeOverflow
    ensures Spells(Trim(text), sign, digits, unit)
  {
    var t := Trim(text);
    var (num, u) := SplitUnit(t);
    unit := u;
    sign, digits := ParseU64Sound(num);
  }

  lemma ScalingGrows(a: nat, b: nat)
    requires b >= 1
    ensures a * b >= a
  {
  }

  /**
   The parser is exact: it returns v if and only if the trimmed text denotes v and v
   fits in 64 bits. The digit check and the multiplier check together reject exactly
   the overflows.
   */
  lemma ParseSizeExact(text: string, v: nat)
    ensures ParseSize(text) == Success(v) <==> Denotes(Trim(text), v) && v < U64_LIMIT
  {
    if ParseSize(text) == Success(v) {
      var sign, digits, unit := ParseSizeSpells(text);
      ParseSizeOf(text, sign, digits, unit);
    }
    if Denotes(Trim(text), v) && v < U64_LIMIT {
      var sign, digits, unit :|
        Spells(Trim(text), sign, digits, unit) && v == Value(digits) * Multiplier(unit);
      ParseSizeOf(text, sign, digits, unit);
      ScalingGrows(Value(digits), Multiplier(unit));
    }
  }

  /** The text denotes some size below 2^64. */
  ghost predicate DenotesU64(text: string) {
    exists v: nat :: Denotes(Trim(text), v) && v < U64_LIMIT
  }

  /** Every failure is an empty text, a text outside the grammar, or a size of 2^64 or more. */
  lemma ParseSizeSucceeds(text: string)
    ensures ParseSize(text).Success? <==> DenotesU64(text)
  {
    if ParseSize(text).Success? {
      ParseSizeExact(text, ParseSize(text).value);
    }
    forall v: nat | Denotes(Trim(text), v) && v < U64_LIMIT
      ensures ParseSize(text).Success?
    {
      ParseSizeExact(text, v);
    }
  }

  /** Printing a 64-bit number and parsing it again gives the number back. */
  lemma PrintThenParse(v: nat)
    requires v < U64_LIMIT
    ensures ParseSize(ShowNat(v)) == Success(v)
  {
    DigitsSpell(ShowNat(v));
    ParseSizeOf(ShowNat(v), "", ShowNat(v), "");
    assert Multiplier("") == 1;
  }

  lemma DigitsSpell(t: string)
    requires t != "" && Digits(t)
    ensures Trim(t) == t && Spells(t, "", t, "")
  {
    assert IsDigit(t[0]) && IsDigit(t[|t| - 1]);
    TrimUnique("", t, "");
    assert "" + t + "" == t;
  }

  // ---------- Sizes as they are written ----------

  /** What digits denote when each of them counts `scale` bytes, in 64 bits. */
  function Scaled(digits: string, scale: nat): Result<nat, SizeError>
    requires Digits(digits)
  {
    if Value(digits) >= 18446744073709551616 then Failure(InvalidSize)
    else if Value(digits) * scale >= 18446744073709551616 then Failure(SizeOverflow)
    else Success(Value(digits) * scale)
  }

  lemma UnitSize(lead: string, sign: string, digits: string, unit: string, trail: string)
    requires AllWhitespace(lead) && AllWhitespace(trail)
    requires (sign == "" || sign == "+") && digits != "" && Digits(digits) && IsUnit(unit)
    ensures ParseSize(lead + sign + digits + unit + trail) == Scaled(digits, Multiplier(unit))
  {
    var t := sign + digits + unit;
    assert IsDigit(digits[0]) && IsDigit(digits[|digits| - 1]);
    assert t[0] == if sign == "" then digits[0] else '+';
    assert t[|t| - 1] == if unit == "" then digits[|digits| - 1] else unit[0];
    assert lead + sign + digits + unit + trail == lead + t + trail;
    TrimUnique(lead, t, trail);
    hide Value, Trim;
    ParseSizeOf(lead + t + trail, sign, digits, unit);
  }

  /** K, M, G and T in either case count in powers of 1024, and without a unit the digits count bytes. */
  lemma UnitsMean(lead: string, sign: string, digits: string, trail: string)
    requires AllWhitespace(lead) && AllWhitespace(trail)
    requires (sign == "" || sign == "+") && digits != "" && Digits(digits)
    ensures ParseSize(lead + sign + digits + trail) == Scaled(digits, 1)
    ensures ParseSize(lead + sign + digits + "K" + trail) == Scaled(digits, 1024)
    ensures ParseSize(lead + sign + digits + "k" + trail) == Scaled(digits, 1024)
    ensures ParseSize(lead + sign + digits + "M" + trail) == Scaled(digits, 1024 * 1024)
    ensures ParseSize(lead + sign + digits + "m" + trail) == Scaled(digits, 1024 * 1024)
    ensures ParseSize(lead + sign + digits + "G" + trail) == Scaled(digits, 1024 * 1024 * 1024)
    ensures ParseSize(lead + sign + digits + "g" + trail) == Scaled(digits, 1024 * 1024 * 1024)
    ensures ParseSize(lead + sign + digits + "T" + trail) == Scaled(digits, 1024 * 1024 * 1024 * 1024)
    ensures ParseSize(lead + sign + digits + "t" + trail) == Scaled(digits, 1024 * 1024 * 1024 * 1024)
  {
    hide ParseSize;
    assert lead + sign + digits + "" + trail == lead + sign + digits + trail;
    UnitSize(lead, sign, digits, "", trail);
    UnitSize(lead, sign, digits, "K", trail);
    UnitSize(lead, sign, digits, "k", trail);
    UnitSize(lead, sign, digits, "M", trail);
    UnitSize(lead, sign, digits, "m", trail);
    UnitSize(lead, sign, digits, "G", trail);
    UnitSize(lead, sign, digits, "g", trail);
    UnitSize(lead, sign, digits, "T", trail);
    UnitSize(lead, sign, digits, "t", trail);
  }

  /** No other character is a unit, and a blank text is no size. */
  lemma OtherUnits(text: string, c: char)
    requires !IsDigit(c) && !IsWhitespace(c)
    requires c !in {'K', 'k', 'M', 'm', 'G', 'g', 'T', 't'}
    ensures ParseSize(text + [c]) == Failure(InvalidSize)
    ensures AllWhitespace(text) ==> ParseSize(text) == Failure(EmptySize)
  {
    if AllWhitespace(text) {
      AllWhitespaceTrims(text);
    }
    TrimKeepsLast(text, c);
    if ParseSize(text + [c]) != Failure(InvalidSize) {
      var sign, digits, unit := ParseSizeSpells(text + [c]);
      SpellingEnds(Trim(text + [c]), sign, digits, unit);
    }
  }

  lemma SpellingEnds(t: string, sign: string, digits: string, unit: string)
    requires Spells(t, sign, digits, unit)
    ensures t != ""
    ensures var c := t[|t| - 1]; IsDigit(c) || c in {'K', 'k', 'M', 'm', 'G', 'g', 'T', 't'}
  {
    assert IsDigit(digits[|digits| - 1]);
    assert t[|t| - 1] == if unit == "" then digits[|digits| - 1] else unit[0];
  }

  lemma TrimKeepsLast(text: string, c: char)
    requires !IsWhitespace(c)
    ensures var t := Trim(text + [c]); t != "" && t[|t| - 1] == c
  {
    TrimStartKeepsLast(text, c);
    TrimEndKept(TrimStart(text + [c]));
  }

  lemma {:induction false} TrimStartKeepsLast(text: string, c: char)
    requires !IsWhitespace(c)
    ensures var t := TrimStart(text + [c]); t != "" && t[|t| - 1] == c
  {
    if text != "" {
      assert (text + [c])[1..] == text[1..] + [c];
      TrimStartKeepsLast(text[1..], c);
    }
  }
}
