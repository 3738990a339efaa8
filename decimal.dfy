/**
 * Decimal text of integers, the way JavaScript produces and reads it:
 * `String(n)` for an integer `n`, the numeric reading `+s || 0` of a
 * string, and `parseInt(s, 10)`.
 */
module Decimal {
  import opened Wrappers

  predicate IsDigit(c: char) {
    '0' <= c <= '9'
  }

  predicate AllDigits(s: string) {
    forall i :: 0 <= i < |s| ==> IsDigit(s[i])
  }

  function DigitChar(d: nat): (c: char)
    requires d < 10
    ensures IsDigit(c) && (c as int) - ('0' as int) == d
  {
    (('0' as int) + d) as char
  }

  function DigitValue(c: char): nat
    requires IsDigit(c)
  {
    (c as int) - ('0' as int)
  }

  /** `String(n)` for a non-negative integer: no sign, no leading zero. */
  function NatToString(n: nat): (s: string)
    ensures |s| > 0 && AllDigits(s)
    ensures s[0] == '0' ==> n == 0
    decreases n
  {
    if n < 10 then [DigitChar(n)] else NatToString(n / 10) + [DigitChar(n % 10)]
  }

  /** `String(n)` for an integer. */
  function IntToString(n: int): (s: string)
    ensures |s| > 0
    ensures n >= 0 <==> s[0] != '-'
    ensures n >= 0 ==> AllDigits(s)
  {
    if n < 0 then "-" + NatToString(-n) else NatToString(n)
  }

  /** The value of a string of decimal digits, most significant first. */
  function DigitsValue(s: string): nat
    requires AllDigits(s)
    decreases |s|
  {
    if s == [] then 0 else 10 * DigitsValue(s[..|s| - 1]) + DigitValue(s[|s| - 1])
  }

  lemma {:induction false} DigitsOfNat(n: nat)
    ensures DigitsValue(NatToString(n)) == n
    decreases n
  {
    var s := NatToString(n);
    if n >= 10 {
      DigitsOfNat(n / 10);
      assert s[..|s| - 1] == NatToString(n / 10);
    }
  }

  /**
   * `+s || 0`: the number a string reads as, or 0 when it is not a number.
   * An optionally signed run of decimal digits reads as its value; the empty
   * string reads as 0, and every other string reads as NaN, hence 0.
   */
  function NumberOr0(s: string): (r: int)
    ensures r != 0 ==> |s| > 0 && (IsDigit(s[0]) || s[0] == '-' || s[0] == '+')
    ensures r < 0 ==> s[0] == '-'
  {
    if |s| > 0 && AllDigits(s) then DigitsValue(s)
    else if |s| > 1 && s[0] == '-' && AllDigits(s[1..]) then -(DigitsValue(s[1..]) as int)
    else if |s| > 1 && s[0] == '+' && AllDigits(s[1..]) then DigitsValue(s[1..])
    else 0
  }

  /** Reading back the text of an integer gives the integer. */
  lemma NumberOr0OfIntToString(n: int)
    ensures NumberOr0(IntToString(n)) == n
  {
    if n < 0 {
      DigitsOfNat(-n);
      assert IntToString(n)[1..] == NatToString(-n);
    } else {
      DigitsOfNat(n);
    }
  }

  /** A dash between two texts without dashes is where it is: digits before
      it determine both halves. */
  lemma SplitAtDash(a1: string, b1: string, a2: string, b2: string)
    requires AllDigits(a1) && AllDigits(a2)
    requires a1 + "-" + b1 == a2 + "-" + b2
    ensures a1 == a2 && b1 == b2
  {
    var s := a1 + "-" + b1;
    assert s[|a1|] == '-' && s[|a2|] == '-';
    assert forall i :: 0 <= i < |a1| ==> s[i] == a1[i];
    assert forall i :: 0 <= i < |a2| ==> s[i] == a2[i];
    assert |a1| == |a2|;
    assert a1 == s[..|a1|] && a2 == s[..|a2|];
    assert b1 == s[|a1| + 1..] && b2 == (a2 + "-" + b2)[|a2| + 1..];
  }

  /** Distinct integers have distinct texts. */
  lemma IntToStringInjective(m: int, n: int)
    requires IntToString(m) == IntToString(n)
    ensures m == n
  {
    NumberOr0OfIntToString(m);
    NumberOr0OfIntToString(n);
  }

  /** The whitespace `parseInt` skips before the number (ASCII subset). */
  predicate IsSpace(c: char) {
    c == ' ' || c == '\t' || c == '\n' || c == '\r' || c == '\U{000B}' || c == '\U{000C}'
  }

  /** Number of leading characters satisfying the digit test. */
  function DigitRun(s: string): (k: nat)
    ensures k <= |s| && AllDigits(s[..k])
    ensures k < |s| ==> !IsDigit(s[k])
    decreases |s|
  {
    if s != [] && IsDigit(s[0]) then
      assert s[..1 + DigitRun(s[1..])] == [s[0]] + s[1..][..DigitRun(s[1..])];
      1 + DigitRun(s[1..])
    else 0
  }

  function SkipSpace(s: string): (t: string)
    ensures |t| <= |s| && (t != [] ==> !IsSpace(t[0]))
    ensures t == s[|s| - |t|..]
    ensures s != [] && (IsDigit(s[0]) || s[0] == '-' || s[0] == '+') ==> t == s
    decreases |s|
  {
    if s != [] && IsSpace(s[0]) then SkipSpace(s[1..]) else s
  }

  /** The value of an optional sign followed by digits, at the head of `s`;
      None when no digit follows the sign (`parseInt` then gives NaN). */
  function SignedPrefix(s: string): (r: Option<int>)
    ensures r.Some? ==> (s != [] && IsDigit(s[0])) || (|s| > 1 && IsDigit(s[1]))
    ensures s != [] && IsDigit(s[0]) ==> r.Some? && r.value >= 0
  {
    if s != [] && (s[0] == '-' || s[0] == '+') then
      var k := DigitRun(s[1..]);
      if k == 0 then None
      else if s[0] == '-' then Some(-(DigitsValue(s[1..][..k]) as int))
      else Some(DigitsValue(s[1..][..k]))
    else
      var k := DigitRun(s);
      if k == 0 then None else Some(DigitsValue(s[..k]))
  }

  /** `parseInt(s, 10)`: leading whitespace, an optional sign and the longest
      run of digits; None stands for NaN. */
  function ParseInt10(s: string): (r: Option<int>)
    ensures r.Some? ==> exists i :: 0 <= i < |s| && IsDigit(s[i])
    ensures s != [] && IsDigit(s[0]) ==> r.Some? && r.value >= 0
    ensures s != [] && !IsSpace(s[0]) && !IsDigit(s[0]) && s[0] != '-' && s[0] != '+' ==> r.None?
  {
    SignedPrefix(SkipSpace(s))
  }

  /** `parseInt` reads back the text of an integer. */
  lemma ParseInt10OfIntToString(n: int)
    ensures ParseInt10(IntToString(n)) == Some(n)
  {
    var s := IntToString(n);
    if n < 0 {
      var t := NatToString(-n);
      assert s[1..] == t;
      DigitRunAll(t);
      DigitsOfNat(-n);
      assert t[..|t|] == t;
    } else {
      DigitRunAll(s);
      DigitsOfNat(n);
      assert s[..|s|] == s;
    }
  }

  lemma {:induction false} DigitRunAll(s: string)
    requires AllDigits(s)
    ensures DigitRun(s) == |s|
    decreases |s|
  {
    if s != [] {
      DigitRunAll(s[1..]);
    }
  }
}
