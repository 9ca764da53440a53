/**
 * Rust's `str::parse::<u32>` (decimal, radix 10) and decimal formatting of a
 * `u32`, its partner in the round-trip lemmas.
 */
module Decimal {
  import opened Wrappers

  const MaxU32: int := 0xFFFF_FFFF

  /** Rust's `u32`. */
  type U32 = x: int | 0 <= x <= MaxU32

  predicate IsDigit(c: char)
  {
    '0' <= c <= '9'
  }

  predicate AllDigits(s: string)
  {
    forall i :: 0 <= i < |s| ==> IsDigit(s[i])
  }

  function DigitValue(c: char): (d: nat)
    requires IsDigit(c)
    ensures d < 10
  {
    (c as int) - ('0' as int)
  }

  function DigitChar(d: nat): (c: char)
    requires d < 10
    ensures IsDigit(c) && DigitValue(c) == d
  {
    ((d + '0' as int) as char)
  }

  /** The number a string of decimal digits denotes, read most significant digit first. */
  function Value(s: string): nat
    requires AllDigits(s)
    decreases |s|
  {
    if s == [] then 0
    else 10 * Value(s[..|s| - 1]) + DigitValue(s[|s| - 1])
  }

  /**
   * `s.parse::<u32>()`: one optional leading `'+'` (a `'-'` is not accepted
   * for an unsigned type), then at least one ASCII digit and nothing else,
   * denoting at most 2^32 - 1. Leading zeros are accepted; whitespace is not.
   */
  function ParseU32(s: string): (r: Option<U32>)
    ensures r.Some? ==> |s| > 0 && forall i :: 0 <= i < |s| ==> IsDigit(s[i]) || (i == 0 && s[i] == '+')
    ensures r.Some? ==> exists i :: 0 <= i < |s| && IsDigit(s[i])
  {
    if s == [] then None
    else
      var digits := if s[0] == '+' then s[1..] else s;
      assert forall i :: 0 <= i < |digits| ==> digits[i] == s[i + |s| - |digits|];
      if digits != [] && AllDigits(digits) && Value(digits) <= MaxU32 then
        assert IsDigit(s[|s| - 1]);
        Some(Value(digits))
      else None
  }

  /** `n.to_string()`: decimal digits without leading zeros. */
  function ToDecimal(n: nat): (s: string)
    ensures |s| > 0 && AllDigits(s)
    ensures |s| > 1 ==> s[0] != '0'
    decreases n
  {
    if n < 10 then [DigitChar(n)]
    else ToDecimal(n / 10) + [DigitChar(n % 10)]
  }

  lemma {:induction false} ValueOfToDecimal(n: nat)
    ensures Value(ToDecimal(n)) == n
    decreases n
  {
    if n >= 10 {
      var s := ToDecimal(n);
      ValueOfToDecimal(n / 10);
      assert s[..|s| - 1] == ToDecimal(n / 10);
    }
  }

  /** Parsing undoes formatting on every `u32`. */
  lemma ParseU32OfDecimal(n: U32)
    ensures ParseU32(ToDecimal(n)) == Some(n)
  {
    ValueOfToDecimal(n);
  }

  /** A leading `'+'` is accepted. */
  lemma ParseU32OfPlusDecimal(n: U32)
    ensures ParseU32("+" + ToDecimal(n)) == Some(n)
  {
    ValueOfToDecimal(n);
    assert ("+" + ToDecimal(n))[1..] == ToDecimal(n);
  }

  /** Values above 2^32 - 1 are rejected rather than wrapped. */
  lemma ParseU32RejectsOverflow(n: nat)
    requires n > MaxU32
    ensures ParseU32(ToDecimal(n)) == None
  {
    ValueOfToDecimal(n);
  }

  /** A sign other than `'+'` is rejected, whatever follows it. */
  lemma ParseU32RejectsMinus(s: string)
    ensures ParseU32("-" + s) == None
  {
    assert ("-" + s)[0] == '-';
  }

  lemma {:induction false} ValueLeadingZero(s: string)
    requires AllDigits(s)
    ensures AllDigits("0" + s) && Value("0" + s) == Value(s)
    decreases |s|
  {
    if s != [] {
      var t := "0" + s;
      assert t[..|t| - 1] == "0" + s[..|s| - 1];
      ValueLeadingZero(s[..|s| - 1]);
    }
  }

  /** Leading zeros do not change the value parsed. */
  lemma ParseU32LeadingZero(s: string)
    requires |s| > 0 && AllDigits(s)
    ensures ParseU32("0" + s) == ParseU32(s)
  {
    ValueLeadingZero(s);
  }

  /**
   * A leading `'+'` before any digit text reads as the digits alone: padded
   * digits keep their value and an overflowing value is still rejected.
   */
  lemma ParseU32OfPlusDigits(s: string)
    requires |s| > 0 && AllDigits(s)
    ensures ParseU32("+" + s) == ParseU32(s)
  {
    assert ("+" + s)[1..] == s;
  }

  /** The empty string, a lone sign and surrounding whitespace are all rejected. */
  lemma ParseU32RejectsMalformed()
    ensures ParseU32("") == None
    ensures ParseU32("+") == None
    ensures ParseU32(" 1") == None
    ensures ParseU32("1 ") == None
    ensures ParseU32("x") == None
  {
    assert !IsDigit(' ');
    assert !AllDigits("1 ") by { assert !IsDigit("1 "[1]); }
  }
}
