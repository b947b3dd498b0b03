/**
 * Decimal rendering and parsing of unsigned 64-bit integers, as Rust's
 * `Display` for `u64` and `u64::from_str` do them.
 */
module Decimal {
  import opened Wrappers

  const U64_MAX: nat := 0xFFFF_FFFF_FFFF_FFFF

  predicate IsDigit(c: char) {
    '0' <= c <= '9'
  }

  predicate AllDigits(s: string) {
    forall i :: 0 <= i < |s| ==> IsDigit(s[i])
  }

  function DigitChar(d: nat): (c: char)
    requires d < 10
    ensures IsDigit(c)
  {
    ('0' as int + d) as char
  }

  /** The value of a string of decimal digits (0 for the empty string). */
  function DigitsValue(s: string): nat
    requires AllDigits(s)
  {
    if s == [] then 0
    else DigitsValue(s[..|s| - 1]) * 10 + (s[|s| - 1] as int - '0' as int)
  }

  /** `n.to_string()`: the digits of `n` without leading zeros. */
  function ToDecimal(n: nat): (r: string)
    ensures |r| >= 1 && AllDigits(r)
    ensures |r| > 1 ==> r[0] != '0'
  {
    if n < 10 then [DigitChar(n)] else ToDecimal(n / 10) + [DigitChar(n % 10)]
  }

  /**
   * `u64::from_str`: an optional leading `+`, then at least one ASCII
   * digit and nothing else, with a value that fits in 64 bits.
   */
  function ParseU64(s: string): (r: Option<nat>)
    ensures r.Some? ==> r.value <= U64_MAX
  {
    var digits := if |s| > 0 && s[0] == '+' then s[1..] else s;
    if |digits| > 0 && AllDigits(digits) && DigitsValue(digits) <= U64_MAX
    then Some(DigitsValue(digits))
    else None
  }

  lemma {:induction false} DigitsValueOfDecimal(n: nat)
    ensures DigitsValue(ToDecimal(n)) == n
  {
    if n >= 10 {
      var r := ToDecimal(n);
      assert r[..|r| - 1] == ToDecimal(n / 10);
      DigitsValueOfDecimal(n / 10);
    }
  }

  /** Parsing inverts rendering for every 64-bit value. */
  lemma ParseDecimal(n: nat)
    requires n <= U64_MAX
    ensures ParseU64(ToDecimal(n)) == Some(n)
  {
    DigitsValueOfDecimal(n);
  }

  /** A field that is empty, holds a character other than a digit (after an optional leading `+`) or overflows is refused. */
  lemma ParseRejects(s: string)
    ensures s == "" ==> ParseU64(s) == None
    ensures s == "+" ==> ParseU64(s) == None
    ensures (exists i :: 0 < i < |s| && !IsDigit(s[i])) ==> ParseU64(s) == None
    ensures |s| > 0 && !IsDigit(s[0]) && s[0] != '+' ==> ParseU64(s) == None
  {
    if exists i :: 0 < i < |s| && !IsDigit(s[i]) {
      var i :| 0 < i < |s| && !IsDigit(s[i]);
      if s[0] == '+' {
        assert s[1..][i - 1] == s[i];
      }
    }
  }
}
