/** Decimal rendering of natural numbers, as JavaScript's string conversion and `toFixed(1)` print them. */
module Decimal {

  /** The character of one decimal digit. */
  function DigitChar(d: nat): (c: char)
    requires d < 10
    ensures '0' <= c <= '9'
    ensures c as int - '0' as int == d
  {
    ('0' as int + d) as char
  }

  lemma DigitCharInjective(a: nat, b: nat)
    requires a < 10 && b < 10 && DigitChar(a) == DigitChar(b)
    ensures a == b
  {
  }

  /** `String(n)` for a non-negative integer: its digits, most significant first, no leading zeros. */
  function NatToString(n: nat): (s: string)
    ensures |s| >= 1
    ensures forall i :: 0 <= i < |s| ==> '0' <= s[i] <= '9'
    ensures (|s| == 1) <==> n < 10
    decreases n
  {
    if n < 10 then [DigitChar(n)] else NatToString(n / 10) + [DigitChar(n % 10)]
  }

  /** The number a string of decimal digits denotes, most significant digit first. */
  function DigitsValue(s: string): nat
    requires forall i :: 0 <= i < |s| ==> '0' <= s[i] <= '9'
  {
    if s == [] then 0 else 10 * DigitsValue(s[..|s| - 1]) + (s[|s| - 1] as int - '0' as int)
  }

  /** The printed digits denote the number printed. */
  lemma {:induction false} NatToStringValue(n: nat)
    ensures DigitsValue(NatToString(n)) == n
    decreases n
  {
    if n >= 10 {
      var s := NatToString(n);
      assert s[..|s| - 1] == NatToString(n / 10);
      NatToStringValue(n / 10);
    }
  }

  /** Different numbers print differently, so names built from them are distinct. */
  lemma {:induction false} NatToStringInjective(a: nat, b: nat)
    requires NatToString(a) == NatToString(b)
    ensures a == b
    decreases a
  {
    var s := NatToString(a);
    if a < 10 {
      assert b < 10;
      DigitCharInjective(a, b);
    } else {
      assert b >= 10;
      assert s[|s| - 1] == DigitChar(a % 10) == DigitChar(b % 10);
      DigitCharInjective(a % 10, b % 10);
      assert NatToString(a / 10) == s[..|s| - 1] == NatToString(b / 10);
      NatToStringInjective(a / 10, b / 10);
    }
  }

  /** A prefix followed by two different numbers gives two different strings. */
  lemma PrefixedInjective(prefix: string, a: nat, b: nat)
    requires a != b
    ensures prefix + NatToString(a) != prefix + NatToString(b)
  {
    if prefix + NatToString(a) == prefix + NatToString(b) {
      assert NatToString(a) == (prefix + NatToString(a))[|prefix|..];
      NatToStringInjective(a, b);
    }
  }

  /** `x.toFixed(1)` for x = tenths / 10, x >= 0: the whole part, a point, one digit. */
  function FixedOne(tenths: nat): (s: string)
    ensures |s| >= 3 && s[|s| - 2] == '.'
    ensures s[..|s| - 2] == NatToString(tenths / 10)
    ensures s[|s| - 1] == DigitChar(tenths % 10)
  {
    NatToString(tenths / 10) + "." + [DigitChar(tenths % 10)]
  }

  /** The `toFixed(1)` text denotes tenths / 10: its whole part is tenths / 10 and its one decimal is tenths % 10. */
  lemma FixedOneValue(tenths: nat)
    ensures var s := FixedOne(tenths);
      && DigitsValue(s[..|s| - 2]) == tenths / 10
      && s[|s| - 1] as int - '0' as int == tenths % 10
      && 10 * DigitsValue(s[..|s| - 2]) + (s[|s| - 1] as int - '0' as int) == tenths
  {
    NatToStringValue(tenths / 10);
  }
}
