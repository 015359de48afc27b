/** Decimal rendering of container positions, as Rust's `{}` formatting of a
    `usize` writes them, and the canonical-decimal reading used by JSON
    Pointer array indices (section 4 of RFC 6901: no leading zeros). */
module Decimal {
  import opened Results

  predicate IsDigit(c: char) {
    '0' <= c <= '9'
  }

  function DigitChar(d: nat): (c: char)
    requires d < 10
    ensures IsDigit(c)
  {
    ('0' as int + d) as char
  }

  function DigitValue(c: char): (d: nat)
    requires IsDigit(c)
    ensures d < 10 && DigitChar(d) == c
  {
    c as int - '0' as int
  }

  predicate AllDigits(s: string) {
    forall i :: 0 <= i < |s| ==> IsDigit(s[i])
  }

  /** A non-empty digit string without a superfluous leading zero. */
  predicate IsCanonical(s: string) {
    |s| >= 1 && AllDigits(s) && (s[0] == '0' ==> |s| == 1)
  }

  /** The decimal rendering of `n`: always canonical. */
  function NatToString(n: nat): (s: string)
    ensures IsCanonical(s)
    decreases n
  {
    if n < 10 then [DigitChar(n)] else NatToString(n / 10) + [DigitChar(n % 10)]
  }

  /** The number a digit string denotes, most significant digit first. */
  function DigitsValue(s: string): nat
    requires AllDigits(s)
  {
    if |s| == 0 then 0 else DigitsValue(s[..|s| - 1]) * 10 + DigitValue(s[|s| - 1])
  }

  /** Reads a canonical decimal; anything else is not an index. */
  function ParseNat(s: string): Option<nat> {
    if IsCanonical(s) then Some(DigitsValue(s)) else None
  }

  /** Reading back a rendered number gives the number. */
  lemma {:induction false} ParseOfNatToString(n: nat)
    ensures ParseNat(NatToString(n)) == Some(n)
  {
    DigitsValueOfNatToString(n);
  }

  lemma {:induction false} DigitsValueOfNatToString(n: nat)
    ensures DigitsValue(NatToString(n)) == n
    decreases n
  {
    var s := NatToString(n);
    if n < 10 {
      assert s[..0] == [];
    } else {
      DigitsValueOfNatToString(n / 10);
      assert s[..|s| - 1] == NatToString(n / 10);
    }
  }

  /** A canonical digit string that starts with a non-zero digit denotes a positive number. */
  lemma {:induction false} LeadingDigitPositive(s: string)
    requires |s| >= 1 && AllDigits(s) && s[0] != '0'
    ensures DigitsValue(s) >= 1
    decreases |s|
  {
    if |s| == 1 {
      assert s[..0] == [];
    } else {
      LeadingDigitPositive(s[..|s| - 1]);
    }
  }

  /** Rendering a read number gives back the text: canonical decimals and
      natural numbers are in one-to-one correspondence. */
  lemma {:induction false} NatToStringOfParse(s: string)
    requires ParseNat(s).Some?
    ensures NatToString(ParseNat(s).value) == s
    decreases |s|
  {
    var n := DigitsValue(s);
    if |s| == 1 {
      assert s[..0] == [] && DigitsValue(s[..0]) == 0;
      assert n == DigitValue(s[0]);
    } else {
      var p := s[..|s| - 1];
      assert p[0] == s[0];
      LeadingDigitPositive(p);
      NatToStringOfParse(p);
      var m := DigitsValue(p);
      assert n == m * 10 + DigitValue(s[|s| - 1]);
      assert n / 10 == m && n % 10 == DigitValue(s[|s| - 1]);
      assert s == p + [s[|s| - 1]];
    }
  }
}
