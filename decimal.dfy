/**
 * Decimal rendering of integers, as JavaScript's `String(n)` and the
 * `toString()` of Frida's Int64 and UInt64 give it: digits without leading
 * zeros, and a leading '-' for a negative value.
 */
module Decimal {
  predicate IsDigit(c: char) {
    '0' <= c <= '9'
  }

  function DigitChar(d: nat): (c: char)
    requires d < 10
    ensures IsDigit(c) && c as int - '0' as int == d
  {
    "0123456789"[d]
  }

  predicate AllDigits(s: string) {
    forall i :: 0 <= i < |s| ==> IsDigit(s[i])
  }

  /** The number a string of decimal digits denotes, read left to right. */
  function DigitsValue(s: string): nat
    requires AllDigits(s)
  {
    if s == [] then 0
    else DigitsValue(s[..|s| - 1]) * 10 + (s[|s| - 1] as int - '0' as int)
  }

  /** Decimal digits without a leading zero: "0" itself, or digits starting with 1 to 9. */
  predicate NoLeadingZero(s: string) {
    |s| > 0 && AllDigits(s) && (|s| > 1 ==> s[0] != '0')
  }

  /**
   * The one text JavaScript's `String(n)` gives for an integer: an optional
   * '-' before digits without a leading zero, and never "-0".
   */
  predicate IsDecimal(s: string) {
    |s| > 0 &&
    if s[0] == '-' then NoLeadingZero(s[1..]) && s[1..] != "0" else NoLeadingZero(s)
  }

  /** The digits of `n`, most significant first. */
  function NatToString(n: nat): (s: string)
    ensures NoLeadingZero(s)
    ensures s == "0" <==> n == 0
  {
    if n < 10 then [DigitChar(n)] else NatToString(n / 10) + [DigitChar(n % 10)]
  }

  /** The rendering of a signed integer. */
  function IntToString(i: int): (s: string)
    ensures IsDecimal(s)
    ensures s[0] == '-' <==> i < 0
  {
    if i < 0 then "-" + NatToString(-i) else NatToString(i)
  }

  /** The value a decimal text denotes. */
  function SignedValue(s: string): int
    requires IsDecimal(s)
  {
    if s[0] == '-' then -(DigitsValue(s[1..]) as int) else DigitsValue(s)
  }

  /** Reading back the digits of `n` gives `n`. */
  lemma {:induction false} NatToStringValue(n: nat)
    ensures DigitsValue(NatToString(n)) == n
  {
    if n >= 10 {
      NatToStringValue(n / 10);
      var s := NatToString(n);
      assert s[..|s| - 1] == NatToString(n / 10);
    }
  }

  /** Reading back the rendering of `i` gives `i`; so distinct integers render differently. */
  lemma IntToStringValue(i: int)
    ensures SignedValue(IntToString(i)) == i
  {
    if i < 0 {
      NatToStringValue(-i);
      assert IntToString(i)[1..] == NatToString(-i);
    } else {
      NatToStringValue(i);
    }
  }

  /** The text of an integer is the only decimal text that denotes it. */
  lemma IntToStringUnique(i: int, s: string)
    requires IsDecimal(s) && SignedValue(s) == i
    ensures s == IntToString(i)
  {
    IntToStringValue(i);
    DecimalUnique(s, IntToString(i));
  }

  /** Two decimal texts that denote the same integer are the same text. */
  lemma DecimalUnique(s: string, t: string)
    requires IsDecimal(s) && IsDecimal(t) && SignedValue(s) == SignedValue(t)
    ensures s == t
  {
    if s[0] == '-' {
      DigitsPositive(s[1..]);
    } else if t[0] == '-' {
      DigitsPositive(t[1..]);
    }
    if s[0] == '-' && t[0] == '-' {
      DigitsUnique(s[1..], t[1..]);
      assert s == [s[0]] + s[1..] && t == [t[0]] + t[1..];
    } else if s[0] != '-' && t[0] != '-' {
      DigitsUnique(s, t);
    }
  }

  function Pow10(n: nat): (p: nat)
    ensures p >= 1
  {
    if n == 0 then 1 else 10 * Pow10(n - 1)
  }

  lemma {:induction false} Pow10Monotone(m: nat, n: nat)
    requires m <= n
    ensures Pow10(m) <= Pow10(n)
  {
    if m < n {
      Pow10Monotone(m, n - 1);
    }
  }

  /** Digits denote less than ten to the power of their count. */
  lemma {:induction false} DigitsBelow(s: string)
    requires AllDigits(s)
    ensures DigitsValue(s) < Pow10(|s|)
  {
    if s != [] {
      DigitsBelow(s[..|s| - 1]);
    }
  }

  /** Digits without a leading zero, more than one of them, denote at least ten to the count less one. */
  lemma {:induction false} DigitsAtLeast(s: string)
    requires NoLeadingZero(s) && |s| > 1
    ensures DigitsValue(s) >= Pow10(|s| - 1)
  {
    var p := s[..|s| - 1];
    assert p[0] == s[0];
    if |p| > 1 {
      DigitsAtLeast(p);
    } else {
      assert DigitsValue(p) == DigitsValue([]) * 10 + (p[0] as int - '0' as int);
    }
  }

  /** Digits without a leading zero other than "0" denote a positive number. */
  lemma DigitsPositive(s: string)
    requires NoLeadingZero(s) && s != "0"
    ensures DigitsValue(s) > 0
  {
    if |s| > 1 {
      DigitsAtLeast(s);
    } else {
      assert DigitsValue(s) == DigitsValue([]) * 10 + (s[0] as int - '0' as int);
      assert s == [s[0]];
    }
  }

  /** Digits without a leading zero that denote the same number are the same digits. */
  lemma {:induction false} DigitsUnique(s: string, t: string)
    requires NoLeadingZero(s) && NoLeadingZero(t) && DigitsValue(s) == DigitsValue(t)
    ensures s == t
  {
    DigitsSameLength(s, t);
    if |s| == 1 {
      assert DigitsValue(s) == DigitsValue([]) * 10 + (s[0] as int - '0' as int);
      assert DigitsValue(t) == DigitsValue([]) * 10 + (t[0] as int - '0' as int);
    } else {
      var ps, pt := s[..|s| - 1], t[..|t| - 1];
      assert ps[0] == s[0] && pt[0] == t[0];
      LastDigit(s);
      LastDigit(t);
      DigitsUnique(ps, pt);
      assert s == ps + [s[|s| - 1]] && t == pt + [t[|t| - 1]];
    }
  }

  /** Digits without a leading zero that denote the same number have the same count. */
  lemma DigitsSameLength(s: string, t: string)
    requires NoLeadingZero(s) && NoLeadingZero(t) && DigitsValue(s) == DigitsValue(t)
    ensures |s| == |t|
  {
    if |s| < |t| {
      Pow10Monotone(|s|, |t| - 1);
      DigitsBelow(s);
      DigitsAtLeast(t);
    } else if |t| < |s| {
      Pow10Monotone(|t|, |s| - 1);
      DigitsBelow(t);
      DigitsAtLeast(s);
    }
  }

  /** The last digit is the value modulo ten, and the others denote the value divided by ten. */
  lemma LastDigit(s: string)
    requires AllDigits(s) && s != []
    ensures s[|s| - 1] as int - '0' as int == DigitsValue(s) % 10
    ensures DigitsValue(s[..|s| - 1]) == DigitsValue(s) / 10
  {
  }
}
