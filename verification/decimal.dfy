/** Python's `str(int)` (and the `{n}` of an f-string) on an integer of any sign,
    together with the decimal reader that inverts it. */
module Decimal {
  import opened Options

  predicate IsDigit(c: char)
  {
    '0' <= c <= '9'
  }

  function DigitChar(d: nat): (c: char)
    requires d < 10
    ensures IsDigit(c)
  {
    "0123456789"[d]
  }

  function DigitValue(c: char): (d: nat)
    requires IsDigit(c)
    ensures d < 10
  {
    (c as int - '0' as int) as nat
  }

  lemma DigitCharValue(d: nat)
    requires d < 10
    ensures DigitValue(DigitChar(d)) == d
  {
  }

  lemma ValueDigitChar(c: char)
    requires IsDigit(c)
    ensures DigitChar(DigitValue(c)) == c
  {
  }

  predicate AllDigits(s: string)
  {
    forall i :: 0 <= i < |s| ==> IsDigit(s[i])
  }

  /** A non-empty string of decimal digits without a leading zero, except
      for "0" itself: the spelling `str` gives a natural number. */
  predicate CanonicalNat(s: string)
  {
    |s| >= 1 && AllDigits(s) && (s[0] == '0' ==> |s| == 1)
  }

  /** The spelling `str` gives an integer: a canonical digit string, after a
      minus sign when the value is negative; never "-0". */
  predicate Canonical(s: string)
  {
    if |s| >= 1 && s[0] == '-' then CanonicalNat(s[1..]) && s[1..] != "0"
    else CanonicalNat(s)
  }

  /** The decimal digits of a natural number, most significant first,
      without leading zeros. */
  function ShowNat(n: nat): (s: string)
    ensures CanonicalNat(s)
    ensures s[0] == '0' ==> n == 0
    decreases n
  {
    if n < 10 then [DigitChar(n)] else ShowNat(n / 10) + [DigitChar(n % 10)]
  }

  /** `str(n)` for any integer: a minus sign for negative values. */
  function Show(n: int): (s: string)
    ensures |s| >= 1 && Canonical(s)
    ensures s[0] == '-' <==> n < 0
    ensures IsDigit(s[|s| - 1])
  {
    if n < 0 then "-" + ShowNat(-n) else ShowNat(n)
  }

  /** The value of a string of decimal digits (the empty string reads as 0). */
  function DigitsValue(s: string): nat
    requires AllDigits(s)
  {
    if |s| == 0 then 0 else DigitsValue(s[..|s| - 1]) * 10 + DigitValue(s[|s| - 1])
  }

  /** Reads a non-empty string of decimal digits; None for anything else. */
  function ParseDigits(s: string): (r: Option<nat>)
    ensures r.Some? ==> |s| >= 1
  {
    if |s| >= 1 && AllDigits(s) then Some(DigitsValue(s)) else None
  }

  /** Reads an optionally signed decimal integer; None for anything else. */
  function Parse(s: string): (r: Option<int>)
    ensures r.Some? ==> |s| >= 1
  {
    if |s| >= 1 && s[0] == '-' then
      match ParseDigits(s[1..])
      case Some(d) => Some(0 - d)
      case None => None
    else
      match ParseDigits(s)
      case Some(d) => Some(d)
      case None => None
  }

  lemma {:induction false} ShowNatValue(n: nat)
    ensures DigitsValue(ShowNat(n)) == n
    decreases n
  {
    var s := ShowNat(n);
    if n < 10 {
      DigitCharValue(n);
    } else {
      ShowNatValue(n / 10);
      DigitCharValue(n % 10);
      assert s[..|s| - 1] == ShowNat(n / 10);
      assert s[|s| - 1] == DigitChar(n % 10);
    }
  }

  /** Reading back what `str` wrote gives the original integer. */
  lemma {:induction false} ParseShow(n: int)
    ensures Parse(Show(n)) == Some(n)
  {
    var s := Show(n);
    if n < 0 {
      ShowNatValue(-n);
      assert s[1..] == ShowNat(-n);
      assert ParseDigits(s[1..]) == Some(-n);
    } else {
      ShowNatValue(n);
      assert s == ShowNat(n);
      assert ParseDigits(s) == Some(n);
    }
  }

  /** Distinct integers are written as distinct strings. */
  lemma ShowInjective(a: int, b: int)
    requires Show(a) == Show(b)
    ensures a == b
  {
    ParseShow(a);
    ParseShow(b);
  }

  /** A digit string without a leading zero has a positive value. */
  lemma {:induction false} PositiveValue(s: string)
    requires |s| >= 1 && AllDigits(s) && s[0] != '0'
    ensures DigitsValue(s) >= 1
    decreases |s|
  {
    if |s| > 1 {
      PositiveValue(s[..|s| - 1]);
    }
  }

  /** A canonical digit string is what `str` writes for its own value. */
  lemma {:induction false} ShowNatDigits(s: string)
    requires CanonicalNat(s)
    ensures ShowNat(DigitsValue(s)) == s
    decreases |s|
  {
    var n := DigitsValue(s);
    var last := s[|s| - 1];
    ValueDigitChar(last);
    if |s| == 1 {
      assert s[..0] == [];
    } else {
      var init := s[..|s| - 1];
      assert init[0] == s[0];
      PositiveValue(init);
      ShowNatDigits(init);
      assert n == DigitsValue(init) * 10 + DigitValue(last);
      assert n / 10 == DigitsValue(init) && n % 10 == DigitValue(last);
      assert s == init + [last];
    }
  }

  /** `str` has one spelling per integer: a canonical string that reads as
      `n` is exactly `Show(n)`. With `ParseShow` this makes `Show` and `Parse`
      inverse bijections between the integers and the canonical strings. */
  lemma CanonicalUnique(s: string, n: int)
    requires Canonical(s) && Parse(s) == Some(n)
    ensures s == Show(n)
  {
    if s[0] == '-' {
      var t := s[1..];
      assert t[0] != '0';
      PositiveValue(t);
      ShowNatDigits(t);
      assert s == "-" + t;
    } else {
      ShowNatDigits(s);
    }
  }
}
