/**
 * Decimal digit strings: Python's `str(n)` on integers (used to render status codes and
 * the fields of a date) and the `[+-]?digits` grammar that `int(s)` accepts.
 */
module Digits {
  import opened Wrappers

  predicate IsDigit(c: char) { '0' <= c <= '9' }

  predicate AllDigits(s: string) { forall i :: 0 <= i < |s| ==> IsDigit(s[i]) }

  function DigitValue(c: char): (d: nat)
    requires IsDigit(c)
    ensures d < 10
  {
    c as int - '0' as int
  }

  function DigitChar(d: nat): (c: char)
    requires d < 10
    ensures IsDigit(c) && DigitValue(c) == d
  {
    ('0' as int + d) as char
  }

  function Pow10(n: nat): (p: nat)
    ensures p >= 1
  {
    if n == 0 then 1 else 10 * Pow10(n - 1)
  }

  /** The number a string of digits denotes (most significant digit first). */
  function DigitsToNat(s: string): nat
    requires AllDigits(s)
  {
    if |s| == 0 then 0 else DigitsToNat(s[..|s| - 1]) * 10 + DigitValue(s[|s| - 1])
  }

  /** The lowest `width` decimal digits of `n`, zero-padded: Python's `"%0<width>d" % n` when n fits. */
  function NatToDigits(n: nat, width: nat): (r: string)
    ensures |r| == width && AllDigits(r)
  {
    if width == 0 then [] else NatToDigits(n / 10, width - 1) + [DigitChar(n % 10)]
  }

  lemma {:induction false} NatToDigitsRoundTrip(n: nat, width: nat)
    requires n < Pow10(width)
    ensures DigitsToNat(NatToDigits(n, width)) == n
  {
    if width > 0 {
      var q, r := n / 10, n % 10;
      ShiftBound(n, Pow10(width - 1));
      NatToDigitsRoundTrip(q, width - 1);
      DigitsToNatSnoc(NatToDigits(q, width - 1), r);
    }
  }

  /** Appending a digit multiplies by ten and adds it. */
  lemma DigitsToNatSnoc(t: string, d: nat)
    requires AllDigits(t) && d < 10
    ensures AllDigits(t + [DigitChar(d)])
    ensures DigitsToNat(t + [DigitChar(d)]) == DigitsToNat(t) * 10 + d
  {
    var s := t + [DigitChar(d)];
    assert s[..|s| - 1] == t;
  }

  lemma ShiftBound(n: nat, p: nat)
    requires n < 10 * p
    ensures n / 10 < p
  {
  }

  /** The number of digits Python prints for `n`: no leading zeros, and "0" for zero. */
  function NumDigits(n: nat): (w: nat)
    ensures w >= 1 && n < Pow10(w)
    ensures w > 1 ==> Pow10(w - 1) <= n
  {
    if n < 10 then 1 else 1 + NumDigits(n / 10)
  }

  function NatToString(n: nat): (r: string)
    ensures |r| >= 1 && AllDigits(r)
  {
    NatToDigits(n, NumDigits(n))
  }

  /** Python's `str(i)` for an `int`. */
  function IntToString(i: int): (r: string)
    ensures |r| >= 1 && (r[0] == '-' <==> i < 0)
  {
    if i < 0 then "-" + NatToString(-i) else NatToString(i)
  }

  /** Python's `int(s)` on a string, restricted to an optional sign followed by ASCII digits. */
  function ParseInt(s: string): (r: Option<int>)
    ensures r.Some? ==> |s| >= 1
  {
    if |s| >= 1 && (s[0] == '-' || s[0] == '+') then
      if |s| >= 2 && AllDigits(s[1..]) then
        var m: int := DigitsToNat(s[1..]);
        Some(if s[0] == '-' then -m else m)
      else None
    else if |s| >= 1 && AllDigits(s) then Some(DigitsToNat(s))
    else None
  }

  /** `str` and `int` are inverse: every integer's text parses back to it. */
  lemma IntToStringRoundTrip(i: int)
    ensures ParseInt(IntToString(i)) == Some(i)
  {
    var n: nat := if i < 0 then -i else i;
    NatToDigitsRoundTrip(n, NumDigits(n));
    if i < 0 {
      assert IntToString(i)[1..] == NatToString(n);
    }
  }

  /** Different integers render as different strings. */
  lemma IntToStringInjective(i: int, j: int)
    requires IntToString(i) == IntToString(j)
    ensures i == j
  {
    IntToStringRoundTrip(i);
    IntToStringRoundTrip(j);
  }

  /** The rendering of an integer never contains characters other than a sign and digits. */
  lemma IntToStringShape(i: int)
    ensures |IntToString(i)| >= 1
    ensures i >= 0 ==> AllDigits(IntToString(i))
    ensures i < 0 ==> IntToString(i)[0] == '-' && AllDigits(IntToString(i)[1..])
  {
    if i < 0 {
      assert IntToString(i)[1..] == NatToString(-i);
    }
  }
}
