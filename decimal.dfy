/**
  Decimal digit strings: the number a string of digits denotes, and the
  rendering of a number as Python's `str(n)` writes it. The CIK padding, the
  filing-date parser and the fetch-failure message all rest on these.
 */
module Decimal {

  predicate IsDigits(s: string) {
    forall k :: 0 <= k < |s| ==> '0' <= s[k] <= '9'
  }

  function Zeros(n: nat): (z: string)
    ensures |z| == n && forall k :: 0 <= k < n ==> z[k] == '0'
  {
    if n == 0 then [] else ['0'] + Zeros(n - 1)
  }

  /** The number a decimal digit string denotes (leading zeros allowed). */
  function Value(s: string): nat
    requires IsDigits(s)
  {
    if |s| == 0 then 0 else 10 * Value(s[..|s| - 1]) + (s[|s| - 1] - '0') as nat
  }

  function DigitChar(d: nat): (c: char)
    requires d < 10
    ensures '0' <= c <= '9' && (c - '0') as nat == d
  {
    ('0' as int + d) as char
  }

  /** `str(n)` for a natural number: its decimal digits without leading zeros. */
  function Digits(n: nat): (s: string)
    ensures IsDigits(s) && Value(s) == n
    ensures |s| >= 1 && (|s| == 1 || s[0] != '0')
  {
    if n < 10 then [DigitChar(n)]
    else
      var s := Digits(n / 10) + [DigitChar(n % 10)];
      assert s[..|s| - 1] == Digits(n / 10);
      s
  }

  /** `str(i)` for any integer. */
  function IntToString(i: int): string {
    if i < 0 then "-" + Digits(-i) else Digits(i)
  }

  function Pow10(k: nat): (p: nat)
    ensures p >= 1
  {
    if k == 0 then 1 else 10 * Pow10(k - 1)
  }

  /** A number below 10^k takes at most k digits. */
  lemma {:induction false} DigitsLength(n: nat, k: nat)
    requires 1 <= k && n < Pow10(k)
    ensures |Digits(n)| <= k
  {
    if n >= 10 {
      assert Pow10(1) == 10;
      assert k >= 2;
      assert n / 10 < Pow10(k - 1);
      DigitsLength(n / 10, k - 1);
    }
  }

  /** `n` written with at least `width` digits, zero-filled on the left. */
  function PadDigits(n: nat, width: nat): (s: string)
    ensures |s| >= width && IsDigits(s) && Value(s) == n
    ensures |Digits(n)| <= width ==> |s| == width
  {
    var d := Digits(n);
    if |d| >= width then d
    else
      ZerosValue(width - |d|, d);
      Zeros(width - |d|) + d
  }

  lemma {:induction false} LeadingZeroValue(t: string)
    requires IsDigits(t)
    ensures IsDigits(['0'] + t) && Value(['0'] + t) == Value(t)
  {
    var u := ['0'] + t;
    if |t| > 0 {
      assert u[..|u| - 1] == ['0'] + t[..|t| - 1];
      LeadingZeroValue(t[..|t| - 1]);
    }
  }

  /** Leading zeros do not change the number a digit string denotes. */
  lemma {:induction false} ZerosValue(n: nat, s: string)
    requires IsDigits(s)
    ensures IsDigits(Zeros(n) + s) && Value(Zeros(n) + s) == Value(s)
  {
    if n > 0 {
      ZerosValue(n - 1, s);
      var t := Zeros(n - 1) + s;
      assert Zeros(n) == ['0'] + Zeros(n - 1);
      assert Zeros(n) + s == ['0'] + t;
      LeadingZeroValue(t);
    } else {
      assert Zeros(n) + s == s;
    }
  }

  /** A string of k digits denotes a number below 10^k. */
  lemma {:induction false} ValueBound(s: string)
    requires IsDigits(s)
    ensures Value(s) < Pow10(|s|)
  {
    if |s| > 0 {
      ValueBound(s[..|s| - 1]);
    }
  }

  /** Two digit strings of the same length that denote the same number are equal. */
  lemma {:induction false} ValueInjective(a: string, b: string)
    requires IsDigits(a) && IsDigits(b) && |a| == |b| && Value(a) == Value(b)
    ensures a == b
  {
    if |a| > 0 {
      var n := |a| - 1;
      ValueInjective(a[..n], b[..n]);
      assert a == a[..n] + [a[n]] && b == b[..n] + [b[n]];
    }
  }

  /** Zero-filling the number a non-empty digit string denotes to its length gives the string back. */
  lemma PadDigitsOfValue(s: string)
    requires IsDigits(s) && |s| >= 1
    ensures PadDigits(Value(s), |s|) == s
  {
    ValueBound(s);
    DigitsLength(Value(s), |s|);
    ValueInjective(PadDigits(Value(s), |s|), s);
  }
}
