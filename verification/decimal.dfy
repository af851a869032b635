/** Decimal numerals: printing, fixed-width printing and reading back. */
module Decimal {

  function DigitChar(d: nat): (c: char)
    requires d < 10
    ensures IsDigit(c) && DigitValue(c) == d
  {
    (48 + d) as char
  }

  predicate IsDigit(c: char) { '0' <= c <= '9' }

  function DigitValue(c: char): (d: nat)
    requires IsDigit(c)
    ensures d < 10
  {
    (c as int) - 48
  }

  predicate AllDigits(s: string) { forall i :: 0 <= i < |s| ==> IsDigit(s[i]) }

  /** Shortest decimal numeral of n. */
  function NatText(n: nat): (s: string)
    ensures |s| >= 1 && AllDigits(s)
    ensures s[0] == '0' <==> n == 0
    ensures n == 0 ==> s == "0"
  {
    if n < 10 then [DigitChar(n)] else NatText(n / 10) + [DigitChar(n % 10)]
  }

  /** Python's `str(int)`. */
  function IntText(n: int): string {
    if n < 0 then "-" + NatText(-n) else NatText(n)
  }

  /** Horner value of a digit string. */
  function NatValue(s: string): nat
    requires AllDigits(s)
  {
    if s == "" then 0 else 10 * NatValue(s[..|s| - 1]) + DigitValue(s[|s| - 1])
  }

  lemma {:induction false} NatValueOfText(n: nat)
    ensures NatValue(NatText(n)) == n
  {
    if n < 10 {
      assert NatText(n)[..0] == "";
    } else {
      NatValueOfText(n / 10);
      var s := NatText(n);
      assert s[..|s| - 1] == NatText(n / 10);
    }
  }

  lemma IntTextInjective(a: int, b: int)
    requires IntText(a) == IntText(b)
    ensures a == b
  {
    NatValueOfText(if a < 0 then -a else a);
    NatValueOfText(if b < 0 then -b else b);
    if a < 0 {
      assert IntText(a)[1..] == NatText(-a);
      assert IntText(a)[0] == '-';
      assert IntText(b)[0] == '-';
      assert b < 0;
      assert IntText(b)[1..] == NatText(-b);
    } else {
      assert IntText(a)[0] != '-';
      assert b >= 0;
    }
  }

  /** Length of the longest digit prefix. */
  function DigitSpan(s: string): (n: nat)
    ensures n <= |s| && AllDigits(s[..n])
    ensures n < |s| ==> !IsDigit(s[n])
  {
    if s == "" || !IsDigit(s[0]) then 0
    else
      var m := DigitSpan(s[1..]);
      assert forall i :: 1 <= i < 1 + m ==> s[i] == s[1..][..m][i - 1];
      1 + m
  }

  lemma {:induction false} DigitSpanOfPrefix(ds: string, rest: string)
    requires AllDigits(ds)
    requires rest == "" || !IsDigit(rest[0])
    ensures DigitSpan(ds + rest) == |ds|
  {
    if ds == "" {
      assert ds + rest == rest;
    } else {
      DigitSpanOfPrefix(ds[1..], rest);
      assert (ds + rest)[1..] == ds[1..] + rest;
    }
  }

  /** n written with exactly `width` digits, high digits dropped when it does not fit. */
  function Padded(n: nat, width: nat): (s: string)
    ensures |s| == width && AllDigits(s)
  {
    if width == 0 then "" else Padded(n / 10, width - 1) + [DigitChar(n % 10)]
  }

  function Pow10(k: nat): (p: nat)
    ensures p >= 1
  {
    if k == 0 then 1 else 10 * Pow10(k - 1)
  }

  /** Fixed-width numerals determine the number when it fits the width. */
  lemma {:induction false} PaddedInjective(a: nat, b: nat, width: nat)
    requires a < Pow10(width) && b < Pow10(width)
    requires Padded(a, width) == Padded(b, width)
    ensures a == b
  {
    if width > 0 {
      var sa, sb := Padded(a, width), Padded(b, width);
      assert sa[..width - 1] == Padded(a / 10, width - 1);
      assert sb[..width - 1] == Padded(b / 10, width - 1);
      assert sa[width - 1] == DigitChar(a % 10) && sb[width - 1] == DigitChar(b % 10);
      PaddedInjective(a / 10, b / 10, width - 1);
    }
  }

  /** A number that fits the width is read back. */
  lemma {:induction false} ValueOfPadded(n: nat, width: nat)
    requires n < Pow10(width)
    ensures NatValue(Padded(n, width)) == n
  {
    if width > 0 {
      var s := Padded(n, width);
      ValueOfPadded(n / 10, width - 1);
      assert s[..width - 1] == Padded(n / 10, width - 1);
    }
  }
}
