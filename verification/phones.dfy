/** Vietnamese phone numbers in canonical local form. */
module Phones {
  import opened Wrappers
  import Texts

  /** What the regular expression class for digits matches: ASCII digits at least, and no separator or sign. */
  ghost predicate DigitLaws(digit: char -> bool) {
    && (forall c :: '0' <= c <= '9' ==> digit(c))
    && (forall c :: Separator(c) || c == '+' ==> !digit(c))
  }

  predicate Separator(c: char) { Texts.IsSpace(c) || c == '.' || c == '-' || c == '(' || c == ')' }

  function WithoutSeparators(s: string): (r: string)
    ensures |r| <= |s| && forall i :: 0 <= i < |r| ==> !Separator(r[i])
  {
    if s == "" then ""
    else
      var n := |s| - 1;
      WithoutSeparators(s[..n]) + (if Separator(s[n]) then "" else [s[n]])
  }

  /** 0 and nine or ten digits. */
  predicate Canonical(digit: char -> bool, s: string) {
    10 <= |s| <= 11 && s[0] == '0' && forall i :: 1 <= i < |s| ==> digit(s[i])
  }

  function LocalForm(value: string): string {
    if "+84" <= value then "0" + value[3..]
    else if "84" <= value && |value| >= 11 then "0" + value[2..]
    else value
  }

  function Normalize(digit: char -> bool, raw: string): (r: Option<string>)
    ensures r.Some? ==> Canonical(digit, r.value)
  {
    var value := LocalForm(WithoutSeparators(raw));
    if Canonical(digit, value) then Some(value) else None
  }

  /** The international form a registration stores. */
  function International(phone: string): string
    requires phone != ""
  {
    "+84" + phone[1..]
  }

  lemma {:induction false} NothingToStrip(s: string)
    requires forall i :: 0 <= i < |s| ==> !Separator(s[i])
    ensures WithoutSeparators(s) == s
  {
    if s != "" {
      NothingToStrip(s[..|s| - 1]);
      assert s == s[..|s| - 1] + [s[|s| - 1]];
    }
  }

  lemma CanonicalHasNoSeparator(digit: char -> bool, p: string)
    requires DigitLaws(digit) && Canonical(digit, p)
    ensures forall i :: 0 <= i < |p| ==> !Separator(p[i])
  {
  }

  lemma LocalForms(p: string)
    requires |p| >= 10 && p[0] == '0'
    ensures LocalForm("+84" + p[1..]) == p && LocalForm("84" + p[1..]) == p && LocalForm(p) == p
  {
    assert "0" + p[1..] == p;
    assert ("+84" + p[1..])[3..] == p[1..];
    assert ("84" + p[1..])[2..] == p[1..] && ("84" + p[1..])[0] == '8';
  }

  lemma PrefixedHasNoSeparator(digit: char -> bool, prefix: string, p: string)
    requires DigitLaws(digit) && Canonical(digit, p)
    requires forall i :: 0 <= i < |prefix| ==> !Separator(prefix[i])
    ensures WithoutSeparators(prefix + p[1..]) == prefix + p[1..]
  {
    CanonicalHasNoSeparator(digit, p);
    hide Separator, DigitLaws, WithoutSeparators, Canonical;
    var s := prefix + p[1..];
    forall i | 0 <= i < |s| ensures !Separator(s[i]) { assert i >= |prefix| ==> s[i] == p[i - |prefix| + 1]; }
    NothingToStrip(s);
  }

  /** Normalising the international form, with or without its plus, gives the canonical number back. */
  lemma InternationalRoundTrip(digit: char -> bool, p: string)
    requires DigitLaws(digit) && Canonical(digit, p)
    ensures Normalize(digit, International(p)) == Some(p)
    ensures Normalize(digit, "84" + p[1..]) == Some(p)
    ensures Normalize(digit, p) == Some(p)
  {
    hide WithoutSeparators, LocalForm;
    PrefixedHasNoSeparator(digit, "+84", p);
    PrefixedHasNoSeparator(digit, "84", p);
    PrefixedHasNoSeparator(digit, "0", p);
    LocalForms(p);
    assert "0" + p[1..] == p;
  }

  /** Normalising is idempotent on whatever it accepts. */
  lemma NormalizeTwice(digit: char -> bool, raw: string)
    requires DigitLaws(digit) && Normalize(digit, raw).Some?
    ensures Normalize(digit, Normalize(digit, raw).value) == Normalize(digit, raw)
  {
    InternationalRoundTrip(digit, Normalize(digit, raw).value);
  }

  lemma {:induction false} StripsApart(a: string, b: string)
    ensures WithoutSeparators(a + b) == WithoutSeparators(a) + WithoutSeparators(b)
  {
    if b == "" {
      assert a + b == a;
    } else {
      var n := |b| - 1;
      StripsApart(a, b[..n]);
      assert (a + b)[..|a + b| - 1] == a + b[..n];
    }
  }

  /** White space, full stops, hyphens and parentheses do not matter, wherever they stand. */
  lemma SeparatorsIgnored(digit: char -> bool, a: string, c: char, b: string)
    requires Texts.IsSpace(c) || c in ['.', '-', '(', ')']
    ensures Normalize(digit, a + [c] + b) == Normalize(digit, a + b)
  {
    StripsApart(a + [c], b);
    StripsApart(a, [c]);
    StripsApart(a, b);
    assert [c][..0] == "";
    assert WithoutSeparators(a) + "" == WithoutSeparators(a);
    assert WithoutSeparators(a + [c] + b) == WithoutSeparators(a + b);
    hide WithoutSeparators;
  }

  lemma ThreeForms(raw: string, p: string)
    requires |p| >= 10 && p[0] == '0'
    ensures LocalForm(raw) == p <==> raw == p || raw == "+84" + p[1..] || raw == "84" + p[1..]
  {
    LocalForms(p);
    if LocalForm(raw) == p {
      if "+84" <= raw {
        assert raw == "+84" + raw[3..] && p[1..] == raw[3..];
      } else if "84" <= raw && |raw| >= 11 {
        assert raw == "84" + raw[2..] && p[1..] == raw[2..];
      }
    }
  }

  /** Without separators, a number is accepted exactly in its three spellings: local, international, and that without its plus. */
  lemma NormalizesExactly(digit: char -> bool, raw: string, p: string)
    requires DigitLaws(digit) && forall i :: 0 <= i < |raw| ==> !Texts.IsSpace(raw[i]) && raw[i] !in ['.', '-', '(', ')']
    ensures Normalize(digit, raw) == Some(p)
       <==> (&& 10 <= |p| <= 11 && p[0] == '0' && (forall i :: 1 <= i < |p| ==> digit(p[i]))
             && (raw == p || raw == "+84" + p[1..] || raw == "84" + p[1..]))
  {
    hide LocalForm, WithoutSeparators, Texts.IsSpace, DigitLaws;
    NothingToStrip(raw);
    if |p| >= 10 && p[0] == '0' { ThreeForms(raw, p); }
  }
}
