/** Python string helpers used on user input. */
module Texts {
  import Calendar
  import Decimal

  /** `str.isspace` for one character. */
  predicate IsSpace(c: char) {
    var n := c as int;
    || 9 <= n <= 13 || 28 <= n <= 32 || n == 0x85 || n == 0xA0 || n == 0x1680
    || 0x2000 <= n <= 0x200A || n == 0x2028 || n == 0x2029 || n == 0x202F || n == 0x205F || n == 0x3000
  }

  /** `str.strip()`. */
  function Strip(s: string): (r: string)
    ensures r == "" <==> forall i :: 0 <= i < |s| ==> IsSpace(s[i])
    ensures r != "" ==> !IsSpace(r[0]) && !IsSpace(r[|r| - 1])
    decreases |s|
  {
    if s == "" then ""
    else if IsSpace(s[0]) then
      var r := Strip(s[1..]);
      assert forall i :: 1 <= i < |s| ==> s[i] == s[1..][i - 1];
      assert forall i :: 0 <= i < |s| - 1 ==> s[1..][i] == s[i + 1];
      r
    else if IsSpace(s[|s| - 1]) then
      var t := s[..|s| - 1];
      assert t[0] == s[0];
      Strip(t)
    else s
  }

  /** `kept` is s from i to j, and only white space was cut off. */
  ghost predicate TrimmedAt(s: string, kept: string, i: int, j: int) {
    && 0 <= i <= j <= |s| && kept == s[i..j]
    && (forall k :: 0 <= k < i ==> IsSpace(s[k]))
    && (forall k :: j <= k < |s| ==> IsSpace(s[k]))
  }

  ghost predicate Trimmed(s: string, kept: string) { exists i, j :: TrimmedAt(s, kept, i, j) }

  lemma CutInFront(s: string, kept: string, i: int, j: int)
    requires s != "" && IsSpace(s[0]) && TrimmedAt(s[1..], kept, i, j)
    ensures TrimmedAt(s, kept, i + 1, j + 1)
  {
    hide IsSpace;
    assert s[1..][i..j] == s[i + 1..j + 1];
    forall k | 0 <= k < i + 1 || j + 1 <= k < |s| ensures IsSpace(s[k]) {
      if k > 0 { assert s[k] == s[1..][k - 1]; }
    }
  }

  lemma CutBehind(s: string, kept: string, i: int, j: int)
    requires s != "" && IsSpace(s[|s| - 1]) && TrimmedAt(s[..|s| - 1], kept, i, j)
    ensures TrimmedAt(s, kept, i, j)
  {
    hide IsSpace;
    assert s[..|s| - 1][i..j] == s[i..j];
    forall k | 0 <= k < i || j <= k < |s| ensures IsSpace(s[k]) {
      if k < |s| - 1 { assert s[k] == s[..|s| - 1][k]; }
    }
  }

  lemma {:induction false} StripPosition(s: string) returns (i: int, j: int)
    ensures TrimmedAt(s, Strip(s), i, j)
    decreases |s|
  {
    hide IsSpace, TrimmedAt;
    if s == "" {
      i, j := 0, 0;
      Untrimmed(s);
    } else if IsSpace(s[0]) {
      i, j := StripPosition(s[1..]);
      CutInFront(s, Strip(s), i, j);
      i, j := i + 1, j + 1;
    } else if IsSpace(s[|s| - 1]) {
      i, j := StripPosition(s[..|s| - 1]);
      CutBehind(s, Strip(s), i, j);
    } else {
      i, j := 0, |s|;
      Untrimmed(s);
    }
  }

  lemma Untrimmed(s: string)
    ensures TrimmedAt(s, s, 0, |s|)
  {
  }

  /** Stripping cuts off white space at the ends and nothing else. */
  lemma StripTrims(s: string)
    ensures Trimmed(s, Strip(s))
  {
    var i, j := StripPosition(s);
  }

  predicate Blank(s: string) { Strip(s) == "" }

  /** `%d/%m/%Y`. */
  function DayMonthYear(d: Calendar.Date): string {
    Decimal.Padded(d.day, 2) + "/" + Decimal.Padded(d.month, 2) + "/" + Decimal.Padded(d.year, 4)
  }

  /** 0x-prefixed lowercase bytes32. */
  predicate IsBytes32(s: string) {
    |s| == 66 && s[..2] == "0x" && forall i :: 2 <= i < 66 ==> '0' <= s[i] <= '9' || 'a' <= s[i] <= 'f'
  }

  /** `separator.join(parts)`. */
  function Join(separator: string, parts: seq<string>): string {
    if parts == [] then ""
    else if |parts| == 1 then parts[0]
    else parts[0] + separator + Join(separator, parts[1..])
  }
}
