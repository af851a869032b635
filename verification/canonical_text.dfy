/**
 What the canonical bytes are: JSON text admits optional escapes and spaces between tokens, and an encoder that used one
 of them would hash the same content otherwise. The canonical text uses none, and no other text that reads alike does.
 */
module CanonicalText {
  import opened Wrappers
  import opened CanonicalValues
  import opened CanonicalJson
  import Decimal
  import Utf8

  // ---------------------------------------------------------------- tight text

  /** From outside a string literal: nothing between tokens, and no sign on zero. */
  predicate Tight(s: string)
    decreases |s|
  {
    s == "" ||
    if s[0] == '"' then TightString(s[1..])
    else s[0] != ' ' && s[0] != '\t' && s[0] != '\n' && s[0] != '\r' && !("-0" <= s) && Tight(s[1..])
  }

  /** From inside one: only what has to be escaped is, and in the shorter way. */
  predicate TightString(s: string)
    decreases |s|
  {
    s != "" &&
    if s[0] == '"' then Tight(s[1..])
    else if s[0] != '\\' then TightString(s[1..])
    else |s| >= 2 && if s[1] == 'u' then |s| >= 6 && NeedsCode(s[2..6]) && TightString(s[6..]) else s[1] != '/' && TightString(s[2..])
  }

  /** 0000 to 001f in lower case, without the five codes that have a letter of their own. */
  predicate NeedsCode(code: string)
    requires |code| == 4
  {
    && code[0] == '0' && code[1] == '0' && (code[2] == '0' || code[2] == '1')
    && ('0' <= code[3] <= '9' || 'a' <= code[3] <= 'f')
    && !(code[2] == '0' && code[3] in {'8', '9', 'a', 'c', 'd'})
  }

  /** Text without a quotation mark leaves a tight text tight. */
  lemma {:induction false} TightRest(s: string, k: nat)
    requires k <= |s| && Tight(s) && forall i :: 0 <= i < k ==> s[i] != '"'
    ensures Tight(s[k..])
    decreases k
  {
    if k == 0 {
      assert s[0..] == s;
    } else {
      TightRest(s[1..], k - 1);
      assert s[1..][k - 1..] == s[k..];
    }
  }

  lemma {:induction false} TightBefore(a: string, rest: string)
    requires Tight(rest) && (forall i :: 0 <= i < |a| ==> 'a' <= a[i] <= 'z' || '0' <= a[i] <= '9' || a[i] in {',', ':', '[', ']', '{', '}'})
    ensures Tight(a + rest)
  {
    if a == "" {
      assert a + rest == rest;
    } else {
      assert (a + rest)[1..] == a[1..] + rest;
      TightBefore(a[1..], rest);
    }
  }

  // ---------------------------------------------------------------- the printed text is tight

  lemma {:induction false} QuotedIsTight(t: string, rest: string)
    requires Tight(rest)
    ensures TightString(EscapeAll(t) + "\"" + rest)
  {
    if t == "" {
      assert EscapeAll(t) + "\"" + rest == "\"" + rest;
    } else {
      var tail := EscapeAll(t[1..]) + "\"" + rest;
      QuotedIsTight(t[1..], rest);
      assert EscapeAll(t) + "\"" + rest == Escape(t[0]) + tail;
      EscapedIsTight(t[0], tail);
    }
  }

  lemma EscapedIsTight(c: char, tail: string)
    requires TightString(tail)
    ensures TightString(Escape(c) + tail)
  {
    var e, s := Escape(c), Escape(c) + tail;
    assert s[|e|..] == tail;
    if |e| == 6 {
      assert s[2..6] == e[2..];
      assert e[2..][0] == '0' && e[2..][1] == '0' && e[2..][2] == HexDigit(c as int / 16) && e[2..][3] == HexDigit(c as int % 16);
    }
  }

  lemma StrIsTight(t: string, rest: string)
    requires Tight(rest)
    ensures Tight(Quote(t) + rest)
  {
    QuotedIsTight(t, rest);
    assert (Quote(t) + rest)[1..] == EscapeAll(t) + "\"" + rest;
  }

  lemma IntIsTight(n: int, rest: string)
    requires Tight(rest)
    ensures Tight(Decimal.IntText(n) + rest)
  {
    var digits := Decimal.NatText(if n < 0 then -n else n);
    TightBefore(digits, rest);
    if n < 0 {
      assert (("-" + digits) + rest)[1..] == digits + rest;
      assert ((("-" + digits) + rest)[..2])[1] == digits[0];
    }
  }

  lemma {:induction false} PrintIsTight(v: Value, rest: string)
    requires Printable(v) && Tight(rest)
    ensures Tight(Print(v) + rest)
    decreases v, 1
  {
    hide Tight, Quote, Decimal.IntText;
    match v {
      case Int(n) => IntIsTight(n, rest);
      case Str(t) => StrIsTight(t, rest);
      case List(items) =>
        TightBefore("]", rest);
        ItemsAreTight(items, "]" + rest);
        Enclosed("[", PrintItems(items), "]", rest);
      case Dict(ms) =>
        TightBefore("}", rest);
        MembersAreTight(ms, "}" + rest);
        Enclosed("{", PrintMembers(ms), "}", rest);
      case _ => KeywordIsTight(v, rest);
    }
  }

  lemma Enclosed(open: string, body: string, close: string, rest: string)
    requires Tight(body + (close + rest)) && (open == "[" || open == "{")
    ensures Tight(open + body + close + rest)
  {
    TightBefore(open, body + (close + rest));
    assert open + body + close + rest == open + (body + (close + rest));
  }

  lemma KeywordIsTight(v: Value, rest: string)
    requires (v.Null? || v.Bool?) && Tight(rest)
    ensures Tight(Print(v) + rest)
  {
    hide Tight;
    TightBefore(Print(v), rest);
  }

  lemma {:induction false} ItemsAreTight(items: seq<Value>, rest: string)
    requires (forall i :: 0 <= i < |items| ==> Printable(items[i])) && Tight(rest)
    ensures Tight(PrintItems(items) + rest)
    decreases items, 0
  {
    hide Tight, Print, PrintMember;
    if items == [] {
      assert PrintItems(items) + rest == rest;
    } else if |items| == 1 {
      PrintIsTight(items[0], rest);
    } else {
      var tail := PrintItems(items[1..]) + rest;
      ItemsAreTight(items[1..], rest);
      TightBefore(",", tail);
      PrintIsTight(items[0], "," + tail);
      assert PrintItems(items) + rest == Print(items[0]) + ("," + tail);
    }
  }

  lemma {:induction false} MembersAreTight(ms: seq<Member>, rest: string)
    requires (forall i :: 0 <= i < |ms| ==> ms[i].key.Str? && Printable(ms[i].value)) && Tight(rest)
    ensures Tight(PrintMembers(ms) + rest)
    decreases ms, 0
  {
    hide Tight, Print, PrintMember;
    if ms == [] {
      assert PrintMembers(ms) + rest == rest;
    } else if |ms| == 1 {
      MemberIsTight(ms[0], rest);
    } else {
      var tail := PrintMembers(ms[1..]) + rest;
      MembersAreTight(ms[1..], rest);
      TightBefore(",", tail);
      MemberIsTight(ms[0], "," + tail);
      assert PrintMembers(ms) + rest == PrintMember(ms[0]) + ("," + tail);
    }
  }

  lemma {:induction false} MemberIsTight(m: Member, rest: string)
    requires m.key.Str? && Printable(m.value) && Tight(rest)
    ensures Tight(PrintMember(m) + rest)
    decreases m, 2
  {
    hide Tight, Quote, Print;
    PrintIsTight(m.value, rest);
    TightBefore(":", Print(m.value) + rest);
    StrIsTight(m.key.s, ":" + (Print(m.value) + rest));
    assert PrintMember(m) + rest == Quote(m.key.s) + (":" + (Print(m.value) + rest));
  }

  // ---------------------------------------------------------------- tight text is the printed one

  /** The numeral of a digit string without a superfluous zero is that string. */
  lemma {:induction false} TextOfValue(ds: string)
    requires ds != "" && Decimal.AllDigits(ds) && (|ds| > 1 ==> ds[0] != '0')
    ensures Decimal.NatText(Decimal.NatValue(ds)) == ds
  {
    var n := |ds| - 1;
    var high, low := Decimal.NatValue(ds[..n]), Decimal.DigitValue(ds[n]);
    assert Decimal.DigitChar(low) == ds[n];
    assert ds == ds[..n] + [ds[n]];
    if n > 0 {
      TextOfValue(ds[..n]);
      assert high != 0;
      assert (10 * high + low) / 10 == high && (10 * high + low) % 10 == low;
    }
  }

  lemma NatIsPrinted(s: string)
    requires ReadNat(s).Some?
    ensures var (n, rest) := ReadNat(s).value; s == Decimal.NatText(n) + rest
  {
    var k := Decimal.DigitSpan(s);
    TextOfValue(s[..k]);
    assert s == s[..k] + s[k..];
  }

  lemma IntIsPrinted(s: string)
    requires ReadInt(s).Some? && Tight(s)
    ensures var (v, rest) := ReadInt(s).value; s == Print(v) + rest && Tight(rest)
  {
    NumberIsPrinted(s);
    IntRead(s);
    var (v, rest) := ReadInt(s).value;
    Unquoted(v.n);
    hide ReadInt, Tight, Decimal.IntText;
    assert forall i :: 0 <= i < |Print(v)| ==> s[i] == Print(v)[i];
    TightRest(s, |Print(v)|);
    assert s[|Print(v)|..] == rest;
  }

  lemma NumberIsPrinted(s: string)
    requires ReadInt(s).Some? && Tight(s)
    ensures var (v, rest) := ReadInt(s).value; s == Print(v) + rest
  {
    if s[0] == '-' {
      NatIsPrinted(s[1..]);
      NotNegativeZero(s);
      assert s == "-" + s[1..];
    } else {
      NatIsPrinted(s);
    }
    hide ReadNat, Tight, Decimal.NatText;
  }

  lemma NotNegativeZero(s: string)
    requires s != "" && s[0] == '-' && Tight(s) && ReadNat(s[1..]).Some?
    ensures ReadNat(s[1..]).value.0 != 0
  {
    NatIsPrinted(s[1..]);
    assert s[1] == Decimal.NatText(ReadNat(s[1..]).value.0)[0];
    assert s[..2] == [s[0], s[1]];
  }

  lemma Unquoted(n: int)
    ensures forall i :: 0 <= i < |Decimal.IntText(n)| ==> Decimal.IntText(n)[i] != '"'
  {
    hide Decimal.NatText;
  }

  lemma KeywordIsPrinted(s: string)
    requires ReadKeyword(s).Some? && Tight(s)
    ensures var (v, rest) := ReadKeyword(s).value; s == Print(v) + rest && Tight(rest)
  {
    var text, rest := KeywordAt(s);
    hide Tight, ReadKeyword, Print;
    TightRest(s, |text|);
    assert s[|text|..] == rest;
  }

  lemma KeywordAt(s: string) returns (text: string, rest: string)
    requires ReadKeyword(s).Some?
    ensures text == Print(ReadKeyword(s).value.0) && rest == ReadKeyword(s).value.1
    ensures s == text + rest && forall i :: 0 <= i < |text| ==> s[i] != '"'
  {
    text := if "null" <= s then "null" else if "true" <= s then "true" else "false";
    rest := ReadKeyword(s).value.1;
    assert s[..|text|] == text && s[|text|..] == rest;
    assert forall i :: 0 <= i < |text| ==> text[i] != '"';
  }

  lemma {:induction false} StringIsQuoted(s: string)
    requires ReadString(s).Some? && TightString(s)
    ensures var (t, rest) := ReadString(s).value; s == EscapeAll(t) + "\"" + rest && Tight(rest)
    decreases |s|
  {
    if s[0] == '"' {
      assert s == "\"" + s[1..];
      assert EscapeAll("") + "\"" + s[1..] == "\"" + s[1..];
    } else {
      var k := if s[0] != '\\' then 1 else if s[1] == 'u' then 6 else 2;
      var (t, rest) := ReadString(s).value;
      OneRead(s, k);
      hide ReadString, TightString, Tight, Escape;
      StringIsQuoted(s[k..]);
      assert s == s[..k] + s[k..];
      Prepended(t, rest);
    }
  }

  lemma Prepended(t: string, rest: string)
    requires t != ""
    ensures EscapeAll(t) + "\"" + rest == Escape(t[0]) + (EscapeAll(t[1..]) + "\"" + rest)
  {
    hide Escape;
  }

  /** The first character of a literal, and the rest of it. */
  lemma OneRead(s: string, k: nat)
    requires ReadString(s).Some? && TightString(s) && s[0] != '"'
    requires k == (if s[0] != '\\' then 1 else if s[1] == 'u' then 6 else 2)
    ensures 1 <= k <= |s| && ReadString(s[k..]).Some? && TightString(s[k..]) && ReadString(s).value.0 != ""
    ensures var (t, rest) := ReadString(s).value; ReadString(s[k..]).value == (t[1..], rest) && Escape(t[0]) == s[..k]
  {
    hide Tight, ReadHex4, Unescape, Escape;
    var (t, rest) := ReadString(s).value;
    var (u, end) := ReadString(s[k..]).value;
    assert t == [t[0]] + u;
    EscapeIsWritten(s, k, t[0]);
  }

  /** One character or escape, and the character it reads as. */
  lemma EscapeIsWritten(s: string, k: nat, c: char)
    requires s != "" && s[0] != '"' && TightString(s) && k == (if s[0] != '\\' then 1 else if s[1] == 'u' then 6 else 2)
    requires if k == 1 then s[0] >= 32 as char && c == s[0]
             else if k == 2 then Unescape(s[1]) == Some(c) else ReadHex4(s[2..]) == Some(c)
    ensures Escape(c) == s[..k]
  {
    hide Tight, Escape, NeedsCode, ReadHex4, Unescape;
    if k == 6 {
      CodeIsWritten(s, c);
    } else if k == 2 {
      LetterIsWritten(s, c);
    } else {
      PlainIsWritten(s[0]);
      assert s[..1] == [s[0]];
    }
  }

  lemma PlainIsWritten(c: char)
    requires c >= 32 as char && c != '"' && c != '\\'
    ensures Escape(c) == [c]
  {
  }

  lemma LetterIsWritten(s: string, c: char)
    requires |s| >= 2 && s[0] == '\\' && s[1] != 'u' && s[1] != '/' && Unescape(s[1]) == Some(c)
    ensures Escape(c) == s[..2]
  {
    assert s[..2] == "\\" + [s[1]];
  }

  lemma CodeIsWritten(s: string, c: char)
    requires |s| >= 6 && s[0] == '\\' && s[1] == 'u' && NeedsCode(s[2..6]) && ReadHex4(s[2..]) == Some(c)
    ensures Escape(c) == s[..6]
  {
    assert s[2..][0] == s[2..6][0] && s[2..][1] == s[2..6][1] && s[2..][2] == s[2..6][2] && s[2..][3] == s[2..6][3];
    HexWritten(s[4], s[5], c);
    hide Escape;
    assert s[..6] == "\\u00" + [s[4], s[5]];
  }

  lemma HexWritten(high: char, low: char, c: char)
    requires (high == '0' || high == '1') && ('0' <= low <= '9' || 'a' <= low <= 'f')
    requires !(high == '0' && low in {'8', '9', 'a', 'c', 'd'})
    requires c as int == 16 * HexValue(high).value + HexValue(low).value
    ensures Escape(c) == "\\u00" + [high, low]
  {
    assert HexDigit(c as int / 16) == high && HexDigit(c as int % 16) == low;
  }

  /** What closes or continues after a value. */
  lemma Opened(s: string)
    requires s != "" && s[0] in {'[', ']', '{', '}', ',', ':'} && Tight(s)
    ensures s == [s[0]] + s[1..] && Tight(s[1..])
  {
    assert s == [s[0]] + s[1..];
  }

  lemma OpenedString(s: string)
    requires s != "" && s[0] == '"' && Tight(s)
    ensures s == "\"" + s[1..] && TightString(s[1..])
  {
    assert s == [s[0]] + s[1..];
  }

  lemma EmptyPair(s: string)
    requires |s| > 1 && (s[..2] == "[]" || s[..2] == "{}") && Tight(s)
    ensures s == s[..2] + s[2..] && Tight(s[2..])
  {
    assert s[0] == s[..2][0] && s[1] == s[..2][1];
    Opened(s);
    Opened(s[1..]);
    assert s[1..][1..] == s[2..];
  }

  /** Whatever is read from tight text, the text is what would be printed. */
  lemma {:induction false} ReadIsPrinted(s: string)
    requires Read(s).Some? && Tight(s)
    ensures var (v, rest) := Read(s).value; Printable(v) && s == Print(v) + rest && Tight(rest)
    decreases |s|, 1
  {
    hide Tight, TightString, ReadString, ReadItems, ReadMembers, ReadInt, ReadKeyword, EscapeAll, PrintItems, PrintMembers, Decimal.IntText;
    if s[0] == '"' {
      OpenedString(s);
      StringIsQuoted(s[1..]);
      var (t, rest) := ReadString(s[1..]).value;
      assert s == Quote(t) + rest;
    } else if s[0] == '[' {
      if |s| > 1 && s[1] == ']' {
        assert s[..2] == "[]";
        EmptyPair(s);
        NothingPrinted();
      } else {
        Opened(s);
        ItemsArePrinted(s[1..]);
      }
    } else if s[0] == '{' {
      if |s| > 1 && s[1] == '}' {
        assert s[..2] == "{}";
        EmptyPair(s);
        NothingPrinted();
      } else {
        Opened(s);
        MembersArePrinted(s[1..]);
      }
    } else if s[0] == '-' || Decimal.IsDigit(s[0]) {
      IntIsPrinted(s);
      IntRead(s);
    } else {
      KeywordIsPrinted(s);
      KeywordRead(s);
    }
  }

  lemma NothingPrinted()
    ensures Print(List([])) == "[]" && Print(Dict([])) == "{}"
  {
  }

  lemma IntRead(s: string)
    requires ReadInt(s).Some?
    ensures ReadInt(s).value.0.Int?
  {
  }

  lemma KeywordRead(s: string)
    requires ReadKeyword(s).Some?
    ensures Printable(ReadKeyword(s).value.0)
  {
  }

  lemma {:induction false} ItemsArePrinted(s: string)
    requires ReadItems(s).Some? && Tight(s)
    ensures var (items, rest) := ReadItems(s).value;
            && items != [] && (forall i :: 0 <= i < |items| ==> Printable(items[i]))
            && s == PrintItems(items) + "]" + rest && Tight(rest)
    decreases |s|, 2
  {
    hide Tight, Read, Print, Printable;
    ReadIsPrinted(s);
    var (v, more) := Read(s).value;
    Opened(more);
    if more[0] == ',' {
      ItemsArePrinted(more[1..]);
      var (vs, end) := ReadItems(more[1..]).value;
      ItemsGrow(v, vs);
    } else {
      OneItem(v);
    }
  }

  lemma ItemsGrow(v: Value, vs: seq<Value>)
    requires vs != []
    ensures PrintItems([v] + vs) == Print(v) + "," + PrintItems(vs)
  {
    assert ([v] + vs)[1..] == vs;
  }

  lemma OneItem(v: Value)
    ensures PrintItems([v]) == Print(v)
  {
  }

  lemma {:induction false} MembersArePrinted(s: string)
    requires ReadMembers(s).Some? && Tight(s)
    ensures var (ms, rest) := ReadMembers(s).value;
            && ms != [] && (forall i :: 0 <= i < |ms| ==> ms[i].key.Str? && Printable(ms[i].value))
            && s == PrintMembers(ms) + "}" + rest && Tight(rest)
    decreases |s|, 3
  {
    hide Tight, ReadMember, PrintMember, Printable;
    MemberIsPrinted(s);
    var (m, more) := ReadMember(s).value;
    Opened(more);
    if more[0] == ',' {
      MembersArePrinted(more[1..]);
      var (ms, end) := ReadMembers(more[1..]).value;
      MembersGrow(m, ms);
    } else {
      OneMember(m);
    }
  }

  lemma MembersGrow(m: Member, ms: seq<Member>)
    requires ms != []
    ensures PrintMembers([m] + ms) == PrintMember(m) + "," + PrintMembers(ms)
  {
    assert ([m] + ms)[1..] == ms;
  }

  lemma OneMember(m: Member)
    ensures PrintMembers([m]) == PrintMember(m)
  {
  }

  lemma {:induction false} MemberIsPrinted(s: string)
    requires ReadMember(s).Some? && Tight(s)
    ensures var (m, rest) := ReadMember(s).value;
            m.key.Str? && Printable(m.value) && s == PrintMember(m) + rest && Tight(rest)
    decreases |s|, 2
  {
    hide Tight, Read, ReadKey, Quote, Print;
    var (key, rest) := ReadKey(s).value;
    KeyIsPrinted(s);
    ReadIsPrinted(rest);
  }

  lemma KeyIsPrinted(s: string)
    requires ReadKey(s).Some? && Tight(s)
    ensures var (key, rest) := ReadKey(s).value; s == Quote(key) + ":" + rest && Tight(rest)
  {
    hide Tight, TightString, ReadString, EscapeAll;
    OpenedString(s);
    StringIsQuoted(s[1..]);
    var (key, more) := ReadString(s[1..]).value;
    Opened(more);
    assert s == "\"" + (EscapeAll(key) + "\"" + more);
    assert s == Quote(key) + more;
  }

  // ---------------------------------------------------------------- the only text, the only bytes

  /** The printed text is the one tight text that reads as the value. */
  lemma OnlyText(v: Value, s: string)
    requires Printable(v)
    ensures s == Print(v) <==> Tight(s) && Parse(s) == Some(v)
  {
    ReadsPrinted(v, "");
    PrintIsTight(v, "");
    assert Print(v) + "" == Print(v);
    if Tight(s) && Parse(s) == Some(v) {
      ReadIsPrinted(s);
      assert s == Print(v) + "";
    }
  }

  /** Keys in code-point order at every depth. */
  ghost predicate KeysSorted(v: Value)
    decreases v
  {
    match v
    case List(items) => forall i :: 0 <= i < |items| ==> KeysSorted(items[i])
    case Dict(ms) => Sorted(ms) && forall i :: 0 <= i < |ms| ==> ms[i].key.Str? && KeysSorted(ms[i].value)
    case _ => true
  }

  lemma {:induction false} SortKeysSorts(v: Value)
    requires Plain(v)
    ensures KeysSorted(SortKeys(v))
    decreases v
  {
    match v {
      case List(items) => forall i | 0 <= i < |items| { SortKeysSorts(items[i]); }
      case Dict(members) =>
        forall i | 0 <= i < |members| { SortKeysSorts(members[i].value); }
        var vs := SortValues(members);
        var ms := SortMembers(vs);
        SortSorted(vs);
        forall i | 0 <= i < |ms| ensures ms[i].key.Str? && KeysSorted(ms[i].value) {
          assert ms[i] in vs;
          var j :| 0 <= j < |vs| && vs[j] == ms[i];
          assert vs[j] == SortMember(members[j]);
        }
      case _ =>
    }
  }

  lemma {:induction false} SortedIsSortKeys(v: Value)
    requires Plain(v) && KeysSorted(v)
    ensures SortKeys(v) == v
    decreases v
  {
    match v {
      case List(items) =>
        forall i | 0 <= i < |items| { SortedIsSortKeys(items[i]); }
        assert SortItems(items) == items;
      case Dict(members) =>
        forall i | 0 <= i < |members| ensures SortMember(members[i]) == members[i] { SortedIsSortKeys(members[i].value); }
        assert SortValues(members) == members;
        SortSorted(members);
        SortedUnique(SortMembers(members), members);
      case _ =>
    }
  }

  /**
   The canonical bytes of a payload are the one UTF-8 text that is tight and reads as a value with sorted keys and the content of
   the normalised payload.
   */
  lemma OnlyBytes(nfc: string -> string, p: Value, bs: seq<Utf8.byte>)
    requires NfcLaws(nfc) && CanonicalBytes(nfc, p).Ok?
    ensures CanonicalBytes(nfc, p) == Ok(bs) <==>
            exists text, v ::
              Utf8.Decode(bs) == Some(text) && Tight(text) && Parse(text) == Some(v)
              && Plain(v) && KeysSorted(v) && SameContent(Content(nfc, p), v)
  {
    var c := Content(nfc, p);
    NormalizeYieldsNormal(nfc, p);
    NormalIsPlain(nfc, c);
    SortKeysIdempotent(c);
    var w := SortKeys(c);
    PlainIsPrintable(w);
    SortKeysDecidesContent(c, w);
    if CanonicalBytes(nfc, p) == Ok(bs) {
      Utf8.DecodeEncode(Print(w));
      OnlyText(w, Print(w));
      SortKeysSorts(c);
      assert Utf8.Decode(bs) == Some(Print(w)) && Parse(Print(w)) == Some(w);
    }
    if text, v :| Utf8.Decode(bs) == Some(text) && Tight(text) && Parse(text) == Some(v)
                  && Plain(v) && KeysSorted(v) && SameContent(c, v) {
      SortKeysDecidesContent(c, v);
      SortedIsSortKeys(v);
      OnlyText(w, text);
      Utf8.EncodeDecode(bs);
    }
  }
}
