/**
 Canonical JSON: compact text with sorted keys, its reader, and the laws that
 make the hash of that text a fingerprint of the payload's content.
 */
module CanonicalJson {
  import opened Wrappers
  import opened CanonicalValues
  import Decimal
  import Utf8

  // ---------------------------------------------------------------- key order

  /** Code-point order of Python strings. */
  predicate LexLess(a: string, b: string) {
    b != "" && (a == "" || a[0] < b[0] || (a[0] == b[0] && LexLess(a[1..], b[1..])))
  }

  lemma {:induction false} LexTotal(a: string, b: string)
    ensures LexLess(a, b) || a == b || LexLess(b, a)
  {
    if a != "" && b != "" && a[0] == b[0] {
      LexTotal(a[1..], b[1..]);
      assert a == [a[0]] + a[1..] && b == [b[0]] + b[1..];
    }
  }

  lemma {:induction false} LexTransitive(a: string, b: string, c: string)
    requires LexLess(a, b) && LexLess(b, c)
    ensures LexLess(a, c)
  {
    if a != "" && a[0] == b[0] && b[0] == c[0] {
      LexTransitive(a[1..], b[1..], c[1..]);
    }
  }

  lemma {:induction false} LexIrreflexive(a: string)
    ensures !LexLess(a, a)
  {
    if a != "" { LexIrreflexive(a[1..]); }
  }

  function KeyText(m: Member): string { if m.key.Str? then m.key.s else "" }

  function Insert(m: Member, ms: seq<Member>): (r: seq<Member>)
    ensures |r| == |ms| + 1
    ensures forall x :: x in r <==> x == m || x in ms
  {
    if ms == [] || LexLess(KeyText(m), KeyText(ms[0])) then [m] + ms
    else
      assert ms == [ms[0]] + ms[1..];
      [ms[0]] + Insert(m, ms[1..])
  }

  function SortMembers(ms: seq<Member>): (r: seq<Member>)
    ensures |r| == |ms|
    ensures forall x :: x in r <==> x in ms
  {
    if ms == [] then []
    else
      assert ms == [ms[0]] + ms[1..];
      Insert(ms[0], SortMembers(ms[1..]))
  }

  ghost predicate Sorted(ms: seq<Member>) {
    forall i, j :: 0 <= i < j < |ms| ==> LexLess(KeyText(ms[i]), KeyText(ms[j]))
  }

  ghost predicate StringKeys(ms: seq<Member>) {
    forall i :: 0 <= i < |ms| ==> ms[i].key.Str?
  }

  lemma {:induction false} InsertSorted(m: Member, ms: seq<Member>)
    requires Sorted(ms)
    requires forall x :: x in ms ==> KeyText(x) != KeyText(m)
    ensures Sorted(Insert(m, ms))
  {
    if ms == [] {
    } else if LexLess(KeyText(m), KeyText(ms[0])) {
      forall j | 0 <= j < |ms| ensures LexLess(KeyText(m), KeyText(ms[j])) {
        if j > 0 { LexTransitive(KeyText(m), KeyText(ms[0]), KeyText(ms[j])); }
      }
    } else {
      LexTotal(KeyText(m), KeyText(ms[0]));
      assert ms[0] in ms;
      InsertSorted(m, ms[1..]);
      var rest := Insert(m, ms[1..]);
      forall j | 0 <= j < |rest| ensures LexLess(KeyText(ms[0]), KeyText(rest[j])) {
        assert rest[j] in rest;
        if rest[j] != m {
          var k :| 0 <= k < |ms[1..]| && ms[1..][k] == rest[j];
          assert ms[k + 1] == rest[j];
        }
      }
    }
  }

  lemma {:induction false} SortSorted(ms: seq<Member>)
    requires StringKeys(ms) && DistinctKeys(ms)
    ensures Sorted(SortMembers(ms))
  {
    if ms != [] {
      SortSorted(ms[1..]);
      InsertSorted(ms[0], SortMembers(ms[1..]));
    }
  }

  /** A strictly sorted sequence is determined by its elements. */
  lemma {:induction false} SortedUnique(a: seq<Member>, b: seq<Member>)
    requires Sorted(a) && Sorted(b)
    requires forall x :: x in a <==> x in b
    ensures a == b
  {
    assert a != [] ==> a[0] in a;
    assert b != [] ==> b[0] in b;
    if a != [] {
      HeadIsLeast(a, b[0]);
      HeadIsLeast(b, a[0]);
      if a[0] != b[0] {
        LexTransitive(KeyText(a[0]), KeyText(b[0]), KeyText(a[0]));
        LexIrreflexive(KeyText(a[0]));
        assert false;
      }
      forall x ensures x in a[1..] <==> x in b[1..] {
        TailElements(a, x);
        TailElements(b, x);
      }
      SortedUnique(a[1..], b[1..]);
      assert a == [a[0]] + a[1..] && b == [b[0]] + b[1..];
    }
  }

  lemma HeadIsLeast(a: seq<Member>, x: Member)
    requires Sorted(a) && a != [] && (x in a || x == a[0])
    ensures x == a[0] || LexLess(KeyText(a[0]), KeyText(x))
  {
  }

  lemma TailElements(a: seq<Member>, x: Member)
    requires Sorted(a) && a != []
    ensures x in a[1..] <==> x in a && x != a[0]
  {
    LexIrreflexive(KeyText(a[0]));
    if x in a && x != a[0] {
      var i :| 0 <= i < |a| && a[i] == x;
      assert a[1..][i - 1] == x;
    }
    if x in a[1..] {
      var i :| 0 <= i < |a[1..]| && a[1..][i] == x;
      assert a[i + 1] == x;
    }
  }

  /** `sort_keys=True`: every dict at every depth in key order. */
  function SortKeys(v: Value): Value
    decreases v, 1
  {
    match v
    case List(items) => List(SortItems(items))
    case Dict(members) => Dict(SortMembers(SortValues(members)))
    case _ => v
  }

  function SortItems(items: seq<Value>): (r: seq<Value>)
    ensures |r| == |items|
    ensures forall i :: 0 <= i < |items| ==> r[i] == SortKeys(items[i])
    decreases items, 0
  {
    if items == [] then [] else [SortKeys(items[0])] + SortItems(items[1..])
  }

  function SortValues(ms: seq<Member>): (r: seq<Member>)
    ensures |r| == |ms|
    ensures forall i :: 0 <= i < |ms| ==> r[i] == SortMember(ms[i])
    decreases ms, 0
  {
    if ms == [] then [] else [SortMember(ms[0])] + SortValues(ms[1..])
  }

  function SortMember(m: Member): Member
    decreases m, 2
  {
    Member(m.key, SortKeys(m.value))
  }

  /** Same content: equal as Python values, dict order aside. */
  ghost predicate SameContent(v: Value, w: Value)
    decreases v
  {
    match v
    case List(items) =>
      w.List? && |w.items| == |items| && forall i :: 0 <= i < |items| ==> SameContent(items[i], w.items[i])
    case Dict(members) =>
      && w.Dict? && |w.members| == |members|
      && forall i :: 0 <= i < |members| ==>
           exists j :: 0 <= j < |w.members| && w.members[j].key == members[i].key
                       && SameContent(members[i].value, w.members[j].value)
    case _ => v == w
  }

  /** Sorting keys picks one representative per content. */
  lemma {:induction false} SortKeysDecidesContent(v: Value, w: Value)
    requires Plain(v) && Plain(w)
    ensures SortKeys(v) == SortKeys(w) <==> SameContent(v, w)
    decreases v
  {
    match v {
      case List(items) =>
        if w.List? && |w.items| == |items| {
          forall i | 0 <= i < |items| { SortKeysDecidesContent(items[i], w.items[i]); }
          SortedItemsEqual(items, w.items);
        }
      case Dict(members) =>
        if w.Dict? && |w.members| == |members| {
          forall i, j | 0 <= i < |members| && 0 <= j < |w.members|
            ensures SortMember(members[i]) == SortMember(w.members[j])
               <==> members[i].key == w.members[j].key && SameContent(members[i].value, w.members[j].value)
          {
            SortKeysDecidesContent(members[i].value, w.members[j].value);
          }
          SortedMembersEqual(members, w.members);
        }
      case _ =>
    }
  }

  lemma SortedItemsEqual(a: seq<Value>, b: seq<Value>)
    requires |a| == |b|
    ensures SortItems(a) == SortItems(b) <==> forall i :: 0 <= i < |a| ==> SortKeys(a[i]) == SortKeys(b[i])
  {
    if SortItems(a) == SortItems(b) {
      assert forall i :: 0 <= i < |a| ==> SortItems(a)[i] == SortItems(b)[i];
    }
  }

  lemma SortedMembersEqual(a: seq<Member>, b: seq<Member>)
    requires StringKeys(a) && DistinctKeys(a) && StringKeys(b) && DistinctKeys(b)
    requires |a| == |b|
    ensures SortMembers(SortValues(a)) == SortMembers(SortValues(b)) <==> Covered(a, b)
  {
    if SortMembers(SortValues(a)) == SortMembers(SortValues(b)) { EqualSortsShareContent(a, b); }
    if Covered(a, b) { SharedContentSortsEqual(a, b); }
  }

  /** Every member of `a` has a member of `b` with the same key and the same sorted value. */
  ghost predicate Covered(a: seq<Member>, b: seq<Member>) {
    forall i :: 0 <= i < |a| ==> exists j :: 0 <= j < |b| && SortMember(b[j]) == SortMember(a[i])
  }

  lemma EqualSortsShareContent(a: seq<Member>, b: seq<Member>)
    requires SortMembers(SortValues(a)) == SortMembers(SortValues(b))
    ensures Covered(a, b)
  {
    forall i | 0 <= i < |a| ensures exists j :: 0 <= j < |b| && SortMember(b[j]) == SortMember(a[i]) {
      assert SortValues(a)[i] in SortMembers(SortValues(a));
      assert SortValues(a)[i] in SortValues(b);
      var j :| 0 <= j < |SortValues(b)| && SortValues(b)[j] == SortValues(a)[i];
    }
  }

  lemma SharedContentSortsEqual(a: seq<Member>, b: seq<Member>)
    requires StringKeys(a) && DistinctKeys(a) && StringKeys(b) && DistinctKeys(b)
    requires |a| == |b| && Covered(a, b)
    ensures SortMembers(SortValues(a)) == SortMembers(SortValues(b))
  {
    var sa, sb := SortValues(a), SortValues(b);
    SortSorted(sa);
    SortSorted(sb);
    assert forall x :: x in sa ==> x in sb by {
      forall x | x in sa ensures x in sb {
        var i :| 0 <= i < |sa| && sa[i] == x;
        assert x == SortMember(a[i]);
        var j :| 0 <= j < |b| && SortMember(b[j]) == SortMember(a[i]);
        assert sb[j] == x;
      }
    }
    SubsetOfEqualSize(sa, sb);
    SortedUnique(SortMembers(sa), SortMembers(sb));
  }

  /** Pigeonhole: distinct elements of `a` inside an equally long `b` exhaust it. */
  lemma SubsetOfEqualSize(a: seq<Member>, b: seq<Member>)
    requires DistinctKeys(a) && DistinctKeys(b) && |a| == |b|
    requires forall x :: x in a ==> x in b
    ensures forall x :: x in b ==> x in a
  {
    var sa, sb := set x | x in a, set x | x in b;
    DistinctSize(a);
    DistinctSize(b);
    assert sa <= sb;
    SubsetEqual(sa, sb);
    assert forall x :: x in b ==> x in sb;
  }

  lemma SubsetEqual<T>(a: set<T>, b: set<T>)
    requires a <= b && |a| == |b|
    ensures a == b
  {
    assert |b - a| == |b| - |a|;
  }

  lemma {:induction false} DistinctSize(a: seq<Member>)
    requires DistinctKeys(a)
    ensures |set x | x in a| == |a|
  {
    if a != [] {
      DistinctSize(a[1..]);
      var s, t := set x | x in a, set x | x in a[1..];
      assert a[0] !in t;
      assert s == t + {a[0]} by {
        assert a == [a[0]] + a[1..];
      }
    }
  }

  lemma {:induction false} SortKeysIdempotent(v: Value)
    requires Plain(v)
    ensures Plain(SortKeys(v)) && SortKeys(SortKeys(v)) == SortKeys(v)
    decreases v
  {
    match v {
      case List(items) =>
        forall i | 0 <= i < |items| { SortKeysIdempotent(items[i]); }
        assert SortItems(SortItems(items)) == SortItems(items);
      case Dict(members) =>
        forall i | 0 <= i < |members| { SortKeysIdempotent(members[i].value); }
        var vs := SortValues(members);
        var ms := SortMembers(vs);
        SortSorted(vs);
        SortedIsDistinct(ms);
        forall i | 0 <= i < |ms| ensures ms[i].key.Str? && Plain(ms[i].value) && SortMember(ms[i]) == ms[i] {
          assert ms[i] in vs;
          var j :| 0 <= j < |vs| && vs[j] == ms[i];
          assert vs[j] == SortMember(members[j]);
        }
        assert SortValues(ms) == ms;
        SortSorted(ms);
        SortedUnique(SortMembers(ms), ms);
      case _ =>
    }
  }

  lemma SortedIsDistinct(ms: seq<Member>)
    requires Sorted(ms)
    ensures DistinctKeys(ms)
  {
    forall i, j | 0 <= i < j < |ms| ensures ms[i].key != ms[j].key {
      LexIrreflexive(KeyText(ms[i]));
    }
  }

  /** Sorting leaves the normal form alone. */
  lemma {:induction false} SortKeysKeepsNormal(nfc: string -> string, v: Value)
    requires Normal(nfc, v)
    ensures Normal(nfc, SortKeys(v))
    decreases v
  {
    match v {
      case List(items) =>
        forall i | 0 <= i < |items| { SortKeysKeepsNormal(nfc, items[i]); }
      case Dict(members) =>
        forall i | 0 <= i < |members| { SortKeysKeepsNormal(nfc, members[i].value); }
        var vs := SortValues(members);
        var ms := SortMembers(vs);
        SortSorted(vs);
        SortedIsDistinct(ms);
        forall i | 0 <= i < |ms|
          ensures ms[i].key.Str? && nfc(ms[i].key.s) == ms[i].key.s && Normal(nfc, ms[i].value)
        {
          assert ms[i] in vs;
          var j :| 0 <= j < |vs| && vs[j] == ms[i];
          assert vs[j] == SortMember(members[j]);
        }
      case _ =>
    }
  }

  // ---------------------------------------------------------------- printing

  /** A character inside a string literal, section 7 of RFC 8259 without ASCII escaping. */
  function Escape(c: char): string {
    if c == '"' then "\\\""
    else if c == '\\' then "\\\\"
    else if c == '\n' then "\\n"
    else if c == '\r' then "\\r"
    else if c == '\t' then "\\t"
    else if c == 8 as char then "\\b"
    else if c == 12 as char then "\\f"
    else if c < 32 as char then "\\u00" + [HexDigit(c as int / 16), HexDigit(c as int % 16)]
    else [c]
  }

  function HexDigit(d: nat): (c: char)
    requires d < 16
    ensures HexValue(c) == Some(d)
  {
    if d < 10 then (48 + d) as char else (87 + d) as char
  }

  function HexValue(c: char): Option<nat> {
    if '0' <= c <= '9' then Some(c as int - 48)
    else if 'a' <= c <= 'f' then Some(c as int - 87)
    else if 'A' <= c <= 'F' then Some(c as int - 55)
    else None
  }

  function EscapeAll(s: string): string {
    if s == "" then "" else Escape(s[0]) + EscapeAll(s[1..])
  }

  function Quote(s: string): string { "\"" + EscapeAll(s) + "\"" }

  /** Compact text of a value whose dicts are already in the wanted order. */
  function Print(v: Value): string
    decreases v, 1
  {
    match v
    case Null => "null"
    case Bool(b) => if b then "true" else "false"
    case Int(n) => Decimal.IntText(n)
    case Str(s) => Quote(s)
    case List(items) => "[" + PrintItems(items) + "]"
    case Dict(members) => "{" + PrintMembers(members) + "}"
    case Opaque(_) => ""
  }

  function PrintItems(items: seq<Value>): string
    decreases items, 0
  {
    if items == [] then ""
    else if |items| == 1 then Print(items[0])
    else Print(items[0]) + "," + PrintItems(items[1..])
  }

  function PrintMembers(ms: seq<Member>): string
    decreases ms, 0
  {
    if ms == [] then ""
    else if |ms| == 1 then PrintMember(ms[0])
    else PrintMember(ms[0]) + "," + PrintMembers(ms[1..])
  }

  function PrintMember(m: Member): string
    decreases m, 2
  {
    Quote(KeyText(m)) + ":" + Print(m.value)
  }

  // ---------------------------------------------------------------- reading

  /** The rest of a string literal after its opening quote. */
  function ReadString(s: string): (r: Option<(string, string)>)
    ensures r.Some? ==> |r.value.1| < |s|
    decreases |s|
  {
    if s == "" then None
    else if s[0] == '"' then Some(("", s[1..]))
    else if s[0] != '\\' then
      if s[0] < 32 as char then None else PutChar(s[0], ReadString(s[1..]))
    else if |s| < 2 then None
    else if s[1] == 'u' then
      match ReadHex4(s[2..])
      case None => None
      case Some(c) => PutChar(c, ReadString(s[6..]))
    else
      match Unescape(s[1])
      case None => None
      case Some(c) => PutChar(c, ReadString(s[2..]))
  }

  function PutChar(c: char, r: Option<(string, string)>): Option<(string, string)> {
    match r
    case None => None
    case Some((t, rest)) => Some(([c] + t, rest))
  }

  function Unescape(c: char): Option<char> {
    if c == '"' || c == '\\' || c == '/' then Some(c)
    else if c == 'n' then Some('\n')
    else if c == 'r' then Some('\r')
    else if c == 't' then Some('\t')
    else if c == 'b' then Some(8 as char)
    else if c == 'f' then Some(12 as char)
    else None
  }

  function ReadHex4(s: string): (r: Option<char>)
    ensures r.Some? ==> |s| >= 4
  {
    if |s| < 4 then None
    else
      match (HexValue(s[0]), HexValue(s[1]), HexValue(s[2]), HexValue(s[3]))
      case (Some(a), Some(b), Some(c), Some(d)) =>
        var n := 4096 * a + 256 * b + 16 * c + d;
        if Utf8.IsScalar(n) then Some(n as char) else None
      case _ => None
  }

  /** The three keywords. */
  function ReadKeyword(s: string): (r: Option<(Value, string)>)
    ensures r.Some? ==> |r.value.1| < |s|
  {
    if "null" <= s then Some((Null, s[4..]))
    else if "true" <= s then Some((Bool(true), s[4..]))
    else if "false" <= s then Some((Bool(false), s[5..]))
    else None
  }

  function ReadInt(s: string): (r: Option<(Value, string)>)
    ensures r.Some? ==> |r.value.1| < |s|
  {
    if s == "" then None
    else if s[0] == '-' then
      match ReadNat(s[1..])
      case None => None
      case Some((n, rest)) => Some((Int(0 - n as int), rest))
    else
      match ReadNat(s)
      case None => None
      case Some((n, rest)) => Some((Int(n), rest))
  }

  /** Reads one value from the front of compact JSON text and returns the rest. */
  function Read(s: string): (r: Option<(Value, string)>)
    ensures r.Some? ==> |r.value.1| < |s|
    decreases |s|, 1
  {
    if s == "" then None
    else if s[0] == '"' then
      match ReadString(s[1..])
      case None => None
      case Some((t, rest)) => Some((Str(t), rest))
    else if s[0] == '[' then
      if |s| > 1 && s[1] == ']' then Some((List([]), s[2..]))
      else
        match ReadItems(s[1..])
        case None => None
        case Some((items, rest)) => Some((List(items), rest))
    else if s[0] == '{' then
      if |s| > 1 && s[1] == '}' then Some((Dict([]), s[2..]))
      else
        match ReadMembers(s[1..])
        case None => None
        case Some((ms, rest)) => Some((Dict(ms), rest))
    else if s[0] == '-' || Decimal.IsDigit(s[0]) then ReadInt(s)
    else ReadKeyword(s)
  }

  /** A numeral without a superfluous leading zero. */
  function ReadNat(s: string): (r: Option<(nat, string)>)
    ensures r.Some? ==> |r.value.1| < |s|
  {
    var k := Decimal.DigitSpan(s);
    if k == 0 || (k > 1 && s[0] == '0') then None
    else Some((Decimal.NatValue(s[..k]), s[k..]))
  }

  /** Items up to and including the closing bracket. */
  function ReadItems(s: string): (r: Option<(seq<Value>, string)>)
    ensures r.Some? ==> |r.value.1| < |s|
    decreases |s|, 2
  {
    match Read(s)
    case None => None
    case Some((v, rest)) =>
      if rest == "" then None
      else if rest[0] == ']' then Some(([v], rest[1..]))
      else if rest[0] != ',' then None
      else
        match ReadItems(rest[1..])
        case None => None
        case Some((vs, end)) => Some(([v] + vs, end))
  }

  /** Members up to and including the closing brace. */
  function ReadMembers(s: string): (r: Option<(seq<Member>, string)>)
    ensures r.Some? ==> |r.value.1| < |s|
    decreases |s|, 3
  {
    match ReadMember(s)
    case None => None
    case Some((m, rest)) =>
      if rest == "" then None
      else if rest[0] == '}' then Some(([m], rest[1..]))
      else if rest[0] != ',' then None
      else
        match ReadMembers(rest[1..])
        case None => None
        case Some((ms, end)) => Some(([m] + ms, end))
  }

  function ReadMember(s: string): (r: Option<(Member, string)>)
    ensures r.Some? ==> |r.value.1| < |s|
    decreases |s|, 2
  {
    match ReadKey(s)
    case None => None
    case Some((key, rest)) => (
      match Read(rest)
      case None => None
      case Some((v, end)) => Some((Member(Str(key), v), end)))
  }

  /** A quoted key and its colon. */
  function ReadKey(s: string): (r: Option<(string, string)>)
    ensures r.Some? ==> |r.value.1| < |s|
  {
    if s == "" || s[0] != '"' then None
    else
      match ReadString(s[1..])
      case None => None
      case Some((key, rest)) =>
        if rest == "" || rest[0] != ':' then None else Some((key, rest[1..]))
  }

  /** A whole document: one value and nothing after it. */
  function Parse(s: string): Option<Value> {
    match Read(s)
    case Some((v, "")) => Some(v)
    case _ => None
  }

  // ---------------------------------------------------------------- round trip

  lemma {:induction false} ReadsQuoted(t: string, rest: string)
    ensures ReadString(EscapeAll(t) + "\"" + rest) == Some((t, rest))
  {
    if t == "" {
      assert EscapeAll(t) + "\"" + rest == "\"" + rest;
    } else {
      var tail := EscapeAll(t[1..]) + "\"" + rest;
      ReadsQuoted(t[1..], rest);
      assert EscapeAll(t) + "\"" + rest == Escape(t[0]) + tail;
      ReadsEscaped(t[0], tail);
      assert [t[0]] + t[1..] == t;
    }
  }

  lemma ReadsEscaped(c: char, tail: string)
    ensures ReadString(Escape(c) + tail) == PutChar(c, ReadString(tail))
  {
    var e := Escape(c);
    var s := e + tail;
    assert s[|e|..] == tail;
    if |e| == 6 {
      var n := c as int;
      assert s[0] == '\\' && s[1] == 'u';
      assert s[2..][0] == '0' && s[2..][1] == '0';
      assert s[2..][2] == HexDigit(n / 16) && s[2..][3] == HexDigit(n % 16);
      assert ReadHex4(s[2..]) == Some(c);
    } else if |e| == 2 {
      assert s[0] == '\\' && s[1] == e[1];
    } else {
      assert s[0] == c;
    }
  }

  /** Text that can follow a value. */
  predicate Delimited(rest: string) {
    rest == "" || rest[0] == ',' || rest[0] == ']' || rest[0] == '}'
  }

  /** Nothing but plain data: no unsupported value, string keys. */
  ghost predicate Printable(v: Value)
    decreases v
  {
    match v
    case List(items) => forall i :: 0 <= i < |items| ==> Printable(items[i])
    case Dict(members) => forall i :: 0 <= i < |members| ==> members[i].key.Str? && Printable(members[i].value)
    case Opaque(_) => false
    case _ => true
  }

  lemma ReadsInt(n: int, rest: string)
    requires Delimited(rest)
    ensures ReadInt(Decimal.IntText(n) + rest) == Some((Int(n), rest))
  {
    var m := if n < 0 then -n else n;
    var ds := Decimal.NatText(m);
    Decimal.NatValueOfText(m);
    Decimal.DigitSpanOfPrefix(ds, rest);
    assert (ds + rest)[..|ds|] == ds && (ds + rest)[|ds|..] == rest;
    assert ReadNat(ds + rest) == Some((m, rest));
    if n < 0 {
      assert ("-" + ds + rest)[1..] == ds + rest;
    }
  }

  lemma ReadsKeyword(v: Value, rest: string)
    requires v.Null? || v.Bool?
    ensures ReadKeyword(Print(v) + rest) == Some((v, rest))
  {
    var s := Print(v) + rest;
    var k := |Print(v)|;
    assert s[..k] == Print(v) && s[k..] == rest;
    assert s[0] == Print(v)[0];
  }

  lemma ReadsKey(key: string, tail: string)
    ensures ReadKey(Quote(key) + ":" + tail) == Some((key, tail))
  {
    var s := Quote(key) + ":" + tail;
    ReadsQuoted(key, ":" + tail);
    assert s[1..] == EscapeAll(key) + "\"" + (":" + tail);
    assert (":" + tail)[1..] == tail;
  }

  lemma ReadsStr(t: string, rest: string)
    ensures Read(Quote(t) + rest) == Some((Str(t), rest))
  {
    ReadsQuoted(t, rest);
    assert (Quote(t) + rest)[1..] == EscapeAll(t) + "\"" + rest;
  }

  lemma ReadsEmpty(rest: string)
    ensures Read("[]" + rest) == Some((List([]), rest))
    ensures Read("{}" + rest) == Some((Dict([]), rest))
  {
    assert ("[]" + rest)[2..] == rest && ("{}" + rest)[2..] == rest;
  }

  /** Reading what was printed gives the value back and leaves the rest. */
  lemma {:induction false} ReadsPrinted(v: Value, rest: string)
    requires Printable(v) && Delimited(rest)
    ensures Read(Print(v) + rest) == Some((v, rest))
    ensures Print(v) != "" && Print(v)[0] != ']'
    decreases v, 1
  {
    match v {
      case Null => ReadsKeyword(v, rest);
      case Bool(_) => ReadsKeyword(v, rest);
      case Int(n) => ReadsInt(n, rest);
      case Str(t) => ReadsStr(t, rest);
      case List(items) =>
        if items == [] {
          ReadsEmpty(rest);
          assert Print(v) == "[]";
        } else {
          ReadsItems(items, rest);
          Enclose("[", PrintItems(items), "]", rest);
          ReadsBracketed(items, "[" + PrintItems(items) + "]" + rest, rest);
        }
      case Dict(ms) =>
        if ms == [] {
          ReadsEmpty(rest);
          assert Print(v) == "{}";
        } else {
          ReadsMembers(ms, rest);
          Enclose("{", PrintMembers(ms), "}", rest);
          ReadsBraced(ms, "{" + PrintMembers(ms) + "}" + rest, rest);
        }
    }
  }

  lemma Enclose(open: string, body: string, close: string, rest: string)
    requires |open| == 1 && body != ""
    ensures var s := open + body + close + rest;
            s[0] == open[0] && s[1] == body[0] && s[1..] == body + close + rest
  {
  }

  lemma ReadsBracketed(items: seq<Value>, s: string, rest: string)
    requires |s| > 1 && s[0] == '[' && s[1] != ']'
    requires ReadItems(s[1..]) == Some((items, rest))
    ensures Read(s) == Some((List(items), rest))
  {
  }

  lemma ReadsBraced(ms: seq<Member>, s: string, rest: string)
    requires |s| > 1 && s[0] == '{' && s[1] == '"'
    requires ReadMembers(s[1..]) == Some((ms, rest))
    ensures Read(s) == Some((Dict(ms), rest))
  {
  }

  lemma {:induction false} ReadsItems(items: seq<Value>, rest: string)
    requires items != [] && (forall i :: 0 <= i < |items| ==> Printable(items[i]))
    ensures ReadItems(PrintItems(items) + "]" + rest) == Some((items, rest))
    ensures PrintItems(items) != "" && PrintItems(items)[0] != ']'
    decreases items, 0
  {
    var head := Print(items[0]);
    if |items| == 1 {
      ReadsPrinted(items[0], "]" + rest);
      Reassociate(head, "", "]", rest);
      ReadsLastItem(items[0], head + "]" + rest, rest);
      assert [items[0]] == items;
    } else {
      var body := PrintItems(items[1..]);
      ReadsItems(items[1..], rest);
      ReadsPrinted(items[0], "," + (body + "]" + rest));
      Reassociate(head, body, "]", rest);
      ReadsNextItem(items[0], head + "," + body + "]" + rest, items[1..], body + "]" + rest, rest);
      assert [items[0]] + items[1..] == items;
    }
  }

  lemma Reassociate(head: string, body: string, close: string, rest: string)
    ensures head + close + rest == head + (close + rest)
    ensures head + "," + body + close + rest == head + ("," + (body + close + rest))
  {
  }

  lemma ReadsLastItem(v: Value, s: string, rest: string)
    requires Read(s) == Some((v, "]" + rest))
    ensures ReadItems(s) == Some(([v], rest))
  {
    assert ("]" + rest)[1..] == rest;
  }

  lemma ReadsNextItem(v: Value, s: string, more: seq<Value>, tail: string, rest: string)
    requires Read(s) == Some((v, "," + tail))
    requires ReadItems(tail) == Some((more, rest))
    ensures ReadItems(s) == Some(([v] + more, rest))
  {
    assert ("," + tail)[1..] == tail;
  }

  lemma {:induction false} ReadsMembers(ms: seq<Member>, rest: string)
    requires ms != [] && (forall i :: 0 <= i < |ms| ==> ms[i].key.Str? && Printable(ms[i].value))
    ensures ReadMembers(PrintMembers(ms) + "}" + rest) == Some((ms, rest))
    ensures PrintMembers(ms) != "" && PrintMembers(ms)[0] == '"'
    decreases ms, 0
  {
    var head := PrintMember(ms[0]);
    if |ms| == 1 {
      ReadsMember(ms[0], "}" + rest);
      Reassociate(head, "", "}", rest);
      ReadsLastMember(ms[0], head + "}" + rest, rest);
      assert [ms[0]] == ms;
    } else {
      var body := PrintMembers(ms[1..]);
      ReadsMembers(ms[1..], rest);
      ReadsMember(ms[0], "," + (body + "}" + rest));
      Reassociate(head, body, "}", rest);
      ReadsNextMember(ms[0], head + "," + body + "}" + rest, ms[1..], body + "}" + rest, rest);
      assert [ms[0]] + ms[1..] == ms;
    }
  }

  lemma ReadsLastMember(m: Member, s: string, rest: string)
    requires ReadMember(s) == Some((m, "}" + rest))
    ensures ReadMembers(s) == Some(([m], rest))
  {
    assert ("}" + rest)[1..] == rest;
  }

  lemma ReadsNextMember(m: Member, s: string, more: seq<Member>, tail: string, rest: string)
    requires ReadMember(s) == Some((m, "," + tail))
    requires ReadMembers(tail) == Some((more, rest))
    ensures ReadMembers(s) == Some(([m] + more, rest))
  {
    assert ("," + tail)[1..] == tail;
  }

  lemma {:induction false} ReadsMember(m: Member, rest: string)
    requires m.key.Str? && Printable(m.value) && Delimited(rest)
    ensures ReadMember(PrintMember(m) + rest) == Some((m, rest))
    ensures PrintMember(m) != "" && PrintMember(m)[0] == '"'
    decreases m, 2
  {
    ReadsPrinted(m.value, rest);
    ReadsKey(m.key.s, Print(m.value) + rest);
    assert PrintMember(m) + rest == Quote(m.key.s) + ":" + (Print(m.value) + rest);
  }

  lemma {:induction false} PlainIsPrintable(v: Value)
    requires Plain(v)
    ensures Printable(v)
    decreases v
  {
    match v {
      case List(items) => forall i | 0 <= i < |items| { PlainIsPrintable(items[i]); }
      case Dict(members) => forall i | 0 <= i < |members| { PlainIsPrintable(members[i].value); }
      case _ =>
    }
  }
  // ---------------------------------------------------------------- canonical bytes

  /** Normalise, print with sorted keys and no spaces, encode as UTF-8. */
  function CanonicalBytes(nfc: string -> string, payload: Value): Result<seq<Utf8.byte>, Error> {
    if !payload.Dict? && !payload.List? then Err(TypeError)
    else
      match Normalize(nfc, payload)
      case Err(e) => Err(e)
      case Ok(v) => Ok(Utf8.Encode(Print(SortKeys(v))))
  }

  /** Reading canonical bytes back, as the queue does before it hashes. */
  function Load(bs: seq<Utf8.byte>): Option<Value> {
    match Utf8.Decode(bs)
    case None => None
    case Some(s) => Parse(s)
  }

  /** The normalised payload behind accepted input. */
  function Content(nfc: string -> string, payload: Value): Value {
    match Normalize(nfc, payload)
    case Ok(v) => v
    case Err(_) => Null
  }

  lemma CanonicalBytesAccepts(nfc: string -> string, p: Value)
    ensures CanonicalBytes(nfc, p).Ok? <==> (p.Dict? || p.List?) && Canonicalizable(nfc, p)
  {
    NormalizeAccepts(nfc, p);
  }

  lemma LoadUndoesPrint(v: Value)
    requires Plain(v)
    ensures Load(Utf8.Encode(Print(v))) == Some(v)
  {
    PlainIsPrintable(v);
    ReadsPrinted(v, "");
    Utf8.DecodeEncode(Print(v));
    assert Print(v) + "" == Print(v);
  }

  /** Canonical JSON undoes itself: loading gives the normalised payload back, keys sorted,
      and canonicalising that again yields the same bytes. */
  lemma CanonicalRoundTrip(nfc: string -> string, p: Value)
    requires NfcLaws(nfc)
    requires CanonicalBytes(nfc, p).Ok?
    ensures var bs := CanonicalBytes(nfc, p).value;
            && Load(bs) == Some(SortKeys(Content(nfc, p)))
            && SameContent(Content(nfc, p), SortKeys(Content(nfc, p)))
            && CanonicalBytes(nfc, Load(bs).value) == Ok(bs)
  {
    var v := Content(nfc, p);
    NormalizeYieldsNormal(nfc, p);
    SortKeysKeepsNormal(nfc, v);
    NormalIsPlain(nfc, v);
    SortKeysIdempotent(v);
    LoadUndoesPrint(SortKeys(v));
    NormalizeFixesNormal(nfc, SortKeys(v));
    SortKeysDecidesContent(v, SortKeys(v));
  }

  /** Equal bytes exactly for equal content, up to NFC and key order. */
  lemma BytesDecideContent(nfc: string -> string, p: Value, q: Value)
    requires NfcLaws(nfc)
    requires CanonicalBytes(nfc, p).Ok? && CanonicalBytes(nfc, q).Ok?
    ensures CanonicalBytes(nfc, p) == CanonicalBytes(nfc, q)
       <==> SameContent(Content(nfc, p), Content(nfc, q))
  {
    CanonicalRoundTrip(nfc, p);
    CanonicalRoundTrip(nfc, q);
    NormalizeYieldsNormal(nfc, p);
    NormalizeYieldsNormal(nfc, q);
    NormalIsPlain(nfc, Content(nfc, p));
    NormalIsPlain(nfc, Content(nfc, q));
    SortKeysDecidesContent(Content(nfc, p), Content(nfc, q));
  }

  // ---------------------------------------------------------------- payload hash

  function PayloadHash(nfc: string -> string, sha: seq<Utf8.byte> -> string, payload: Value): Result<string, Error> {
    match CanonicalBytes(nfc, payload)
    case Err(e) => Err(e)
    case Ok(bs) => Ok(sha(bs))
  }

  /** Two payloads whose canonical bytes differ and still hash alike: a SHA-256 collision in hand. */
  ghost predicate Collision(nfc: string -> string, sha: seq<Utf8.byte> -> string, p: Value, q: Value) {
    && CanonicalBytes(nfc, p).Ok? && CanonicalBytes(nfc, q).Ok?
    && CanonicalBytes(nfc, p) != CanonicalBytes(nfc, q)
    && PayloadHash(nfc, sha, p) == PayloadHash(nfc, sha, q)
  }

  /** Short of a collision, the payload hash is a fingerprint of the content. */
  lemma HashDecidesContent(nfc: string -> string, sha: seq<Utf8.byte> -> string, p: Value, q: Value)
    requires NfcLaws(nfc)
    requires CanonicalBytes(nfc, p).Ok? && CanonicalBytes(nfc, q).Ok?
    requires !Collision(nfc, sha, p, q)
    ensures PayloadHash(nfc, sha, p) == PayloadHash(nfc, sha, q)
       <==> SameContent(Content(nfc, p), Content(nfc, q))
  {
    BytesDecideContent(nfc, p, q);
  }
}
