/** Whole dong amounts read aloud in Vietnamese, and a reader that gets the amount back. */
module AmountInWords {
  import opened Wrappers
  import Texts

  datatype Word =
    | Digit(d: nat) | Lam | MotAfterTens | Tu | Tram | Ten | Tens | Linh | Nghin | Trieu | Ty | Dong

  function Spell(w: Word): string {
    match w
    case Digit(d) => SpellDigit(d)
    case Lam => "lăm"
    case MotAfterTens => "mốt"
    case Tu => "tư"
    case Tram => "trăm"
    case Ten => "mười"
    case Tens => "mươi"
    case Linh => "linh"
    case Nghin => "nghìn"
    case Trieu => "triệu"
    case Ty => "tỷ"
    case Dong => "đồng"
  }

  const DIGITS: seq<string> := ["không", "một", "hai", "ba", "bốn", "năm", "sáu", "bảy", "tám", "chín"]

  function SpellDigit(d: nat): string { if d < 10 then DIGITS[d] else "" }

  // ---------------------------------------------------------------- three digits

  /** 'lăm' for 5 after a tens word, and 'mốt' / 'tư' after twenty. */
  function UnitsAfterTens(units: nat, tens: nat): seq<Word> {
    if units == 5 then [Lam]
    else if tens > 1 && units == 1 then [MotAfterTens]
    else if tens > 1 && units == 4 then [Tu]
    else if units != 0 then [Digit(units)] else []
  }

  function HundredsWords(hundreds: nat, say: bool): seq<Word> {
    if say || hundreds != 0 then [Digit(hundreds), Tram] else []
  }

  function RestWords(rest: nat, afterHundreds: bool): seq<Word> {
    var tens, units := rest / 10, rest % 10;
    if tens != 0 then (if tens == 1 then [Ten] else [Digit(tens), Tens]) + UnitsAfterTens(units, tens)
    else if units != 0 then (if afterHundreds then [Linh] else []) + [Digit(units)]
    else []
  }

  function ThreeDigits(n: nat, sayZeroHundreds: bool): seq<Word> {
    var h := HundredsWords(n / 100, sayZeroHundreds);
    h + RestWords(n % 100, h != [])
  }

  /** As the code builds it: a list that grows. */
  method BuildThreeDigits(n: nat, sayZeroHundreds: bool) returns (words: seq<Word>)
    ensures words == ThreeDigits(n, sayZeroHundreds)
  {
    var hundreds, rest := n / 100, n % 100;
    var tens, units := rest / 10, rest % 10;
    words := [];
    if sayZeroHundreds || hundreds != 0 { words := words + [Digit(hundreds), Tram]; }
    if tens != 0 {
      words := words + if tens == 1 then [Ten] else [Digit(tens), Tens];
      words := words + UnitsAfterTens(units, tens);
    } else if units != 0 {
      if words != [] { words := words + [Linh]; }
      words := words + [Digit(units)];
    }
  }

  // ---------------------------------------------------------------- reading three digits

  /** The units after a tens word: 'lăm' is the only five, and after twenty 'mốt' and 'tư' the only one and four. */
  function ReadUnits(ws: seq<Word>, tens: nat): Option<nat> {
    if ws == [] then Some(0)
    else if |ws| > 1 then None
    else
      match ws[0]
      case Lam => Some(5)
      case MotAfterTens => if tens > 1 then Some(1) else None
      case Tu => if tens > 1 then Some(4) else None
      case Digit(d) => if 0 < d < 10 && d != 5 && (tens == 1 || (d != 1 && d != 4)) then Some(d) else None
      case _ => None
  }

  function Plus(n: nat, r: Option<nat>): Option<nat> {
    match r
    case Some(m) => Some(n + m)
    case None => None
  }

  /** Tens and units; a lone digit after hundreds is announced by 'linh'. */
  function ReadRest(ws: seq<Word>, afterHundreds: bool): Option<nat> {
    if ws == [] then Some(0)
    else if ws[0] == Ten then Plus(10, ReadUnits(ws[1..], 1))
    else if |ws| >= 2 && ws[0].Digit? && ws[1] == Tens then
      if 2 <= ws[0].d < 10 then Plus(10 * ws[0].d, ReadUnits(ws[2..], ws[0].d)) else None
    else if afterHundreds then
      if |ws| == 2 && ws[0] == Linh && ws[1].Digit? && 0 < ws[1].d < 10 then Some(ws[1].d) else None
    else if |ws| == 1 && ws[0].Digit? && 0 < ws[0].d < 10 then Some(ws[0].d)
    else None
  }

  /** One group, never silent: the first of an amount says its hundreds if it has some, every later one says them. */
  function ReadGroup(ws: seq<Word>, first: bool): Option<nat> {
    var n :=
      if |ws| >= 2 && ws[0].Digit? && ws[1] == Tram then
        if ws[0].d < 10 && (first ==> ws[0].d > 0) then Plus(100 * ws[0].d, ReadRest(ws[2..], true)) else None
      else if first then ReadRest(ws, false) else None;
    if n == Some(0) then None else n
  }

  lemma ReadsUnits(units: nat, tens: nat)
    requires units < 10 && 1 <= tens < 10
    ensures ReadUnits(UnitsAfterTens(units, tens), tens) == Some(units)
    ensures |UnitsAfterTens(units, tens)| <= 1
  {
  }

  lemma ReadsRest(rest: nat, afterHundreds: bool)
    requires rest < 100
    ensures ReadRest(RestWords(rest, afterHundreds), afterHundreds) == Some(rest)
    ensures |RestWords(rest, afterHundreds)| >= 2 ==> RestWords(rest, afterHundreds)[1] != Tram
    ensures rest != 0 ==> RestWords(rest, afterHundreds) != []
  {
    var tens, units := rest / 10, rest % 10;
    var ws, us := RestWords(rest, afterHundreds), UnitsAfterTens(units, tens);
    if tens != 0 {
      ReadsUnits(units, tens);
      if tens == 1 {
        assert ws[1..] == us;
      } else {
        assert ws[2..] == us;
      }
    }
  }

  /** Reading a spoken group gives the group back. */
  lemma ReadsGroup(n: nat, first: bool)
    requires 0 < n < 1000
    ensures ReadGroup(ThreeDigits(n, !first), first) == Some(n)
    ensures ThreeDigits(n, !first) != []
  {
    hide RestWords, ReadRest;
    var h := HundredsWords(n / 100, !first);
    ReadsRest(n % 100, h != []);
    if h != [] {
      assert h == [Digit(n / 100), Tram];
      assert ThreeDigits(n, !first)[2..] == RestWords(n % 100, true);
    } else {
      assert [] + RestWords(n % 100, false) == RestWords(n % 100, false);
    }
  }

  /** And no other words read as it. */
  lemma OnlyUnits(ws: seq<Word>, tens: nat)
    requires 1 <= tens < 10 && ReadUnits(ws, tens).Some?
    ensures ReadUnits(ws, tens).value < 10 && ws == UnitsAfterTens(ReadUnits(ws, tens).value, tens)
  {
  }

  lemma OnlyRest(ws: seq<Word>, afterHundreds: bool)
    requires ReadRest(ws, afterHundreds).Some?
    ensures ReadRest(ws, afterHundreds).value < 100 && ws == RestWords(ReadRest(ws, afterHundreds).value, afterHundreds)
  {
    var n := ReadRest(ws, afterHundreds).value;
    if ws != [] && ws[0] == Ten {
      OnlyUnits(ws[1..], 1);
      assert ws == [Ten] + ws[1..];
      assert n / 10 == 1 && n % 10 == ReadUnits(ws[1..], 1).value;
    } else if |ws| >= 2 && ws[0].Digit? && ws[1] == Tens {
      OnlyUnits(ws[2..], ws[0].d);
      assert ws == [ws[0], Tens] + ws[2..];
      assert n / 10 == ws[0].d && n % 10 == ReadUnits(ws[2..], ws[0].d).value;
    }
  }

  lemma OnlyGroup(ws: seq<Word>, first: bool)
    requires ReadGroup(ws, first).Some?
    ensures 0 < ReadGroup(ws, first).value < 1000 && ws == ThreeDigits(ReadGroup(ws, first).value, !first)
  {
    hide ReadRest, RestWords;
    var n := ReadGroup(ws, first).value;
    if |ws| >= 2 && ws[0].Digit? && ws[1] == Tram {
      OnlyRest(ws[2..], true);
      assert ws == [ws[0], Tram] + ws[2..];
      assert n / 100 == ws[0].d && n % 100 == ReadRest(ws[2..], true).value;
    } else {
      OnlyRest(ws, false);
      assert [] + ws == ws;
    }
  }

  // ---------------------------------------------------------------- groups of three digits

  function Weight(index: nat): (w: nat)
    ensures w >= 1
  {
    if index == 0 then 1 else 1000 * Weight(index - 1)
  }

  function Scale(index: nat): seq<Word> {
    if index == 1 then [Nghin] else if index == 2 then [Trieu] else if index == 3 then [Ty] else []
  }

  /** Least significant group first. */
  function Groups(n: nat): (g: seq<nat>)
    ensures forall i :: 0 <= i < |g| ==> g[i] < 1000
    ensures n != 0 ==> g != [] && g[|g| - 1] != 0
  {
    if n == 0 then [] else [n % 1000] + Groups(n / 1000)
  }

  function Value(g: seq<nat>): nat {
    if g == [] then 0 else Value(g[..|g| - 1]) + g[|g| - 1] * Weight(|g| - 1)
  }

  lemma {:induction false} ValueHead(g: seq<nat>)
    requires g != []
    ensures Value(g) == g[0] + 1000 * Value(g[1..])
  {
    var n := |g| - 1;
    if n == 0 {
      assert g[..0] == [] && g[1..] == [];
    } else {
      ValueHead(g[..n]);
      assert g[..n][1..] == g[1..][..n - 1];
      assert g[1..][n - 1] == g[n];
      ScaleUp(g[n], Weight(n - 1));
    }
  }

  lemma ScaleUp(a: nat, b: nat)
    ensures a * (1000 * b) == 1000 * (a * b)
  {
  }

  lemma {:induction false} ValueOfGroups(n: nat)
    ensures Value(Groups(n)) == n
    ensures |Groups(n)| <= 4 <==> n < 1_000_000_000_000
  {
    if n != 0 {
      ValueOfGroups(n / 1000);
      ValueHead(Groups(n));
      assert Groups(n)[1..] == Groups(n / 1000);
      GroupCount(n);
    }
  }

  lemma GroupCount(n: nat)
    ensures |Groups(n)| <= 4 <==> n < 1_000_000_000_000
  {
    var a := n / 1000;
    var b := a / 1000;
    var c := b / 1000;
    var d := c / 1000;
    assert n < 1_000_000_000_000 <==> a < 1_000_000_000;
    assert a < 1_000_000_000 <==> b < 1_000_000;
    assert b < 1_000_000 <==> c < 1000;
    assert c < 1000 <==> d == 0;
    GroupStep(n);
    GroupStep(a);
    GroupStep(b);
    GroupStep(c);
  }

  lemma GroupStep(n: nat)
    ensures |Groups(n)| == (if n == 0 then 0 else 1 + |Groups(n / 1000)|)
    ensures n == 0 ==> n / 1000 == 0
  {
  }

  /** The words of groups k - 1 down to 0. */
  function WordsBelow(g: seq<nat>, k: nat): seq<Word>
    requires k <= |g|
  {
    if k == 0 then []
    else
      (if g[k - 1] == 0 then [] else ThreeDigits(g[k - 1], k != |g|) + Scale(k - 1)) + WordsBelow(g, k - 1)
  }

  function Words(n: nat): seq<Word> {
    if n == 0 then [Digit(0), Dong] else WordsBelow(Groups(n), |Groups(n)|) + [Dong]
  }

  // ---------------------------------------------------------------- reading an amount

  /** Which power of a thousand a scale word names; 0 for any other word. */
  function ScaleIndex(w: Word): nat {
    match w
    case Nghin => 1
    case Trieu => 2
    case Ty => 3
    case _ => 0
  }

  /** How many words from here to the next scale word, or to the end. */
  function GroupEnd(ws: seq<Word>): (k: nat)
    ensures k <= |ws| && (forall i :: 0 <= i < k ==> ScaleIndex(ws[i]) == 0) && (k < |ws| ==> ScaleIndex(ws[k]) != 0)
  {
    if ws == [] || ScaleIndex(ws[0]) != 0 then 0 else 1 + GroupEnd(ws[1..])
  }

  /** Groups of falling scale, the first of them first; `below` is one more than the largest scale that may still come. */
  function ReadGroups(ws: seq<Word>, first: bool, below: nat): Option<nat>
    decreases |ws|
  {
    if ws == [] then Some(0)
    else
      var k := GroupEnd(ws);
      var index := if k < |ws| then ScaleIndex(ws[k]) else 0;
      match ReadGroup(ws[..k], first)
      case None => None
      case Some(n) =>
        if index >= below then None
        else Plus(n * Weight(index), ReadGroups(if k < |ws| then ws[k + 1..] else [], false, index))
  }

  /** An amount in words: 'không đồng', or groups and the currency. */
  function ReadWords(ws: seq<Word>): Option<nat> {
    if ws == [] || ws[|ws| - 1] != Dong then None
    else if ws == [Digit(0), Dong] then Some(0)
    else if |ws| == 1 then None
    else ReadGroups(ws[..|ws| - 1], true, 4)
  }

  lemma GroupHasNoScale(n: nat, say: bool)
    ensures forall i :: 0 <= i < |ThreeDigits(n, say)| ==> ScaleIndex(ThreeDigits(n, say)[i]) == 0
  {
  }

  lemma {:induction false} GroupEndsAtScale(ws: seq<Word>, rest: seq<Word>)
    requires (forall i :: 0 <= i < |ws| ==> ScaleIndex(ws[i]) == 0) && (rest == [] || ScaleIndex(rest[0]) != 0)
    ensures GroupEnd(ws + rest) == |ws|
  {
    if ws == [] {
      assert ws + rest == rest;
    } else {
      assert (ws + rest)[1..] == ws[1..] + rest;
      GroupEndsAtScale(ws[1..], rest);
    }
  }

  lemma ScaleWord(index: nat)
    requires index < 4
    ensures index > 0 ==> |Scale(index)| == 1 && ScaleIndex(Scale(index)[0]) == index
    ensures index == 0 ==> Scale(index) == []
  {
  }

  /** One spoken group and its scale add its weighted value. */
  lemma ReadsOneGroup(v: nat, first: bool, index: nat, below: nat, rest: seq<Word>)
    requires 0 < v < 1000 && index < below <= 4 && (index == 0 ==> rest == [])
    ensures ReadGroups(ThreeDigits(v, !first) + Scale(index) + rest, first, below) == Plus(v * Weight(index), ReadGroups(rest, false, index))
  {
    hide ThreeDigits, ReadGroup, Weight, Scale, ScaleIndex, ReadGroups;
    var three, tail := ThreeDigits(v, !first), Scale(index) + rest;
    ReadsGroup(v, first);
    GroupHasNoScale(v, !first);
    ScaleWord(index);
    if index == 0 { assert tail == []; } else { assert tail[0] == Scale(index)[0] && tail[1..] == rest; }
    GroupEndsAtScale(three, tail);
    assert three + Scale(index) + rest == three + tail;
    assert (three + tail)[..|three|] == three && (three + tail)[|three|..] == tail;
    ReadsHead(three + tail, first, below, v, index, rest);
  }

  lemma ReadsHead(ws: seq<Word>, first: bool, below: nat, v: nat, index: nat, rest: seq<Word>)
    requires ws != [] && index < below && ReadGroup(ws[..GroupEnd(ws)], first) == Some(v)
    requires if GroupEnd(ws) < |ws| then index == ScaleIndex(ws[GroupEnd(ws)]) && rest == ws[GroupEnd(ws) + 1..] else index == 0 && rest == []
    ensures ReadGroups(ws, first, below) == Plus(v * Weight(index), ReadGroups(rest, false, index))
  {
  }

  /** Groups are read back with their weights, silent zero groups included. */
  lemma {:induction false} ReadsBelow(g: seq<nat>, k: nat, below: nat)
    requires k <= |g| <= 4 && (forall i :: 0 <= i < |g| ==> g[i] < 1000) && k <= below <= 4
    requires k == |g| && k > 0 ==> g[k - 1] != 0
    ensures ReadGroups(WordsBelow(g, k), k == |g|, below) == Some(Value(g[..k]))
    decreases k
  {
    hide ThreeDigits, ReadGroup, Weight, Scale, ReadGroups;
    if k == 0 {
      assert g[..0] == [];
      NothingRead();
    } else {
      var v := g[k - 1];
      assert g[..k][..k - 1] == g[..k - 1];
      assert Value(g[..k]) == Value(g[..k - 1]) + v * Weight(k - 1);
      if v == 0 {
        ReadsBelow(g, k - 1, below);
        assert WordsBelow(g, k) == WordsBelow(g, k - 1);
      } else {
        ReadsOneGroup(v, k == |g|, k - 1, below, WordsBelow(g, k - 1));
        ReadsBelow(g, k - 1, k - 1);
      }
    }
  }

  lemma NothingRead()
    ensures forall first, below :: ReadGroups([], first, below) == Some(0)
  {
  }

  lemma ZeroAlone()
    ensures ReadGroups([Digit(0)], true, 4) == None
  {
    assert [Digit(0)][..1] == [Digit(0)];
    assert [Digit(0)][1..] == [];
  }

  /** The words determine the amount. */
  lemma ReadsAmount(n: nat)
    requires n < 1_000_000_000_000
    ensures ReadWords(Words(n)) == Some(n)
  {
    hide ThreeDigits, Groups, ReadGroups, ReadGroup, Scale, Value;
    var g, ws := Groups(n), Words(n);
    ValueOfGroups(n);
    if n != 0 {
      ReadsBelow(g, |g|, 4);
      NothingRead();
      ZeroAlone();
      assert ws[..|ws| - 1] == WordsBelow(g, |g|) && g[..|g|] == g;
      assert [Digit(0), Dong][..1] == [Digit(0)];
    }
  }

  // ---------------------------------------------------------------- the only words

  /** The first group, its scale and what follows. */
  lemma OnlyHead(ws: seq<Word>, first: bool, below: nat) returns (n: nat, index: nat, rest: seq<Word>)
    requires ws != [] && below <= 4 && ReadGroups(ws, first, below).Some?
    ensures 0 < n < 1000 && index < below && |rest| < |ws| && (index == 0 ==> rest == [])
    ensures ws == ThreeDigits(n, !first) + Scale(index) + rest
    ensures ReadGroups(rest, false, index).Some? && ReadGroups(ws, first, below).value == n * Weight(index) + ReadGroups(rest, false, index).value
  {
    hide ThreeDigits, ReadGroup, Weight, Scale;
    var k := GroupEnd(ws);
    index := if k < |ws| then ScaleIndex(ws[k]) else 0;
    rest := if k < |ws| then ws[k + 1..] else [];
    n := ReadGroup(ws[..k], first).value;
    OnlyGroup(ws[..k], first);
    ScaleIs(index, if k < |ws| then ws[k] else Dong);
    hide ReadGroups;
    if k < |ws| {
      assert ws == ws[..k] + [ws[k]] + rest;
    } else {
      assert ws[..k] + [] + [] == ws;
    }
  }

  /** The groups behind well formed words: what is said, and zeros where nothing is. */
  lemma {:induction false} OnlyGroups(ws: seq<Word>, first: bool, below: nat) returns (g: seq<nat>)
    requires ws != [] && below <= 4 && ReadGroups(ws, first, below).Some?
    ensures 0 < |g| <= below && g[|g| - 1] != 0 && (forall i :: 0 <= i < |g| ==> g[i] < 1000)
    ensures Value(g) == ReadGroups(ws, first, below).value
    ensures ws == ThreeDigits(g[|g| - 1], !first) + Scale(|g| - 1) + WordsBelow(g, |g| - 1)
    decreases |ws|
  {
    hide *;
    var n, index, rest := OnlyHead(ws, first, below);
    if rest == [] {
      g := Zeros(index) + [n];
      SilentBelow(g, index);
      assert g[..index + 1] == g;
      NothingRead();
    } else {
      var low := OnlyGroups(rest, false, index);
      g := Stacked(low, index, n);
      SpokenBelow(low, g, index);
    }
  }

  lemma ScaleIs(index: nat, w: Word)
    requires index == ScaleIndex(w)
    ensures index < 4 && (index > 0 ==> Scale(index) == [w]) && (index == 0 ==> Scale(index) == [])
  {
  }

  function Zeros(k: nat): (z: seq<nat>)
    ensures |z| == k && forall i :: 0 <= i < k ==> z[i] == 0
  {
    seq(k, _ => 0)
  }

  /** Lower groups, zeros up to the next one said, and that one. */
  function Stacked(low: seq<nat>, index: nat, n: nat): (g: seq<nat>)
    requires |low| <= index
    ensures |g| == index + 1 && g[index] == n && g[..|low|] == low && forall i :: |low| <= i < index ==> g[i] == 0
  {
    low + Zeros(index - |low|) + [n]
  }

  lemma {:induction false} SilentBelow(g: seq<nat>, k: nat)
    requires k <= |g| && forall i :: 0 <= i < k ==> g[i] == 0
    ensures WordsBelow(g, k) == [] && Value(g[..k]) == 0
    ensures k < |g| ==> Value(g[..k + 1]) == g[k] * Weight(k)
  {
    hide Weight;
    if k > 0 {
      SilentBelow(g, k - 1);
      assert g[..k][..k - 1] == g[..k - 1];
    } else {
      assert g[..0] == [];
    }
    if k < |g| { assert g[..k + 1][..k] == g[..k]; }
  }

  lemma {:induction false} SameBelow(low: seq<nat>, g: seq<nat>, k: nat)
    requires k < |low| < |g| && g[..|low|] == low
    ensures WordsBelow(g, k) == WordsBelow(low, k) && Value(g[..k]) == Value(low[..k])
  {
    hide Weight, ThreeDigits, Scale;
    assert forall i :: 0 <= i < |low| ==> g[i] == g[..|low|][i];
    assert g[..k] == low[..k];
    if k > 0 { SameBelow(low, g, k - 1); }
  }

  lemma {:induction false} ZerosBelow(low: seq<nat>, g: seq<nat>, k: nat)
    requires 0 < |low| <= k < |g| && g[..|low|] == low && low[|low| - 1] != 0 && forall i :: |low| <= i < k ==> g[i] == 0
    ensures WordsBelow(g, k) == ThreeDigits(low[|low| - 1], true) + Scale(|low| - 1) + WordsBelow(low, |low| - 1)
    ensures Value(g[..k]) == Value(low)
    decreases k
  {
    hide Weight, ThreeDigits, Scale;
    if k == |low| {
      assert g[k - 1] == g[..|low|][k - 1];
      SameBelow(low, g, k - 1);
      assert g[..k] == low;
    } else {
      ZerosBelow(low, g, k - 1);
      assert g[..k][..k - 1] == g[..k - 1];
    }
  }

  lemma SpokenBelow(low: seq<nat>, g: seq<nat>, index: nat)
    requires 0 < |low| <= index && |g| == index + 1 && g[..|low|] == low && low[|low| - 1] != 0
    requires forall i :: |low| <= i < index ==> g[i] == 0
    ensures WordsBelow(g, index) == ThreeDigits(low[|low| - 1], true) + Scale(|low| - 1) + WordsBelow(low, |low| - 1)
    ensures Value(g) == Value(low) + g[index] * Weight(index)
    ensures forall i :: 0 <= i < index ==> g[i] == if i < |low| then low[i] else 0
  {
    hide Weight, ThreeDigits, Scale;
    ZerosBelow(low, g, index);
    assert g[..|g| - 1] == g[..index];
    forall i | 0 <= i < |low| ensures g[i] == low[i] { assert g[..|low|][i] == g[i]; }
  }

  lemma LowGroup(low: nat, high: nat)
    requires low < 1000
    ensures (low + 1000 * high) / 1000 == high && (low + 1000 * high) % 1000 == low
  {
  }

  /** Digits of an amount are those of its groups. */
  lemma {:induction false} GroupsOfValue(g: seq<nat>)
    requires (forall i :: 0 <= i < |g| ==> g[i] < 1000) && (g != [] ==> g[|g| - 1] != 0)
    ensures Groups(Value(g)) == g && (g != [] ==> Value(g) > 0)
  {
    if g != [] {
      ValueHead(g);
      assert g == [g[0]] + g[1..];
      if |g| > 1 { assert g[1..][|g| - 2] == g[|g| - 1]; }
      GroupsOfValue(g[1..]);
      hide Value, Weight;
      LowGroup(g[0], Value(g[1..]));
    }
  }

  lemma OnlyNonzero(front: seq<Word>)
    requires front != [] && ReadGroups(front, true, 4).Some?
    ensures var n := ReadGroups(front, true, 4).value; 0 < n < 1_000_000_000_000 && Words(n) == front + [Dong]
  {
    hide ThreeDigits, Scale, ReadGroups, Value, Weight, Groups;
    var g := OnlyGroups(front, true, 4);
    GroupsOfValue(g);
    ValueOfGroups(Value(g));
  }

  lemma OnlyRead(ws: seq<Word>)
    requires ReadWords(ws).Some?
    ensures ReadWords(ws).value < 1_000_000_000_000 && ws == Words(ReadWords(ws).value)
  {
    hide ReadGroups, WordsBelow, ThreeDigits, Groups;
    if ws != [Digit(0), Dong] {
      OnlyNonzero(ws[..|ws| - 1]);
      assert ws == ws[..|ws| - 1] + [Dong];
    }
  }

  /** An amount has one reading aloud: no other words read as it, and amounts of 10^12 and more have none. */
  lemma OnlyWords(n: nat, ws: seq<Word>)
    ensures ReadWords(ws) == Some(n) <==> n < 1_000_000_000_000 && ws == Words(n)
  {
    hide *;
    if n < 1_000_000_000_000 { ReadsAmount(n); }
    if ReadWords(ws).Some? { OnlyRead(ws); }
  }

  // ---------------------------------------------------------------- the text

  function SpellAll(ws: seq<Word>): (r: seq<string>)
    ensures |r| == |ws| && forall i :: 0 <= i < |ws| ==> r[i] == Spell(ws[i])
  {
    seq(|ws|, i requires 0 <= i < |ws| => Spell(ws[i]))
  }

  function UpperFirst(s: string): string {
    if s != "" && 'a' <= s[0] <= 'z' then [(s[0] - 32 as char)] + s[1..] else s
  }

  function LowerFirst(s: string): string {
    if s != "" && 'A' <= s[0] <= 'Z' then [(s[0] + 32 as char)] + s[1..] else s
  }

  /** The amount as it is printed. */
  function Text(n: nat): string { UpperFirst(Texts.Join(" ", SpellAll(Words(n)))) }

  datatype Error = IndexError

  /** `while amount:` peel off three digits at a time. */
  method SplitGroups(amount: nat) returns (groups: seq<nat>)
    ensures groups == Groups(amount)
  {
    hide Groups;
    groups := [];
    var rest := amount;
    while rest != 0
      invariant Groups(amount) == groups + Groups(rest)
    {
      NextGroup(groups, rest);
      groups := groups + [rest % 1000];
      rest := rest / 1000;
    }
    NoGroups();
  }

  lemma NextGroup(groups: seq<nat>, rest: nat)
    requires rest != 0
    ensures groups + Groups(rest) == groups + [rest % 1000] + Groups(rest / 1000)
  {
    assert Groups(rest) == [rest % 1000] + Groups(rest / 1000);
  }

  lemma NoGroups()
    ensures Groups(0) == []
  {
  }

  lemma SpokenGroup(words: seq<Word>, g: seq<nat>, k: nat)
    requires k < |g|
    ensures words + WordsBelow(g, k + 1)
         == words + (if g[k] == 0 then [] else ThreeDigits(g[k], k + 1 != |g|) + Scale(k)) + WordsBelow(g, k)
  {
  }

  /** Speak the groups from the top; past the billions there is no scale word left. */
  method SpeakGroups(groups: seq<nat>) returns (words: Option<seq<Word>>)
    requires groups != [] && groups[|groups| - 1] != 0
    ensures words == if |groups| <= 4 then Some(WordsBelow(groups, |groups|)) else None
  {
    hide ThreeDigits, WordsBelow;
    var spoken: seq<Word> := [];
    var k := |groups|;
    while k > 0
      invariant 0 <= k <= |groups| && (k < |groups| ==> |groups| <= 4)
      invariant WordsBelow(groups, |groups|) == spoken + WordsBelow(groups, k)
    {
      k := k - 1;
      SpokenGroup(spoken, groups, k);
      if groups[k] != 0 {
        var three := BuildThreeDigits(groups[k], k + 1 != |groups|);
        if k >= 4 { return None; }
        spoken := spoken + (three + Scale(k));
      } else {
        assert spoken + [] == spoken;
      }
    }
    NothingBelow(groups);
    assert spoken + [] == spoken;
    return Some(spoken);
  }

  lemma NothingBelow(g: seq<nat>)
    ensures WordsBelow(g, 0) == []
  {
  }

  /** The printer: every amount below 10^12 has a text, and no other has. */
  method VndInWords(amount: nat) returns (r: Result<string, Error>)
    ensures r == if amount < 1_000_000_000_000 then Ok(Text(amount)) else Err(IndexError)
  {
    hide WordsBelow, Texts.Join, SpellAll, UpperFirst;
    ValueOfGroups(amount);
    if amount == 0 { return Ok(UpperFirst(Texts.Join(" ", SpellAll([Digit(0), Dong])))); }
    var groups := SplitGroups(amount);
    var words := SpeakGroups(groups);
    if words.None? { return Err(IndexError); }
    return Ok(UpperFirst(Texts.Join(" ", SpellAll(words.value + [Dong]))));
  }

  // ---------------------------------------------------------------- reading the text

  predicate NoSpace(s: string) { forall i :: 0 <= i < |s| ==> s[i] != ' ' }

  /** Length of the first word. */
  function FirstWord(s: string): (n: nat)
    ensures n <= |s| && NoSpace(s[..n]) && (n < |s| ==> s[n] == ' ')
  {
    if s == "" || s[0] == ' ' then 0
    else
      var n := FirstWord(s[1..]);
      assert forall i :: 1 <= i < 1 + n ==> s[i] == s[1..][..n][i - 1];
      1 + n
  }

  function Split(s: string): seq<string>
    decreases |s|
  {
    var n := FirstWord(s);
    if n == |s| then [s] else [s[..n]] + Split(s[n + 1..])
  }

  lemma {:induction false} FirstWordOf(w: string, rest: string)
    requires NoSpace(w) && (rest == "" || rest[0] == ' ')
    ensures FirstWord(w + rest) == |w|
  {
    if w == "" {
      assert w + rest == rest;
    } else {
      assert (w + rest)[1..] == w[1..] + rest;
      FirstWordOf(w[1..], rest);
    }
  }

  lemma {:induction false} SplitJoin(words: seq<string>)
    requires words != [] && forall i :: 0 <= i < |words| ==> NoSpace(words[i])
    ensures Split(Texts.Join(" ", words)) == words
    decreases |words|
  {
    if |words| == 1 {
      FirstWordOf(words[0], "");
      assert words[0] + "" == words[0];
    } else {
      var tail := Texts.Join(" ", words[1..]);
      FirstWordOf(words[0], " " + tail);
      assert words[0] + " " + tail == words[0] + (" " + tail);
      assert (words[0] + (" " + tail))[|words[0]| + 1..] == tail;
      SplitJoin(words[1..]);
    }
  }

  /** Every word there is, as it is written. */
  const VOCABULARY: seq<(string, Word)> := [
    ("không", Digit(0)), ("một", Digit(1)), ("hai", Digit(2)), ("ba", Digit(3)), ("bốn", Digit(4)),
    ("năm", Digit(5)), ("sáu", Digit(6)), ("bảy", Digit(7)), ("tám", Digit(8)), ("chín", Digit(9)),
    ("lăm", Lam), ("mốt", MotAfterTens), ("tư", Tu), ("trăm", Tram), ("mười", Ten), ("mươi", Tens),
    ("linh", Linh), ("nghìn", Nghin), ("triệu", Trieu), ("tỷ", Ty), ("đồng", Dong)]

  function FindWord(s: string, k: nat): Option<Word>
    requires k <= |VOCABULARY|
  {
    if k == 0 then None
    else if VOCABULARY[k - 1].0 == s then Some(VOCABULARY[k - 1].1)
    else FindWord(s, k - 1)
  }

  /** No two words are written alike. */
  lemma SpellingsDiffer(i: nat, j: nat)
    requires i < j < |VOCABULARY|
    ensures VOCABULARY[i].0 != VOCABULARY[j].0
  {
  }

  lemma SpelledAsListed(i: nat)
    requires i < |VOCABULARY|
    ensures Spell(VOCABULARY[i].1) == VOCABULARY[i].0
  {
  }

  lemma {:induction false} FindWordFinds(i: nat, k: nat)
    requires i < k <= |VOCABULARY|
    ensures FindWord(VOCABULARY[i].0, k) == Some(VOCABULARY[i].1)
  {
    if i < k - 1 {
      SpellingsDiffer(i, k - 1);
      FindWordFinds(i, k - 1);
    }
  }

  /** Words that occur in amounts, spelled without a space. */
  predicate Speakable(w: Word) { exists i :: 0 <= i < |VOCABULARY| && VOCABULARY[i].1 == w }

  lemma SpellingsHaveNoSpace(i: nat)
    requires i < |VOCABULARY|
    ensures NoSpace(VOCABULARY[i].0)
  {
  }

  function ReadAll(words: seq<string>): Option<seq<Word>> {
    if words == [] then Some([])
    else
      match (FindWord(words[0], |VOCABULARY|), ReadAll(words[1..]))
      case (Some(w), Some(rest)) => Some([w] + rest)
      case _ => None
  }

  lemma {:induction false} ReadsSpelled(ws: seq<Word>)
    requires forall i :: 0 <= i < |ws| ==> Speakable(ws[i])
    ensures ReadAll(SpellAll(ws)) == Some(ws)
  {
    hide Spell;
    if ws != [] {
      assert Speakable(ws[0]);
      var i :| 0 <= i < |VOCABULARY| && VOCABULARY[i].1 == ws[0];
      FindWordFinds(i, |VOCABULARY|);
      SpelledAsListed(i);
      assert SpellAll(ws)[1..] == SpellAll(ws[1..]);
      ReadsSpelled(ws[1..]);
      assert ws == [ws[0]] + ws[1..];
    }
  }

  /** Read a printed amount. */
  function ReadText(text: string): Option<nat> {
    match ReadAll(Split(LowerFirst(text)))
    case None => None
    case Some(ws) => ReadWords(ws)
  }

  lemma DigitSpeakable(d: nat)
    requires d < 10
    ensures Speakable(Digit(d))
  {
    assert VOCABULARY[d].1 == Digit(d);
  }

  lemma RestSpeakable()
    ensures Speakable(Lam) && Speakable(MotAfterTens) && Speakable(Tu) && Speakable(Tram) && Speakable(Ten) && Speakable(Tens)
    ensures Speakable(Linh) && Speakable(Nghin) && Speakable(Trieu) && Speakable(Ty) && Speakable(Dong)
  {
    assert VOCABULARY[10].1 == Lam && VOCABULARY[11].1 == MotAfterTens && VOCABULARY[12].1 == Tu && VOCABULARY[13].1 == Tram;
    assert VOCABULARY[14].1 == Ten && VOCABULARY[15].1 == Tens && VOCABULARY[16].1 == Linh && VOCABULARY[17].1 == Nghin;
    assert VOCABULARY[18].1 == Trieu && VOCABULARY[19].1 == Ty && VOCABULARY[20].1 == Dong;
  }

  lemma RestWordsSpeakable(rest: nat, afterHundreds: bool)
    requires rest < 100
    ensures forall i :: 0 <= i < |RestWords(rest, afterHundreds)| ==> Speakable(RestWords(rest, afterHundreds)[i])
  {
    hide Speakable, UnitsAfterTens;
    RestSpeakable();
    DigitSpeakable(rest / 10);
    DigitSpeakable(rest % 10);
    UnitsSpeakable(rest % 10, rest / 10);
  }

  lemma UnitsSpeakable(units: nat, tens: nat)
    requires units < 10
    ensures forall i :: 0 <= i < |UnitsAfterTens(units, tens)| ==> Speakable(UnitsAfterTens(units, tens)[i])
  {
    hide Speakable;
    RestSpeakable();
    DigitSpeakable(units);
  }

  lemma GroupSpeakable(n: nat, say: bool)
    requires n < 1000
    ensures forall i :: 0 <= i < |ThreeDigits(n, say)| ==> Speakable(ThreeDigits(n, say)[i])
  {
    hide Speakable, RestWords;
    RestSpeakable();
    DigitSpeakable(n / 100);
    RestWordsSpeakable(n % 100, HundredsWords(n / 100, say) != []);
  }

  lemma {:induction false} BelowSpeakable(g: seq<nat>, k: nat)
    requires k <= |g| && forall i :: 0 <= i < |g| ==> g[i] < 1000
    ensures forall i :: 0 <= i < |WordsBelow(g, k)| ==> Speakable(WordsBelow(g, k)[i])
  {
    hide Speakable, ThreeDigits;
    if k > 0 {
      RestSpeakable();
      GroupSpeakable(g[k - 1], k != |g|);
      BelowSpeakable(g, k - 1);
    }
  }

  lemma AmountSpeakable(n: nat)
    ensures Words(n) != [] && forall i :: 0 <= i < |Words(n)| ==> Speakable(Words(n)[i])
  {
    hide Speakable, WordsBelow;
    RestSpeakable();
    DigitSpeakable(0);
    BelowSpeakable(Groups(n), |Groups(n)|);
  }

  /** The first word of an amount is a number word, never the currency. */
  lemma StartsWithNumber(n: nat)
    ensures Words(n) != [] && Words(n)[0] != Dong
  {
    if n != 0 {
      var g := Groups(n);
      ReadsGroup(g[|g| - 1], true);
      GroupHasNoDong(g[|g| - 1], false);
      hide ThreeDigits;
      assert WordsBelow(g, |g|)[0] == ThreeDigits(g[|g| - 1], false)[0];
    }
  }

  lemma GroupHasNoDong(n: nat, say: bool)
    ensures forall i :: 0 <= i < |ThreeDigits(n, say)| ==> ThreeDigits(n, say)[i] != Dong
  {
  }

  lemma SpellingStart(i: nat)
    requires i < |VOCABULARY| && VOCABULARY[i].1 != Dong
    ensures VOCABULARY[i].0 != "" && 'a' <= VOCABULARY[i].0[0] <= 'z'
  {
  }

  lemma FirstSpelling(n: nat)
    ensures Words(n) != [] && Spell(Words(n)[0]) != "" && 'a' <= Spell(Words(n)[0])[0] <= 'z'
  {
    AmountSpeakable(n);
    StartsWithNumber(n);
    hide Spell, Words;
    assert Speakable(Words(n)[0]);
    var i :| 0 <= i < |VOCABULARY| && VOCABULARY[i].1 == Words(n)[0];
    SpellingStart(i);
    SpelledAsListed(i);
  }

  lemma JoinStart(words: seq<string>)
    requires words != [] && words[0] != ""
    ensures Texts.Join(" ", words) != "" && Texts.Join(" ", words)[0] == words[0][0]
  {
  }

  lemma CapitalUndone(t: string)
    requires t != "" && 'a' <= t[0] <= 'z'
    ensures LowerFirst(UpperFirst(t)) == t
  {
    assert t == [t[0]] + t[1..];
  }

  /** So capitalising the text changes one ASCII letter, and can be undone. */
  lemma TextStart(n: nat)
    ensures var t := Texts.Join(" ", SpellAll(Words(n))); t != "" && 'a' <= t[0] <= 'z' && LowerFirst(Text(n)) == t
  {
    FirstSpelling(n);
    hide Spell, Words, Texts.Join, LowerFirst, UpperFirst;
    JoinStart(SpellAll(Words(n)));
    CapitalUndone(Texts.Join(" ", SpellAll(Words(n))));
  }

  lemma SpelledWithoutSpaces(ws: seq<Word>)
    requires forall i :: 0 <= i < |ws| ==> Speakable(ws[i])
    ensures forall i :: 0 <= i < |ws| ==> NoSpace(SpellAll(ws)[i])
  {
    hide Spell;
    forall i | 0 <= i < |ws| ensures NoSpace(SpellAll(ws)[i]) {
      assert Speakable(ws[i]);
      var j :| 0 <= j < |VOCABULARY| && VOCABULARY[j].1 == ws[i];
      SpellingsHaveNoSpace(j);
      SpelledAsListed(j);
    }
  }

  /** The text is the words in small letters, but for a capital at its start. */
  lemma StartsWithCapital(n: nat)
    ensures var t := Text(n); t != "" && 'A' <= t[0] <= 'Z' && [(t[0] + 32 as char)] + t[1..] == Texts.Join(" ", SpellAll(Words(n)))
  {
    TextStart(n);
    hide Words, Texts.Join, SpellAll;
    var t := Texts.Join(" ", SpellAll(Words(n)));
    assert t == [t[0]] + t[1..];
  }

  /** Reading a printed amount gives the amount back, for every amount the printer accepts. */
  lemma ReadsText(n: nat)
    requires n < 1_000_000_000_000
    ensures ReadText(Text(n)) == Some(n)
  {
    hide Words, Spell, Texts.Join, Speakable;
    AmountSpeakable(n);
    TextStart(n);
    SpelledWithoutSpaces(Words(n));
    SplitJoin(SpellAll(Words(n)));
    ReadsSpelled(Words(n));
    ReadsAmount(n);
  }

  /** No two amounts read alike. */
  lemma TextsDiffer(m: nat, n: nat)
    requires m < 1_000_000_000_000 && n < 1_000_000_000_000 && Text(m) == Text(n)
    ensures m == n
  {
    hide Text, ReadText;
    ReadsText(m);
    ReadsText(n);
  }
}
