/**
 The fund chart: verified fund entries bucketed by local calendar day or month, with a
 running balance. Days are ordinals of the Calendar module.
 */
module FundSeries {
  import opened Wrappers
  import Calendar

  /** A fund row as the chart reads it; time in microseconds from the start of year 1, UTC. */
  datatype Entry = Entry(recordedAt: nat, amount: int)

  datatype Range = ThirtyDays | SixMonths | TwelveMonths

  datatype Point = Point(start: int, inflows: int, outflows: int, balance: int)

  /** Asia/Ho_Chi_Minh is seven hours ahead of UTC. */
  const UTC_OFFSET: nat := 7 * 3600 * Calendar.MICROS_PER_SECOND

  function LocalDay(e: Entry): (day: int)
    ensures day >= 1
  {
    (e.recordedAt + UTC_OFFSET) / Calendar.MICROS_PER_DAY + 1
  }

  // ---------------------------------------------------------------- what the numbers mean

  /** Sum of the positive (or of the other) amounts on local days lo <= day < hi. */
  function Flow(entries: seq<Entry>, lo: int, hi: int, positive: bool): int {
    if entries == [] then 0
    else
      var e := entries[|entries| - 1];
      Flow(entries[..|entries| - 1], lo, hi, positive)
      + (if lo <= LocalDay(e) < hi && (e.amount > 0) == positive then e.amount else 0)
  }

  /** Sum of every amount on days lo <= day < hi. */
  function Sum(entries: seq<Entry>, lo: int, hi: int): int {
    Flow(entries, lo, hi, true) + Flow(entries, lo, hi, false)
  }

  lemma {:induction false} FlowSplits(entries: seq<Entry>, lo: int, mid: int, hi: int, positive: bool)
    requires lo <= mid <= hi
    ensures Flow(entries, lo, hi, positive) == Flow(entries, lo, mid, positive) + Flow(entries, mid, hi, positive)
  {
    if entries != [] { FlowSplits(entries[..|entries| - 1], lo, mid, hi, positive); }
  }

  lemma SumSplits(entries: seq<Entry>, lo: int, mid: int, hi: int)
    requires lo <= mid <= hi
    ensures Sum(entries, lo, hi) == Sum(entries, lo, mid) + Sum(entries, mid, hi)
  {
    FlowSplits(entries, lo, mid, hi, true);
    FlowSplits(entries, lo, mid, hi, false);
  }

  lemma {:induction false} FlowSigns(entries: seq<Entry>, lo: int, hi: int)
    ensures Flow(entries, lo, hi, true) >= 0 && Flow(entries, lo, hi, false) <= 0
    ensures hi <= lo ==> Flow(entries, lo, hi, true) == 0 && Flow(entries, lo, hi, false) == 0
  {
    if entries != [] { FlowSigns(entries[..|entries| - 1], lo, hi); }
  }

  lemma FlowGrows(entries: seq<Entry>, m: nat, lo: int, hi: int, positive: bool)
    requires m < |entries|
    ensures Flow(entries[..m + 1], lo, hi, positive)
         == Flow(entries[..m], lo, hi, positive)
            + (if lo <= LocalDay(entries[m]) < hi && (entries[m].amount > 0) == positive then entries[m].amount else 0)
  {
    assert entries[..m + 1][..m] == entries[..m];
  }

  /** Taking one entry out of the middle takes its share out of the sum. */
  lemma {:induction false} FlowWithout(entries: seq<Entry>, i: nat, lo: int, hi: int, positive: bool)
    requires i < |entries|
    ensures Flow(entries, lo, hi, positive)
         == Flow(entries[..i] + entries[i + 1..], lo, hi, positive)
            + (if lo <= LocalDay(entries[i]) < hi && (entries[i].amount > 0) == positive then entries[i].amount else 0)
  {
    hide LocalDay;
    var n := |entries| - 1;
    if i == n {
      assert entries[..i] + entries[i + 1..] == entries[..n];
    } else {
      FlowWithout(entries[..n], i, lo, hi, positive);
      var rest := entries[..i] + entries[i + 1..];
      assert rest[..n - 1] == entries[..n][..i] + entries[..n][i + 1..];
      assert rest[n - 1] == entries[n];
    }
  }

  lemma WithoutOne(s: seq<Entry>, i: nat)
    requires i < |s|
    ensures multiset(s[..i] + s[i + 1..]) == multiset(s) - multiset{s[i]}
  {
    var rest := s[..i] + s[i + 1..];
    assert s == s[..i] + [s[i]] + s[i + 1..];
    assert multiset(s) == multiset(rest) + multiset{s[i]};
  }

  /** The order of the entries does not matter. */
  lemma {:induction false} FlowPermutes(a: seq<Entry>, b: seq<Entry>, lo: int, hi: int, positive: bool)
    requires multiset(a) == multiset(b)
    ensures Flow(a, lo, hi, positive) == Flow(b, lo, hi, positive)
    decreases |a|
  {
    if a == [] {
      assert |multiset(b)| == |b|;
    } else {
      var n := |a| - 1;
      assert a[n] in multiset(a);
      var i :| 0 <= i < |b| && b[i] == a[n];
      WithoutOne(b, i);
      WithoutOne(a, n);
      assert a[..n] + a[n + 1..] == a[..n];
      FlowPermutes(a[..n], b[..i] + b[i + 1..], lo, hi, positive);
      FlowWithout(b, i, lo, hi, positive);
    }
  }

  // ---------------------------------------------------------------- buckets

  function Buckets(range: Range): nat {
    match range
    case ThirtyDays => 30
    case SixMonths => 6
    case TwelveMonths => 12
  }

  /** The window lies in years the calendar has. */
  predicate InCalendar(range: Range, today: int) {
    && today >= 30
    && (range != ThirtyDays ==> Calendar.MonthOf(today) >= 11 + Buckets(range))
  }

  /** Where bucket i starts; bucket i ends where bucket i + 1 would start. */
  function Start(range: Range, today: int, i: nat): int
    requires InCalendar(range, today) && i <= Buckets(range)
  {
    if range == ThirtyDays then today - 29 + i
    else Calendar.MonthStart(Calendar.MonthOf(today) + 1 - Buckets(range) + i)
  }

  /** The key an entry of this day is filed under. */
  function BucketOf(range: Range, day: int): int
    requires day >= 1
  {
    if range == ThirtyDays then day else Calendar.MonthStart(Calendar.MonthOf(day))
  }

  lemma StartsIncrease(range: Range, today: int, i: nat, j: nat)
    requires InCalendar(range, today) && i < j <= Buckets(range)
    ensures 1 <= Start(range, today, i) < Start(range, today, j)
  {
    hide Calendar.MonthStart, Calendar.MonthOf;
    if range != ThirtyDays {
      var k := Calendar.MonthOf(today) + 1 - Buckets(range);
      Calendar.MonthsIncrease(k + i, k + j);
    }
  }

  /** Today is in the last bucket; consecutive buckets are one day, or exactly one calendar month, apart. */
  lemma BucketsEndNow(range: Range, today: int, i: nat)
    requires InCalendar(range, today) && i < Buckets(range)
    ensures Start(range, today, Buckets(range) - 1) <= today < Start(range, today, Buckets(range))
    ensures range == ThirtyDays ==> Start(range, today, i + 1) == Start(range, today, i) + 1
    ensures range != ThirtyDays ==>
              var k := Calendar.MonthOf(Start(range, today, i));
              && Start(range, today, i) == Calendar.MonthStart(k)
              && Start(range, today, i + 1) == Calendar.MonthStart(k + 1)
              && k == Calendar.MonthOf(today) + 1 + i - Buckets(range)
  {
    hide Calendar.MonthStart, Calendar.MonthOf;
    if range != ThirtyDays {
      var k := Calendar.MonthOf(today) + 1 - Buckets(range) + i;
      Calendar.MonthStep(k);
      Calendar.MonthOfUnique(Calendar.MonthStart(k), k);
    }
  }

  /** An entry is filed under bucket i exactly when its day lies between bucket i's start and the next one's. */
  lemma FiledByInterval(range: Range, today: int, day: int, i: nat)
    requires InCalendar(range, today) && i < Buckets(range) && day >= 1
    ensures BucketOf(range, day) == Start(range, today, i)
       <==> Start(range, today, i) <= day < Start(range, today, i + 1)
  {
    if range != ThirtyDays {
      BucketsEndNow(range, today, i);
      var k := Calendar.MonthOf(Start(range, today, i));
      Calendar.MonthStep(k);
      if Start(range, today, i) <= day < Start(range, today, i + 1) { Calendar.MonthOfUnique(day, k); }
      if BucketOf(range, day) == Start(range, today, i) {
        Calendar.MonthStep(Calendar.MonthOf(day));
        Calendar.MonthOfUnique(BucketOf(range, day), Calendar.MonthOf(day));
      }
    }
  }

  /** Every day of the window is in one bucket, and in one only. */
  lemma {:induction false} BucketExists(range: Range, today: int, day: int, n: nat) returns (i: nat)
    requires InCalendar(range, today) && n <= Buckets(range)
    requires Start(range, today, 0) <= day < Start(range, today, n)
    ensures i < n && Start(range, today, i) <= day < Start(range, today, i + 1)
    ensures forall j :: 0 <= j < Buckets(range) && Start(range, today, j) <= day < Start(range, today, j + 1) ==> j == i
  {
    if day >= Start(range, today, n - 1) {
      i := n - 1;
    } else {
      i := BucketExists(range, today, day, n - 1);
    }
    forall j | 0 <= j < Buckets(range) && Start(range, today, j) <= day < Start(range, today, j + 1) ensures j == i {
      if j < i { OneBefore(range, today, j + 1, i); }
      if i < j { OneBefore(range, today, i + 1, j); }
    }
  }

  lemma OneBefore(range: Range, today: int, i: nat, j: nat)
    requires InCalendar(range, today) && i <= j <= Buckets(range)
    ensures Start(range, today, i) <= Start(range, today, j)
  {
    if i < j { StartsIncrease(range, today, i, j); }
  }

  // ---------------------------------------------------------------- the series

  /** Bucket i: what came in and went out in it, and everything up to its end. */
  function PointAt(entries: seq<Entry>, range: Range, today: int, i: nat): Point
    requires InCalendar(range, today) && i < Buckets(range)
  {
    var lo, hi := Start(range, today, i), Start(range, today, i + 1);
    Point(lo, Flow(entries, lo, hi, true), Flow(entries, lo, hi, false), Sum(entries, 1, hi))
  }

  function Series(entries: seq<Entry>, range: Range, today: int): (r: seq<Point>)
    requires InCalendar(range, today)
    ensures |r| == Buckets(range)
    ensures forall i :: 0 <= i < |r| ==> r[i] == PointAt(entries, range, today, i)
  {
    seq(Buckets(range), i requires 0 <= i < Buckets(range) => PointAt(entries, range, today, i))
  }

  // ---------------------------------------------------------------- the series in instants

  /** The instant at which a day begins in Ho Chi Minh City, seven hours before it does in UTC. */
  ghost function Midnight(day: int): int { (day - 1) * 86_400_000_000 - 25_200_000_000 }

  /** Sum of the positive (or of the other) amounts recorded at instants from <= t < to. */
  ghost function Recorded(entries: seq<Entry>, from: int, to: int, positive: bool): int {
    if entries == [] then 0
    else
      var e := entries[|entries| - 1];
      Recorded(entries[..|entries| - 1], from, to, positive)
      + (if from <= e.recordedAt < to && (e.amount > 0) == positive then e.amount else 0)
  }

  lemma DayBegins(e: Entry, day: int)
    ensures day <= LocalDay(e) <==> Midnight(day) <= e.recordedAt
  {
  }

  lemma {:induction false} FlowByInstants(entries: seq<Entry>, lo: int, hi: int, positive: bool)
    ensures Flow(entries, lo, hi, positive) == Recorded(entries, Midnight(lo), Midnight(hi), positive)
  {
    if entries != [] {
      var n := |entries| - 1;
      FlowByInstants(entries[..n], lo, hi, positive);
      DayBegins(entries[n], lo);
      DayBegins(entries[n], hi);
      hide LocalDay, Midnight;
    }
  }

  /**
   The chart in terms of the instants at which entries were recorded: thirty local days, or six or twelve months, up to today's; each
   point shows what was recorded between its first midnight and the next one's, and the balance of all that was recorded before that.
   */
  lemma ChartByInstants(entries: seq<Entry>, range: Range, today: int, i: nat)
    requires InCalendar(range, today) && i < |Series(entries, range, today)|
    ensures |Series(entries, range, today)| == (if range == ThirtyDays then 30 else if range == SixMonths then 6 else 12)
    ensures var p, n := Series(entries, range, today)[i], |Series(entries, range, today)|;
            var next := if i + 1 < n then Series(entries, range, today)[i + 1].start else Start(range, today, n);
            && p.inflows == Recorded(entries, Midnight(p.start), Midnight(next), true)
            && p.outflows == Recorded(entries, Midnight(p.start), Midnight(next), false)
            && p.balance == Recorded(entries, -25_200_000_000, Midnight(next), true) + Recorded(entries, -25_200_000_000, Midnight(next), false)
  {
    hide Start, Recorded, Flow;
    var lo, hi := Start(range, today, i), Start(range, today, i + 1);
    assert Midnight(1) == -25_200_000_000;
    hide Midnight;
    FlowByInstants(entries, lo, hi, true);
    FlowByInstants(entries, lo, hi, false);
    FlowByInstants(entries, 1, hi, true);
    FlowByInstants(entries, 1, hi, false);
  }

  lemma FirstOfMonth(year: nat, month: nat, k: nat)
    requires 1 <= month <= 12 && k == 12 * year + month - 1 && k >= 12
    ensures Calendar.ValidDate(Calendar.Date(year, month, 1))
    ensures Calendar.ToOrdinal(Calendar.Date(year, month, 1)) == Calendar.MonthStart(k)
  {
  }

  lemma TodaysMonth(today: int)
    requires today >= 1
    ensures var date := Calendar.FromOrdinal(today);
            1 <= date.month <= 12 && 12 * date.year + date.month - 1 == Calendar.MonthOf(today)
  {
  }

  /** The first days of this month and the ones before it: collected newest first, then reversed. */
  method MonthStarts(months: nat, today: int) returns (starts: seq<int>)
    requires today >= 1 && Calendar.MonthOf(today) >= 11 + months
    ensures |starts| == months
    ensures forall i :: 0 <= i < months ==> starts[i] == Calendar.MonthStart(Calendar.MonthOf(today) + 1 - months + i)
  {
    hide Calendar.MonthStart, Calendar.MonthOf, Calendar.FromOrdinal, Calendar.ToOrdinal, Calendar.ValidDate;
    TodaysMonth(today);
    ghost var k := Calendar.MonthOf(today);
    var date := Calendar.FromOrdinal(today);
    var year, month := date.year, date.month;
    starts := [];
    for m := 0 to months
      invariant 1 <= month <= 12 && 12 * year + month - 1 == k - m
      invariant |starts| == m && forall i :: 0 <= i < m ==> starts[i] == Calendar.MonthStart(k - i)
    {
      FirstOfMonth(year, month, k - m);
      starts := starts + [Calendar.ToOrdinal(Calendar.Date(year, month, 1))];
      month := month - 1;
      if month == 0 { year, month := year - 1, 12; }
    }
    starts := seq(months, i requires 0 <= i < months => starts[months - 1 - i]);
  }

  /** The window's starts, oldest first. */
  method BucketStarts(range: Range, today: int) returns (starts: seq<int>)
    requires InCalendar(range, today)
    ensures |starts| == Buckets(range)
    ensures forall i :: 0 <= i < |starts| ==> starts[i] == Start(range, today, i)
  {
    hide Calendar.MonthOf, Calendar.MonthStart;
    if range != ThirtyDays {
      starts := MonthStarts(Buckets(range), today);
      return;
    }
    starts := [];
    var offset := 29;
    while offset >= 0
      invariant -1 <= offset <= 29 && |starts| == 29 - offset
      invariant forall i :: 0 <= i < |starts| ==> starts[i] == today - 29 + i
    {
      starts := starts + [today - offset];
      offset := offset - 1;
    }
  }

  /** The slots hold the flows of their buckets. */
  ghost predicate Filed(entries: seq<Entry>, range: Range, today: int, flows: map<int, (int, int)>)
    requires InCalendar(range, today)
  {
    forall i :: 0 <= i < Buckets(range) ==>
      Start(range, today, i) in flows && flows[Start(range, today, i)] == SlotOf(entries, range, today, i)
  }

  ghost function SlotOf(entries: seq<Entry>, range: Range, today: int, i: nat): (int, int)
    requires InCalendar(range, today) && i < Buckets(range)
  {
    (Flow(entries, Start(range, today, i), Start(range, today, i + 1), true),
     Flow(entries, Start(range, today, i), Start(range, today, i + 1), false))
  }

  /** Add an amount to the slot of a bucket, if it has one. */
  function File(flows: map<int, (int, int)>, key: int, amount: int): map<int, (int, int)> {
    if key !in flows then flows
    else flows[key := if amount > 0 then (flows[key].0 + amount, flows[key].1) else (flows[key].0, flows[key].1 + amount)]
  }

  /** One entry's effect on the slot of bucket i. */
  lemma SlotGrows(entries: seq<Entry>, m: nat, range: Range, today: int, i: nat)
    requires InCalendar(range, today) && m < |entries| && i < Buckets(range)
    ensures var s, a := SlotOf(entries[..m], range, today, i), entries[m].amount;
            SlotOf(entries[..m + 1], range, today, i) ==
            if BucketOf(range, LocalDay(entries[m])) != Start(range, today, i) then s
            else if a > 0 then (s.0 + a, s.1) else (s.0, s.1 + a)
  {
    hide Start, BucketOf, LocalDay;
    FiledByInterval(range, today, LocalDay(entries[m]), i);
    FlowGrows(entries, m, Start(range, today, i), Start(range, today, i + 1), true);
    FlowGrows(entries, m, Start(range, today, i), Start(range, today, i + 1), false);
  }

  /** Filing the next entry: into its slot if it has one, nowhere otherwise. */
  lemma FiledNext(entries: seq<Entry>, m: nat, range: Range, today: int, flows: map<int, (int, int)>)
    requires InCalendar(range, today) && m < |entries| && Filed(entries[..m], range, today, flows)
    ensures Filed(entries[..m + 1], range, today, File(flows, BucketOf(range, LocalDay(entries[m])), entries[m].amount))
  {
    hide Start, BucketOf, LocalDay, SlotOf;
    forall i | 0 <= i < Buckets(range)
      ensures Start(range, today, i) in flows && flows[Start(range, today, i)] == SlotOf(entries[..m], range, today, i)
      ensures var s, a := SlotOf(entries[..m], range, today, i), entries[m].amount;
              SlotOf(entries[..m + 1], range, today, i) ==
              if BucketOf(range, LocalDay(entries[m])) != Start(range, today, i) then s
              else if a > 0 then (s.0 + a, s.1) else (s.0, s.1 + a)
    {
      SlotGrows(entries, m, range, today, i);
    }
  }

  /** Nothing dated before the window has a slot. */
  lemma EarlierHasNoSlot(range: Range, today: int, day: int, i: nat)
    requires InCalendar(range, today) && i < Buckets(range) && 1 <= day < Start(range, today, 0)
    ensures BucketOf(range, day) != Start(range, today, i)
  {
    hide Start, BucketOf;
    FiledByInterval(range, today, day, i);
    OneBefore(range, today, 0, i);
  }

  lemma NothingFiled(range: Range, today: int, flows: map<int, (int, int)>)
    requires InCalendar(range, today)
    requires forall i :: 0 <= i < Buckets(range) ==> Start(range, today, i) in flows && flows[Start(range, today, i)] == (0, 0)
    ensures Filed([], range, today, flows) && Sum([], 1, Start(range, today, 0)) == 0
  {
  }

  /** The filing loop: slots for the window, and the sum of everything before it. */
  method FileEntries(entries: seq<Entry>, range: Range, today: int, starts: seq<int>)
    returns (flows: map<int, (int, int)>, balance: int)
    requires InCalendar(range, today) && |starts| == Buckets(range)
    requires forall i :: 0 <= i < |starts| ==> starts[i] == Start(range, today, i)
    ensures Filed(entries, range, today, flows)
    ensures balance == Sum(entries, 1, Start(range, today, 0))
  {
    hide Start, BucketOf, LocalDay, SlotOf, Filed, Flow;
    flows := map s | s in starts :: (0, 0);
    balance := 0;
    NothingFiled(range, today, flows);
    for m := 0 to |entries|
      invariant flows.Keys == (set s | s in starts)
      invariant Filed(entries[..m], range, today, flows)
      invariant balance == Sum(entries[..m], 1, starts[0])
    {
      var day := LocalDay(entries[m]);
      FlowGrows(entries, m, 1, starts[0], true);
      FlowGrows(entries, m, 1, starts[0], false);
      FiledNext(entries, m, range, today, flows);
      if day < starts[0] {
        forall i | 0 <= i < |starts| ensures BucketOf(range, day) != starts[i] { EarlierHasNoSlot(range, today, day, i); }
        balance := balance + entries[m].amount;
      } else if BucketOf(range, day) in flows {
        var slot := flows[BucketOf(range, day)];
        flows := flows[BucketOf(range, day) :=
          if entries[m].amount > 0 then (slot.0 + entries[m].amount, slot.1) else (slot.0, slot.1 + entries[m].amount)];
      }
    }
    assert entries[..|entries|] == entries;
  }

  lemma NextBalance(entries: seq<Entry>, range: Range, today: int, flows: map<int, (int, int)>, i: nat)
    requires InCalendar(range, today) && Filed(entries, range, today, flows) && i < Buckets(range)
    ensures Start(range, today, i) in flows
    ensures var slot := flows[Start(range, today, i)];
            PointAt(entries, range, today, i)
            == Point(Start(range, today, i), slot.0, slot.1, Sum(entries, 1, Start(range, today, i)) + slot.0 + slot.1)
    ensures PointAt(entries, range, today, i).balance == Sum(entries, 1, Start(range, today, i + 1))
  {
    StartsIncrease(range, today, i, i + 1);
    hide Start, Flow;
    SumSplits(entries, 1, Start(range, today, i), Start(range, today, i + 1));
  }

  /** The two loops compute the series. */
  method FundSeriesFromEntries(entries: seq<Entry>, range: Range, today: int) returns (series: seq<Point>)
    requires InCalendar(range, today)
    ensures series == Series(entries, range, today)
  {
    hide Start, Filed, Flow, PointAt;
    var starts := BucketStarts(range, today);
    var flows, balance := FileEntries(entries, range, today, starts);
    series := [];
    for i := 0 to |starts|
      invariant |series| == i
      invariant balance == Sum(entries, 1, Start(range, today, i))
      invariant forall j :: 0 <= j < i ==> series[j] == PointAt(entries, range, today, j)
    {
      NextBalance(entries, range, today, flows, i);
      var slot := flows[starts[i]];
      balance := balance + slot.0 + slot.1;
      series := series + [Point(starts[i], slot.0, slot.1, balance)];
    }
  }

  // ---------------------------------------------------------------- conservation

  /** Balances chain: each is the one before plus the bucket's own flows, and the first starts from everything earlier. */
  lemma BalancesChain(entries: seq<Entry>, range: Range, today: int, i: nat)
    requires InCalendar(range, today) && i < Buckets(range)
    ensures var s := Series(entries, range, today);
            s[i].balance == s[i].inflows + s[i].outflows
                            + (if i == 0 then Sum(entries, 1, Start(range, today, 0)) else s[i - 1].balance)
  {
    StartsIncrease(range, today, i, i + 1);
    SumSplits(entries, 1, Start(range, today, i), Start(range, today, i + 1));
  }

  function Total(entries: seq<Entry>): int {
    if entries == [] then 0 else Total(entries[..|entries| - 1]) + entries[|entries| - 1].amount
  }

  lemma {:induction false} TotalSplits(entries: seq<Entry>, day: int, end: int)
    requires 1 <= day <= end && forall i :: 0 <= i < |entries| ==> LocalDay(entries[i]) < end
    ensures Total(entries) == Sum(entries, 1, day) + Sum(entries, day, end)
  {
    if entries != [] { TotalSplits(entries[..|entries| - 1], day, end); }
  }

  /** The last balance is the fund's total exactly when the entries dated past the window cancel out. */
  lemma LastBalanceIsTotal(entries: seq<Entry>, range: Range, today: int, end: int)
    requires InCalendar(range, today) && Start(range, today, Buckets(range)) <= end
    requires forall i :: 0 <= i < |entries| ==> LocalDay(entries[i]) < end
    ensures Series(entries, range, today)[Buckets(range) - 1].balance == Total(entries)
       <==> Sum(entries, Start(range, today, Buckets(range)), end) == 0
  {
    StartsIncrease(range, today, 0, Buckets(range));
    TotalSplits(entries, Start(range, today, Buckets(range)), end);
  }

  /** So it is for entries dated no later than today, as the services date them. */
  lemma LastBalanceOfPast(entries: seq<Entry>, range: Range, today: int)
    requires InCalendar(range, today) && forall i :: 0 <= i < |entries| ==> LocalDay(entries[i]) <= today
    ensures Series(entries, range, today)[Buckets(range) - 1].balance == Total(entries)
  {
    BucketsEndNow(range, today, 0);
    var end := Start(range, today, Buckets(range));
    LastBalanceIsTotal(entries, range, today, end);
    FlowSigns(entries, end, end);
  }

  lemma DatedOn(day: int) returns (e: Entry)
    requires day >= 2
    ensures LocalDay(e) == day && e.amount == 1
  {
    e := Entry((day - 1) * Calendar.MICROS_PER_DAY - UTC_OFFSET, 1);
    assert e.recordedAt + UTC_OFFSET == (day - 1) * Calendar.MICROS_PER_DAY;
  }

  lemma SumOfOne(e: Entry, lo: int, hi: int)
    requires e.amount == 1 && lo <= LocalDay(e) < hi
    ensures Sum([e], lo, hi) == 1
  {
    hide LocalDay;
    FlowGrows([e], 0, lo, hi, true);
    FlowGrows([e], 0, lo, hi, false);
    assert [e][..1] == [e];
  }

  /** And it is not for a single entry on the first day past the window, whatever the range and the day. */
  lemma FutureEntryIsMissing(range: Range, today: int) returns (e: Entry)
    requires InCalendar(range, today)
    ensures LocalDay(e) == Start(range, today, Buckets(range))
    ensures Series([e], range, today)[Buckets(range) - 1].balance != Total([e])
  {
    BucketsEndNow(range, today, 0);
    hide Start, LocalDay, Sum, InCalendar, Total, PointAt;
    var end := Start(range, today, Buckets(range));
    e := DatedOn(end);
    SumOfOne(e, end, end + 1);
    LastBalanceIsTotal([e], range, today, end + 1);
  }

  /** The chart does not depend on the order of the rows. */
  lemma SeriesPermutes(a: seq<Entry>, b: seq<Entry>, range: Range, today: int)
    requires InCalendar(range, today) && multiset(a) == multiset(b)
    ensures Series(a, range, today) == Series(b, range, today)
  {
    forall i | 0 <= i < Buckets(range) ensures PointAt(a, range, today, i) == PointAt(b, range, today, i) {
      var lo, hi := Start(range, today, i), Start(range, today, i + 1);
      FlowPermutes(a, b, lo, hi, true);
      FlowPermutes(a, b, lo, hi, false);
      FlowPermutes(a, b, 1, hi, true);
      FlowPermutes(a, b, 1, hi, false);
    }
  }

  /** The twelve-month chart ends with the six-month chart. */
  lemma YearEndsWithHalfYear(entries: seq<Entry>, today: int)
    requires InCalendar(TwelveMonths, today)
    ensures InCalendar(SixMonths, today)
    ensures Series(entries, TwelveMonths, today)[6..] == Series(entries, SixMonths, today)
  {
    forall i | 0 <= i <= 6 ensures Start(TwelveMonths, today, i + 6) == Start(SixMonths, today, i) { }
    forall i | 0 <= i < 6
      ensures Series(entries, TwelveMonths, today)[i + 6] == Series(entries, SixMonths, today)[i] { }
  }
}
