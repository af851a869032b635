/** The month calendar of fund flows: a grid of whole weeks, shaded by how much was spent. */
module FundCalendar {
  import opened Wrappers
  import opened FundSeries
  import Calendar

  datatype Cell = Cell(date: int, day: nat, inflows: int, outflows: int, level: int, isToday: bool, isFuture: bool)

  datatype MonthGrid = MonthGrid(month: int, topDays: seq<Cell>, weeks: seq<seq<Option<Cell>>>, inflows: int, outflows: int)

  // ---------------------------------------------------------------- what the grid shows

  function First(today: int): int
    requires today >= 1
  {
    Calendar.MonthStart(Calendar.MonthOf(today))
  }

  function Next(today: int): (day: int)
    requires today >= 1
    ensures First(today) + 28 <= day <= First(today) + 31
  {
    Calendar.MonthStep(Calendar.MonthOf(today));
    Calendar.MonthStart(Calendar.MonthOf(today) + 1)
  }

  /** What came in (or went out) on one day. */
  function DayFlow(entries: seq<Entry>, day: int, positive: bool): int { Flow(entries, day, day + 1, positive) }

  function Spent(entries: seq<Entry>, day: int): (spent: int)
    ensures spent >= 0
  {
    FlowSigns(entries, day, day + 1);
    -DayFlow(entries, day, false)
  }

  /** The month's largest daily spend up to (not including) a day. */
  function PeakBefore(entries: seq<Entry>, lo: int, hi: int): (peak: int)
    ensures peak >= 0
    ensures forall d :: lo <= d < hi ==> Spent(entries, d) <= peak
    ensures peak > 0 ==> exists d :: lo <= d < hi && Spent(entries, d) == peak
    decreases hi - lo
  {
    if hi <= lo then 0
    else
      var p := PeakBefore(entries, lo, hi - 1);
      if Spent(entries, hi - 1) > p then Spent(entries, hi - 1) else p
  }

  /** Shade of a day: quarters of the peak, rounded up. */
  function Level(spent: int, peak: int): int
    requires 0 <= spent <= peak
  {
    if spent == 0 then 0
    else
      var quarters := -((-4 * spent) / peak);
      if quarters < 1 then 1 else quarters
  }

  /** Levels lie in 0..4, follow the spending, are 0 only when nothing was spent and 4 on the peak day. */
  lemma LevelRanks(a: int, b: int, peak: int)
    requires 0 <= a <= b <= peak
    ensures 0 <= Level(a, peak) <= Level(b, peak) <= 4
    ensures Level(a, peak) == 0 <==> a == 0
    ensures peak > 0 ==> Level(peak, peak) == 4
    ensures a > 0 ==> Level(a, peak) == if 4 * a <= peak then 1 else if 4 * a <= 2 * peak then 2 else if 4 * a <= 3 * peak then 3 else 4
  {
    if a > 0 { Quarters(a, peak); }
    if b > 0 { Quarters(b, peak); }
    if peak > 0 { Quarters(peak, peak); }
  }

  /** The rounded-up quotient is the number of quarters needed to reach the spend. */
  lemma Quarters(spent: int, peak: int)
    requires 0 < spent <= peak
    ensures var q := -((-4 * spent) / peak);
            1 <= q <= 4 && (q - 1) * peak < 4 * spent <= q * peak
  {
    var d := (-4 * spent) / peak;
    var r := (-4 * spent) % peak;
    assert -4 * spent == d * peak + r && 0 <= r < peak;
    Bounds(-d, r, spent, peak);
    assert (-d - 1) * peak == -(d * peak) - peak;
  }

  lemma Bounds(q: int, r: int, spent: int, peak: int)
    requires 0 < spent <= peak && 0 <= r < peak && 4 * spent == q * peak - r
    ensures 1 <= q <= 4
  {
    assert q <= 0 ==> q * peak <= 0;
    assert q >= 5 ==> q * peak >= 5 * peak;
  }

  function CellOf(entries: seq<Entry>, today: int, day: int): Cell
    requires today >= 1 && First(today) <= day < Next(today)
  {
    Cell(day, day - First(today) + 1, DayFlow(entries, day, true), DayFlow(entries, day, false),
         Level(Spent(entries, day), PeakBefore(entries, First(today), Next(today))), day == today, day > today)
  }

  /** The quarters of the peak that a spend reaches into. */
  ghost predicate Shade(level: int, spent: int, peak: int) {
    if spent == 0 then level == 0 else 1 <= level <= 4 && (level - 1) * peak < 4 * spent <= level * peak
  }

  /**
   What the cell of a day shows: its date's day of the month, what was recorded between its midnight and the next, how that compares with
   the largest spend of the month, and whether it is today or still to come.
   */
  lemma CellShows(entries: seq<Entry>, today: int, day: int, peak: int)
    requires today >= 1 && First(today) <= day < Next(today)
    requires forall d :: First(today) <= d < Next(today) ==> -Recorded(entries, Midnight(d), Midnight(d + 1), false) <= peak
    requires peak == 0 || exists d :: First(today) <= d < Next(today) && -Recorded(entries, Midnight(d), Midnight(d + 1), false) == peak
    ensures var c := CellOf(entries, today, day);
            && c.date == day && day >= 1 && c.day == Calendar.FromOrdinal(day).day
            && c.inflows == Recorded(entries, Midnight(day), Midnight(day + 1), true)
            && c.outflows == Recorded(entries, Midnight(day), Midnight(day + 1), false)
            && Shade(c.level, -c.outflows, peak)
            && (c.isToday <==> day == today) && (c.isFuture <==> day > today)
  {
    FlowByInstants(entries, day, day + 1, true);
    FlowByInstants(entries, day, day + 1, false);
    DayInMonth(today, day);
    PeakIs(entries, today, peak);
    hide Recorded, Midnight, Flow, First, Next, PeakBefore, Level, Shade, Calendar.FromOrdinal;
    LevelShades(Spent(entries, day), peak);
  }

  lemma LevelShades(spent: int, peak: int)
    requires 0 <= spent <= peak
    ensures Shade(Level(spent, peak), spent, peak)
  {
    if spent != 0 { Quarters(spent, peak); }
  }

  lemma PeakIs(entries: seq<Entry>, today: int, peak: int)
    requires today >= 1
    requires forall d :: First(today) <= d < Next(today) ==> -Recorded(entries, Midnight(d), Midnight(d + 1), false) <= peak
    requires peak == 0 || exists d :: First(today) <= d < Next(today) && -Recorded(entries, Midnight(d), Midnight(d + 1), false) == peak
    ensures PeakBefore(entries, First(today), Next(today)) == peak
  {
    forall d ensures Spent(entries, d) == -Recorded(entries, Midnight(d), Midnight(d + 1), false) { FlowByInstants(entries, d, d + 1, false); }
    hide Recorded, Midnight, Spent, First, Next, Flow;
    var lo, hi := First(today), Next(today);
    var p := PeakBefore(entries, lo, hi);
    FirstDay(today);
    assert Spent(entries, lo) == -Recorded(entries, Midnight(lo), Midnight(lo + 1), false);
    if p > 0 {
      var d :| lo <= d < hi && Spent(entries, d) == p;
      assert -Recorded(entries, Midnight(d), Midnight(d + 1), false) == p;
    }
    if peak != 0 {
      var d :| lo <= d < hi && -Recorded(entries, Midnight(d), Midnight(d + 1), false) == peak;
      assert 0 <= Spent(entries, d) <= p;
    }
  }

  lemma FirstDay(today: int)
    requires today >= 1
    ensures First(today) < Next(today)
  {
  }

  lemma DayInMonth(today: int, day: int)
    requires today >= 1 && First(today) <= day < Next(today)
    ensures day >= 1 && Calendar.FromOrdinal(day).day == day - First(today) + 1
  {
    Calendar.MonthOfUnique(day, Calendar.MonthOf(today));
  }

  /** Blank cells before the first, one cell a day, and blanks up to a whole week. */
  function GridLength(today: int): nat
    requires today >= 1
  {
    var used := Calendar.Weekday(First(today)) + Next(today) - First(today);
    used + (-used) % 7
  }

  function Grid(entries: seq<Entry>, today: int): (r: seq<Option<Cell>>)
    requires today >= 1
    ensures |r| == GridLength(today)
    ensures forall i :: 0 <= i < |r| ==> r[i] == GridAt(entries, today, i)
  {
    seq(GridLength(today), i requires 0 <= i < GridLength(today) => GridAt(entries, today, i))
  }

  function GridAt(entries: seq<Entry>, today: int, i: nat): Option<Cell>
    requires today >= 1
  {
    var day := First(today) + i - Calendar.Weekday(First(today));
    if First(today) <= day < Next(today) then Some(CellOf(entries, today, day)) else None
  }

  function Weeks(cells: seq<Option<Cell>>): (r: seq<seq<Option<Cell>>>)
    requires |cells| % 7 == 0
    ensures |r| == |cells| / 7
    ensures forall i :: 0 <= i < |r| ==> r[i] == cells[7 * i..7 * i + 7]
  {
    seq(|cells| / 7, i requires 0 <= i < |cells| / 7 => cells[7 * i..7 * i + 7])
  }

  lemma WholeWeeks(today: int)
    requires today >= 1
    ensures GridLength(today) % 7 == 0
    ensures Calendar.Weekday(First(today)) + Next(today) - First(today) <= GridLength(today)
  {
  }

  /** Every row is a week of seven, and each day of the month stands once in the grid, in its weekday's column. */
  lemma DaysInTheirColumns(entries: seq<Entry>, today: int, day: int)
    requires today >= 1 && First(today) <= day < Next(today)
    ensures GridLength(today) % 7 == 0
    ensures var weeks, at := Weeks(Grid(entries, today)), Calendar.Weekday(First(today)) + day - First(today);
            && (forall i :: 0 <= i < |weeks| ==> |weeks[i]| == 7)
            && at / 7 < |weeks| && at % 7 == Calendar.Weekday(day)
            && weeks[at / 7][at % 7] == Some(CellOf(entries, today, day))
            && forall i, j :: 0 <= i < |weeks| && 0 <= j < 7 && weeks[i][j].Some? && weeks[i][j].value.date == day ==>
                 i == at / 7 && j == at % 7
  {
    WholeWeeks(today);
    var cells, at := Grid(entries, today), Calendar.Weekday(First(today)) + day - First(today);
    ColumnOf(First(today), day);
    forall i, j | 0 <= i < |Weeks(cells)| && 0 <= j < 7 ensures Weeks(cells)[i][j] == GridAt(entries, today, 7 * i + j) {
      assert Weeks(cells)[i][j] == cells[7 * i + j];
    }
  }

  lemma ColumnOf(first: int, day: int)
    requires first <= day
    ensures (Calendar.Weekday(first) + day - first) % 7 == Calendar.Weekday(day)
  {
  }

  // ---------------------------------------------------------------- top days

  /** `sorted` by (outflows, date): the largest spend first, as outflows are negative. */
  predicate Before(a: Cell, b: Cell) { a.outflows < b.outflows || (a.outflows == b.outflows && a.date <= b.date) }

  function Insert(c: Cell, sorted: seq<Cell>): (r: seq<Cell>)
    ensures multiset(r) == multiset(sorted) + multiset{c}
  {
    if sorted == [] then [c]
    else if Before(c, sorted[0]) then [c] + sorted
    else
      assert sorted == [sorted[0]] + sorted[1..];
      [sorted[0]] + Insert(c, sorted[1..])
  }

  function SortBySpend(cells: seq<Cell>): (r: seq<Cell>)
    ensures multiset(r) == multiset(cells)
  {
    if cells == [] then []
    else
      var n := |cells| - 1;
      assert cells == cells[..n] + [cells[n]];
      Insert(cells[n], SortBySpend(cells[..n]))
  }

  ghost predicate Ordered(cells: seq<Cell>) { forall i, j :: 0 <= i <= j < |cells| ==> Before(cells[i], cells[j]) }

  lemma {:induction false} InsertOrdered(c: Cell, sorted: seq<Cell>)
    requires Ordered(sorted)
    ensures Ordered(Insert(c, sorted))
  {
    if sorted != [] && !Before(c, sorted[0]) {
      InsertOrdered(c, sorted[1..]);
      var rest := Insert(c, sorted[1..]);
      forall i | 0 <= i < |rest| ensures Before(sorted[0], rest[i]) {
        assert rest[i] in multiset(rest);
        assert rest[i] in multiset(sorted[1..]) + multiset{c};
      }
    }
  }

  lemma {:induction false} SortOrdered(cells: seq<Cell>)
    ensures Ordered(SortBySpend(cells))
  {
    if cells != [] {
      SortOrdered(cells[..|cells| - 1]);
      InsertOrdered(cells[|cells| - 1], SortBySpend(cells[..|cells| - 1]));
    }
  }

  /** The cells with spending, in calendar order. */
  function SpentCells(cells: seq<Option<Cell>>): seq<Cell> {
    if cells == [] then []
    else
      var c := cells[|cells| - 1];
      SpentCells(cells[..|cells| - 1]) + (if c.Some? && c.value.outflows != 0 then [c.value] else [])
  }

  lemma {:induction false} SpentCellsAre(cells: seq<Option<Cell>>, c: Cell)
    ensures c in SpentCells(cells) <==> Some(c) in cells && c.outflows != 0
  {
    if cells != [] {
      SpentCellsAre(cells[..|cells| - 1], c);
      assert cells == cells[..|cells| - 1] + [cells[|cells| - 1]];
    }
  }

  function TopDays(cells: seq<Option<Cell>>): seq<Cell> {
    var sorted := SortBySpend(SpentCells(cells));
    if |sorted| <= 3 then sorted else sorted[..3]
  }

  /**
   At most three cells, largest spend first, each of them a cell of the grid with spending and none shown more
   often than it stands there. Fewer than three are all there are; otherwise no cell left out comes before one shown.
   */
  lemma TopDaysAreLargest(cells: seq<Option<Cell>>)
    ensures var top := TopDays(cells);
            && |top| <= 3 && Ordered(top)
            && (forall c :: c in top ==> Some(c) in cells && c.outflows != 0)
            && multiset(top) <= multiset(SpentCells(cells))
            && (|top| < 3 ==> multiset(top) == multiset(SpentCells(cells)))
            && (forall c :: Some(c) in cells && c.outflows != 0 && c !in top ==>
                  |top| == 3 && forall i :: 0 <= i < |top| ==> Before(top[i], c))
  {
    var spent, top := SpentCells(cells), TopDays(cells);
    var sorted := SortBySpend(spent);
    SortOrdered(spent);
    FirstThree(sorted, top);
    hide SortBySpend, TopDays, Ordered, Before;
    forall c: Cell ensures c in sorted <==> Some(c) in cells && c.outflows != 0 {
      SpentCellsAre(cells, c);
      assert c in multiset(sorted) <==> c in multiset(spent);
    }
    hide SpentCells;
  }

  /** The first three of an ordered list. */
  lemma FirstThree(sorted: seq<Cell>, top: seq<Cell>)
    requires Ordered(sorted) && top == if |sorted| <= 3 then sorted else sorted[..3]
    ensures |top| <= 3 && Ordered(top) && multiset(top) <= multiset(sorted) && (|top| < 3 ==> top == sorted)
    ensures forall c :: c in top ==> c in sorted
    ensures forall c :: c in sorted && c !in top ==> |top| == 3 && forall i :: 0 <= i < |top| ==> Before(top[i], c)
  {
    hide Before;
    assert sorted == top + sorted[|top|..];
    forall c | c in sorted && c !in top ensures |top| == 3 && forall i :: 0 <= i < |top| ==> Before(top[i], c) {
      var j :| 0 <= j < |sorted| && sorted[j] == c;
      assert forall i :: 0 <= i < |top| ==> top[i] == sorted[i];
    }
  }

  ghost predicate OneEach(cells: seq<Cell>) { forall i, j :: 0 <= i < j < |cells| ==> cells[i].date != cells[j].date }

  ghost predicate DatesDiffer(cells: seq<Option<Cell>>) {
    forall i, j :: 0 <= i < j < |cells| && cells[i].Some? && cells[j].Some? ==> cells[i].value.date != cells[j].value.date
  }

  lemma {:induction false} SpentOnceADay(cells: seq<Option<Cell>>)
    requires DatesDiffer(cells)
    ensures OneEach(SpentCells(cells))
  {
    if cells != [] {
      var n := |cells| - 1;
      var init := SpentCells(cells[..n]);
      SpentOnceADay(cells[..n]);
      forall i | 0 <= i < |init| && cells[n].Some? ensures init[i].date != cells[n].value.date {
        SpentCellsAre(cells[..n], init[i]);
        assert Some(init[i]) in cells[..n];
      }
    }
  }

  lemma Twice<T>(s: seq<T>, i: nat, j: nat)
    requires i < j < |s| && s[i] == s[j]
    ensures multiset(s)[s[i]] >= 2
  {
    assert s == s[..j] + s[j..];
    assert s[i] in s[..j] && s[j] in s[j..];
  }

  lemma {:induction false} OnceEach(cells: seq<Cell>, c: Cell)
    requires OneEach(cells)
    ensures multiset(cells)[c] <= 1
  {
    if cells != [] {
      var n := |cells| - 1;
      OnceEach(cells[..n], c);
      assert cells == cells[..n] + [cells[n]];
      assert cells[n] !in cells[..n];
    }
  }

  /** Part of a list of different days, in any order. */
  lemma PartOneEach(part: seq<Cell>, cells: seq<Cell>)
    requires OneEach(cells) && multiset(part) <= multiset(cells)
    ensures OneEach(part)
  {
    forall i, j | 0 <= i < j < |part| ensures part[i].date != part[j].date {
      assert part[i] in multiset(part) && part[j] in multiset(part);
      if part[i] == part[j] {
        Twice(part, i, j);
        OnceEach(cells, part[i]);
      }
    }
  }

  lemma GridDatesDiffer(entries: seq<Entry>, today: int)
    requires today >= 1
    ensures DatesDiffer(Grid(entries, today))
  {
    hide Calendar.MonthStart, Calendar.MonthOf, Calendar.Weekday, Level, DayFlow, PeakBefore, Spent;
  }

  lemma GridCells(entries: seq<Entry>, today: int, c: Cell)
    requires today >= 1 && Some(c) in Grid(entries, today)
    ensures First(today) <= c.date < Next(today) && c == CellOf(entries, today, c.date) && c.outflows == -Spent(entries, c.date)
  {
    hide Calendar.MonthStart, Calendar.MonthOf, Calendar.Weekday, Level, PeakBefore;
    var i :| 0 <= i < |Grid(entries, today)| && Grid(entries, today)[i] == Some(c);
    assert GridAt(entries, today, i) == Some(c);
  }

  lemma InGrid(entries: seq<Entry>, today: int, day: int)
    requires today >= 1 && First(today) <= day < Next(today)
    ensures Some(CellOf(entries, today, day)) in Grid(entries, today)
    ensures CellOf(entries, today, day).date == day
  {
    WholeWeeks(today);
    var at := Calendar.Weekday(First(today)) + day - First(today);
    assert Grid(entries, today)[at] == GridAt(entries, today, at);
  }

  /** Day is one of the days shown as the month's largest. */
  ghost predicate Shown(entries: seq<Entry>, today: int, day: int)
    requires today >= 1 && First(today) <= day < Next(today)
  {
    CellOf(entries, today, day) in TopDays(Grid(entries, today))
  }

  /** More was spent on the one day, or as much and earlier. */
  ghost predicate Outspends(entries: seq<Entry>, a: int, b: int) {
    Spent(entries, a) > Spent(entries, b) || (Spent(entries, a) == Spent(entries, b) && a < b)
  }

  lemma ShownOutspends(entries: seq<Entry>, today: int, c: Cell, day: int)
    requires today >= 1 && First(today) <= day < Next(today) && Some(c) in Grid(entries, today)
    requires Before(c, CellOf(entries, today, day)) && c != CellOf(entries, today, day)
    ensures Outspends(entries, c.date, day)
  {
    GridCells(entries, today, c);
    InGrid(entries, today, day);
    GridCells(entries, today, CellOf(entries, today, day));
    hide First, Next, CellOf, Spent, Grid;
  }

  /**
   In the calendar of any month the top days are different days of the month on which something was spent; and
   a day of spending is left out only when there are three, each of which spent more, or as much and earlier.
   */
  lemma TopDaysOfMonth(entries: seq<Entry>, today: int, day: int)
    requires today >= 1 && First(today) <= day < Next(today)
    ensures var top := TopDays(Grid(entries, today));
            && OneEach(top)
            && (forall c :: c in top ==> First(today) <= c.date < Next(today) && Spent(entries, c.date) != 0)
            && (Spent(entries, day) != 0 && !Shown(entries, today, day) ==> |top| == 3 && forall c :: c in top ==> Outspends(entries, c.date, day))
  {
    var g, top := Grid(entries, today), TopDays(Grid(entries, today));
    var here := CellOf(entries, today, day);
    TopDaysAreLargest(g);
    GridDatesDiffer(entries, today);
    SpentOnceADay(g);
    PartOneEach(top, SpentCells(g));
    InGrid(entries, today, day);
    GridCells(entries, today, here);
    hide First, Next, CellOf, TopDays, Spent, Grid, Ordered, SpentCells, OneEach, DatesDiffer, Outspends, Before;
    forall c | c in top
      ensures First(today) <= c.date < Next(today) && Spent(entries, c.date) != 0
      ensures Spent(entries, day) != 0 && !Shown(entries, today, day) ==> Outspends(entries, c.date, day)
    {
      GridCells(entries, today, c);
      if Spent(entries, day) != 0 && !Shown(entries, today, day) {
        var i :| 0 <= i < |top| && top[i] == c;
        ShownOutspends(entries, today, c, day);
      }
    }
  }

  // ---------------------------------------------------------------- the loops

  /** Sum of one side of the slots, in the order the days were first seen. */
  function SlotSum(order: seq<int>, flows: map<int, (int, int)>, positive: bool): int
    requires forall i :: 0 <= i < |order| ==> order[i] in flows
  {
    if order == [] then 0
    else
      var slot := flows[order[|order| - 1]];
      SlotSum(order[..|order| - 1], flows, positive) + (if positive then slot.0 else slot.1)
  }

  ghost predicate DistinctDays(order: seq<int>) { forall i, j :: 0 <= i < j < |order| ==> order[i] != order[j] }

  lemma {:induction false} SlotSumFrame(order: seq<int>, f: map<int, (int, int)>, g: map<int, (int, int)>, positive: bool)
    requires forall i :: 0 <= i < |order| ==> order[i] in f && order[i] in g && f[order[i]] == g[order[i]]
    ensures SlotSum(order, f, positive) == SlotSum(order, g, positive)
  {
    if order != [] { SlotSumFrame(order[..|order| - 1], f, g, positive); }
  }

  /** Changing one day's slot changes the sum by the difference. */
  lemma {:induction false} SlotSumUpdate(order: seq<int>, f: map<int, (int, int)>, day: int, slot: (int, int), positive: bool)
    requires DistinctDays(order) && day in order && forall i :: 0 <= i < |order| ==> order[i] in f
    ensures SlotSum(order, f[day := slot], positive) - SlotSum(order, f, positive)
         == if positive then slot.0 - f[day].0 else slot.1 - f[day].1
  {
    var n := |order| - 1;
    if order[n] == day {
      SlotSumFrame(order[..n], f, f[day := slot], positive);
    } else {
      SlotSumUpdate(order[..n], f, day, slot, positive);
    }
  }

  lemma SlotSumAppend(order: seq<int>, f: map<int, (int, int)>, day: int, slot: (int, int), positive: bool)
    requires day !in order && forall i :: 0 <= i < |order| ==> order[i] in f
    ensures SlotSum(order + [day], f[day := slot], positive) == SlotSum(order, f, positive) + (if positive then slot.0 else slot.1)
  {
    assert (order + [day])[..|order|] == order;
    SlotSumFrame(order, f, f[day := slot], positive);
  }

  /** A day's slot, (0, 0) when it has none. */
  function SlotAt(flows: map<int, (int, int)>, day: int): (int, int) { if day in flows then flows[day] else (0, 0) }

  /** The flows of the month's days so far, with the two sums. */
  ghost predicate Collected(entries: seq<Entry>, lo: int, hi: int, order: seq<int>, flows: map<int, (int, int)>) {
    && DistinctDays(order)
    && (forall i :: 0 <= i < |order| ==> order[i] in flows && lo <= order[i] < hi)
    && (forall d :: d in flows ==> d in order)
    && (forall d :: lo <= d < hi ==>
          SlotAt(flows, d) == (DayFlow(entries, d, true), DayFlow(entries, d, false)))
    && SlotSum(order, flows, true) == Flow(entries, lo, hi, true)
    && SlotSum(order, flows, false) == Flow(entries, lo, hi, false)
  }

  lemma DayFlowGrows(entries: seq<Entry>, m: nat, d: int)
    requires m < |entries|
    ensures var a, here := entries[m].amount, d == LocalDay(entries[m]);
            && DayFlow(entries[..m + 1], d, true) == DayFlow(entries[..m], d, true) + (if here && a > 0 then a else 0)
            && DayFlow(entries[..m + 1], d, false) == DayFlow(entries[..m], d, false) + (if here && a <= 0 then a else 0)
  {
    FlowGrows(entries, m, d, d + 1, true);
    FlowGrows(entries, m, d, d + 1, false);
  }

  /** The slot with one more amount in it. */
  function Added(slot: (int, int), amount: int): (int, int) {
    if amount > 0 then (slot.0 + amount, slot.1) else (slot.0, slot.1 + amount)
  }

  lemma DaysNext(entries: seq<Entry>, m: nat, lo: int, hi: int, flows: map<int, (int, int)>)
    requires m < |entries|
    requires forall d :: lo <= d < hi ==> SlotAt(flows, d) == (DayFlow(entries[..m], d, true), DayFlow(entries[..m], d, false))
    ensures var day := LocalDay(entries[m]);
            forall d :: lo <= d < hi ==>
              (if d == day then Added(SlotAt(flows, d), entries[m].amount) else SlotAt(flows, d))
              == (DayFlow(entries[..m + 1], d, true), DayFlow(entries[..m + 1], d, false))
  {
    hide LocalDay, DayFlow;
    forall d | lo <= d < hi
      ensures (if d == LocalDay(entries[m]) then Added(SlotAt(flows, d), entries[m].amount) else SlotAt(flows, d))
              == (DayFlow(entries[..m + 1], d, true), DayFlow(entries[..m + 1], d, false))
    {
      DayFlowGrows(entries, m, d);
      assert SlotAt(flows, d) == (DayFlow(entries[..m], d, true), DayFlow(entries[..m], d, false));
    }
  }

  lemma CollectNext(entries: seq<Entry>, m: nat, lo: int, hi: int, order: seq<int>, flows: map<int, (int, int)>)
    requires m < |entries| && Collected(entries[..m], lo, hi, order, flows)
    ensures var day := LocalDay(entries[m]);
            if lo <= day < hi
            then Collected(entries[..m + 1], lo, hi, if day in flows then order else order + [day],
                           flows[day := Added(SlotAt(flows, day), entries[m].amount)])
            else Collected(entries[..m + 1], lo, hi, order, flows)
  {
    hide LocalDay, DayFlow, Flow;
    var day := LocalDay(entries[m]);
    var next := Added(SlotAt(flows, day), entries[m].amount);
    DaysNext(entries, m, lo, hi, flows);
    FlowGrows(entries, m, lo, hi, true);
    FlowGrows(entries, m, lo, hi, false);
    if lo <= day < hi {
      var more := flows[day := next];
      forall d | lo <= d < hi ensures SlotAt(more, d) == (DayFlow(entries[..m + 1], d, true), DayFlow(entries[..m + 1], d, false)) {
        assert SlotAt(more, d) == if d == day then Added(SlotAt(flows, d), entries[m].amount) else SlotAt(flows, d);
      }
      if day in flows {
        SlotSumUpdate(order, flows, day, next, true);
        SlotSumUpdate(order, flows, day, next, false);
      } else {
        SlotSumAppend(order, flows, day, next, true);
        SlotSumAppend(order, flows, day, next, false);
      }
    }
  }

  method CollectFlows(entries: seq<Entry>, lo: int, hi: int) returns (order: seq<int>, flows: map<int, (int, int)>)
    ensures Collected(entries, lo, hi, order, flows)
  {
    order, flows := [], map[];
    NothingCollected(lo, hi);
    hide Collected, LocalDay;
    for m := 0 to |entries|
      invariant Collected(entries[..m], lo, hi, order, flows)
    {
      CollectNext(entries, m, lo, hi, order, flows);
      var day := LocalDay(entries[m]);
      ghost var was := flows;
      if lo <= day < hi {
        if day !in flows { order, flows := order + [day], flows[day := (0, 0)]; }
        flows := flows[day := Added(flows[day], entries[m].amount)];
        assert flows == was[day := Added(SlotAt(was, day), entries[m].amount)];
      }
    }
    assert entries[..|entries|] == entries;
  }

  lemma NothingCollected(lo: int, hi: int)
    ensures Collected([], lo, hi, [], map[])
  {
  }

  method FindPeak(entries: seq<Entry>, lo: int, hi: int, order: seq<int>, flows: map<int, (int, int)>) returns (peak: int)
    requires Collected(entries, lo, hi, order, flows)
    ensures peak == PeakBefore(entries, lo, hi)
  {
    peak := 0;
    for i := 0 to |order|
      invariant peak >= 0
      invariant forall j :: 0 <= j < i ==> -flows[order[j]].1 <= peak
      invariant peak > 0 ==> exists j :: 0 <= j < i && -flows[order[j]].1 == peak
    {
      if -flows[order[i]].1 > peak { peak := -flows[order[i]].1; }
    }
    PeakIsLargest(entries, lo, hi, order, flows, peak);
  }

  lemma PeakIsLargest(entries: seq<Entry>, lo: int, hi: int, order: seq<int>, flows: map<int, (int, int)>, peak: int)
    requires Collected(entries, lo, hi, order, flows)
    requires peak >= 0 && forall j :: 0 <= j < |order| ==> -flows[order[j]].1 <= peak
    requires peak > 0 ==> exists j :: 0 <= j < |order| && -flows[order[j]].1 == peak
    ensures peak == PeakBefore(entries, lo, hi)
  {
    forall d | lo <= d < hi ensures Spent(entries, d) <= peak {
      assert SlotAt(flows, d).1 == -Spent(entries, d);
      if d in flows {
        var j :| 0 <= j < |order| && order[j] == d;
      }
    }
    if peak > 0 {
      var j :| 0 <= j < |order| && -flows[order[j]].1 == peak;
      assert SlotAt(flows, order[j]).1 == -Spent(entries, order[j]);
    }
  }

  /** Slot totals, as the month's header shows them. */
  method TotalFlows(order: seq<int>, flows: map<int, (int, int)>) returns (inflows: int, outflows: int)
    requires forall i :: 0 <= i < |order| ==> order[i] in flows
    ensures inflows == SlotSum(order, flows, true) && outflows == SlotSum(order, flows, false)
  {
    inflows, outflows := 0, 0;
    for i := 0 to |order|
      invariant inflows == SlotSum(order[..i], flows, true) && outflows == SlotSum(order[..i], flows, false)
    {
      assert order[..i + 1][..i] == order[..i];
      inflows, outflows := inflows + flows[order[i]].0, outflows + flows[order[i]].1;
    }
    assert order[..|order|] == order;
  }

  method BuildCells(entries: seq<Entry>, today: int, order: seq<int>, flows: map<int, (int, int)>, peak: int)
    returns (cells: seq<Option<Cell>>)
    requires today >= 1 && Collected(entries, First(today), Next(today), order, flows)
    requires peak == PeakBefore(entries, First(today), Next(today))
    ensures cells == Grid(entries, today)
  {
    hide Collected, First, Next, GridAt, GridLength, Level, DayFlow, Spent, PeakBefore;
    var first, next := First(today), Next(today);
    var pad := Calendar.Weekday(first);
    WholeWeeks(today);
    LengthIs(today);
    cells := [];
    while |cells| < pad
      invariant |cells| <= pad && forall i :: 0 <= i < |cells| ==> cells[i] == GridAt(entries, today, i)
    {
      BlankCell(entries, today, |cells|);
      cells := cells + [None];
    }
    var day := first;
    while day < next
      invariant first <= day <= next && |cells| == pad + day - first
      invariant forall i :: 0 <= i < |cells| ==> cells[i] == GridAt(entries, today, i)
    {
      DayCell(entries, today, day, order, flows, peak);
      var slot := SlotAt(flows, day);
      var spent := -slot.1;
      LevelIs(spent, peak);
      var level := if spent == 0 then 0 else var q := -((-4 * spent) / peak); if q < 1 then 1 else q;
      cells := cells + [Some(Cell(day, day - first + 1, slot.0, slot.1, level, day == today, day > today))];
      day := day + 1;
    }
    var tail := (-|cells|) % 7;
    while |cells| < GridLength(today)
      invariant pad + next - first <= |cells| <= GridLength(today)
      invariant forall i :: 0 <= i < |cells| ==> cells[i] == GridAt(entries, today, i)
    {
      BlankCell(entries, today, |cells|);
      cells := cells + [None];
    }
    assert |cells| == pad + next - first + tail;
  }

  lemma LengthIs(today: int)
    requires today >= 1
    ensures var used := Calendar.Weekday(First(today)) + Next(today) - First(today); GridLength(today) == used + (-used) % 7
  {
  }

  lemma LevelIs(spent: int, peak: int)
    requires 0 <= spent <= peak
    ensures spent != 0 ==> peak != 0
    ensures Level(spent, peak) == if spent == 0 then 0 else var q := -((-4 * spent) / peak); if q < 1 then 1 else q
  {
  }

  lemma BlankCell(entries: seq<Entry>, today: int, i: nat)
    requires today >= 1
    requires i < Calendar.Weekday(First(today)) || i >= Calendar.Weekday(First(today)) + Next(today) - First(today)
    ensures GridAt(entries, today, i) == None
  {
    hide First, Next, CellOf;
  }

  /** The cell of a day from its slot. */
  lemma DayCell(entries: seq<Entry>, today: int, day: int, order: seq<int>, flows: map<int, (int, int)>, peak: int)
    requires today >= 1 && First(today) <= day < Next(today) && Collected(entries, First(today), Next(today), order, flows)
    requires peak == PeakBefore(entries, First(today), Next(today))
    ensures var slot, i := SlotAt(flows, day), Calendar.Weekday(First(today)) + day - First(today);
            && 0 <= -slot.1 <= peak && i >= 0
            && GridAt(entries, today, i)
               == Some(Cell(day, day - First(today) + 1, slot.0, slot.1, Level(-slot.1, peak), day == today, day > today))
  {
    CellFromSlot(entries, today, day, order, flows);
    GridDay(entries, today, day);
    SpentWithin(entries, today, day, peak);
    hide Collected, First, Next, Level, DayFlow, Spent, Calendar.Weekday, SlotAt, PeakBefore, GridAt;
  }

  lemma GridDay(entries: seq<Entry>, today: int, day: int)
    requires today >= 1 && First(today) <= day < Next(today)
    ensures var i := Calendar.Weekday(First(today)) + day - First(today);
            i >= 0 && GridAt(entries, today, i) == Some(CellOf(entries, today, day))
  {
    hide First, Next, CellOf, Calendar.Weekday;
  }

  lemma SpentWithin(entries: seq<Entry>, today: int, day: int, peak: int)
    requires today >= 1 && First(today) <= day < Next(today) && peak == PeakBefore(entries, First(today), Next(today))
    ensures 0 <= Spent(entries, day) <= peak
  {
    hide First, Next, DayFlow;
  }

  lemma CellFromSlot(entries: seq<Entry>, today: int, day: int, order: seq<int>, flows: map<int, (int, int)>)
    requires today >= 1 && First(today) <= day < Next(today) && Collected(entries, First(today), Next(today), order, flows)
    ensures var slot := SlotAt(flows, day);
            && slot == (DayFlow(entries, day, true), DayFlow(entries, day, false))
            && Spent(entries, day) == -slot.1
  {
  }

  lemma CollectedSums(entries: seq<Entry>, lo: int, hi: int, order: seq<int>, flows: map<int, (int, int)>)
    requires Collected(entries, lo, hi, order, flows)
    ensures forall i :: 0 <= i < |order| ==> order[i] in flows
    ensures SlotSum(order, flows, true) == Flow(entries, lo, hi, true)
    ensures SlotSum(order, flows, false) == Flow(entries, lo, hi, false)
  {
  }

  method SliceWeeks(cells: seq<Option<Cell>>) returns (weeks: seq<seq<Option<Cell>>>)
    requires |cells| % 7 == 0
    ensures weeks == Weeks(cells)
  {
    weeks := [];
    var i := 0;
    while i < |cells|
      invariant i == 7 * |weeks| <= |cells|
      invariant forall j :: 0 <= j < |weeks| ==> weeks[j] == cells[7 * j..7 * j + 7]
    {
      weeks := weeks + [cells[i..i + 7]];
      i := i + 7;
    }
  }

  method FundMonthCalendarFromEntries(entries: seq<Entry>, today: int) returns (grid: MonthGrid)
    requires today >= 1
    ensures grid.month == First(today)
    ensures GridLength(today) % 7 == 0 && grid.weeks == Weeks(Grid(entries, today))
    ensures grid.topDays == TopDays(Grid(entries, today))
    ensures grid.inflows == Flow(entries, First(today), Next(today), true)
    ensures grid.outflows == Flow(entries, First(today), Next(today), false)
  {
    hide TopDays, Collected, Flow, GridAt, SlotSum, PeakBefore, GridLength;
    var first := Calendar.MonthStart(Calendar.MonthOf(today));
    Calendar.ThirtyTwoDaysLater(Calendar.MonthOf(today), first + 32);
    var next := Calendar.MonthStart(Calendar.MonthOf(first + 32));
    var order, flows := CollectFlows(entries, first, next);
    var peak := FindPeak(entries, first, next, order, flows);
    var cells := BuildCells(entries, today, order, flows, peak);
    WholeWeeks(today);
    var weeks := SliceWeeks(cells);
    CollectedSums(entries, first, next, order, flows);
    var inflows, outflows := TotalFlows(order, flows);
    grid := MonthGrid(first, TopDays(cells), weeks, inflows, outflows);
  }

  // ---------------------------------------------------------------- agreement

  /** Sums of the day cells' inflows and outflows. */
  function CellSum(cells: seq<Option<Cell>>, positive: bool): int {
    if cells == [] then 0
    else
      var c := cells[|cells| - 1];
      CellSum(cells[..|cells| - 1], positive) + (if c.None? then 0 else if positive then c.value.inflows else c.value.outflows)
  }

  lemma CellFlows(entries: seq<Entry>, today: int, day: int)
    requires today >= 1 && First(today) <= day < Next(today)
    ensures CellOf(entries, today, day).inflows == Flow(entries, day, day + 1, true)
    ensures CellOf(entries, today, day).outflows == Flow(entries, day, day + 1, false)
  {
  }

  lemma {:induction false} CellSumIs(entries: seq<Entry>, today: int, n: nat, positive: bool)
    requires today >= 1 && n <= GridLength(today)
    ensures var end := First(today) + n - Calendar.Weekday(First(today));
            CellSum(Grid(entries, today)[..n], positive)
            == Flow(entries, First(today), if end < First(today) then First(today) else if end > Next(today) then Next(today) else end, positive)
  {
    hide Calendar.MonthStart, Calendar.MonthOf, CellOf;
    var first := First(today);
    FlowSigns(entries, first, first);
    if n > 0 {
      var g := Grid(entries, today);
      CellSumIs(entries, today, n - 1, positive);
      assert g[..n][..n - 1] == g[..n - 1];
      var day := first + n - 1 - Calendar.Weekday(first);
      if first <= day < Next(today) {
        FlowSplits(entries, first, day, day + 1, positive);
        CellFlows(entries, today, day);
      }
    }
  }

  /**
   The month's totals are the sums of its day cells and, computed independently, the flows of the last
   point of the monthly chart.
   */
  lemma TotalsAgree(entries: seq<Entry>, range: Range, today: int, positive: bool)
    requires InCalendar(range, today) && range != ThirtyDays
    ensures CellSum(Grid(entries, today), positive) == Flow(entries, First(today), Next(today), positive)
    ensures var last := Series(entries, range, today)[Buckets(range) - 1];
            && last.start == First(today)
            && last.inflows == Flow(entries, First(today), Next(today), true)
            && last.outflows == Flow(entries, First(today), Next(today), false)
  {
    WholeWeeks(today);
    CellSumIs(entries, today, GridLength(today), positive);
    assert Grid(entries, today)[..GridLength(today)] == Grid(entries, today);
  }
}
