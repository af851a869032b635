/**
 The proleptic Gregorian calendar on day ordinals (1 January of year 1 is day 1),
 with months numbered consecutively as 12 * year + month - 1.
 */
module Calendar {
  import Decimal

  datatype Date = Date(year: nat, month: nat, day: nat)

  predicate IsLeap(y: nat) { y % 4 == 0 && (y % 100 != 0 || y % 400 == 0) }

  function DaysInMonth(y: nat, m: nat): (n: nat)
    ensures 28 <= n <= 31
  {
    if m == 2 then (if IsLeap(y) then 29 else 28)
    else if m == 4 || m == 6 || m == 9 || m == 11 then 30 else 31
  }

  predicate ValidDate(d: Date) {
    d.year >= 1 && 1 <= d.month <= 12 && 1 <= d.day <= DaysInMonth(d.year, d.month)
  }

  function MonthLength(k: nat): (n: nat)
    ensures 28 <= n <= 31
  {
    DaysInMonth(k / 12, k % 12 + 1)
  }

  /** First day of month k: months abut, across the year boundary too. */
  function MonthStart(k: nat): (day: int)
    requires k >= 12
    ensures day >= 1
  {
    if k == 12 then 1 else MonthStart(k - 1) + MonthLength(k - 1)
  }

  /** The closed form of the days before a year. */
  function DaysBeforeYear(y: nat): int
    requires y >= 1
  {
    (y - 1) * 365 + (y - 1) / 4 - (y - 1) / 100 + (y - 1) / 400
  }

  /** January starts where the leap-year closed form says. */
  lemma {:induction false} JanuaryStart(y: nat)
    requires y >= 1
    ensures MonthStart(12 * y) == DaysBeforeYear(y) + 1
  {
    if y > 1 {
      JanuaryStart(y - 1);
      YearSpan(y - 1);
      LeapCount(y - 1);
    }
  }

  lemma YearSpan(y: nat)
    requires y >= 1
    ensures MonthStart(12 * y + 12) == MonthStart(12 * y) + (if IsLeap(y) then 366 else 365)
  {
    Quarter(12 * y, y, 0);
    Quarter(12 * y + 3, y, 3);
    Quarter(12 * y + 6, y, 6);
    Quarter(12 * y + 9, y, 9);
    DaysInYear(y);
    hide MonthStart, DaysInMonth;
  }

  lemma DaysInYear(y: nat)
    ensures DaysInMonth(y, 1) + DaysInMonth(y, 2) + DaysInMonth(y, 3) + DaysInMonth(y, 4) + DaysInMonth(y, 5) + DaysInMonth(y, 6)
          + DaysInMonth(y, 7) + DaysInMonth(y, 8) + DaysInMonth(y, 9) + DaysInMonth(y, 10) + DaysInMonth(y, 11) + DaysInMonth(y, 12)
         == if IsLeap(y) then 366 else 365
  {
  }

  lemma Quarter(k: nat, y: nat, i: nat)
    requires y >= 1 && i <= 9 && k == 12 * y + i
    ensures MonthStart(k + 3)
         == MonthStart(k) + DaysInMonth(y, i + 1) + DaysInMonth(y, i + 2) + DaysInMonth(y, i + 3)
  {
    assert k / 12 == y && (k + 1) / 12 == y && (k + 2) / 12 == y;
    assert MonthStart(k + 1) == MonthStart(k) + MonthLength(k);
    assert MonthStart(k + 2) == MonthStart(k + 1) + MonthLength(k + 1);
    assert MonthStart(k + 3) == MonthStart(k + 2) + MonthLength(k + 2);
  }

  lemma LeapCount(y: nat)
    requires y >= 1
    ensures DaysBeforeYear(y + 1) == DaysBeforeYear(y) + (if IsLeap(y) then 366 else 365)
  {
    Quotient4(y);
    Quotient100(y);
    Quotient400(y);
    CenturiesAreFourths(y);
  }

  lemma CenturiesAreFourths(y: nat)
    ensures y % 400 == 0 ==> y % 100 == 0
    ensures y % 100 == 0 ==> y % 4 == 0
  {
    var centuries, cycles := y / 100, y / 400;
    if y % 400 == 0 { assert y == 100 * (4 * cycles); }
    if y % 100 == 0 { assert y == 4 * (25 * centuries); }
  }

  lemma Quotient4(y: nat)
    requires y >= 1
    ensures y / 4 == (y - 1) / 4 + (if y % 4 == 0 then 1 else 0)
  {
  }

  lemma Quotient100(y: nat)
    requires y >= 1
    ensures y / 100 == (y - 1) / 100 + (if y % 100 == 0 then 1 else 0)
  {
  }

  lemma Quotient400(y: nat)
    requires y >= 1
    ensures y / 400 == (y - 1) / 400 + (if y % 400 == 0 then 1 else 0)
  {
  }

  lemma {:induction false} MonthsIncrease(j: nat, k: nat)
    requires 12 <= j <= k
    ensures MonthStart(j) + 28 * (k - j) <= MonthStart(k)
    decreases k - j
  {
    if j < k {
      MonthsIncrease(j, k - 1);
    }
  }

  /** The month a day falls in. */
  function MonthOf(day: int): (k: nat)
    requires day >= 1
    ensures k >= 12 && MonthStart(k) <= day < MonthStart(k + 1)
  {
    FindMonth(day, 12)
  }

  function FindMonth(day: int, k: nat): (r: nat)
    requires k >= 12 && MonthStart(k) <= day
    ensures r >= k && MonthStart(r) <= day < MonthStart(r + 1)
    decreases day - MonthStart(k)
  {
    if day < MonthStart(k + 1) then k else FindMonth(day, k + 1)
  }

  lemma MonthOfUnique(day: int, k: nat)
    requires day >= 1 && k >= 12 && MonthStart(k) <= day < MonthStart(k + 1)
    ensures MonthOf(day) == k
  {
    var r := MonthOf(day);
    if r < k { MonthsIncrease(r + 1, k); }
    if k < r { MonthsIncrease(k + 1, r); }
  }

  function ToOrdinal(d: Date): int
    requires ValidDate(d)
  {
    MonthStart(12 * d.year + d.month - 1) + d.day - 1
  }

  function FromOrdinal(day: int): (d: Date)
    requires day >= 1
    ensures ValidDate(d)
  {
    var k := MonthOf(day);
    Date(k / 12, k % 12 + 1, day - MonthStart(k) + 1)
  }

  lemma OrdinalRoundTrip(d: Date)
    requires ValidDate(d)
    ensures ToOrdinal(d) >= 1 && FromOrdinal(ToOrdinal(d)) == d
  {
    var k := 12 * d.year + d.month - 1;
    assert k / 12 == d.year && k % 12 == d.month - 1;
    MonthsIncrease(12, k);
    MonthOfUnique(ToOrdinal(d), k);
  }

  lemma DateRoundTrip(day: int)
    requires day >= 1
    ensures ToOrdinal(FromOrdinal(day)) == day
  {
    var k := MonthOf(day);
    assert 12 * (k / 12) + k % 12 == k;
  }

  /** Monday is 0. */
  function Weekday(day: int): (w: nat)
    ensures w < 7
  {
    (day + 6) % 7
  }

  /** Adding 32 days to the first of a month always lands in the next month. */
  lemma ThirtyTwoDaysLater(k: nat, day: int)
    requires k >= 12 && day == MonthStart(k) + 32
    ensures day >= 1 && MonthOf(day) == k + 1
  {
    MonthStep(k);
    MonthStep(k + 1);
    MonthOfUnique(day, k + 1);
  }

  lemma MonthStep(k: nat)
    requires k >= 12
    ensures MonthStart(k) + 28 <= MonthStart(k + 1) <= MonthStart(k) + 31
  {
  }

  // ---------------------------------------------------------------- text

  /** `date.isoformat()`. */
  function IsoDate(d: Date): (s: string)
    ensures |s| == 10
  {
    Decimal.Padded(d.year, 4) + "-" + Decimal.Padded(d.month, 2) + "-" + Decimal.Padded(d.day, 2)
  }

  lemma IsoDateInjective(a: Date, b: Date)
    requires ValidDate(a) && ValidDate(b) && a.year < 10000 && b.year < 10000
    requires IsoDate(a) == IsoDate(b)
    ensures a == b
  {
    PaddedSlices(a);
    PaddedSlices(b);
    assert Decimal.Pow10(2) == 100 && Decimal.Pow10(4) == 10000;
    Decimal.PaddedInjective(a.year, b.year, 4);
    Decimal.PaddedInjective(a.month, b.month, 2);
    Decimal.PaddedInjective(a.day, b.day, 2);
  }

  lemma PaddedSlices(d: Date)
    ensures var s := IsoDate(d);
            && |s| == 10
            && s[..4] == Decimal.Padded(d.year, 4)
            && s[5..7] == Decimal.Padded(d.month, 2)
            && s[8..] == Decimal.Padded(d.day, 2)
  {
  }

  const MICROS_PER_SECOND := 1_000_000
  const MICROS_PER_DAY := 86_400 * MICROS_PER_SECOND

  /** UTC timestamp with microseconds; time counts microseconds from the start of year 1. */
  function Rfc3339(t: nat): string {
    var day, micros := t / MICROS_PER_DAY + 1, t % MICROS_PER_DAY;
    IsoDate(FromOrdinal(day)) + "T" + Clock(micros) + "Z"
  }

  function Clock(micros: nat): (s: string)
    ensures |s| == 15
  {
    var seconds := micros / MICROS_PER_SECOND;
    Decimal.Padded(seconds / 3600, 2) + ":" + Decimal.Padded(seconds / 60 % 60, 2) + ":"
    + Decimal.Padded(seconds % 60, 2) + "." + Decimal.Padded(micros % MICROS_PER_SECOND, 6)
  }

  lemma ClockInjective(a: nat, b: nat)
    requires a < MICROS_PER_DAY && b < MICROS_PER_DAY
    requires Clock(a) == Clock(b)
    ensures a == b
  {
    ClockSlices(a);
    ClockSlices(b);
    var sa, sb := a / MICROS_PER_SECOND, b / MICROS_PER_SECOND;
    assert Decimal.Pow10(2) == 100;
    assert Decimal.Pow10(4) == 10000;
    assert Decimal.Pow10(6) == 1_000_000;
    Decimal.PaddedInjective(sa / 3600, sb / 3600, 2);
    Decimal.PaddedInjective(sa / 60 % 60, sb / 60 % 60, 2);
    Decimal.PaddedInjective(sa % 60, sb % 60, 2);
    Decimal.PaddedInjective(a % MICROS_PER_SECOND, b % MICROS_PER_SECOND, 6);
    assert sa / 60 / 60 == sa / 3600 && sb / 60 / 60 == sb / 3600;
  }

  lemma ClockSlices(micros: nat)
    ensures var s, seconds := Clock(micros), micros / MICROS_PER_SECOND;
            && s[..2] == Decimal.Padded(seconds / 3600, 2)
            && s[3..5] == Decimal.Padded(seconds / 60 % 60, 2)
            && s[6..8] == Decimal.Padded(seconds % 60, 2)
            && s[9..] == Decimal.Padded(micros % MICROS_PER_SECOND, 6)
  {
  }

  /** `digits` reads as a number no larger than this. */
  predicate Reads(digits: string, least: nat, most: nat) {
    Decimal.AllDigits(digits) && least <= Decimal.NatValue(digits) <= most
  }

  /** A well formed UTC timestamp with microseconds: a real date and a real time of day. */
  predicate Stamp(s: string) {
    && |s| == 27 && s[4] == '-' && s[7] == '-' && s[10] == 'T' && s[13] == ':' && s[16] == ':' && s[19] == '.' && s[26] == 'Z'
    && Reads(s[..4], 1, 9999) && Reads(s[5..7], 1, 12) && Reads(s[8..10], 1, 31)
    && ValidDate(Date(Decimal.NatValue(s[..4]), Decimal.NatValue(s[5..7]), Decimal.NatValue(s[8..10])))
    && Reads(s[11..13], 0, 23) && Reads(s[14..16], 0, 59) && Reads(s[17..19], 0, 59) && Reads(s[20..26], 0, 999_999)
  }

  /** A moment the platform's clock can show: years end at 9999. */
  predicate Datable(t: nat) { FromOrdinal(t / MICROS_PER_DAY + 1).year < 10000 }

  /** Distinct instants up to the end of year 9999 have distinct timestamps. */
  lemma Rfc3339Injective(a: nat, b: nat)
    requires Datable(a) && Datable(b) && Rfc3339(a) == Rfc3339(b)
    ensures a == b
  {
    var da, db := a / MICROS_PER_DAY + 1, b / MICROS_PER_DAY + 1;
    SplitStamp(IsoDate(FromOrdinal(da)), Clock(a % MICROS_PER_DAY));
    SplitStamp(IsoDate(FromOrdinal(db)), Clock(b % MICROS_PER_DAY));
    IsoDateInjective(FromOrdinal(da), FromOrdinal(db));
    DateRoundTrip(da);
    DateRoundTrip(db);
    ClockInjective(a % MICROS_PER_DAY, b % MICROS_PER_DAY);
    SameDayAndTime(a, b);
  }

  lemma ReadsPadded(n: nat, width: nat, least: nat, most: nat)
    requires least <= n <= most && most < Decimal.Pow10(width)
    ensures Reads(Decimal.Padded(n, width), least, most) && Decimal.NatValue(Decimal.Padded(n, width)) == n
  {
    Decimal.ValueOfPadded(n, width);
  }

  lemma ClockReads(micros: nat)
    requires micros < MICROS_PER_DAY
    ensures var s := Clock(micros);
            && s[2] == ':' && s[5] == ':' && s[8] == '.'
            && Reads(s[..2], 0, 23) && Reads(s[3..5], 0, 59) && Reads(s[6..8], 0, 59) && Reads(s[9..15], 0, 999_999)
  {
    var s, seconds := Clock(micros), micros / MICROS_PER_SECOND;
    ClockSlices(micros);
    assert Decimal.Pow10(2) == 100 && Decimal.Pow10(6) == 1_000_000;
    hide Decimal.Pow10;
    ReadsPadded(seconds / 3600, 2, 0, 23);
    ReadsPadded(seconds / 60 % 60, 2, 0, 59);
    ReadsPadded(seconds % 60, 2, 0, 59);
    ReadsPadded(micros % MICROS_PER_SECOND, 6, 0, 999_999);
    assert s[9..15] == s[9..];
  }

  lemma IsoReads(d: Date)
    requires ValidDate(d) && d.year < 10000
    ensures var s := IsoDate(d);
            && s[4] == '-' && s[7] == '-'
            && Reads(s[..4], 1, 9999) && Reads(s[5..7], 1, 12) && Reads(s[8..], 1, 31)
            && Decimal.NatValue(s[..4]) == d.year && Decimal.NatValue(s[5..7]) == d.month && Decimal.NatValue(s[8..]) == d.day
  {
    PaddedSlices(d);
    assert Decimal.Pow10(2) == 100 && Decimal.Pow10(4) == 10000;
    hide Decimal.Pow10;
    ReadsPadded(d.year, 4, 1, 9999);
    ReadsPadded(d.month, 2, 1, 12);
    ReadsPadded(d.day, 2, 1, 31);
  }

  /** The moments a clock can show are written as well formed timestamps. */
  lemma DatableIsStamp(t: nat)
    requires Datable(t)
    ensures Stamp(Rfc3339(t))
  {
    var date, clock := IsoDate(FromOrdinal(t / MICROS_PER_DAY + 1)), Clock(t % MICROS_PER_DAY);
    IsoReads(FromOrdinal(t / MICROS_PER_DAY + 1));
    ClockReads(t % MICROS_PER_DAY);
    Assembled(date, clock);
  }

  lemma Assembled(date: string, clock: string)
    requires |date| == 10 && |clock| == 15
    ensures var s := date + "T" + clock + "Z";
            && |s| == 27 && s[10] == 'T' && s[26] == 'Z' && s[4] == date[4] && s[7] == date[7]
            && s[13] == clock[2] && s[16] == clock[5] && s[19] == clock[8]
            && s[..4] == date[..4] && s[5..7] == date[5..7] && s[8..10] == date[8..]
            && s[11..13] == clock[..2] && s[14..16] == clock[3..5] && s[17..19] == clock[6..8] && s[20..26] == clock[9..15]
  {
  }

  /** Time starts on the first day of year 1. */
  lemma StartIsDatable()
    ensures Datable(0)
  {
    hide FromOrdinal;
    FirstDay();
    OrdinalRoundTrip(Date(1, 1, 1));
  }

  lemma FirstDay()
    ensures ValidDate(Date(1, 1, 1)) && ToOrdinal(Date(1, 1, 1)) == 1
  {
    assert MonthStart(12) == 1;
  }

  lemma SameDayAndTime(a: nat, b: nat)
    requires a / MICROS_PER_DAY == b / MICROS_PER_DAY && a % MICROS_PER_DAY == b % MICROS_PER_DAY
    ensures a == b
  {
  }

  lemma SplitStamp(date: string, clock: string)
    requires |date| == 10 && |clock| == 15
    ensures var s := date + "T" + clock + "Z"; s[..10] == date && s[11..26] == clock
  {
  }
}
