/**
 The fixed-window lockout on public registration (and on guarded logins): one bucket per key,
 and how many attempts it lets through in any fifteen minutes. Times are microseconds.
 */
module Throttle {
  import opened Wrappers

  const MAX_FAILURES := 5
  const WINDOW := 900_000_000

  datatype Bucket = Bucket(count: nat, startedAt: Option<int>, lockedUntil: Option<int>)

  /**
   A bucket as get-or-create leaves it. The creating call reads the clock for it before it reads the clock again
   for its own attempt, so a bucket is created no later than, and usually before, its first attempt.
   */
  function Created(now: int): Bucket { Bucket(0, Some(now), None) }

  predicate Locked(b: Bucket, now: int) { b.lockedUntil.Some? && b.lockedUntil.value > now }

  predicate Stale(b: Bucket, now: int) { b.startedAt.None? || now - b.startedAt.value > WINDOW }

  /** Count one attempt, opening a new window when the old one is over. */
  function Recorded(b: Bucket, now: int): Bucket {
    var counted := if Stale(b, now) then Bucket(1, Some(now), None) else b.(count := b.count + 1);
    if counted.count >= MAX_FAILURES then counted.(lockedUntil := Some(now + WINDOW)) else counted
  }

  /** None when the attempt is refused. */
  function Attempt(b: Bucket, now: int): Option<Bucket> {
    if Locked(b, now) then None else Some(Recorded(b, now))
  }

  class AuthThrottleBucket {
    var count: nat
    var startedAt: Option<int>
    var lockedUntil: Option<int>

    constructor (now: int)
      ensures Value() == Created(now)
    {
      count, startedAt, lockedUntil := 0, Some(now), None;
    }

    function Value(): Bucket
      reads this
    {
      Bucket(count, startedAt, lockedUntil)
    }

    method RecordAuthFailure(now: int)
      modifies this
      ensures Value() == Recorded(old(Value()), now)
    {
      if startedAt.None? || now - startedAt.value > WINDOW {
        count := 1;
        startedAt := Some(now);
        lockedUntil := None;
      } else {
        count := count + 1;
      }
      if count >= MAX_FAILURES { lockedUntil := Some(now + WINDOW); }
    }

    method RecordRegistrationAttempt(now: int) returns (admitted: bool)
      modifies this
      ensures admitted == Attempt(old(Value()), now).Some?
      ensures Value() == if admitted then Attempt(old(Value()), now).value else old(Value())
    {
      if lockedUntil.Some? && lockedUntil.value > now { return false; }
      RecordAuthFailure(now);
      return true;
    }

    /** The guard in front of a login: it looks and changes nothing. */
    method AssertNotThrottled(now: int) returns (allowed: bool)
      ensures allowed == !Locked(Value(), now)
    {
      if lockedUntil.Some? && lockedUntil.value > now { return false; }
      return true;
    }
  }

  // ---------------------------------------------------------------- traces

  /** A bucket with the times it has admitted, oldest first. */
  datatype Trace = Trace(bucket: Bucket, admitted: seq<int>)

  /** A bucket created at one time, and the attempts at these times. */
  function Follow(created: int, times: seq<int>): Trace {
    if times == [] then Trace(Created(created), [])
    else
      var n := |times| - 1;
      var t := Follow(created, times[..n]);
      match Attempt(t.bucket, times[n])
      case None => t
      case Some(c) => Trace(c, t.admitted + [times[n]])
  }

  ghost predicate Sorted(times: seq<int>) { forall i, j :: 0 <= i <= j < |times| ==> times[i] <= times[j] }

  /** Where the open window starts: at its first attempt, or for a bucket's first window perhaps at its creation. */
  ghost predicate StartsAt(created: int, t: Trace, start: int) {
    var n, c := |t.admitted|, t.bucket.count;
    && 1 <= c <= n && t.bucket.startedAt == Some(start)
    && (start == t.admitted[n - c] || (c == n && start == created <= t.admitted[0]))
  }

  /** The bucket counts the last `count` admitted attempts, and its lock runs from the last of them. */
  ghost predicate CountsLast(created: int, t: Trace) {
    var n, c := |t.admitted|, t.bucket.count;
    && 1 <= c <= n && c <= MAX_FAILURES + 1 && t.bucket.startedAt.Some?
    && StartsAt(created, t, t.bucket.startedAt.value)
    && (forall i :: n - c <= i < n ==> t.admitted[i] <= t.bucket.startedAt.value + WINDOW)
    && t.bucket.lockedUntil == (if c >= MAX_FAILURES then Some(t.admitted[n - 1] + WINDOW) else None)
  }

  /** One counting window holds five attempts, or six when five came at its first instant and one at its last. */
  ghost predicate WindowBound(t: Trace) {
    var n, c := |t.admitted|, t.bucket.count;
    c <= MAX_FAILURES ||
      (c == MAX_FAILURES + 1 <= n
       && (forall i :: n - 6 <= i < n - 1 ==> t.bucket.startedAt == Some(t.admitted[i]))
       && t.admitted[n - 1] == t.admitted[n - 6] + WINDOW)
  }

  /** The bucket's first window counted four attempts and the fifth opened another. */
  ghost predicate FourThenNew(created: int, admitted: seq<int>) {
    |admitted| >= 5 && admitted[3] <= created + WINDOW < admitted[4]
  }

  /** Four admitted attempts before a window opens, one is already a whole window old, short of one exception. */
  ghost predicate OldBefore(created: int, t: Trace) {
    var start := |t.admitted| - t.bucket.count;
    start >= 4 ==>
      && t.bucket.count >= 1
      && (t.admitted[start - 4] <= t.admitted[start] - WINDOW || (start == 4 && FourThenNew(created, t.admitted)))
  }

  /** Nine consecutive admitted attempts, from the first-th on, span a whole window. */
  ghost predicate NineSpan(admitted: seq<int>, first: nat) {
    forall i :: first <= i < |admitted| - 8 ==> admitted[i + 8] - admitted[i] >= WINDOW
  }

  /** The first nine admitted attempts came within one window. */
  ghost predicate NineFit(created: int, admitted: seq<int>) {
    |admitted| >= 9 && FourThenNew(created, admitted) && admitted[8] < admitted[0] + WINDOW
  }

  ghost predicate TraceOk(created: int, t: Trace) {
    && Sorted(t.admitted) && CountsLast(created, t) && WindowBound(t) && OldBefore(created, t)
    && NineSpan(t.admitted, 1) && (NineSpan(t.admitted, 0) || NineFit(created, t.admitted))
  }

  /** The ninth admitted attempt back is a whole window old, unless it is the very first and the exception is met. */
  lemma NinthBackIsOld(created: int, t: Trace, now: int)
    requires TraceOk(created, t) && t.admitted[|t.admitted| - 1] <= now && Attempt(t.bucket, now).Some? && |t.admitted| >= 8
    ensures now - t.admitted[|t.admitted| - 8] >= WINDOW || (|t.admitted| == 8 && FourThenNew(created, t.admitted))
  {
    var n, c := |t.admitted|, t.bucket.count;
    if Stale(t.bucket, now) || c == 5 {
      assert t.admitted[n - 8] <= t.admitted[n - c];
    } else {
      assert t.admitted[n - 8] <= t.admitted[n - c - 4];
    }
  }

  lemma CountingKeeps(created: int, t: Trace, now: int)
    requires TraceOk(created, t) && t.admitted[|t.admitted| - 1] <= now && Attempt(t.bucket, now).Some?
    ensures var next := Trace(Attempt(t.bucket, now).value, t.admitted + [now]);
            CountsLast(created, next) && WindowBound(next) && OldBefore(created, next)
  {
    var n, c := |t.admitted|, t.bucket.count;
    var next := Trace(Attempt(t.bucket, now).value, t.admitted + [now]);
    hide NineSpan, NineFit;
    if Stale(t.bucket, now) {
      assert next.bucket == Bucket(1, Some(now), None);
      assert n >= 4 ==> next.admitted[n - 4] == t.admitted[n - 4];
    } else {
      assert c < 6;
      assert next.admitted[n - c] == t.admitted[n - c];
    }
  }

  /** One more attempt, not earlier than any so far. */
  lemma AttemptKeeps(created: int, t: Trace, now: int)
    requires TraceOk(created, t) && t.admitted[|t.admitted| - 1] <= now && Attempt(t.bucket, now).Some?
    ensures TraceOk(created, Trace(Attempt(t.bucket, now).value, t.admitted + [now]))
  {
    CountingKeeps(created, t, now);
    if |t.admitted| >= 8 { NinthBackIsOld(created, t, now); }
    hide CountsLast, WindowBound, OldBefore, Attempt;
    SpanKeeps(created, t.admitted, now);
  }

  lemma SpanKeeps(created: int, admitted: seq<int>, now: int)
    requires NineSpan(admitted, 1) && (NineSpan(admitted, 0) || NineFit(created, admitted))
    requires |admitted| >= 8 ==> now - admitted[|admitted| - 8] >= WINDOW || (|admitted| == 8 && FourThenNew(created, admitted))
    ensures var more := admitted + [now];
            NineSpan(more, 1) && (NineSpan(more, 0) || NineFit(created, more))
  {
    var more := admitted + [now];
    forall i | 0 <= i < |more| - 8 ensures (i >= 1 || NineSpan(admitted, 0)) && !NineFit(created, more) ==> more[i + 8] - more[i] >= WINDOW
      ensures i >= 1 ==> more[i + 8] - more[i] >= WINDOW
    {
      if i + 8 < |admitted| { assert more[i + 8] == admitted[i + 8]; }
    }
  }

  lemma {:induction false} FollowOk(created: int, times: seq<int>)
    requires times != [] && Sorted(times) && created <= times[0]
    ensures TraceOk(created, Follow(created, times))
    ensures var admitted := Follow(created, times).admitted; admitted[0] == times[0] && admitted[|admitted| - 1] <= times[|times| - 1]
  {
    var n := |times| - 1;
    if n == 0 {
      assert Follow(created, times[..0]) == Trace(Created(created), []);
      assert Follow(created, times).admitted == [times[0]];
    } else {
      FollowOk(created, times[..n]);
      hide TraceOk;
      assert times[n - 1] <= times[n];
      if Attempt(Follow(created, times[..n]).bucket, times[n]).Some? { AttemptKeeps(created, Follow(created, times[..n]), times[n]); }
    }
  }

  // ---------------------------------------------------------------- the bound

  /** Admitted attempts in the half-open interval [from, from + WINDOW). */
  function CountFrom(admitted: seq<int>, from: int): nat {
    if admitted == [] then 0
    else
      var n := |admitted| - 1;
      CountFrom(admitted[..n], from) + (if from <= admitted[n] < from + 900_000_000 then 1 else 0)
  }

  lemma {:induction false} CountIsIncremental(admitted: seq<int>, k: nat, from: int)
    requires k <= |admitted|
    ensures CountFrom(admitted, from) <= CountFrom(admitted[..k], from) + |admitted| - k
  {
    if k == |admitted| {
      assert admitted[..k] == admitted;
    } else {
      CountIsIncremental(admitted[..|admitted| - 1], k, from);
      assert admitted[..|admitted| - 1][..k] == admitted[..k];
    }
  }

  lemma {:induction false} NothingBefore(admitted: seq<int>, from: int)
    requires forall i :: 0 <= i < |admitted| ==> admitted[i] < from
    ensures CountFrom(admitted, from) == 0
  {
    if admitted != [] { NothingBefore(admitted[..|admitted| - 1], from); }
  }

  lemma {:induction false} SpanBoundsCount(admitted: seq<int>, first: nat, from: int)
    requires Sorted(admitted) && NineSpan(admitted, first)
    ensures CountFrom(admitted, from) <= 8 + first
  {
    var n := |admitted| - 1;
    if admitted == [] {
    } else if from <= admitted[n] < from + WINDOW {
      var k := if |admitted| > 8 + first then |admitted| - 8 else 0;
      CountIsIncremental(admitted, k, from);
      forall i | 0 <= i < k ensures admitted[..k][i] < from { assert admitted[i] <= admitted[n - 8]; }
      NothingBefore(admitted[..k], from);
    } else {
      SpanBoundsCount(admitted[..n], first, from);
    }
  }

  /** Attempts that all lie in the interval are all counted. */
  lemma {:induction false} AllCounted(admitted: seq<int>, j: nat, k: nat, from: int)
    requires j <= k <= |admitted| && forall i :: j <= i < k ==> from <= admitted[i] < from + WINDOW
    ensures CountFrom(admitted, from) >= k - j
  {
    var n := |admitted| - 1;
    if j < k { AllCounted(admitted[..n], j, if k == |admitted| then n else k, from); }
  }

  /** In any fifteen minutes at most nine attempts get through, whatever the times of the attempts. */
  lemma AtMostNinePerWindow(created: int, times: seq<int>, from: int)
    requires times != [] && Sorted(times) && created <= times[0]
    ensures CountFrom(Follow(created, times).admitted, from) <= 9
  {
    FollowOk(created, times);
    SpanBoundsCount(Follow(created, times).admitted, 1, from);
  }

  /**
   Nine get through in some fifteen minutes exactly when the bucket's first window, which starts at its creation, counted four,
   the fifth attempt opened another window, and the ninth came within fifteen minutes of the first.
   */
  lemma NineExactly(created: int, times: seq<int>)
    requires times != [] && Sorted(times) && created <= times[0]
    ensures (exists from :: CountFrom(Follow(created, times).admitted, from) == 9) <==> NineFit(created, Follow(created, times).admitted)
  {
    var admitted := Follow(created, times).admitted;
    FollowOk(created, times);
    hide Follow, CountFrom;
    if NineFit(created, admitted) {
      AllCounted(admitted, 0, 9, admitted[0]);
      SpanBoundsCount(admitted, 1, admitted[0]);
    } else {
      forall from ensures CountFrom(admitted, from) <= 8 { SpanBoundsCount(admitted, 0, from); }
    }
  }

  /** And only there: nine consecutive admitted attempts after the first span a whole window. */
  lemma LaterNinesSpan(created: int, times: seq<int>, i: nat)
    requires times != [] && Sorted(times) && created <= times[0]
    requires 1 <= i < |Follow(created, times).admitted| - 8
    ensures Follow(created, times).admitted[i + 8] - Follow(created, times).admitted[i] >= 900_000_000
  {
    FollowOk(created, times);
  }

  /** With both readings of the clock equal, at most eight. */
  lemma AtMostEightPerWindow(times: seq<int>, from: int)
    requires times != [] && Sorted(times)
    ensures CountFrom(Follow(times[0], times).admitted, from) <= 8
  {
    FollowOk(times[0], times);
    SpanBoundsCount(Follow(times[0], times).admitted, 0, from);
  }

  /** At any moment the open window has admitted five attempts, or six in the boundary case. */
  lemma AtMostFiveCounted(created: int, times: seq<int>)
    requires times != [] && Sorted(times) && created <= times[0]
    ensures CountsLast(created, Follow(created, times)) && WindowBound(Follow(created, times))
  {
    FollowOk(created, times);
  }

  // ---------------------------------------------------------------- who is refused

  /** When a counting window opened: the first with the bucket, unless its first attempt came too late for that. */
  ghost function OpenedAt(created: int, admitted: seq<int>, start: nat): int
    requires start < |admitted|
  {
    if start == 0 && admitted[0] <= created + 900_000_000 then created else admitted[start]
  }

  /** Where window j ends: where the next begins, or with the last attempt. */
  ghost function EndOf(admitted: seq<int>, starts: seq<nat>, j: nat): nat
    requires j < |starts|
  {
    if j + 1 < |starts| then starts[j + 1] else |admitted|
  }

  /** One window counts the attempts of the fifteen minutes from its opening, and a later attempt, if there is one, ends it. */
  ghost predicate IsWindow(created: int, admitted: seq<int>, start: nat, end: nat) {
    && start < end <= |admitted|
    && (forall i :: start <= i < end ==> admitted[i] <= OpenedAt(created, admitted, start) + 900_000_000)
    && (end < |admitted| ==> admitted[end] > OpenedAt(created, admitted, start) + 900_000_000)
  }

  /** The admitted attempts divided into counting windows, each given by the number of its first attempt. */
  ghost predicate Windows(created: int, admitted: seq<int>, starts: seq<nat>) {
    && starts != [] && starts[0] == 0
    && forall j :: 0 <= j < |starts| ==> IsWindow(created, admitted, starts[j], EndOf(admitted, starts, j))
  }

  /** There is one such division. */
  ghost function Division(created: int, admitted: seq<int>): (starts: seq<nat>)
    requires admitted != []
    ensures starts != [] && starts[|starts| - 1] < |admitted|
  {
    var n := |admitted| - 1;
    if n == 0 then [0]
    else
      var before := Division(created, admitted[..n]);
      if admitted[n] > OpenedAt(created, admitted, before[|before| - 1]) + 900_000_000 then before + [n] else before
  }

  /** What the last attempt does to a window. */
  lemma WindowWithout(created: int, admitted: seq<int>, start: nat, end: nat)
    requires start < end < |admitted|
    ensures var n, init := |admitted| - 1, admitted[..|admitted| - 1];
            && OpenedAt(created, init, start) == OpenedAt(created, admitted, start)
            && (end < n ==> (IsWindow(created, admitted, start, end) <==> IsWindow(created, init, start, end)))
            && (end == n ==>
                  && (IsWindow(created, admitted, start, n)
                      <==> IsWindow(created, init, start, n) && admitted[n] > OpenedAt(created, admitted, start) + 900_000_000)
                  && (IsWindow(created, admitted, start, n + 1)
                      <==> IsWindow(created, init, start, n) && admitted[n] <= OpenedAt(created, admitted, start) + 900_000_000))
  {
    var init := admitted[..|admitted| - 1];
    assert forall i :: 0 <= i < |init| ==> init[i] == admitted[i];
  }

  lemma LastAlone(created: int, admitted: seq<int>)
    requires admitted != [] && (|admitted| == 1 ==> created <= admitted[0])
    ensures IsWindow(created, admitted, |admitted| - 1, |admitted|)
  {
  }

  lemma {:induction false} DivisionDivides(created: int, admitted: seq<int>)
    requires admitted != [] && created <= admitted[0]
    ensures Windows(created, admitted, Division(created, admitted))
  {
    hide IsWindow;
    var n := |admitted| - 1;
    var starts := Division(created, admitted);
    LastAlone(created, admitted);
    if n > 0 {
      var init := admitted[..n];
      var before := Division(created, init);
      DivisionDivides(created, init);
      forall j | 0 <= j < |starts| ensures IsWindow(created, admitted, starts[j], EndOf(admitted, starts, j)) {
        if j < |before| {
          assert IsWindow(created, init, before[j], EndOf(init, before, j));
          InRange(created, init, before[j], EndOf(init, before, j));
          WindowWithout(created, admitted, before[j], EndOf(init, before, j));
          if j == |before| - 1 { assert EndOf(init, before, j) == n; } else { EndsBefore(created, init, before, j); }
        }
      }
    }
  }

  lemma InRange(created: int, admitted: seq<int>, start: nat, end: nat)
    requires IsWindow(created, admitted, start, end)
    ensures start < end <= |admitted|
  {
  }

  /** The division without the last attempt. */
  lemma Undivided(created: int, admitted: seq<int>, starts: seq<nat>)
    requires Windows(created, admitted, starts) && |admitted| > 1
    ensures var n, k := |admitted| - 1, |starts| - 1;
            if starts[k] == n
            then k > 0 && Windows(created, admitted[..n], starts[..k])
                 && starts[k - 1] < n && admitted[n] > OpenedAt(created, admitted, starts[k - 1]) + 900_000_000
            else Windows(created, admitted[..n], starts) && starts[k] < n && admitted[n] <= OpenedAt(created, admitted, starts[k]) + 900_000_000
  {
    hide IsWindow, OpenedAt;
    var n, k := |admitted| - 1, |starts| - 1;
    var init, fewer := admitted[..n], if starts[k] == n then starts[..k] else starts;
    assert IsWindow(created, admitted, starts[k], EndOf(admitted, starts, k));
    InRange(created, admitted, starts[k], EndOf(admitted, starts, k));
    forall j | 0 <= j < |fewer|
      ensures IsWindow(created, init, fewer[j], EndOf(init, fewer, j)) && fewer[j] < n
      ensures j == k - 1 && starts[k] == n ==> admitted[n] > OpenedAt(created, admitted, starts[j]) + 900_000_000
      ensures j == k ==> admitted[n] <= OpenedAt(created, admitted, starts[j]) + 900_000_000
    {
      assert IsWindow(created, admitted, starts[j], EndOf(admitted, starts, j));
      EndsBefore(created, admitted, starts, j);
      InRange(created, admitted, starts[j], EndOf(admitted, starts, j));
      WindowWithout(created, admitted, starts[j], EndOf(init, fewer, j));
    }
  }

  /** Windows follow one another: each but the last ends no later than the last begins. */
  lemma {:induction false} EndsBefore(created: int, admitted: seq<int>, starts: seq<nat>, j: nat)
    requires Windows(created, admitted, starts) && j < |starts|
    ensures j < |starts| - 1 ==> EndOf(admitted, starts, j) <= starts[|starts| - 1] < |admitted|
    decreases |starts| - j
  {
    assert IsWindow(created, admitted, starts[|starts| - 1], EndOf(admitted, starts, |starts| - 1));
    if j < |starts| - 1 {
      assert IsWindow(created, admitted, starts[j + 1], EndOf(admitted, starts, j + 1));
      EndsBefore(created, admitted, starts, j + 1);
    }
  }

  /** The bucket holds the last window: when it opened, and how many it counts. */
  ghost predicate HoldsLast(created: int, t: Trace, starts: seq<nat>) {
    && starts != [] && starts[|starts| - 1] < |t.admitted|
    && t.bucket.count == |t.admitted| - starts[|starts| - 1]
    && t.bucket.startedAt == Some(OpenedAt(created, t.admitted, starts[|starts| - 1]))
  }

  lemma OneWindow(created: int, first: int, starts: seq<nat>)
    requires Windows(created, [first], starts) && created <= first
    ensures HoldsLast(created, Trace(Recorded(Created(created), first), [first]), starts)
  {
    EndsBefore(created, [first], starts, 0);
    assert IsWindow(created, [first], starts[0], EndOf([first], starts, 0));
  }

  lemma OneMoreCounted(created: int, t: Trace, now: int, starts: seq<nat>)
    requires t.admitted != [] && Windows(created, t.admitted + [now], starts)
    requires var k := |starts| - 1; HoldsLast(created, t, if starts[k] == |t.admitted| then starts[..k] else starts)
    ensures HoldsLast(created, Trace(Recorded(t.bucket, now), t.admitted + [now]), starts)
  {
    var k, more := |starts| - 1, t.admitted + [now];
    assert more[..|t.admitted|] == t.admitted;
    Undivided(created, more, starts);
    hide Windows;
    assert forall s :: 0 <= s < |t.admitted| ==> OpenedAt(created, more, s) == OpenedAt(created, t.admitted, s);
  }

  lemma {:induction false} BucketIsLastWindow(created: int, times: seq<int>, starts: seq<nat>)
    requires times != [] && Sorted(times) && created <= times[0]
    requires Windows(created, Follow(created, times).admitted, starts)
    ensures HoldsLast(created, Follow(created, times), starts)
    decreases |times|
  {
    var n := |times| - 1;
    var init := Follow(created, times[..n]);
    if n == 0 {
      assert Follow(created, times[..0]) == Trace(Created(created), []);
      OneWindow(created, times[0], starts);
    } else {
      FollowOk(created, times[..n]);
      hide Windows, HoldsLast, WindowBound, OldBefore, NineSpan, NineFit, CountsLast, Recorded;
      if Attempt(init.bucket, times[n]).None? {
        BucketIsLastWindow(created, times[..n], starts);
      } else {
        var k := |starts| - 1;
        FewerWindows(created, init.admitted, times[n], starts);
        BucketIsLastWindow(created, times[..n], if starts[k] == |init.admitted| then starts[..k] else starts);
        OneMoreCounted(created, init, times[n], starts);
      }
    }
  }

  lemma FewerWindows(created: int, admitted: seq<int>, now: int, starts: seq<nat>)
    requires admitted != [] && Windows(created, admitted + [now], starts)
    ensures starts != [] && Windows(created, admitted, if starts[|starts| - 1] == |admitted| then starts[..|starts| - 1] else starts)
  {
    assert (admitted + [now])[..|admitted|] == admitted;
    Undivided(created, admitted + [now], starts);
  }

  /**
   An attempt is refused exactly when the open window has counted five or more and the last of them is less than fifteen
   minutes old; whoever asks without attempting hears the same.
   */
  lemma RefusedExactly(created: int, times: seq<int>, now: int, starts: seq<nat>)
    requires times != [] && Sorted(times) && created <= times[0] && times[|times| - 1] <= now
    requires Windows(created, Follow(created, times).admitted, starts)
    ensures var t := Follow(created, times);
            var n := |t.admitted|;
            var refused := n - starts[|starts| - 1] >= 5 && now < t.admitted[n - 1] + 900_000_000;
            && Follow(created, times + [now]).admitted == (if refused then t.admitted else t.admitted + [now])
            && (Locked(t.bucket, now) <==> refused)
  {
    FollowOk(created, times);
    BucketIsLastWindow(created, times, starts);
    assert (times + [now])[..|times|] == times;
    hide Windows, WindowBound, OldBefore, NineSpan, NineFit, Recorded;
  }

  /** So fifteen minutes after the last admitted attempt the next one is admitted, whatever came before. */
  lemma LockEnds(created: int, times: seq<int>, now: int)
    requires times != [] && Sorted(times) && created <= times[0] && times[|times| - 1] <= now
    requires var admitted := Follow(created, times).admitted; admitted != [] && now >= admitted[|admitted| - 1] + 900_000_000
    ensures Follow(created, times + [now]).admitted == Follow(created, times).admitted + [now]
  {
    var starts := Division(created, Follow(created, times).admitted);
    FollowOk(created, times);
    DivisionDivides(created, Follow(created, times).admitted);
    hide Windows;
    RefusedExactly(created, times, now, starts);
  }

  // ---------------------------------------------------------------- tight

  function Repeat(x: int, n: nat): (r: seq<int>)
    ensures |r| == n && forall i :: 0 <= i < n ==> r[i] == x
    decreases n
  {
    if n == 0 then [] else Repeat(x, n - 1) + [x]
  }

  lemma FollowOne(created: int, times: seq<int>, now: int)
    requires Attempt(Follow(created, times).bucket, now).Some?
    ensures var t := Follow(created, times);
            Follow(created, times + [now]) == Trace(Attempt(t.bucket, now).value, t.admitted + [now])
  {
    assert (times + [now])[..|times|] == times;
  }

  /** Attempts at one time within the open window are counted one by one, up to the fifth. */
  lemma {:induction false} CountedTogether(created: int, times: seq<int>, b: Bucket, x: int, n: nat)
    requires Follow(created, times) == Trace(b, times)
    requires b.startedAt.Some? && b.lockedUntil.None? && x <= b.startedAt.value + WINDOW && b.count + n <= MAX_FAILURES
    ensures Follow(created, times + Repeat(x, n)).admitted == times + Repeat(x, n)
    ensures b.count + n < MAX_FAILURES ==> Follow(created, times + Repeat(x, n)).bucket == b.(count := b.count + n)
    decreases n
  {
    hide Follow, Repeat;
    RepeatSteps(times, x, n);
    if n > 0 {
      CountedTogether(created, times, b, x, n - 1);
      FollowOne(created, times + Repeat(x, n - 1), x);
    }
  }

  lemma RepeatSteps(times: seq<int>, x: int, n: nat)
    ensures n == 0 ==> times + Repeat(x, n) == times
    ensures n > 0 ==> times + Repeat(x, n) == times + Repeat(x, n - 1) + [x]
    ensures n > 0 ==> times + Repeat(x, n) == times + [x] + Repeat(x, n - 1)
  {
  }

  /** Four counted, then five just after the window: all get through. */
  lemma FiveMore(created: int, times: seq<int>, start: int)
    requires Follow(created, times) == Trace(Bucket(4, Some(start), None), times)
    ensures Follow(created, times + Repeat(start + WINDOW + 1, 5)).admitted == times + Repeat(start + WINDOW + 1, 5)
  {
    var x := start + WINDOW + 1;
    hide Follow, Repeat;
    FollowOne(created, times, x);
    CountedTogether(created, times + [x], Bucket(1, Some(x), None), x, 4);
    RepeatSteps(times, x, 5);
  }

  lemma Unused(created: int)
    ensures Follow(created, []) == Trace(Created(created), [])
  {
  }

  /** Nine are reached: a bucket created two microseconds before the first of four attempts, and five at the end of its window. */
  lemma NineIsReached()
    ensures exists created, times, from ::
              times != [] && Sorted(times) && created <= times[0] && CountFrom(Follow(created, times).admitted, from) == 9
  {
    var times := Repeat(0, 4) + Repeat(WINDOW - 1, 5);
    hide Follow;
    NineAdmitted();
    NineExactly(-2, times);
  }

  lemma NineAdmitted()
    ensures var times := Repeat(0, 4) + Repeat(WINDOW - 1, 5); Follow(-2, times).admitted == times
  {
    Unused(-2);
    CountedTogether(-2, [], Created(-2), 0, 4);
    assert [] + Repeat(0, 4) == Repeat(0, 4);
    hide Follow, Repeat;
    FiveMore(-2, Repeat(0, 4), -2);
  }

  /** And eight with equal readings: one attempt, three at the end of its window, five just after it. */
  lemma EightIsReached()
    ensures exists times :: times != [] && Sorted(times) && CountFrom(Follow(times[0], times).admitted, WINDOW) == 8
  {
    var times := [0] + Repeat(WINDOW, 3) + Repeat(WINDOW + 1, 5);
    hide Follow, CountFrom, Repeat;
    EightAdmitted();
    EightTimes(times);
    AtMostEightPerWindow(times, WINDOW);
    AllCounted(times, 1, 9, WINDOW);
  }

  lemma EightAdmitted()
    ensures var times := [0] + Repeat(WINDOW, 3) + Repeat(WINDOW + 1, 5); Follow(0, times).admitted == times
  {
    Unused(0);
    FollowOne(0, [], 0);
    hide Follow, Repeat;
    assert [] + [0] == [0];
    CountedTogether(0, [0], Bucket(1, Some(0), None), WINDOW, 3);
    FiveMore(0, [0] + Repeat(WINDOW, 3), 0);
  }

  lemma EightTimes(times: seq<int>)
    requires times == [0] + Repeat(WINDOW, 3) + Repeat(WINDOW + 1, 5)
    ensures |times| == 9 && times[0] == 0 && Sorted(times)
    ensures forall i :: 1 <= i < 9 ==> WINDOW <= times[i] <= WINDOW + 1
  {
    hide Repeat;
  }
}
