/**
 Push fan-out: one delivery goes to every active device of its recipient, is retried while some
 device failed for a passing reason, and never reaches a device twice.
 */
module Push {
  import opened Powers
  import opened Wrappers

  const MAX_PUSH_ATTEMPTS := 5
  const BASE_BACKOFF_SECONDS := 30
  const DAILY_CAP := 10

  datatype Status = Pending | Failed | Sent

  /** `Clean` is the empty error text; suppressed rows are SENT with a reason. */
  datatype Note = Clean | Suppressed | ProviderError

  /** `day` is the local day of the last update; `capped` rows belong to the daily-capped category. */
  datatype Delivery = Delivery(
    status: Status,
    attempts: nat,
    nextRetryAt: Option<int>,
    note: Note,
    sentTo: set<nat>,
    day: int,
    capped: bool)

  /** What the provider answers for one device. */
  datatype Answer = Accepted | TerminalError | TransientError

  datatype Round = Round(now: int, today: int, eligible: bool, answers: map<nat, Answer>)

  /** Rows of one recipient, the recipient's devices, and the successful sends in order. */
  datatype State = State(deliveries: seq<Delivery>, active: map<nat, bool>, sends: seq<(nat, nat)>)

  const INITIAL := State([], map[], [])

  function AnswerFor(r: Round, device: nat): Answer { if device in r.answers then r.answers[device] else TransientError }

  predicate Active(s: State, device: nat) { device in s.active && s.active[device] }

  // ---------------------------------------------------------------- the daily cap

  predicate CountsToday(d: Delivery, today: int) { d.capped && d.status == Sent && d.note == Clean && d.day == today }

  function SentToday(deliveries: seq<Delivery>, today: int): nat {
    if deliveries == [] then 0
    else
      var n := |deliveries| - 1;
      SentToday(deliveries[..n], today) + (if CountsToday(deliveries[n], today) then 1 else 0)
  }

  lemma {:induction false} SentTodayUpdate(ds: seq<Delivery>, i: nat, d: Delivery, today: int)
    requires i < |ds|
    ensures SentToday(ds[i := d], today) + (if CountsToday(ds[i], today) then 1 else 0)
         == SentToday(ds, today) + (if CountsToday(d, today) then 1 else 0)
  {
    var n := |ds| - 1;
    if i == n {
      assert ds[i := d][..n] == ds[..n];
    } else {
      SentTodayUpdate(ds[..n], i, d, today);
      assert ds[i := d][..n] == ds[..n][i := d];
    }
  }

  /** The deliveries of the capped category that were sent and not suppressed on a day. */
  ghost function Through(deliveries: seq<Delivery>, day: int): set<nat> {
    set i: nat | i < |deliveries| && deliveries[i].capped && deliveries[i].status == Sent && deliveries[i].note == Clean && deliveries[i].day == day
  }

  lemma {:induction false} CountsThrough(deliveries: seq<Delivery>, day: int)
    ensures SentToday(deliveries, day) == |Through(deliveries, day)|
  {
    if deliveries != [] {
      var n := |deliveries| - 1;
      CountsThrough(deliveries[..n], day);
      assert Through(deliveries, day) == Through(deliveries[..n], day) + (if CountsToday(deliveries[n], day) then {n} else {});
    }
  }

  // ---------------------------------------------------------------- one round

  predicate Claimable(d: Delivery, now: int) {
    d.status == Pending || (d.status == Failed && d.nextRetryAt.Some? && d.nextRetryAt.value <= now)
  }

  function Backoff(attempts: nat): int {
    BASE_BACKOFF_SECONDS * Pow2(if attempts == 0 then 0 else if attempts - 1 < 6 then attempts - 1 else 6)
  }

  /** Retry delays never shrink and stay between half a minute and 32 minutes. */
  lemma BackoffBounds(a: nat, b: nat)
    requires a <= b
    ensures BASE_BACKOFF_SECONDS <= Backoff(a) <= Backoff(b) <= 64 * BASE_BACKOFF_SECONDS
  {
    var m := if a == 0 then 0 else if a - 1 < 6 then a - 1 else 6;
    var n := if b == 0 then 0 else if b - 1 < 6 then b - 1 else 6;
    Pow2Grows(m, n);
    Pow2Grows(n, 6);
    assert Pow2(6) == 64;
  }

  function Suppress(d: Delivery, today: int): Delivery { d.(status := Sent, note := Suppressed, day := today) }

  /** The row after its devices were tried. */
  function Settle(d: Delivery, r: Round, sentTo: set<nat>, transient: bool): Delivery {
    var t := d.(attempts := d.attempts + 1, sentTo := sentTo, day := r.today);
    if transient then
      t.(status := Failed, note := ProviderError,
         nextRetryAt := if t.attempts >= MAX_PUSH_ATTEMPTS then None else Some(r.now + Backoff(t.attempts)))
    else t.(status := Sent, nextRetryAt := None, note := if sentTo != {} then Clean else Suppressed)
  }

  /** Fan-out over a list of devices: rows sent to, devices still active, sends made, a transient failure seen. */
  datatype Progress = Progress(sentTo: set<nat>, active: map<nat, bool>, sends: seq<(nat, nat)>, transient: bool)

  function TryDevice(p: Progress, delivery: nat, r: Round, device: nat): Progress {
    if device in p.sentTo then p
    else
      match AnswerFor(r, device)
      case Accepted => p.(sentTo := p.sentTo + {device}, sends := p.sends + [(delivery, device)])
      case TerminalError => p.(active := p.active[device := false])
      case TransientError => p.(transient := true)
  }

  function FanOut(p: Progress, delivery: nat, r: Round, devices: seq<nat>): Progress {
    if devices == [] then p
    else TryDevice(FanOut(p, delivery, r, devices[..|devices| - 1]), delivery, r, devices[|devices| - 1])
  }

  predicate CapReached(s: State, i: nat, today: int)
    requires i < |s.deliveries|
  {
    s.deliveries[i].capped && SentToday(s.deliveries, today) >= DAILY_CAP
  }

  /** A round for delivery i under its row lock, over the devices and with the count it has read. */
  function Processed(s: State, i: nat, r: Round, devices: seq<nat>, capReached: bool): State
    requires i < |s.deliveries|
  {
    var d := s.deliveries[i];
    if d.status == Sent then s
    else if !r.eligible || devices == [] || capReached then s.(deliveries := s.deliveries[i := Suppress(d, r.today)])
    else
      var p := FanOut(Progress(d.sentTo, s.active, s.sends, false), i, r, devices);
      s.(deliveries := s.deliveries[i := Settle(d, r, p.sentTo, p.transient)], active := p.active, sends := p.sends)
  }

  /** A round nobody interferes with. */
  function ProcessPush(s: State, i: nat, r: Round, devices: seq<nat>): State
    requires i < |s.deliveries|
  {
    Processed(s, i, r, devices, CapReached(s, i, r.today))
  }

  class Mailbox {
    var deliveries: seq<Delivery>
    var active: map<nat, bool>
    var sends: seq<(nat, nat)>

    constructor ()
      ensures View() == INITIAL
    {
      deliveries, active, sends := [], map[], [];
    }

    function View(): State
      reads this
    {
      State(deliveries, active, sends)
    }

    /** The loop over the devices, and the row update after it. */
    method ProcessPushDelivery(i: nat, r: Round, devices: seq<nat>)
      requires i < |deliveries|
      modifies this
      ensures View() == ProcessPush(old(View()), i, r, devices)
    {
      var d := deliveries[i];
      if d.status == Sent { return; }
      if !r.eligible || devices == [] || (d.capped && SentToday(deliveries, r.today) >= DAILY_CAP) {
        deliveries := deliveries[i := d.(status := Sent, note := Suppressed, day := r.today)];
        return;
      }
      var alreadySent := d.sentTo;
      var anySuccess := alreadySent != {};
      var anyTransient := false;
      for k := 0 to |devices|
        invariant deliveries == old(deliveries)
        invariant FanOut(Progress(d.sentTo, old(active), old(sends), false), i, r, devices[..k])
               == Progress(alreadySent, active, sends, anyTransient)
        invariant anySuccess <==> alreadySent != {}
      {
        assert devices[..k + 1][..k] == devices[..k];
        var device := devices[k];
        if device in alreadySent { continue; }
        match AnswerFor(r, device) {
          case Accepted =>
            sends := sends + [(i, device)];
            alreadySent := alreadySent + {device};
            anySuccess := true;
          case TerminalError => active := active[device := false];
          case TransientError => anyTransient := true;
        }
      }
      assert devices[..|devices|] == devices;
      d := d.(attempts := d.attempts + 1, sentTo := alreadySent, day := r.today);
      if anyTransient {
        d := d.(status := Failed, note := ProviderError);
        d := d.(nextRetryAt := if d.attempts >= MAX_PUSH_ATTEMPTS then None else Some(r.now + Backoff(d.attempts)));
      } else if anySuccess {
        d := d.(status := Sent, note := Clean, nextRetryAt := None);
      } else {
        d := d.(status := Sent, note := Suppressed, nextRetryAt := None);
      }
      deliveries := deliveries[i := d];
    }
  }

  // ---------------------------------------------------------------- runs

  /**
   A round ends with what it read when it began: the devices, and whether the cap was reached. Rounds of other
   deliveries may have gone on meanwhile, so neither need still be so.
   */
  datatype Step =
    | Enqueue(capped: bool)
    | SetDevice(device: nat, on: bool)
    | RoundStep(i: nat, round: Round, devices: seq<nat>, capSeen: bool)

  function Next(s: State, step: Step): State {
    match step
    case Enqueue(capped) => s.(deliveries := s.deliveries + [Delivery(Pending, 0, None, Clean, {}, 0, capped)])
    case SetDevice(x, on) => s.(active := s.active[x := on])
    case RoundStep(i, r, devices, capSeen) =>
      if i < |s.deliveries| then Processed(s, i, r, devices, s.deliveries[i].capped && capSeen) else s
  }

  function Run(s: State, steps: seq<Step>): State {
    if steps == [] then s else Next(Run(s, steps[..|steps| - 1]), steps[|steps| - 1])
  }

  // ---------------------------------------------------------------- no device twice

  /** The sends of a delivery are exactly its sent set, each once. */
  ghost predicate SendsOk(s: State) {
    && (forall i, x :: (i, x) in s.sends ==> i < |s.deliveries|)
    && (forall i, x :: 0 <= i < |s.deliveries| ==> ((i, x) in s.sends <==> x in s.deliveries[i].sentTo))
    && (forall j, k :: 0 <= j < k < |s.sends| ==> s.sends[j] != s.sends[k])
  }

  /** The same while a round is under way on delivery i. */
  ghost predicate ProgressOk(p: Progress, i: nat) {
    && (forall x :: (i, x) in p.sends <==> x in p.sentTo)
    && (forall j, k :: 0 <= j < k < |p.sends| ==> p.sends[j] != p.sends[k])
  }

  lemma {:induction false} FanOutKeeps(p: Progress, i: nat, r: Round, devices: seq<nat>)
    requires ProgressOk(p, i)
    ensures var q := FanOut(p, i, r, devices);
            && ProgressOk(q, i)
            && p.sentTo <= q.sentTo && p.sends <= q.sends
            && (forall j, x :: j != i ==> ((j, x) in q.sends <==> (j, x) in p.sends))
  {
    if devices != [] {
      var n := |devices| - 1;
      FanOutKeeps(p, i, r, devices[..n]);
      var q, x := FanOut(p, i, r, devices[..n]), devices[n];
      if x !in q.sentTo && AnswerFor(r, x) == Accepted {
        var more := q.sends + [(i, x)];
        assert (i, x) !in q.sends;
        forall j, y ensures (j, y) in more <==> (j, y) in q.sends || (j == i && y == x) { }
      }
    }
  }

  /** Every device of the list has the delivery, was deactivated, or failed for a passing reason. */
  lemma {:induction false} FanOutReaches(p: Progress, i: nat, r: Round, devices: seq<nat>, x: nat)
    requires x in devices
    ensures var q := FanOut(p, i, r, devices);
            x in q.sentTo || (x in q.active && !q.active[x]) || q.transient
  {
    var n := |devices| - 1;
    assert devices == devices[..n] + [devices[n]];
    if x in devices[..n] { FanOutReaches(p, i, r, devices[..n], x); }
  }

  lemma RoundKeepsSends(s: State, i: nat, r: Round, devices: seq<nat>, capReached: bool)
    requires SendsOk(s) && i < |s.deliveries|
    ensures SendsOk(Processed(s, i, r, devices, capReached))
    ensures s.sends <= Processed(s, i, r, devices, capReached).sends
    ensures s.deliveries[i].sentTo <= Processed(s, i, r, devices, capReached).deliveries[i].sentTo
  {
    FanOutKeeps(Progress(s.deliveries[i].sentTo, s.active, s.sends, false), i, r, devices);
  }

  lemma StepKeepsSends(s: State, step: Step)
    requires SendsOk(s)
    ensures SendsOk(Next(s, step)) && s.sends <= Next(s, step).sends && |s.deliveries| <= |Next(s, step).deliveries|
    ensures forall i :: 0 <= i < |s.deliveries| ==> s.deliveries[i].sentTo <= Next(s, step).deliveries[i].sentTo
  {
    match step {
      case RoundStep(i, r, devices, capSeen) =>
        if i < |s.deliveries| { RoundKeepsSends(s, i, r, devices, s.deliveries[i].capped && capSeen); }
      case Enqueue(capped) =>
        var t := Next(s, step);
        forall j, x | 0 <= j < |t.deliveries| ensures (j, x) in t.sends <==> x in t.deliveries[j].sentTo { }
      case SetDevice(x, on) =>
    }
  }

  lemma {:induction false} RunKeepsSends(s: State, steps: seq<Step>)
    requires SendsOk(s)
    ensures SendsOk(Run(s, steps)) && s.sends <= Run(s, steps).sends && |s.deliveries| <= |Run(s, steps).deliveries|
    ensures forall i :: 0 <= i < |s.deliveries| ==> s.deliveries[i].sentTo <= Run(s, steps).deliveries[i].sentTo
  {
    if steps != [] {
      RunKeepsSends(s, steps[..|steps| - 1]);
      StepKeepsSends(Run(s, steps[..|steps| - 1]), steps[|steps| - 1]);
    }
  }

  /** No device receives one delivery twice, and what was sent stays sent, over all rounds of all workers. */
  lemma NoDeviceTwice(first: seq<Step>, later: seq<Step>, j: nat, k: nat)
    requires j < |Run(INITIAL, first).sends| && k < |Run(INITIAL, first).sends|
    ensures var s := Run(INITIAL, first);
            && (s.sends[j] == s.sends[k] ==> j == k)
            && s.sends <= Run(s, later).sends
            && forall i :: 0 <= i < |s.deliveries| ==>
                 i < |Run(s, later).deliveries| && s.deliveries[i].sentTo <= Run(s, later).deliveries[i].sentTo
  {
    RunKeepsSends(INITIAL, first);
    RunKeepsSends(Run(INITIAL, first), later);
  }

  /**
   A round that ends SENT without a suppression note reached at least one device (in this round or an
   earlier one), and every device it listed at its start has the delivery or has been deactivated.
   */
  lemma SentMeansDelivered(s: State, i: nat, r: Round, devices: seq<nat>, capReached: bool, x: nat)
    requires i < |s.deliveries| && s.deliveries[i].status != Sent
    requires var d := Processed(s, i, r, devices, capReached).deliveries[i]; d.status == Sent && d.note == Clean
    ensures var t := Processed(s, i, r, devices, capReached);
            && t.deliveries[i].sentTo != {}
            && (x in devices ==> x in t.deliveries[i].sentTo || !Active(t, x))
  {
    if x in devices {
      FanOutReaches(Progress(s.deliveries[i].sentTo, s.active, s.sends, false), i, r, devices, x);
    }
  }

  // ---------------------------------------------------------------- one round, column by column

  /** The devices of the list for which the provider answers so; silence is a passing failure. */
  ghost function Answering(r: Round, devices: seq<nat>, answer: Answer): set<nat> {
    set x | x in devices && (if x in r.answers then r.answers[x] else TransientError) == answer
  }

  /** One device more. */
  lemma OneMoreAnswers(r: Round, devices: seq<nat>)
    requires devices != []
    ensures var n := |devices| - 1;
            forall a: Answer :: Answering(r, devices, a) == Answering(r, devices[..n], a) + (if AnswerFor(r, devices[n]) == a then {devices[n]} else {})
  {
    var n := |devices| - 1;
    assert forall x :: x in devices <==> x in devices[..n] || x == devices[n];
  }

  lemma {:induction false} AcceptedAreSent(p: Progress, i: nat, r: Round, devices: seq<nat>)
    ensures FanOut(p, i, r, devices).sentTo == p.sentTo + Answering(r, devices, Accepted)
  {
    if devices != [] {
      AcceptedAreSent(p, i, r, devices[..|devices| - 1]);
      OneMoreAnswers(r, devices);
      hide Answering;
    }
  }

  lemma {:induction false} PassingFailuresShow(p: Progress, i: nat, r: Round, devices: seq<nat>)
    ensures FanOut(p, i, r, devices).transient <==> p.transient || exists x :: x in Answering(r, devices, TransientError) && x !in p.sentTo
  {
    if devices != [] {
      var n := |devices| - 1;
      PassingFailuresShow(p, i, r, devices[..n]);
      AcceptedAreSent(p, i, r, devices[..n]);
      OneMoreAnswers(r, devices);
      assert devices[n] in Answering(r, devices[..n], Accepted) ==> AnswerFor(r, devices[n]) == Accepted;
      hide Answering, FanOut;
    }
  }

  lemma {:induction false} DeadDevicesGo(p: Progress, i: nat, r: Round, devices: seq<nat>)
    ensures FanOut(p, i, r, devices).active == map x | x in p.active.Keys + (Answering(r, devices, TerminalError) - p.sentTo) ::
              if x in Answering(r, devices, TerminalError) - p.sentTo then false else p.active[x]
  {
    if devices != [] {
      var n := |devices| - 1;
      DeadDevicesGo(p, i, r, devices[..n]);
      AcceptedAreSent(p, i, r, devices[..n]);
      OneMoreAnswers(r, devices);
      assert devices[n] in Answering(r, devices[..n], Accepted) ==> AnswerFor(r, devices[n]) == Accepted;
      hide Answering;
    }
  }

  /** Half a minute after the first round, twice as long after each further one, 32 minutes at most. */
  ghost function Wait(rounds: nat): int { if rounds >= 7 then 1920 else if rounds <= 1 then 30 else 2 * Wait(rounds - 1) }

  lemma BackoffIsWait(rounds: nat)
    requires rounds >= 1
    ensures Backoff(rounds) == Wait(rounds)
  {
    if 1 < rounds < 7 { BackoffIsWait(rounds - 1); }
    assert Pow2(6) == 64;
  }

  /**
   What a round leaves in its row. A row already sent stays as it is; one whose recipient is not eligible, has no device or has reached the
   cap is sent with a suppression note. Otherwise the devices that accept are remembered; if one that had not got it fails for a passing
   reason, the row has failed and waits, five rounds at most; if none does, it is sent, with a note only if no device ever accepted.
   */
  lemma RoundByColumns(s: State, i: nat, r: Round, devices: seq<nat>, capReached: bool)
    requires i < |s.deliveries|
    ensures var d, t := s.deliveries[i], Processed(s, i, r, devices, capReached);
            && |t.deliveries| == |s.deliveries| && t.deliveries == s.deliveries[i := t.deliveries[i]]
            && (d.status == Sent ==> t == s)
            && (d.status != Sent && (!r.eligible || devices == [] || capReached) ==>
                  t == s.(deliveries := s.deliveries[i := d.(status := Sent, note := Suppressed, day := r.today)]))
            && (d.status != Sent && r.eligible && devices != [] && !capReached ==>
                  var accepted := d.sentTo + Answering(r, devices, Accepted);
                  var waits := exists x :: x in Answering(r, devices, TransientError) && x !in d.sentTo;
                  && t.deliveries[i] == Delivery(
                       if waits then Failed else Sent,
                       d.attempts + 1,
                       if waits && d.attempts + 1 < 5 then Some(r.now + Wait(d.attempts + 1)) else None,
                       if waits then ProviderError else if accepted != {} then Clean else Suppressed,
                       accepted, r.today, d.capped)
                  && t.active == map x | x in s.active.Keys + (Answering(r, devices, TerminalError) - d.sentTo) ::
                                   if x in Answering(r, devices, TerminalError) - d.sentTo then false else s.active[x])
  {
    var d := s.deliveries[i];
    AcceptedAreSent(Progress(d.sentTo, s.active, s.sends, false), i, r, devices);
    PassingFailuresShow(Progress(d.sentTo, s.active, s.sends, false), i, r, devices);
    DeadDevicesGo(Progress(d.sentTo, s.active, s.sends, false), i, r, devices);
    BackoffIsWait(d.attempts + 1);
    hide FanOut, Backoff, Answering, Wait;
  }

  /**
   When a row can be claimed next, after a round on one that was not sent: never if it is sent now or has failed five times, else from the
   end of its waiting time on. A new row can be claimed at once.
   */
  lemma WaitsExactly(s: State, i: nat, r: Round, devices: seq<nat>, capReached: bool, now: int, capped: bool)
    requires i < |s.deliveries| && s.deliveries[i].status != Sent
    ensures var d, t := s.deliveries[i], Processed(s, i, r, devices, capReached).deliveries[i];
            Claimable(t, now) <==>
              && r.eligible && devices != [] && !capReached
              && (exists x :: x in Answering(r, devices, TransientError) && x !in d.sentTo)
              && d.attempts + 1 < 5 && now >= r.now + Wait(d.attempts + 1)
    ensures var row := Next(s, Enqueue(capped)).deliveries[|s.deliveries|]; Claimable(row, now) && row.attempts == 0 && row.sentTo == {}
    ensures forall sent: Delivery | sent.status == Sent :: !Claimable(sent, now)
  {
    RoundByColumns(s, i, r, devices, capReached);
    hide Processed, Answering, Wait;
  }

  // ---------------------------------------------------------------- rounds

  /** Rounds happen on claimed rows only: one worker, or workers whose claims are fresh. */
  ghost predicate Claimed(s: State, step: Step) {
    step.RoundStep? && step.i < |s.deliveries| ==> Claimable(s.deliveries[step.i], step.round.now)
  }

  ghost predicate ClaimedRun(s: State, steps: seq<Step>) {
    steps == [] || (ClaimedRun(s, steps[..|steps| - 1]) && Claimed(Run(s, steps[..|steps| - 1]), steps[|steps| - 1]))
  }

  /** A round that gets as far as trying the devices: the only kind that is counted. */
  ghost predicate Counted(s: State, step: Step, i: nat) {
    && step.RoundStep? && step.i == i && i < |s.deliveries|
    && s.deliveries[i].status != Sent && step.round.eligible && step.devices != []
    && !(s.deliveries[i].capped && step.capSeen)
  }

  function Attempts(s: State, i: nat): nat { if i < |s.deliveries| then s.deliveries[i].attempts else 0 }

  /** A step raises a row's attempts exactly when it is a counted round for it, and then by one. */
  lemma StepCounts(s: State, step: Step, i: nat)
    ensures Attempts(Next(s, step), i) == Attempts(s, i) + (if Counted(s, step, i) then 1 else 0)
  {
    hide FanOut, Backoff;
  }

  /** A row that used up its rounds is never due again; a pending row has used none. */
  ghost predicate SpentOk(d: Delivery) {
    && (d.attempts >= MAX_PUSH_ATTEMPTS ==> d.status != Pending && d.nextRetryAt.None?)
    && (d.status == Pending ==> d.attempts == 0)
  }

  ghost predicate RowsSpentOk(s: State) { forall i :: 0 <= i < |s.deliveries| ==> SpentOk(s.deliveries[i]) }

  lemma StepKeepsSpent(s: State, step: Step)
    requires RowsSpentOk(s)
    ensures RowsSpentOk(Next(s, step))
  {
    hide FanOut, Backoff;
    forall i | 0 <= i < |Next(s, step).deliveries| ensures SpentOk(Next(s, step).deliveries[i]) {
      if i < |s.deliveries| { assert SpentOk(s.deliveries[i]); }
    }
  }

  lemma {:induction false} RunKeepsSpent(steps: seq<Step>)
    ensures RowsSpentOk(Run(INITIAL, steps))
  {
    if steps != [] {
      RunKeepsSpent(steps[..|steps| - 1]);
      StepKeepsSpent(Run(INITIAL, steps[..|steps| - 1]), steps[|steps| - 1]);
    }
  }

  /** How many of a run's steps are counted rounds for delivery i. */
  ghost function CountedRounds(steps: seq<Step>, i: nat): nat {
    if steps == [] then 0
    else
      var init := steps[..|steps| - 1];
      CountedRounds(init, i) + (if Counted(Run(INITIAL, init), steps[|steps| - 1], i) then 1 else 0)
  }

  /** In every run, whoever processed the row and however stale their claims, its attempts are its counted rounds. */
  lemma {:induction false} AttemptsAreRounds(steps: seq<Step>, i: nat)
    ensures Attempts(Run(INITIAL, steps), i) == CountedRounds(steps, i)
  {
    if steps != [] {
      AttemptsAreRounds(steps[..|steps| - 1], i);
      StepCounts(Run(INITIAL, steps[..|steps| - 1]), steps[|steps| - 1], i);
    }
  }

  /** Step k is a counted round for row i although the row has used up its rounds and no claim on it is fresh. */
  ghost predicate StaleRound(steps: seq<Step>, i: nat, k: nat) {
    && k < |steps|
    && var s := Run(INITIAL, steps[..k]);
       && Counted(s, steps[k], i) && Attempts(s, i) == MAX_PUSH_ATTEMPTS && !Claimable(s.deliveries[i], steps[k].round.now)
  }

  /** The limit of five is passed in a run exactly when some counted round acts on a row that is spent and not due. */
  lemma {:induction false} LimitPassedExactly(steps: seq<Step>, i: nat)
    ensures Attempts(Run(INITIAL, steps), i) > MAX_PUSH_ATTEMPTS <==> exists k: nat :: StaleRound(steps, i, k)
  {
    if steps != [] {
      var init, n := steps[..|steps| - 1], |steps| - 1;
      LimitPassedExactly(init, i);
      StepCounts(Run(INITIAL, init), steps[n], i);
      RunKeepsSpent(init);
      EarlierStaleRounds(init, steps[n], i);
      assert init + [steps[n]] == steps && steps[..n] == init;
    }
  }

  lemma EarlierStaleRounds(init: seq<Step>, step: Step, i: nat)
    ensures (exists k: nat :: StaleRound(init + [step], i, k))
       <==> (exists k: nat :: StaleRound(init, i, k)) || StaleRound(init + [step], i, |init|)
  {
    var steps := init + [step];
    forall k: nat | k < |init| ensures StaleRound(steps, i, k) <==> StaleRound(init, i, k) { assert init[..k] == steps[..k]; }
    if k: nat :| StaleRound(init, i, k) { assert StaleRound(steps, i, k); }
    if k: nat :| StaleRound(steps, i, k) { assert k < |init| ==> StaleRound(init, i, k); }
  }

  /** So a worker acting on fresh claims, or several serialised by them, spends at most five counted rounds on a delivery. */
  lemma {:induction false} AtMostFiveRounds(steps: seq<Step>, i: nat)
    requires ClaimedRun(INITIAL, steps)
    ensures Attempts(Run(INITIAL, steps), i) <= MAX_PUSH_ATTEMPTS
    ensures CountedRounds(steps, i) <= MAX_PUSH_ATTEMPTS
  {
    AttemptsAreRounds(steps, i);
    if steps != [] {
      var init, n := steps[..|steps| - 1], |steps| - 1;
      AtMostFiveRounds(init, i);
      StepCounts(Run(INITIAL, init), steps[n], i);
      RunKeepsSpent(init);
    }
  }

  // ---------------------------------------------------------------- a run that passes the limit

  function FailingRound(now: int): Step { RoundStep(0, Round(now, 0, true, map[]), [0], false) }

  /** One delivery, one device, and a provider that never answers. */
  ghost predicate Unreached(s: State, n: nat, next: Option<int>) {
    && s.active == map[0 := true] && |s.deliveries| == 1
    && var d := s.deliveries[0];
       && !d.capped && d.attempts == n && d.sentTo == {}
       && d.status == (if n == 0 then Pending else Failed) && d.nextRetryAt == next
  }

  /** One more round of it. */
  lemma RoundFails(steps: seq<Step>, n: nat, next: Option<int>, now: int)
    requires Unreached(Run(INITIAL, steps), n, next)
    ensures Unreached(Run(INITIAL, steps + [FailingRound(now)]), n + 1,
                      if n + 1 >= MAX_PUSH_ATTEMPTS then None else Some(now + Backoff(n + 1)))
  {
    var s, more := Run(INITIAL, steps), steps + [FailingRound(now)];
    assert more[..|steps|] == steps;
    assert FanOut(Progress({}, s.active, s.sends, false), 0, FailingRound(now).round, [0]) == Progress({}, s.active, s.sends, true) by {
      assert [0][..0] == [];
    }
  }

  /** A round on a claimable row keeps the claims fresh. */
  lemma StillClaimed(steps: seq<Step>, step: Step)
    requires ClaimedRun(INITIAL, steps) && Claimed(Run(INITIAL, steps), step)
    ensures ClaimedRun(INITIAL, steps + [step])
  {
    assert (steps + [step])[..|steps|] == steps;
  }

  /**
   A run from the empty mailbox that passes the limit: four rounds on fresh claims, then two workers that
   both claimed the row at the same moment. The first uses up the fifth round, the second makes a sixth.
   */
  lemma SixthRound()
    ensures exists steps, now ::
              && ClaimedRun(INITIAL, steps + [FailingRound(now)])
              && |Run(INITIAL, steps).deliveries| == 1 && Claimable(Run(INITIAL, steps).deliveries[0], now)
              && Attempts(Run(INITIAL, steps + [FailingRound(now)]), 0) == 5
              && Attempts(Run(INITIAL, steps + [FailingRound(now), FailingRound(now)]), 0) == 6
  {
    var steps := FourFailures();
    hide Run, ClaimedRun;
    var five := steps + [FailingRound(450)];
    RoundFails(steps, 4, Some(450), 450);
    StillClaimed(steps, FailingRound(450));
    RoundFails(five, 5, None, 450);
    assert five + [FailingRound(450)] == steps + [FailingRound(450), FailingRound(450)];
  }

  lemma FourFailures() returns (steps: seq<Step>)
    ensures ClaimedRun(INITIAL, steps) && Unreached(Run(INITIAL, steps), 4, Some(450))
  {
    steps := OneUnreached();
    hide Run, ClaimedRun;
    assert Backoff(1) == 30 && Backoff(2) == 60 && Backoff(3) == 120 && Backoff(4) == 240;
    RoundFails(steps, 0, None, 0);
    StillClaimed(steps, FailingRound(0));
    steps := steps + [FailingRound(0)];
    RoundFails(steps, 1, Some(30), 30);
    StillClaimed(steps, FailingRound(30));
    steps := steps + [FailingRound(30)];
    RoundFails(steps, 2, Some(90), 90);
    StillClaimed(steps, FailingRound(90));
    steps := steps + [FailingRound(90)];
    RoundFails(steps, 3, Some(210), 210);
    StillClaimed(steps, FailingRound(210));
    steps := steps + [FailingRound(210)];
  }

  lemma OneUnreached() returns (steps: seq<Step>)
    ensures ClaimedRun(INITIAL, steps) && Unreached(Run(INITIAL, steps), 0, None)
  {
    StillClaimed([], SetDevice(0, true));
    var one: seq<Step> := [SetDevice(0, true)];
    assert one[..0] == [] && [] + one == one;
    assert Run(INITIAL, one) == Next(INITIAL, SetDevice(0, true));
    StillClaimed(one, Enqueue(false));
    steps := one + [Enqueue(false)];
    assert steps[..1] == one;
  }
}
