/**
 Any number of outbox workers over one table and one write-once registry: claims, lookups,
 submissions, late mining, receipts that arrive or time out, crashes and the passage of time,
 interleaved in any order.
 */
module OutboxRuns {
  import opened Wrappers
  import opened Outbox
  import Integrity

  // ---------------------------------------------------------------- the system

  /** What a worker is in the middle of; `until` is the end of the lease it claimed. */
  datatype Activity =
    | Idle
    | Holding(event: nat, until: int)
    | HasRecord(event: nat, until: int, record: Record)
    | Absent(event: nat, until: int)
    | Waiting(event: nat, until: int, tx: nat)
    | Failing(event: nat, until: int)
    | Succeeded(event: nat, until: int)
    | Rechecking(event: nat, record: Record)

  datatype Fate = InPool | Mined(ok: bool)

  datatype Tx = Tx(event: nat, fate: Fate)

  datatype System = System(
    now: int,
    anchoring: bool,
    ids: seq<Identity>,
    rows: seq<Row>,
    chain: map<nat, Record>,
    txs: seq<Tx>,
    workers: map<nat, Activity>)

  function Initial(anchoring: bool): System { System(0, anchoring, [], [], map[], [], map[]) }

  function At(s: System, w: nat): Activity { if w in s.workers then s.workers[w] else Idle }

  function Put(s: System, w: nat, a: Activity): System { s.(workers := s.workers[w := a]) }

  datatype Step =
    | Enqueue(id: Identity)
    | Tick(elapsed: nat)
    | SetAnchoring(on: bool)
    | ClaimStep(w: nat, event: nat)
    | LocalStep(w: nat)
    | FindStep(w: nat, answered: bool)
    | SubmitStep(w: nat, sent: bool, heard: bool)
    | MineStep(tx: nat, authorized: bool)
    | ForeignStep(event: nat, record: Record)
    | ReceiptStep(w: nat, arrived: bool)
    | MarkStep(w: nat)
    | CrashStep(w: nat)
    | RecheckStep(w: nat, event: nat, answered: bool)

  /** A step whose guard fails leaves the system as it was. */
  function Next(s: System, step: Step): System {
    match step
    case Enqueue(id) => s.(ids := s.ids + [id], rows := s.rows + [NEW_ROW])
    case Tick(elapsed) => s.(now := s.now + elapsed)
    case SetAnchoring(on) => s.(anchoring := on)
    case ClaimStep(w, e) => ClaimNext(s, w, e)
    case LocalStep(w) => LocalNext(s, w)
    case FindStep(w, answered) => FindNext(s, w, answered)
    case SubmitStep(w, sent, heard) => SubmitNext(s, w, sent, heard)
    case MineStep(tx, authorized) => MineNext(s, tx, authorized)
    case ForeignStep(e, record) => if e in s.chain then s else s.(chain := s.chain[e := record])
    case ReceiptStep(w, arrived) => ReceiptNext(s, w, arrived)
    case MarkStep(w) => MarkNext(s, w)
    case CrashStep(w) => Put(s, w, Idle)
    case RecheckStep(w, e, answered) => RecheckNext(s, w, e, answered)
  }

  function ClaimNext(s: System, w: nat, e: nat): System {
    if At(s, w) != Idle || e >= |s.rows| || !Claimable(s.rows[e], s.now) then s
    else Put(s.(rows := s.rows[e := Claim(s.rows[e], s.now)]), w, Holding(e, s.now + LEASE_SECONDS))
  }

  function LocalNext(s: System, w: nat): System {
    var a := At(s, w);
    if !a.Holding? || s.anchoring || a.event >= |s.rows| then s
    else Put(s.(rows := s.rows[a.event := SettleLocally(s.rows[a.event])]), w, Idle)
  }

  function FindNext(s: System, w: nat, answered: bool): System {
    var a := At(s, w);
    if !a.Holding? || !s.anchoring then s
    else if !answered then Put(s, w, Failing(a.event, a.until))
    else if a.event in s.chain then Put(s, w, HasRecord(a.event, a.until, s.chain[a.event]))
    else Put(s, w, Absent(a.event, a.until))
  }

  /** The call may fail before sending, or after sending without the worker hearing of it. */
  function SubmitNext(s: System, w: nat, sent: bool, heard: bool): System {
    var a := At(s, w);
    if !a.Absent? then s
    else
      var t := if sent then s.(txs := s.txs + [Tx(a.event, InPool)]) else s;
      Put(t, w, if sent && heard then Waiting(a.event, a.until, |s.txs|) else Failing(a.event, a.until))
  }

  /** The registry records an event once; any later transaction for it reverts. */
  function MineNext(s: System, tx: nat, authorized: bool): System {
    if tx >= |s.txs| || s.txs[tx].fate != InPool then s
    else
      var e := s.txs[tx].event;
      if authorized && e !in s.chain && e < |s.ids| then
        s.(chain := s.chain[e := OwnRecord(s.ids[e])], txs := s.txs[tx := Tx(e, Mined(true))])
      else s.(txs := s.txs[tx := Tx(e, Mined(false))])
  }

  /** The wait ends with a receipt, which exists only once mined, or times out. */
  function ReceiptNext(s: System, w: nat, arrived: bool): System {
    var a := At(s, w);
    if !a.Waiting? then s
    else if arrived && a.tx < |s.txs| && s.txs[a.tx].fate == Mined(true) then Put(s, w, Succeeded(a.event, a.until))
    else Put(s, w, Failing(a.event, a.until))
  }

  /** The final write to the row, made whatever the row says by then. */
  function MarkNext(s: System, w: nat): System {
    var a := At(s, w);
    if a.Idle? || a.Holding? || a.Absent? || a.Waiting? || a.event >= |s.rows| || a.event >= |s.ids| then s
    else
      var r := s.rows[a.event];
      var marked :=
        match a
        case HasRecord(e, _, record) => if RecordMatches(record, s.ids[e]) then Confirm(r, s.now) else Disagree(r)
        case Failing(_, _) => Retry(r, s.now)
        case Succeeded(_, _) => Confirm(r, s.now)
        case Rechecking(e, record) => if RecordMatches(record, s.ids[e]) then r else Disagree(r)
        case _ => r;
      Put(s.(rows := s.rows[a.event := marked]), w, Idle)
  }

  /** Processing an already confirmed row looks its record up again. */
  function RecheckNext(s: System, w: nat, e: nat, answered: bool): System {
    if At(s, w) != Idle || e >= |s.rows| || s.rows[e].status != Confirmed || !s.anchoring || !answered || e !in s.chain then s
    else Put(s, w, Rechecking(e, s.chain[e]))
  }

  function Run(s: System, steps: seq<Step>): System {
    if steps == [] then s else Next(Run(s, steps[..|steps| - 1]), steps[|steps| - 1])
  }

  // ---------------------------------------------------------------- the invariant

  /** Row e agrees with the registry, and is due in time if it is not terminal. */
  ghost predicate RowOk(s: System, e: nat)
    requires e < |s.rows| == |s.ids|
  {
    var r := s.rows[e];
    && (r.status == Confirmed ==> e in s.chain && RecordMatches(s.chain[e], s.ids[e]))
    && (r.status == Mismatch ==> e in s.chain && !RecordMatches(s.chain[e], s.ids[e]))
    && InTime(r, s.now) && Shaped(r)
  }

  /** A lease is held exactly while an attempt is under way; a local row shows no trace of a submission. */
  ghost predicate Shaped(r: Row) {
    && (r.leaseExpiresAt.Some? <==> r.status == Submitted)
    && (r.status == Local ==> r.submittedAt.None? && r.confirmedAt.None?)
    && (r.status == Submitted || r.attempts > 0 ==> r.lastAttemptAt.Some?)
    && (r.status == Submitted ==> r.submittedAt.Some?)
    && (r.submittedAt.Some? ==> r.lastAttemptAt.Some? && r.submittedAt.value <= r.lastAttemptAt.value)
  }

  ghost predicate InTime(r: Row, now: int) {
    && r.status != Failed
    && (r.lastAttemptAt.Some? ==> r.lastAttemptAt.value <= now)
    && (r.status == Pending ==>
          || (r.attempts == 0 && r.nextAttemptAt.None?)
          || (r.attempts > 0 && r.lastAttemptAt.Some? && r.nextAttemptAt == Some(r.lastAttemptAt.value + Wait(r.attempts))))
    && (r.status == Submitted ==>
          r.leaseExpiresAt.Some? && r.lastAttemptAt.Some? && r.leaseExpiresAt.value == r.lastAttemptAt.value + LEASE_SECONDS)
  }

  /** Half a minute after the first failure, twice as long after each further one, an hour at most. */
  ghost function Wait(attempts: nat): int {
    if attempts >= 8 then 3600 else if attempts <= 1 then 30 else 2 * Wait(attempts - 1)
  }

  lemma WaitIsDelay(attempts: nat)
    ensures RetryDelay(attempts) == Wait(attempts)
    ensures 30 <= Wait(attempts) <= 3600
    decreases attempts
  {
    RetryDelayBounds(attempts, attempts);
    if 1 < attempts < 8 {
      WaitIsDelay(attempts - 1);
      RetryDelayBounds(attempts - 1, attempts - 1);
    }
  }

  /** What a worker has seen is still so. */
  ghost predicate WorkerOk(s: System, a: Activity) {
    && (!a.Idle? ==> a.event < |s.ids|)
    && (a.HasRecord? ==> a.event in s.chain && s.chain[a.event] == a.record)
    && (a.Rechecking? ==> a.event in s.chain && s.chain[a.event] == a.record && RecordMatches(a.record, s.ids[a.event]))
    && (a.Succeeded? ==> a.event in s.chain && RecordMatches(s.chain[a.event], s.ids[a.event]))
    && (a.Waiting? ==> a.tx < |s.txs| && s.txs[a.tx].event == a.event)
  }

  /** A mined transaction put its event's own record on the chain. */
  ghost predicate TxOk(s: System, i: nat)
    requires i < |s.txs|
  {
    && s.txs[i].event < |s.ids|
    && (s.txs[i].fate == Mined(true) ==>
          s.txs[i].event in s.chain && s.chain[s.txs[i].event] == OwnRecord(s.ids[s.txs[i].event]))
  }

  ghost predicate Inv(s: System) {
    && |s.rows| == |s.ids|
    && (forall e :: 0 <= e < |s.rows| ==> RowOk(s, e))
    && (forall w :: w in s.workers ==> WorkerOk(s, s.workers[w]))
    && (forall i :: 0 <= i < |s.txs| ==> TxOk(s, i))
    && (forall i, j :: 0 <= i < j < |s.txs| && s.txs[i].fate == Mined(true) && s.txs[j].fate == Mined(true) ==>
          s.txs[i].event != s.txs[j].event)
  }

  /** Identities are fixed and the registry is write-once. */
  ghost predicate Extends(s: System, t: System) {
    && s.now <= t.now
    && s.ids <= t.ids
    && (forall e :: e in s.chain ==> e in t.chain && t.chain[e] == s.chain[e])
  }

  lemma StepExtends(s: System, step: Step)
    ensures Extends(s, Next(s, step))
  {
  }

  lemma {:induction false} RunExtends(s: System, steps: seq<Step>)
    ensures Extends(s, Run(s, steps))
  {
    if steps != [] {
      RunExtends(s, steps[..|steps| - 1]);
      StepExtends(Run(s, steps[..|steps| - 1]), steps[|steps| - 1]);
    }
  }

  /** A change of rows and of one worker's activity only. */
  lemma RowStepKeeps(s: System, t: System, w: nat, a: Activity, e: nat, r: Row)
    requires Inv(s) && e < |s.rows|
    requires t == Put(s.(rows := s.rows[e := r]), w, a)
    requires WorkerOk(s, a) && InTime(r, s.now) && Shaped(r)
    requires r.status == Confirmed ==> e in s.chain && RecordMatches(s.chain[e], s.ids[e])
    requires r.status == Mismatch ==> e in s.chain && !RecordMatches(s.chain[e], s.ids[e])
    ensures Inv(t)
  {
    forall f | 0 <= f < |t.rows| ensures RowOk(t, f) { assert RowOk(s, f); }
    forall v | v in t.workers ensures WorkerOk(t, t.workers[v]) {
      if v != w { assert WorkerOk(s, s.workers[v]); }
    }
    forall i | 0 <= i < |t.txs| ensures TxOk(t, i) { assert TxOk(s, i); }
  }

  /** A change of one worker's activity only. */
  lemma ActivityKeeps(s: System, w: nat, a: Activity)
    requires Inv(s) && WorkerOk(s, a)
    ensures Inv(Put(s, w, a))
  {
    var t := Put(s, w, a);
    forall f | 0 <= f < |t.rows| ensures RowOk(t, f) { assert RowOk(s, f); }
    forall v | v in t.workers ensures WorkerOk(t, t.workers[v]) {
      if v != w { assert WorkerOk(s, s.workers[v]); }
    }
    forall i | 0 <= i < |t.txs| ensures TxOk(t, i) { assert TxOk(s, i); }
  }

  /** The registry, the pool and the table of identities may grow without disturbing anyone. */
  lemma GrowthKeeps(s: System, t: System)
    requires Inv(s) && Extends(s, t) && t.workers == s.workers
    requires |t.ids| == |t.rows| && s.rows <= t.rows
    requires forall e :: |s.rows| <= e < |t.rows| ==> t.rows[e] == NEW_ROW
    requires |s.txs| <= |t.txs| && forall i :: 0 <= i < |s.txs| ==> t.txs[i].event == s.txs[i].event
    requires forall i :: 0 <= i < |t.txs| ==> TxOk(t, i)
    requires forall i, j :: 0 <= i < j < |t.txs| && t.txs[i].fate == Mined(true) && t.txs[j].fate == Mined(true) ==>
               t.txs[i].event != t.txs[j].event
    ensures Inv(t)
  {
    forall e | 0 <= e < |t.rows| ensures RowOk(t, e) {
      if e < |s.rows| { assert RowOk(s, e); }
    }
    forall v | v in t.workers ensures WorkerOk(t, t.workers[v]) { assert WorkerOk(s, s.workers[v]); }
  }

  lemma ClaimKeeps(s: System, w: nat, e: nat)
    requires Inv(s)
    ensures Inv(ClaimNext(s, w, e))
  {
    if ClaimNext(s, w, e) != s {
      assert RowOk(s, e);
      RowStepKeeps(s, ClaimNext(s, w, e), w, Holding(e, s.now + LEASE_SECONDS), e, Claim(s.rows[e], s.now));
    }
  }

  lemma LocalKeeps(s: System, w: nat)
    requires Inv(s)
    ensures Inv(LocalNext(s, w))
  {
    var a := At(s, w);
    if LocalNext(s, w) != s {
      assert RowOk(s, a.event);
      RowStepKeeps(s, LocalNext(s, w), w, Idle, a.event, SettleLocally(s.rows[a.event]));
    }
  }

  lemma FindKeeps(s: System, w: nat, answered: bool)
    requires Inv(s)
    ensures Inv(FindNext(s, w, answered))
  {
    if FindNext(s, w, answered) != s {
      assert WorkerOk(s, At(s, w));
      ActivityKeeps(s, w, At(FindNext(s, w, answered), w));
    }
  }

  lemma SubmitKeeps(s: System, w: nat, sent: bool, heard: bool)
    requires Inv(s)
    ensures Inv(SubmitNext(s, w, sent, heard))
  {
    var a := At(s, w);
    if a.Absent? {
      assert WorkerOk(s, a);
      var t := if sent then s.(txs := s.txs + [Tx(a.event, InPool)]) else s;
      forall i | 0 <= i < |t.txs| ensures TxOk(t, i) {
        if i < |s.txs| { assert TxOk(s, i); }
      }
      GrowthKeeps(s, t);
      ActivityKeeps(t, w, At(SubmitNext(s, w, sent, heard), w));
    }
  }

  lemma MineKeeps(s: System, tx: nat, authorized: bool)
    requires Inv(s)
    ensures Inv(MineNext(s, tx, authorized))
  {
    var t := MineNext(s, tx, authorized);
    if t != s {
      forall i | 0 <= i < |t.txs| ensures TxOk(t, i) { assert TxOk(s, i); }
      forall i, j | 0 <= i < j < |t.txs| && t.txs[i].fate == Mined(true) && t.txs[j].fate == Mined(true)
        ensures t.txs[i].event != t.txs[j].event
      {
        assert TxOk(s, i) && TxOk(s, j);
      }
      GrowthKeeps(s, t);
    }
  }

  lemma ForeignKeeps(s: System, e: nat, record: Record)
    requires Inv(s)
    ensures Inv(Next(s, ForeignStep(e, record)))
  {
    var t := Next(s, ForeignStep(e, record));
    forall i | 0 <= i < |t.txs| ensures TxOk(t, i) { assert TxOk(s, i); }
    GrowthKeeps(s, t);
  }

  lemma EnqueueKeeps(s: System, id: Identity)
    requires Inv(s)
    ensures Inv(Next(s, Enqueue(id)))
  {
    var t := Next(s, Enqueue(id));
    forall i | 0 <= i < |t.txs| ensures TxOk(t, i) { assert TxOk(s, i); }
    GrowthKeeps(s, t);
  }

  lemma ReceiptKeeps(s: System, w: nat, arrived: bool)
    requires Inv(s)
    ensures Inv(ReceiptNext(s, w, arrived))
  {
    var a := At(s, w);
    if a.Waiting? {
      assert WorkerOk(s, a);
      assert TxOk(s, a.tx);
      OwnRecordMatches(s.ids[a.event]);
      ActivityKeeps(s, w, At(ReceiptNext(s, w, arrived), w));
    }
  }

  lemma MarkKeeps(s: System, w: nat)
    requires Inv(s)
    ensures Inv(MarkNext(s, w))
  {
    var a, t := At(s, w), MarkNext(s, w);
    if t != s {
      assert WorkerOk(s, a);
      assert RowOk(s, a.event);
      WaitIsDelay(s.rows[a.event].attempts + 1);
      hide Wait;
      RowStepKeeps(s, t, w, Idle, a.event, t.rows[a.event]);
    }
  }

  lemma RecheckKeeps(s: System, w: nat, e: nat, answered: bool)
    requires Inv(s)
    ensures Inv(RecheckNext(s, w, e, answered))
  {
    if RecheckNext(s, w, e, answered) != s {
      assert RowOk(s, e);
      ActivityKeeps(s, w, Rechecking(e, s.chain[e]));
    }
  }

  lemma StepKeeps(s: System, step: Step)
    requires Inv(s)
    ensures Inv(Next(s, step))
  {
    hide Inv;
    match step {
      case Enqueue(id) => EnqueueKeeps(s, id);
      case ClaimStep(w, e) => ClaimKeeps(s, w, e);
      case LocalStep(w) => LocalKeeps(s, w);
      case FindStep(w, answered) => FindKeeps(s, w, answered);
      case SubmitStep(w, sent, heard) => SubmitKeeps(s, w, sent, heard);
      case MineStep(tx, authorized) => MineKeeps(s, tx, authorized);
      case ForeignStep(e, record) => ForeignKeeps(s, e, record);
      case ReceiptStep(w, arrived) => ReceiptKeeps(s, w, arrived);
      case MarkStep(w) => MarkKeeps(s, w);
      case CrashStep(w) => ActivityKeeps(s, w, Idle);
      case RecheckStep(w, e, answered) => RecheckKeeps(s, w, e, answered);
      case _ => ClockKeeps(s, Next(s, step));
    }
  }

  lemma ClockKeeps(s: System, t: System)
    requires Inv(s) && s.now <= t.now && t == s.(now := t.now, anchoring := t.anchoring)
    ensures Inv(t)
  {
    forall e | 0 <= e < |t.rows| ensures RowOk(t, e) { assert RowOk(s, e); }
    forall v | v in t.workers ensures WorkerOk(t, t.workers[v]) { assert WorkerOk(s, s.workers[v]); }
    forall i | 0 <= i < |t.txs| ensures TxOk(t, i) { assert TxOk(s, i); }
  }

  lemma {:induction false} RunKeeps(s: System, steps: seq<Step>)
    requires Inv(s)
    ensures Inv(Run(s, steps))
  {
    if steps != [] {
      RunKeeps(s, steps[..|steps| - 1]);
      StepKeeps(Run(s, steps[..|steps| - 1]), steps[|steps| - 1]);
    }
  }

  // ---------------------------------------------------------------- verdicts

  /**
   In every reachable state CONFIRMED means that the registry holds a record with the event's payload hash and previous
   hash, however spelled, its type and its signer; and MISMATCH that it holds one in which one of the four differs.
   */
  lemma VerdictsAgreeWithChain(anchoring: bool, steps: seq<Step>, e: nat)
    requires e < |Run(Initial(anchoring), steps).rows|
    ensures var s := Run(Initial(anchoring), steps);
            && e < |s.ids|
            && (s.rows[e].status == Confirmed ==>
                  && e in s.chain
                  && SameDigits(s.chain[e].payloadHash, s.ids[e].payloadHash)
                  && Integrity.SameButCase(s.chain[e].previousHash, s.ids[e].previousHash)
                  && s.chain[e].eventType == s.ids[e].eventType && s.chain[e].signer == s.ids[e].signer)
            && (s.rows[e].status == Mismatch ==>
                  && e in s.chain
                  && (|| !SameDigits(s.chain[e].payloadHash, s.ids[e].payloadHash)
                      || !Integrity.SameButCase(s.chain[e].previousHash, s.ids[e].previousHash)
                      || s.chain[e].eventType != s.ids[e].eventType || s.chain[e].signer != s.ids[e].signer))
  {
    hide Run, SameDigits, Integrity.SameButCase, RecordMatches;
    RunKeeps(Initial(anchoring), steps);
    var s := Run(Initial(anchoring), steps);
    assert RowOk(s, e);
    if e in s.chain { MatchesByColumns(s.chain[e], s.ids[e]); }
  }

  /** No event gets both verdicts in one run, in either order, however long the run. */
  lemma NeverBothVerdicts(anchoring: bool, first: seq<Step>, later: seq<Step>, e: nat)
    requires e < |Run(Initial(anchoring), first).rows|
    ensures var s := Run(Initial(anchoring), first);
            var t := Run(s, later);
            && e < |t.rows|
            && !(s.rows[e].status == Confirmed && t.rows[e].status == Mismatch)
            && !(s.rows[e].status == Mismatch && t.rows[e].status == Confirmed)
  {
    var s := Run(Initial(anchoring), first);
    RunKeeps(Initial(anchoring), first);
    RunKeeps(s, later);
    RunExtends(s, later);
    assert RowOk(s, e) && RowOk(Run(s, later), e);
  }

  /** Retries and replicas may send an event many times; at most one transaction for it takes effect. */
  lemma RecordedOnce(anchoring: bool, steps: seq<Step>, i: nat, j: nat)
    requires i < |Run(Initial(anchoring), steps).txs| && j < |Run(Initial(anchoring), steps).txs|
    ensures var s := Run(Initial(anchoring), steps);
            s.txs[i].fate == Mined(true) && s.txs[j].fate == Mined(true) && s.txs[i].event == s.txs[j].event ==> i == j
  {
    RunKeeps(Initial(anchoring), steps);
  }

  /** Worker w writes down that its attempt on e has failed. */
  ghost predicate Fails(s: System, step: Step, e: nat) {
    step.MarkStep? && At(s, step.w).Failing? && At(s, step.w).event == e && e < |s.rows|
  }

  ghost function Failures(anchoring: bool, steps: seq<Step>, e: nat): nat {
    if steps == [] then 0
    else
      var init := steps[..|steps| - 1];
      Failures(anchoring, init, e) + (if Fails(Run(Initial(anchoring), init), steps[|steps| - 1], e) then 1 else 0)
  }

  ghost function Attempts(s: System, e: nat): nat { if e < |s.rows| then s.rows[e].attempts else 0 }

  lemma StepCounts(s: System, step: Step, e: nat)
    requires Inv(s)
    ensures Attempts(Next(s, step), e) == Attempts(s, e) + (if Fails(s, step, e) then 1 else 0)
  {
    hide RowOk, TxOk;
    if step.MarkStep? && !At(s, step.w).Idle? { assert WorkerOk(s, At(s, step.w)); }
  }

  /** In every run the attempts of a row are the failures that were written down for it. */
  lemma {:induction false} AttemptsAreFailures(anchoring: bool, steps: seq<Step>, e: nat)
    ensures Attempts(Run(Initial(anchoring), steps), e) == Failures(anchoring, steps, e)
  {
    hide Inv, Next, Fails;
    if steps != [] {
      var init := steps[..|steps| - 1];
      AttemptsAreFailures(anchoring, init, e);
      StartsOk(anchoring);
      RunKeeps(Initial(anchoring), init);
      StepCounts(Run(Initial(anchoring), init), steps[|steps| - 1], e);
    }
  }

  /** A lease is held exactly while a row is submitted, and ends three minutes after its last attempt. */
  lemma LeaseIsHeld(anchoring: bool, steps: seq<Step>, e: nat)
    requires e < |Run(Initial(anchoring), steps).rows|
    ensures var r := Run(Initial(anchoring), steps).rows[e];
            if r.status == Submitted then r.lastAttemptAt.Some? && r.leaseExpiresAt == Some(r.lastAttemptAt.value + 180) else r.leaseExpiresAt.None?
  {
    StartsOk(anchoring);
    RunKeeps(Initial(anchoring), steps);
    assert RowOk(Run(Initial(anchoring), steps), e);
  }

  /**
   The first claim of a row is its submission, and stays so, until the row is settled locally: a step writes that column on a row without
   it exactly by claiming the row, to the present, and takes it away exactly by settling the row locally.
   */
  lemma SubmittedAtFirstClaim(s: System, step: Step, e: nat)
    requires e < |s.rows|
    ensures e < |Next(s, step).rows|
    ensures var was, left := s.rows[e].submittedAt, Next(s, step).rows[e].submittedAt;
            var claimed := step.ClaimStep? && step.event == e && At(s, step.w) == Idle && Claimable(s.rows[e], s.now);
            var settled := step.LocalStep? && At(s, step.w).Holding? && At(s, step.w).event == e && !s.anchoring;
            left == if settled then None else if claimed && was.None? then Some(s.now) else was
  {
  }

  lemma StartsOk(anchoring: bool)
    ensures Inv(Initial(anchoring))
  {
  }

  /**
   When a row can be claimed, exactly: at once if no attempt has failed, else half a minute, doubled for each further
   failure and an hour at most, after the last attempt; three minutes after it if the attempt was cut short; and never
   again once a verdict is written.
   */
  lemma DueExactly(anchoring: bool, steps: seq<Step>, e: nat, elapsed: nat, w: nat)
    requires e < |Run(Initial(anchoring), steps).rows| && At(Run(Initial(anchoring), steps), w) == Idle
    ensures var r := Run(Initial(anchoring), steps).rows[e];
            var s := Next(Run(Initial(anchoring), steps), Tick(elapsed));
            var n := Failures(anchoring, steps, e);
            && (r.status == Submitted || (r.status == Pending && n > 0) ==> r.lastAttemptAt.Some?)
            && (At(Next(s, ClaimStep(w, e)), w) == Holding(e, s.now + 180)
                <==> || (r.status == Pending && n == 0)
                     || (r.status == Pending && s.now >= r.lastAttemptAt.value + Wait(n))
                     || (r.status == Submitted && s.now >= r.lastAttemptAt.value + 180))
  {
    StartsOk(anchoring);
    RunKeeps(Initial(anchoring), steps);
    AttemptsAreFailures(anchoring, steps, e);
    ClaimWhenDue(Run(Initial(anchoring), steps), e, elapsed, w);
  }

  lemma ClaimWhenDue(u: System, e: nat, elapsed: nat, w: nat)
    requires Inv(u) && e < |u.rows| && At(u, w) == Idle
    ensures var r, s := u.rows[e], Next(u, Tick(elapsed));
            && (r.status == Submitted || (r.status == Pending && r.attempts > 0) ==> r.lastAttemptAt.Some?)
            && (At(Next(s, ClaimStep(w, e)), w) == Holding(e, s.now + 180)
                <==> || (r.status == Pending && r.attempts == 0)
                     || (r.status == Pending && s.now >= r.lastAttemptAt.value + Wait(r.attempts))
                     || (r.status == Submitted && s.now >= r.lastAttemptAt.value + 180))
  {
    hide Wait;
    assert RowOk(u, e);
  }

  /** So whatever happened, one quiet hour later an idle worker's claim of a row without a verdict succeeds. */
  lemma ClaimableAfterAnHour(anchoring: bool, steps: seq<Step>, e: nat, elapsed: nat, w: nat)
    requires e < |Run(Initial(anchoring), steps).rows| && elapsed >= 3600
    requires Run(Initial(anchoring), steps).rows[e].status !in {Confirmed, Mismatch, Local}
    requires At(Run(Initial(anchoring), steps), w) == Idle
    ensures var s := Next(Run(Initial(anchoring), steps), Tick(elapsed));
            At(Next(s, ClaimStep(w, e)), w) == Holding(e, s.now + 180)
  {
    StartsOk(anchoring);
    RunKeeps(Initial(anchoring), steps);
    var u := Run(Initial(anchoring), steps);
    hide Run, Next, Wait;
    ClaimWhenDue(u, e, elapsed, w);
    assert RowOk(u, e);
    WaitIsDelay(u.rows[e].attempts);
    OnlyTime(u, elapsed);
  }

  lemma OnlyTime(u: System, elapsed: nat)
    ensures Next(u, Tick(elapsed)) == u.(now := u.now + elapsed)
  {
  }

  // ---------------------------------------------------------------- both verdicts are reached

  lemma RunOne(s: System, steps: seq<Step>, step: Step)
    ensures Run(s, steps + [step]) == Next(Run(s, steps), step)
  {
    hide Next;
    assert (steps + [step])[..|steps|] == steps;
  }

  /** Somebody else records an event first; a worker that finds the record confirms the event or marks a mismatch, by the columns. */
  ghost function FoundRun(e: Identity, record: Record): seq<Step> {
    [] + [Enqueue(e)] + [ForeignStep(0, record)] + [ClaimStep(0, 0)] + [FindStep(0, true)] + [MarkStep(0)]
  }

  lemma VerdictReached(e: Identity, record: Record)
    ensures var s := Run(Initial(true), FoundRun(e, record));
            && |s.rows| == 1 && s.chain == map[0 := record]
            && s.rows[0].status == if Agrees(record, e) then Confirmed else Mismatch
  {
    MatchesByColumns(record, e);
    hide Agrees, RecordMatches, Run;
    var a: seq<Step> := [] + [Enqueue(e)];
    var b := a + [ForeignStep(0, record)];
    var c := b + [ClaimStep(0, 0)];
    var d := c + [FindStep(0, true)];
    assert Run(Initial(true), []) == Initial(true) by { NoSteps(Initial(true)); }
    RunOne(Initial(true), [], Enqueue(e));
    RunOne(Initial(true), a, ForeignStep(0, record));
    RunOne(Initial(true), b, ClaimStep(0, 0));
    RunOne(Initial(true), c, FindStep(0, true));
    RunOne(Initial(true), d, MarkStep(0));
  }

  lemma NoSteps(s: System)
    ensures Run(s, []) == s
  {
  }

  /** While anchoring is off, a claimed event is settled locally. */
  lemma LocalReached(e: Identity)
    ensures var s := Run(Initial(true), [] + [Enqueue(e)] + [SetAnchoring(false)] + [ClaimStep(0, 0)] + [LocalStep(0)]);
            |s.rows| == 1 && s.rows[0].status == Local && s.chain == map[]
  {
    hide Run;
    var a: seq<Step> := [] + [Enqueue(e)];
    var b := a + [SetAnchoring(false)];
    var c := b + [ClaimStep(0, 0)];
    NoSteps(Initial(true));
    RunOne(Initial(true), [], Enqueue(e));
    RunOne(Initial(true), a, SetAnchoring(false));
    RunOne(Initial(true), b, ClaimStep(0, 0));
    RunOne(Initial(true), c, LocalStep(0));
  }

  /**
   A submission whose answer is lost is not repeated: the row waits half a minute, and the next attempt finds the record its own
   transaction has left and confirms the event.
   */
  ghost function UnheardRun(e: Identity): seq<Step> {
    [] + [Enqueue(e)] + [ClaimStep(0, 0)] + [FindStep(0, true)] + [SubmitStep(0, true, false)] + [MarkStep(0)]
    + [MineStep(0, true)] + [Tick(30)] + [ClaimStep(1, 0)] + [FindStep(1, true)] + [MarkStep(1)]
  }

  lemma UnheardSubmissionIsFound(e: Identity)
    ensures var s := Run(Initial(true), UnheardRun(e));
            && s.txs == [Tx(0, Mined(true))] && s.chain == map[0 := OwnRecord(e)]
            && |s.rows| == 1 && s.rows[0].status == Confirmed && s.rows[0].attempts == 1 && s.rows[0].submittedAt == Some(0)
  {
    var s := UnheardFails(e);
    OwnRecordMatches(e);
    hide Run, OwnRecord, RecordMatches;
    var a := UnheardRun(e)[..5] + [MineStep(0, true)];
    var b := a + [Tick(30)];
    var c := b + [ClaimStep(1, 0)];
    var d := c + [FindStep(1, true)];
    RunOne(Initial(true), UnheardRun(e)[..5], MineStep(0, true));
    RunOne(Initial(true), a, Tick(30));
    RunOne(Initial(true), b, ClaimStep(1, 0));
    RunOne(Initial(true), c, FindStep(1, true));
    RunOne(Initial(true), d, MarkStep(1));
    assert UnheardRun(e) == d + [MarkStep(1)];
  }

  /** The first attempt, up to its retry. */
  lemma UnheardFails(e: Identity) returns (s: System)
    ensures s == Run(Initial(true), UnheardRun(e)[..5])
    ensures s == System(0, true, [e], [Row(Pending, 1, Some(30), None, Some(0), Some(0), None)], map[], [Tx(0, InPool)], map[0 := Idle])
  {
    hide Run;
    NoSteps(Initial(true));
    var a: seq<Step> := [] + [Enqueue(e)];
    var b := a + [ClaimStep(0, 0)];
    var c := b + [FindStep(0, true)];
    var d := c + [SubmitStep(0, true, false)];
    RunOne(Initial(true), [], Enqueue(e));
    RunOne(Initial(true), a, ClaimStep(0, 0));
    RunOne(Initial(true), b, FindStep(0, true));
    RunOne(Initial(true), c, SubmitStep(0, true, false));
    RunOne(Initial(true), d, MarkStep(0));
    assert RetryDelay(1) == 30;
    assert UnheardRun(e)[..5] == d + [MarkStep(0)];
    s := Run(Initial(true), UnheardRun(e)[..5]);
  }

  /** Nothing is looked up, sent or concluded: rows wait, are claimed, or are settled locally. */
  ghost predicate OffChain(s: System) {
    && !s.anchoring && s.txs == []
    && (forall e :: 0 <= e < |s.rows| ==> s.rows[e].status in {Pending, Submitted, Local})
    && (forall w :: At(s, w).Idle? || At(s, w).Holding?)
  }

  lemma StaysOffChain(s: System, step: Step)
    requires OffChain(s) && step != SetAnchoring(true)
    ensures OffChain(Next(s, step))
    ensures !step.ForeignStep? ==> Next(s, step).chain == s.chain
  {
    var t := Next(s, step);
    if step.FindStep? || step.SubmitStep? || step.ReceiptStep? || step.MarkStep? || step.LocalStep? || step.ClaimStep? || step.CrashStep? || step.RecheckStep? {
      assert At(s, step.w).Idle? || At(s, step.w).Holding?;
    }
    forall w ensures At(t, w).Idle? || At(t, w).Holding? { assert At(s, w).Idle? || At(s, w).Holding?; }
  }

  /** While anchoring has never been on, no worker looks anything up or sends a transaction, and rows end up LOCAL or wait. */
  lemma {:induction false} DisabledStaysOffChain(steps: seq<Step>)
    requires forall k :: 0 <= k < |steps| ==> steps[k] != SetAnchoring(true)
    ensures OffChain(Run(Initial(false), steps))
  {
    hide Next, OffChain;
    if steps == [] {
      assert OffChain(Initial(false)) by { StartsOffChain(); }
    } else {
      DisabledStaysOffChain(steps[..|steps| - 1]);
      StaysOffChain(Run(Initial(false), steps[..|steps| - 1]), steps[|steps| - 1]);
    }
  }

  lemma StartsOffChain()
    ensures OffChain(Initial(false))
  {
  }
}
