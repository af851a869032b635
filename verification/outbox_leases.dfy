/**
 Leases: as long as every worker writes its result before its lease runs out, an event has one
 holder at a time and a terminal row is never touched again. For runs in which workers outlive
 their leases: exactly which steps take a terminal row back, change its verdict or any column.
 */
module OutboxLeases {
  import opened Wrappers
  import opened Outbox
  import opened OutboxRuns

  /** A worker writes its row only while its lease lasts; anything else may happen at any time. */
  ghost predicate Timely(s: System, step: Step) {
    (step.MarkStep? || step.LocalStep?) ==> At(s, step.w).Idle? || At(s, step.w).Rechecking? || s.now < At(s, step.w).until
  }

  ghost predicate TimelyRun(s: System, steps: seq<Step>) {
    steps == [] || (TimelyRun(s, steps[..|steps| - 1]) && Timely(Run(s, steps[..|steps| - 1]), steps[|steps| - 1]))
  }

  /** Worker w is working on a claimed event and its lease has not run out. */
  ghost predicate Live(s: System, w: nat) {
    !At(s, w).Idle? && !At(s, w).Rechecking? && s.now < At(s, w).until
  }

  ghost predicate LeaseHeld(s: System, w: nat) {
    Live(s, w) ==>
      && At(s, w).event < |s.rows|
      && s.rows[At(s, w).event].status == Submitted
      && s.rows[At(s, w).event].leaseExpiresAt == Some(At(s, w).until)
  }

  ghost predicate LeaseInv(s: System) {
    && (forall w :: LeaseHeld(s, w))
    && (forall v, w :: Live(s, v) && Live(s, w) && At(s, v).event == At(s, w).event ==> v == w)
  }

  /** Steps that write no row keep leases where they are. */
  lemma QuietKeepsLeases(s: System, t: System)
    requires LeaseInv(s) && s.rows <= t.rows && s.now <= t.now
    requires forall w :: Live(t, w) ==> Live(s, w) && At(t, w).event == At(s, w).event && At(t, w).until == At(s, w).until
    ensures LeaseInv(t)
  {
    forall w ensures LeaseHeld(t, w) { assert LeaseHeld(s, w); }
  }

  lemma ClaimKeepsLeases(s: System, w: nat, e: nat)
    requires LeaseInv(s)
    ensures LeaseInv(ClaimNext(s, w, e))
  {
    var t := ClaimNext(s, w, e);
    if t != s {
      forall v | v != w ensures At(t, v) == At(s, v) && (Live(t, v) <==> Live(s, v)) && (Live(t, v) ==> At(t, v).event != e) {
        assert LeaseHeld(s, v);
      }
      forall v ensures LeaseHeld(t, v) { assert LeaseHeld(s, v); }
    }
  }

  /** A timely write by a live holder frees the event. */
  lemma WriteKeepsLeases(s: System, w: nat, r: Row)
    requires LeaseInv(s) && Live(s, w) && At(s, w).event < |s.rows|
    ensures LeaseInv(Put(s.(rows := s.rows[At(s, w).event := r]), w, Idle))
  {
    var t := Put(s.(rows := s.rows[At(s, w).event := r]), w, Idle);
    forall v ensures LeaseHeld(t, v) {
      assert LeaseHeld(s, v);
      assert Live(t, v) ==> v != w && Live(s, v) && At(t, v) == At(s, v);
    }
    assert forall v :: Live(t, v) ==> Live(s, v) && At(t, v) == At(s, v);
  }

  lemma RecheckKeepsLeases(s: System, w: nat)
    requires Inv(s) && LeaseInv(s) && At(s, w).Rechecking?
    ensures LeaseInv(MarkNext(s, w))
  {
    assert WorkerOk(s, At(s, w));
    var t := MarkNext(s, w);
    assert t.rows == s.rows;
    assert forall v :: Live(t, v) ==> Live(s, v) && At(t, v) == At(s, v);
    QuietKeepsLeases(s, t);
  }

  lemma MarkKeepsLeases(s: System, w: nat)
    requires Inv(s) && LeaseInv(s) && Timely(s, MarkStep(w))
    ensures LeaseInv(MarkNext(s, w))
  {
    if At(s, w).Rechecking? {
      RecheckKeepsLeases(s, w);
    } else if MarkNext(s, w) != s {
      WriteKeepsLeases(s, w, MarkNext(s, w).rows[At(s, w).event]);
    }
  }

  lemma LocalKeepsLeases(s: System, w: nat)
    requires LeaseInv(s) && Timely(s, LocalStep(w))
    ensures LeaseInv(LocalNext(s, w))
  {
    if LocalNext(s, w) != s { WriteKeepsLeases(s, w, SettleLocally(s.rows[At(s, w).event])); }
  }

  lemma StepKeepsLeases(s: System, step: Step)
    requires Inv(s) && LeaseInv(s) && Timely(s, step)
    ensures LeaseInv(Next(s, step))
  {
    hide Inv, LeaseInv, LeaseHeld, ClaimNext, LocalNext, MarkNext;
    match step {
      case ClaimStep(w, e) => ClaimKeepsLeases(s, w, e);
      case LocalStep(w) => LocalKeepsLeases(s, w);
      case MarkStep(w) => MarkKeepsLeases(s, w);
      case _ =>
        var t := Next(s, step);
        assert forall w :: Live(t, w) ==> Live(s, w) && At(t, w).event == At(s, w).event && At(t, w).until == At(s, w).until;
        QuietKeepsLeases(s, t);
    }
  }

  lemma {:induction false} RunKeepsLeases(s: System, steps: seq<Step>)
    requires Inv(s) && LeaseInv(s) && TimelyRun(s, steps)
    ensures LeaseInv(Run(s, steps))
  {
    if steps != [] {
      var init := steps[..|steps| - 1];
      RunKeeps(s, init);
      RunKeepsLeases(s, init);
      StepKeepsLeases(Run(s, init), steps[|steps| - 1]);
    }
  }

  /** At most one worker holds an event at a time. */
  lemma OneHolder(anchoring: bool, steps: seq<Step>, v: nat, w: nat)
    requires TimelyRun(Initial(anchoring), steps)
    ensures var s := Run(Initial(anchoring), steps);
            Live(s, v) && Live(s, w) && At(s, v).event == At(s, w).event ==> v == w
  {
    RunKeepsLeases(Initial(anchoring), steps);
  }

  lemma TerminalStepSticks(s: System, step: Step, e: nat)
    requires Inv(s) && LeaseInv(s) && Timely(s, step) && e < |s.rows| && Terminal(s.rows[e].status)
    ensures e < |Next(s, step).rows| && Next(s, step).rows[e] == s.rows[e]
  {
    if step.MarkStep? || step.LocalStep? {
      assert LeaseHeld(s, step.w);
      assert At(s, step.w) != Idle ==> WorkerOk(s, At(s, step.w));
    }
  }

  /** CONFIRMED, MISMATCH and LOCAL are final: in a timely run the row never changes again. */
  lemma {:induction false} TerminalSticks(anchoring: bool, first: seq<Step>, later: seq<Step>, e: nat)
    requires TimelyRun(Initial(anchoring), first) && TimelyRun(Run(Initial(anchoring), first), later)
    requires e < |Run(Initial(anchoring), first).rows| && Terminal(Run(Initial(anchoring), first).rows[e].status)
    ensures var s := Run(Initial(anchoring), first);
            e < |Run(s, later).rows| && Run(s, later).rows[e] == s.rows[e]
  {
    if later != [] {
      var s, init := Run(Initial(anchoring), first), later[..|later| - 1];
      TerminalSticks(anchoring, first, init, e);
      RunKeeps(Initial(anchoring), first);
      RunKeeps(s, init);
      RunKeepsLeases(Initial(anchoring), first);
      RunKeepsLeases(s, init);
      TerminalStepSticks(Run(s, init), later[|later| - 1], e);
    }
  }

  // ---------------------------------------------------------------- when a terminal row is written

  ghost predicate TerminalAt(s: System, e: nat) { e < |s.rows| && Terminal(s.rows[e].status) }

  /** A worker writes row e after its attempt, having claimed it. */
  ghost predicate Writes(s: System, step: Step, e: nat) {
    step.MarkStep? && !At(s, step.w).Idle? && At(s, step.w).event == e
  }

  /** A failed attempt ends. */
  ghost predicate Retries(s: System, step: Step, e: nat) { Writes(s, step, e) && At(s, step.w).Failing? }

  /** An attempt that found a record or got its receipt ends. */
  ghost predicate Concludes(s: System, step: Step, e: nat) {
    Writes(s, step, e) && (At(s, step.w).HasRecord? || At(s, step.w).Succeeded?)
  }

  /** A claimed row is settled locally, anchoring being off. */
  ghost predicate Localizes(s: System, step: Step, e: nat) {
    step.LocalStep? && At(s, step.w).Holding? && At(s, step.w).event == e && !s.anchoring
  }

  /** Another verdict replaces a terminal one: only LOCAL gives way to the registry, and only to LOCAL do the others. */
  ghost predicate Overturns(s: System, step: Step, e: nat)
    requires e < |s.rows|
  {
    if s.rows[e].status == Local then Concludes(s, step, e) else Localizes(s, step, e)
  }

  /** A confirmed row is confirmed again, at another time. */
  ghost predicate Restamps(s: System, step: Step, e: nat)
    requires e < |s.rows|
  {
    s.rows[e].status == Confirmed && Concludes(s, step, e) && s.rows[e].confirmedAt != Some(s.now)
  }

  ghost predicate ChangesVerdict(s: System, step: Step, e: nat) {
    e < |s.rows| && (Retries(s, step, e) || Overturns(s, step, e))
  }

  ghost predicate ChangesRow(s: System, step: Step, e: nat) {
    e < |s.rows| && (Retries(s, step, e) || Overturns(s, step, e) || Restamps(s, step, e))
  }

  lemma MarkOnTerminal(s: System, w: nat, e: nat)
    requires Inv(s) && TerminalAt(s, e)
    ensures var step, t := MarkStep(w), MarkNext(s, w);
            && e < |t.rows|
            && (!Terminal(t.rows[e].status) <==> Retries(s, step, e))
            && (t.rows[e].status != s.rows[e].status <==> ChangesVerdict(s, step, e))
            && (t.rows[e] != s.rows[e] <==> ChangesRow(s, step, e))
  {
    assert RowOk(s, e);
    if w in s.workers { assert WorkerOk(s, s.workers[w]); }
    hide Inv, RecordMatches, RetryDelay;
  }

  /** What it takes, exactly, to take a terminal row back, to change its verdict, or to change any of its columns. */
  lemma TerminalRowStep(s: System, step: Step, e: nat)
    requires Inv(s) && TerminalAt(s, e)
    ensures e < |Next(s, step).rows|
    ensures !TerminalAt(Next(s, step), e) <==> Retries(s, step, e)
    ensures Next(s, step).rows[e].status != s.rows[e].status <==> ChangesVerdict(s, step, e)
    ensures Next(s, step).rows[e] != s.rows[e] <==> ChangesRow(s, step, e)
  {
    assert RowOk(s, e);
    hide Inv, RowOk, MarkNext;
    if step.MarkStep? { MarkOnTerminal(s, step.w, e); }
  }

  /** The system after the first k steps. */
  ghost function After(s: System, steps: seq<Step>, k: nat): System
    requires k <= |steps|
  {
    Run(s, steps[..k])
  }

  lemma OneStepOn(s: System, steps: seq<Step>, k: nat)
    requires k < |steps|
    ensures After(s, steps, k + 1) == Next(After(s, steps, k), steps[k])
  {
    assert steps[..k + 1][..k] == steps[..k];
  }

  lemma RowRemains(s: System, steps: seq<Step>, e: nat, k: nat)
    requires Inv(s) && e < |s.rows| && k <= |steps|
    ensures Inv(After(s, steps, k)) && e < |After(s, steps, k).rows|
  {
    RunKeeps(s, steps[..k]);
    RunExtends(s, steps[..k]);
  }

  /** On a terminal row every step changes this aspect of the row exactly when the condition holds. */
  ghost predicate Decides<T(!new)>(e: nat, aspect: Row -> T, condition: (System, Step) -> bool) {
    forall t, step :: Inv(t) && TerminalAt(t, e) ==>
      e < |Next(t, step).rows| && (aspect(Next(t, step).rows[e]) != aspect(t.rows[e]) <==> condition(t, step))
  }

  ghost predicate ChangesAt<T(!new)>(s: System, steps: seq<Step>, e: nat, aspect: Row -> T, k: nat) {
    && k <= |steps| && e < |s.rows| && e < |After(s, steps, k).rows|
    && aspect(After(s, steps, k).rows[e]) != aspect(s.rows[e])
  }

  lemma {:induction false} FirstChange<T(!new)>(s: System, steps: seq<Step>, e: nat, aspect: Row -> T,
                                                condition: (System, Step) -> bool, k: nat) returns (j: nat)
    requires Inv(s) && TerminalAt(s, e) && Decides(e, aspect, condition) && ChangesAt(s, steps, e, aspect, k)
    requires forall r :: aspect(r) == aspect(s.rows[e]) ==> Terminal(r.status)
    ensures j < |steps| && condition(After(s, steps, j), steps[j])
  {
    if k == 0 {
      assert false;
    } else {
      RowRemains(s, steps, e, k - 1);
      OneStepOn(s, steps, k - 1);
      if ChangesAt(s, steps, e, aspect, k - 1) {
        j := FirstChange(s, steps, e, aspect, condition, k - 1);
      } else {
        j := k - 1;
      }
    }
  }

  /**
   From steps to runs, for any aspect of a terminal row: it changes at some moment of a run exactly when the
   condition is met at some step.
   */
  lemma RunDecides<T(!new)>(s: System, steps: seq<Step>, e: nat, aspect: Row -> T, condition: (System, Step) -> bool)
    requires Inv(s) && TerminalAt(s, e) && Decides(e, aspect, condition)
    requires forall r :: aspect(r) == aspect(s.rows[e]) ==> Terminal(r.status)
    ensures (exists k :: ChangesAt(s, steps, e, aspect, k))
       <==> (exists k :: 0 <= k < |steps| && condition(After(s, steps, k), steps[k]))
  {
    if k :| ChangesAt(s, steps, e, aspect, k) {
      var j := FirstChange(s, steps, e, aspect, condition, k);
    }
    if k :| 0 <= k < |steps| && condition(After(s, steps, k), steps[k]) {
      RowRemains(s, steps, e, k);
      RowRemains(s, steps, e, k + 1);
      OneStepOn(s, steps, k);
      assert ChangesAt(s, steps, e, aspect, k) || ChangesAt(s, steps, e, aspect, k + 1);
    }
  }

  ghost predicate OtherVerdict(s: System, t: System, e: nat) {
    e < |s.rows| && e < |t.rows| && t.rows[e].status != s.rows[e].status
  }

  ghost predicate OtherRow(s: System, t: System, e: nat) { e < |s.rows| && e < |t.rows| && t.rows[e] != s.rows[e] }

  /** A terminal row leaves its terminal state in a run exactly when some worker's failed attempt on it ends in that run. */
  lemma LeavesTerminalExactly(anchoring: bool, first: seq<Step>, later: seq<Step>, e: nat)
    requires TerminalAt(Run(Initial(anchoring), first), e)
    ensures var s := Run(Initial(anchoring), first);
            (exists k :: 0 <= k <= |later| && !TerminalAt(After(s, later, k), e))
            <==> (exists k :: 0 <= k < |later| && Retries(After(s, later, k), later[k], e))
  {
    var s := Run(Initial(anchoring), first);
    RunKeeps(Initial(anchoring), first);
    var aspect, condition := (r: Row) => Terminal(r.status), (t, step) => Retries(t, step, e);
    forall t, step | Inv(t) && TerminalAt(t, e)
      ensures e < |Next(t, step).rows| && (aspect(Next(t, step).rows[e]) != aspect(t.rows[e]) <==> condition(t, step))
    {
      TerminalRowStep(t, step, e);
    }
    RunDecides(s, later, e, aspect, condition);
    forall k | 0 <= k <= |later| ensures ChangesAt(s, later, e, aspect, k) <==> !TerminalAt(After(s, later, k), e) {
      RowRemains(s, later, e, k);
    }
  }

  /** Its verdict changes at some moment exactly when, besides, a claimed row is settled locally or a LOCAL one concluded. */
  lemma VerdictChangesExactly(anchoring: bool, first: seq<Step>, later: seq<Step>, e: nat)
    requires TerminalAt(Run(Initial(anchoring), first), e)
    ensures var s := Run(Initial(anchoring), first);
            (exists k :: 0 <= k <= |later| && OtherVerdict(s, After(s, later, k), e))
            <==> (exists k :: 0 <= k < |later| && ChangesVerdict(After(s, later, k), later[k], e))
  {
    var s := Run(Initial(anchoring), first);
    RunKeeps(Initial(anchoring), first);
    var aspect, condition := (r: Row) => r.status, (t, step) => ChangesVerdict(t, step, e);
    forall t, step | Inv(t) && TerminalAt(t, e)
      ensures e < |Next(t, step).rows| && (aspect(Next(t, step).rows[e]) != aspect(t.rows[e]) <==> condition(t, step))
    {
      TerminalRowStep(t, step, e);
    }
    RunDecides(s, later, e, aspect, condition);
    forall k | 0 <= k <= |later| ensures ChangesAt(s, later, e, aspect, k) <==> OtherVerdict(s, After(s, later, k), e) {
      RowRemains(s, later, e, k);
    }
  }

  /** Any column changes at some moment exactly when, besides, a confirmed row is confirmed again at another time. */
  lemma RowChangesExactly(anchoring: bool, first: seq<Step>, later: seq<Step>, e: nat)
    requires TerminalAt(Run(Initial(anchoring), first), e)
    ensures var s := Run(Initial(anchoring), first);
            (exists k :: 0 <= k <= |later| && OtherRow(s, After(s, later, k), e))
            <==> (exists k :: 0 <= k < |later| && ChangesRow(After(s, later, k), later[k], e))
  {
    var s := Run(Initial(anchoring), first);
    RunKeeps(Initial(anchoring), first);
    var aspect, condition := (r: Row) => r, (t, step) => ChangesRow(t, step, e);
    forall t, step | Inv(t) && TerminalAt(t, e)
      ensures e < |Next(t, step).rows| && (aspect(Next(t, step).rows[e]) != aspect(t.rows[e]) <==> condition(t, step))
    {
      TerminalRowStep(t, step, e);
    }
    RunDecides(s, later, e, aspect, condition);
    forall k | 0 <= k <= |later| ensures ChangesAt(s, later, e, aspect, k) <==> OtherRow(s, After(s, later, k), e) {
      RowRemains(s, later, e, k);
    }
  }

  /** While all writes so far were in time, a worker about to touch a terminal row has outlived its lease. */
  lemma OverwriterIsLate(anchoring: bool, steps: seq<Step>, step: Step, e: nat)
    requires TimelyRun(Initial(anchoring), steps) && TerminalAt(Run(Initial(anchoring), steps), e)
    requires ChangesRow(Run(Initial(anchoring), steps), step, e)
    ensures (step.MarkStep? || step.LocalStep?)
    ensures var s := Run(Initial(anchoring), steps);
            !At(s, step.w).Idle? && !At(s, step.w).Rechecking? && At(s, step.w).until <= s.now
  {
    RunKeepsLeases(Initial(anchoring), steps);
    RunKeeps(Initial(anchoring), steps);
    assert LeaseHeld(Run(Initial(anchoring), steps), step.w);
  }

  // ---------------------------------------------------------------- the condition is needed

  const SOME_EVENT := Identity("ab", "0xcd", 1, 7)

  lemma Then(origin: System, steps: seq<Step>, s: System, step: Step) returns (more: seq<Step>, t: System)
    requires s == Run(origin, steps)
    ensures t == Next(s, step) && t == Run(origin, more)
  {
    more, t := steps + [step], Next(s, step);
    assert more[..|steps|] == steps;
  }

  /** Both workers hold the event: worker 0 slept through its lease. */
  lemma ClaimedTwice() returns (first: seq<Step>, s: System)
    ensures s == Run(Initial(true), first)
    ensures |s.rows| == 1 && s.ids == [SOME_EVENT] && s.anchoring && s.chain == map[] && s.txs == []
    ensures At(s, 0) == Holding(0, 180) && At(s, 1) == Holding(0, 360) && At(s, 2).Idle? && s.now == 180 && s.rows[0].attempts == 0
  {
    hide Run;
    assert Run(Initial(true), []) == Initial(true) by { RunNothing(); }
    first, s := [], Initial(true);
    first, s := Then(Initial(true), first, s, Enqueue(SOME_EVENT));
    first, s := Then(Initial(true), first, s, ClaimStep(0, 0));
    first, s := Then(Initial(true), first, s, Tick(180));
    first, s := Then(Initial(true), first, s, ClaimStep(1, 0));
  }

  lemma RunNothing()
    ensures Run(Initial(true), []) == Initial(true)
  {
  }

  /** Worker 1 confirms it. */
  lemma ConfirmedBehindASleeper() returns (first: seq<Step>, s: System)
    ensures s == Run(Initial(true), first)
    ensures |s.rows| == |s.ids| == 1 && s.rows[0].status == Confirmed && s.anchoring && At(s, 0) == Holding(0, 180)
  {
    hide Run;
    first, s := ClaimedTwice();
    first, s := SubmittedBy(first, s, 1);
    first, s := Then(Initial(true), first, s, MarkStep(1));
  }

  /** The sleeper's own lookup then fails, and its retry takes the confirmed row back to pending. */
  lemma StaleWorkerUndoesConfirmed()
    ensures exists first, later ::
              var s := Run(Initial(true), first);
              var t := Run(s, later);
              |s.rows| == 1 && |t.rows| == 1 && s.rows[0].status == Confirmed && t.rows[0].status == Pending
  {
    var first, s := ConfirmedBehindASleeper();
    var later, t := Then(s, [], s, FindStep(0, false));
    later, t := Then(s, later, t, MarkStep(0));
  }

  /** A late write by worker 0 lets worker 2 in; worker 1, whose lease still lasts, then undoes worker 2's confirmation. */
  lemma ConfirmedBehindAHolder() returns (first: seq<Step>, s: System)
    ensures s == Run(Initial(true), first)
    ensures |s.rows| == |s.ids| == 1 && s.rows[0].status == Confirmed && s.anchoring && At(s, 1) == Holding(0, 360) && s.now == 210
  {
    hide Run;
    first, s := ClaimedTwice();
    first, s := Then(Initial(true), first, s, FindStep(0, false));
    first, s := Then(Initial(true), first, s, MarkStep(0));
    assert s.rows[0].nextAttemptAt == Some(210);
    first, s := Then(Initial(true), first, s, Tick(30));
    first, s := Then(Initial(true), first, s, ClaimStep(2, 0));
    first, s := SubmittedBy(first, s, 2);
    assert At(s, 2).Succeeded? && At(s, 1) == Holding(0, 360);
    first, s := Then(Initial(true), first, s, MarkStep(2));
  }

  /** A worker holding event 0 finds nothing, submits, is mined and hears of it. */
  lemma SubmittedBy(steps: seq<Step>, s: System, w: nat) returns (more: seq<Step>, t: System)
    requires s == Run(Initial(true), steps)
    requires |s.ids| == 1 && s.anchoring && s.chain == map[] && s.txs == [] && At(s, w).Holding? && At(s, w).event == 0
    ensures t == Run(Initial(true), more)
    ensures t.rows == s.rows && t.ids == s.ids && t.now == s.now && t.anchoring
    ensures At(t, w) == Succeeded(0, At(s, w).until) && forall v :: v != w ==> At(t, v) == At(s, v)
  {
    hide Run;
    more, t := Then(Initial(true), steps, s, FindStep(w, true));
    more, t := Then(Initial(true), more, t, SubmitStep(w, true, true));
    more, t := Then(Initial(true), more, t, MineStep(0, true));
    more, t := Then(Initial(true), more, t, ReceiptStep(w, true));
  }

  /** So it need not be the overwriting worker that was late: a reachable state where a write within its lease undoes CONFIRMED. */
  lemma LatenessElsewhereSuffices()
    ensures exists steps ::
              var s := Run(Initial(true), steps);
              && TerminalAt(s, 0) && s.rows[0].status == Confirmed
              && Retries(s, MarkStep(1), 0) && Timely(s, MarkStep(1))
  {
    var steps, s := ConfirmedBehindAHolder();
    var more, t := Then(Initial(true), steps, s, FindStep(1, false));
    assert Retries(t, MarkStep(1), 0);
  }
}
