/** The order of dates on cases, proposals and settlements, over whole runs. */
module SpendingTimeline {
  import opened Wrappers
  import opened EvidencePayloads
  import opened SpendingState
  import opened SpendingInvariants
  import opened SpendingSafety
  import opened SpendingEvidence

  predicate NotAfter(a: Option<nat>, b: Option<nat>) { a.Some? && b.Some? && a.value <= b.value }

  /** Work is started before it is completed, neither happens after the case is closed, and it is active until then. */
  ghost predicate CaseTimeline(c: Case, now: nat) {
    && (c.startedAt.Some? ==> c.startedAt.value <= now)
    && (c.completedAt.Some? ==> NotAfter(c.startedAt, c.completedAt) && c.completedAt.value <= now)
    && (c.closedAt.Some? ==> c.closedAt.value <= now)
    && (c.startedAt.Some? && c.closedAt.Some? ==> NotAfter(c.startedAt, c.closedAt))
    && (c.completedAt.Some? && c.closedAt.Some? ==> NotAfter(c.completedAt, c.closedAt))
    && (c.active <==> c.closedAt.None?)
  }

  /** Decided before completed, completed a whole rating window before closed. */
  ghost predicate ProposalTimeline(p: Proposal, now: nat) {
    && (p.status in {InProgress, NotProceeding, Completed, Closed} ==> p.decidedAt.Some? && p.decidedAt.value <= now)
    && (p.completedAt.Some? <==> p.status in {Completed, Closed})
    && (p.completedAt.Some? ==> NotAfter(p.decidedAt, p.completedAt) && p.completedAt.value <= now)
    && (p.closedAt.Some? <==> p.status in {NotProceeding, Closed})
    && (p.status == NotProceeding ==> p.closedAt == p.decidedAt)
    && (p.status == Closed ==> p.caseId.None? && p.completedAt.value + RATING_WINDOW <= p.closedAt.value <= now)
  }

  /** A case's proposal was completed together with its case. */
  ghost predicate CompletedWithCase(s: State, p: Proposal) {
    p.caseId.Some? && p.completedAt.Some? ==>
      p.caseId.value in s.cases && s.cases[p.caseId.value].completedAt == p.completedAt
  }

  /** Paid after the work was completed, and before its proposal was closed. */
  ghost predicate SettlementTimeline(s: State, row: Settlement) {
    && row.settledAt <= s.now
    && row.proposal in s.proposals
    && var p := s.proposals[row.proposal];
       && p.status in {Completed, Closed}
       && (p.completedAt.Some? ==> p.completedAt.value <= row.settledAt)
       && (p.status == Closed && p.closedAt.Some? ==> row.settledAt <= p.closedAt.value)
  }

  ghost predicate Timeline(s: State) {
    && (forall c :: c in s.cases ==> CaseTimeline(s.cases[c], s.now))
    && (forall q :: q in s.proposals ==> ProposalTimeline(s.proposals[q], s.now) && CompletedWithCase(s, s.proposals[q]))
    && (forall i :: 0 <= i < |s.settlements| ==> SettlementTimeline(s, s.settlements[i]))
  }

  // ---------------------------------------------------------------- steps

  lemma TimePasses(s: State, t: State)
    requires Timeline(s) && s.now <= t.now && t == s.(now := t.now)
    ensures Timeline(t)
  {
    forall i | 0 <= i < |t.settlements| ensures SettlementTimeline(t, t.settlements[i]) {
      assert SettlementTimeline(s, s.settlements[i]);
    }
  }

  /** Rows other than cases and proposals carry no dates. */
  lemma UndatedKeeps(s: State, t: State)
    requires Timeline(s)
    requires t.now == s.now && t.cases == s.cases && t.proposals == s.proposals && t.settlements == s.settlements
    ensures Timeline(t)
  {
    forall i | 0 <= i < |t.settlements| ensures SettlementTimeline(t, t.settlements[i]) {
      assert SettlementTimeline(s, s.settlements[i]);
    }
    forall q | q in t.proposals ensures CompletedWithCase(t, t.proposals[q]) { assert CompletedWithCase(s, s.proposals[q]); }
  }

  /** One case is new or changed, without touching a completion date already there. */
  lemma CaseChangeKeeps(s: State, t: State, c: nat)
    requires Timeline(s) && c in t.cases && t == s.(cases := s.cases[c := t.cases[c]])
    requires CaseTimeline(t.cases[c], s.now)
    requires c in s.cases ==> s.cases[c].completedAt.None? || t.cases[c].completedAt == s.cases[c].completedAt
    requires c !in s.cases ==> t.cases[c].completedAt.None?
    ensures Timeline(t)
  {
    forall i | 0 <= i < |t.settlements| ensures SettlementTimeline(t, t.settlements[i]) {
      assert SettlementTimeline(s, s.settlements[i]);
    }
    forall q | q in t.proposals ensures CompletedWithCase(t, t.proposals[q]) { assert CompletedWithCase(s, s.proposals[q]); }
  }

  /** One unsettled proposal is new or changed, and not completed through a case. */
  lemma ProposalChangeKeeps(s: State, t: State, pid: nat)
    requires Timeline(s) && pid in t.proposals && t.proposals == s.proposals[pid := t.proposals[pid]]
    requires t.now == s.now && t.cases == s.cases && t.settlements == s.settlements
    requires ProposalTimeline(t.proposals[pid], s.now)
    requires t.proposals[pid].caseId.Some? ==> t.proposals[pid].completedAt.None?
    requires pid in s.proposals ==> s.proposals[pid].status !in {Completed, Closed}
    ensures Timeline(t)
  {
    forall i | 0 <= i < |t.settlements| ensures SettlementTimeline(t, t.settlements[i]) {
      assert SettlementTimeline(s, s.settlements[i]);
    }
    forall q | q in t.proposals ensures CompletedWithCase(t, t.proposals[q]) {
      if q != pid { assert CompletedWithCase(s, s.proposals[q]); }
    }
  }

  lemma PublicationKeeps(env: Platform, s: State, t: State, pid: nat, draft: Version, eventId: string)
    requires Timeline(s) && PublishCommits(env, s, t, pid, draft, eventId)
    ensures Timeline(t)
  {
    hide QueueEvent;
    QueueGrows(env, s, eventId, VersionEvent, VersionPayload(env, FactsOf(s, pid, s.proposals[pid], draft), CaseOf(s, s.proposals[pid])),
               PreviousHash(s, s.proposals[pid].versions));
    assert ProposalTimeline(s.proposals[pid], s.now);
    ProposalChangeKeeps(s, t, pid);
  }

  lemma DecisionKeeps(s: State, pid: nat, proceed: bool)
    requires Timeline(s) && DecideProposal(s, pid, proceed).Ok?
    ensures Timeline(DecideProposal(s, pid, proceed).value)
  {
    assert ProposalTimeline(s.proposals[pid], s.now);
    ProposalChangeKeeps(s, DecideProposal(s, pid, proceed).value, pid);
  }

  lemma CompletionKeeps(s: State, pid: nat, cause: string, result: string)
    requires Timeline(s) && CompleteProposalWork(s, pid, cause, result).Ok?
    ensures Timeline(CompleteProposalWork(s, pid, cause, result).value)
  {
    assert ProposalTimeline(s.proposals[pid], s.now);
    ProposalChangeKeeps(s, CompleteProposalWork(s, pid, cause, result).value, pid);
  }

  lemma CaseCompletionKeeps(s: State, caseId: nat, cause: string, result: string)
    requires Timeline(s) && CompleteCaseWork(s, caseId, cause, result).Ok?
    ensures Timeline(CompleteCaseWork(s, caseId, cause, result).value)
  {
    var t := CompleteCaseWork(s, caseId, cause, result).value;
    assert CaseTimeline(s.cases[caseId], s.now);
    forall q | q in t.proposals ensures ProposalTimeline(t.proposals[q], t.now) && CompletedWithCase(t, t.proposals[q]) {
      assert ProposalTimeline(s.proposals[q], s.now) && CompletedWithCase(s, s.proposals[q]);
    }
    forall i | 0 <= i < |t.settlements| ensures SettlementTimeline(t, t.settlements[i]) {
      assert SettlementTimeline(s, s.settlements[i]);
    }
  }

  lemma ClosingKeeps(s: State)
    requires Timeline(s)
    ensures Timeline(CloseExpired(s))
  {
    var t := CloseExpired(s);
    forall c | c in t.cases ensures CaseTimeline(t.cases[c], t.now) { assert CaseTimeline(s.cases[c], s.now); }
    forall q | q in t.proposals ensures ProposalTimeline(t.proposals[q], t.now) && CompletedWithCase(t, t.proposals[q]) {
      assert ProposalTimeline(s.proposals[q], s.now) && CompletedWithCase(s, s.proposals[q]);
    }
    forall i | 0 <= i < |t.settlements| ensures SettlementTimeline(t, t.settlements[i]) {
      assert SettlementTimeline(s, s.settlements[i]);
    }
  }

  lemma SettlementKeeps(env: Platform, s: State, t: State, pid: nat, transfer: nat, eventId: string)
    requires Timeline(s) && SettleCommits(env, s, t, pid, transfer, eventId)
    ensures Timeline(t)
  {
    hide QueueEvent;
    var v := s.proposals[pid].versions[s.proposals[pid].current.value];
    var facts := SettlementFacts(|s.settlements| + 1, pid, v.number, v.amount, s.documents[transfer].sha256, s.now);
    QueueGrows(env, s, eventId, SettlementEvent, SettlementPayload(facts),
               if v.eventId in s.events then "0x" + s.events[v.eventId].payloadHash else "");
    assert ProposalTimeline(s.proposals[pid], s.now);
    forall i | 0 <= i < |t.settlements| ensures SettlementTimeline(t, t.settlements[i]) {
      if i < |s.settlements| { assert SettlementTimeline(s, s.settlements[i]); }
    }
    forall q | q in t.proposals ensures CompletedWithCase(t, t.proposals[q]) { assert CompletedWithCase(s, s.proposals[q]); }
  }

  lemma StepKeepsTimeline(env: Platform, s: State, step: Step)
    requires Timeline(s)
    ensures Timeline(Apply(env, s, step))
  {
    hide Timeline, PublishVersion, RecordSettlement, CompleteCaseWork, CompleteProposalWork, CloseExpired, DecideProposal;
    if Attempt(env, s, step).Ok? {
      var t := Attempt(env, s, step).value;
      match step {
        case Tick(elapsed) => TimePasses(s, t);
        case PublishStep(pid, input, id) =>
          PublicationCommits(env, s, pid, input, id);
          PublicationKeeps(env, s, t, pid, NewVersion(s.documents, s.proposals[pid], input, ResolveSchedule(input).value, ""), id);
        case SettleStep(pid, transfer, id) =>
          SettlementCommits(env, s, pid, transfer, id);
          SettlementKeeps(env, s, t, pid, transfer, id);
        case DecideStep(pid, proceed) => DecisionKeeps(s, pid, proceed);
        case CompleteCaseStep(c, cause, result) => CaseCompletionKeeps(s, c, cause, result);
        case CompleteProposalStep(pid, cause, result) => CompletionKeeps(s, pid, cause, result);
        case CloseStep => ClosingKeeps(s);
        case CreateStep(c, pid, ok) => CreationKeepsTimeline(s, t, pid);
        case CreateStandaloneStep(b, pid) => CreationKeepsTimeline(s, t, pid);
        case OpenCaseStep(c, b, category, queue, l) => OneCaseKeeps(s, t, c);
        case RetriageStep(c, category, queue, l) => OneCaseKeeps(s, t, c);
        case DeclineStep(c) => OneCaseKeeps(s, t, c);
        case StartStep(c) => OneCaseKeeps(s, t, c);
        case _ => UndatedKeeps(s, t);
      }
    }
  }

  lemma CreationKeepsTimeline(s: State, t: State, pid: nat)
    requires Timeline(s) && pid !in s.proposals && pid in t.proposals && t == s.(proposals := s.proposals[pid := t.proposals[pid]])
    requires var p := t.proposals[pid]; p.status == Draft && p.completedAt.None? && p.closedAt.None?
    ensures Timeline(t)
  {
    ProposalChangeKeeps(s, t, pid);
  }

  /** Opening, re-triaging, declining or starting one case. */
  lemma OneCaseKeeps(s: State, t: State, c: nat)
    requires Timeline(s) && c in t.cases && t == s.(cases := s.cases[c := t.cases[c]])
    requires var d := t.cases[c];
             if c in s.cases then
               || d == s.cases[c].(category := d.category, queue := d.queue, locationId := d.locationId)
               || (s.cases[c].active && d == s.cases[c].(active := false, closedAt := Some(s.now)))
               || (s.cases[c].active && s.cases[c].completedAt.None?
                   && d == s.cases[c].(startedAt := if s.cases[c].startedAt.None? then Some(s.now) else s.cases[c].startedAt))
             else d.active && d.startedAt.None? && d.completedAt.None? && d.closedAt.None?
    ensures Timeline(t)
  {
    if c in s.cases { assert CaseTimeline(s.cases[c], s.now); }
    CaseChangeKeeps(s, t, c);
  }

  /**
   In every reachable state the dates are in order: started, completed, closed for cases; decided, completed,
   settled, closed for proposals, with a whole rating window between completion and closing, and a case's
   proposal completed at the very moment its case was.
   */
  lemma {:induction false} DatesInOrder(env: Platform, steps: seq<Step>)
    ensures Timeline(Run(env, INITIAL, steps))
  {
    if steps != [] {
      DatesInOrder(env, steps[..|steps| - 1]);
      StepKeepsTimeline(env, Run(env, INITIAL, steps[..|steps| - 1]), steps[|steps| - 1]);
    }
  }

  // ---------------------------------------------------------------- what a date once set means

  /** Publishing and settling leave cases alone. */
  lemma CasesUntouched(env: Platform, s: State, step: Step)
    requires step.PublishStep? || step.SettleStep?
    ensures Apply(env, s, step).cases == s.cases
  {
    hide PublishVersion, RecordSettlement, QueueEvent;
    if Attempt(env, s, step).Ok? {
      match step {
        case PublishStep(pid, input, id) =>
          PublicationCommits(env, s, pid, input, id);
          var p, draft := s.proposals[pid], NewVersion(s.documents, s.proposals[pid], input, ResolveSchedule(input).value, "");
          QueueGrows(env, s, id, VersionEvent, VersionPayload(env, FactsOf(s, pid, p, draft), CaseOf(s, p)), PreviousHash(s, p.versions));
        case SettleStep(pid, transfer, id) =>
          SettlementCommits(env, s, pid, transfer, id);
          var v := s.proposals[pid].versions[s.proposals[pid].current.value];
          QueueGrows(env, s, id, SettlementEvent,
                     SettlementPayload(SettlementFacts(|s.settlements| + 1, pid, v.number, v.amount, s.documents[transfer].sha256, s.now)),
                     if v.eventId in s.events then "0x" + s.events[v.eventId].payloadHash else "");
      }
    }
  }

  ghost predicate DatesKept(c: Case, d: Case) {
    && (c.startedAt.Some? ==> d.startedAt == c.startedAt)
    && (c.completedAt.Some? ==> d.completedAt == c.completedAt)
    && (c.closedAt.Some? ==> d.closedAt == c.closedAt)
  }

  /** Work on this case may start: nothing about it awaits a decision. */
  ghost predicate Startable(s: State, caseId: nat) {
    && caseId in s.cases && s.cases[caseId].active && s.cases[caseId].completedAt.None? && s.cases[caseId].startedAt.None?
    && forall q :: q in s.proposals && s.proposals[q].caseId == Some(caseId) ==> s.proposals[q].status != Published
  }

  /** One step keeps the dates of a case, and sets its start date only by starting work on a startable case, to the present. */
  lemma CaseDatesStep(env: Platform, s: State, step: Step, c: nat)
    requires Timeline(s)
    ensures var t := Apply(env, s, step);
            && (c in s.cases ==> c in t.cases && DatesKept(s.cases[c], t.cases[c]))
            && (c in t.cases && t.cases[c].startedAt.Some? && (c !in s.cases || s.cases[c].startedAt.None?) ==>
                  step == StartStep(c) && Startable(s, c) && t.cases[c].startedAt == Some(s.now))
  {
    if c in s.cases { assert CaseTimeline(s.cases[c], s.now); }
    hide Timeline, PublishVersion, RecordSettlement, QueueEvent, CompleteLinked, CloseProposals, RecordFundSource, VerifyFundSource;
    if step.PublishStep? || step.SettleStep? { CasesUntouched(env, s, step); }
  }

  /** Along every run no date of a case, once set, is ever changed. */
  lemma {:induction false} CaseDatesStand(env: Platform, first: seq<Step>, later: seq<Step>, c: nat)
    requires c in Run(env, INITIAL, first).cases
    ensures var s := Run(env, INITIAL, first);
            var t := Run(env, s, later);
            Timeline(t) && c in t.cases && DatesKept(s.cases[c], t.cases[c])
  {
    var s := Run(env, INITIAL, first);
    if later == [] {
      DatesInOrder(env, first);
    } else {
      var n := |later| - 1;
      CaseDatesStand(env, first, later[..n], c);
      StepKeepsTimeline(env, Run(env, s, later[..n]), later[n]);
      CaseDatesStep(env, Run(env, s, later[..n]), later[n], c);
    }
  }

  /** Step k of the run started work on the case at this moment, while none of its proposals awaited a decision. */
  ghost predicate StartedBy(env: Platform, steps: seq<Step>, c: nat, at: nat, k: nat) {
    && k < |steps| && steps[k] == StartStep(c)
    && var s := Run(env, INITIAL, steps[..k]);
       Startable(s, c) && s.now == at
  }

  lemma RunStep(env: Platform, steps: seq<Step>)
    requires steps != []
    ensures Run(env, INITIAL, steps) == Apply(env, Run(env, INITIAL, steps[..|steps| - 1]), steps[|steps| - 1])
  {
    hide Apply;
  }

  lemma StartedEarlier(env: Platform, steps: seq<Step>, c: nat, at: nat, k: nat)
    requires steps != [] && StartedBy(env, steps[..|steps| - 1], c, at, k)
    ensures StartedBy(env, steps, c, at, k)
  {
    hide Run, Startable;
    assert steps[..|steps| - 1][..k] == steps[..k];
  }

  /** Every start date in a reachable state was set by starting work, at that moment and with no decision outstanding. */
  lemma {:induction false} StartNeedsDecision(env: Platform, steps: seq<Step>, c: nat)
    requires c in Run(env, INITIAL, steps).cases && Run(env, INITIAL, steps).cases[c].startedAt.Some?
    ensures exists k: nat :: StartedBy(env, steps, c, Run(env, INITIAL, steps).cases[c].startedAt.value, k)
  {
    if steps == [] {
      assert false;
    } else {
      var n := |steps| - 1;
      var s, at := Run(env, INITIAL, steps[..n]), Run(env, INITIAL, steps).cases[c].startedAt.value;
      DatesInOrder(env, steps[..n]);
      RunStep(env, steps);
      hide Run, Apply, Timeline, Startable;
      CaseDatesStep(env, s, steps[n], c);
      if c in s.cases && s.cases[c].startedAt.Some? {
        StartNeedsDecision(env, steps[..n], c);
        var k: nat :| StartedBy(env, steps[..n], c, at, k);
        StartedEarlier(env, steps, c, at, k);
      } else {
        assert StartedBy(env, steps, c, at, n);
      }
    }
  }
}
