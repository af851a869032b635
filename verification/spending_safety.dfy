/** Every transaction of the spending lifecycle keeps the invariant. */
module SpendingSafety {
  import opened Wrappers
  import opened CanonicalValues
  import opened CanonicalJson
  import opened EvidencePayloads
  import opened SpendingState
  import opened SpendingInvariants
  import Decimal

  // ---------------------------------------------------------------- frames

  /** Documents and events are insert-only from s to t. */
  ghost predicate Grows(s: State, t: State) {
    && s.now <= t.now
    && (forall d :: d in s.documents ==> d in t.documents && t.documents[d] == s.documents[d])
    && (forall e :: e in s.events ==> e in t.events && t.events[e] == s.events[e])
  }

  /** The row may have moved on, but what was published stays. */
  ghost predicate Keeps(p: Proposal, q: Proposal) {
    p.building == q.building && p.caseId == q.caseId && p.versions <= q.versions
  }

  lemma LinkFrame(env: Platform, s: State, t: State, pid: nat, p: Proposal, q: Proposal, k: nat)
    requires Grows(s, t) && Keeps(p, q) && k <= |p.versions|
    requires forall j :: 0 <= j < |p.versions| ==> VersionOk(env, s, pid, p, j)
    ensures LinkBefore(t, q, k) == LinkBefore(s, p, k)
  {
    if k > 0 { assert VersionOk(env, s, pid, p, k - 1); }
  }

  lemma FactsFrame(s: State, t: State, pid: nat, p: Proposal, q: Proposal, v: Version)
    requires Grows(s, t) && Keeps(p, q)
    requires forall d :: d in v.quotations ==> d in s.documents
    ensures FactsOf(t, pid, q, v) == FactsOf(s, pid, p, v)
    ensures QuotesOf(t.documents, v.quotations) == QuotesOf(s.documents, v.quotations)
  {
    assert QuotesOf(t.documents, v.quotations) == QuotesOf(s.documents, v.quotations);
  }

  lemma VersionFrame(env: Platform, s: State, t: State, pid: nat, p: Proposal, q: Proposal, k: nat)
    requires Grows(s, t) && Keeps(p, q) && k < |p.versions|
    requires forall j :: 0 <= j < |p.versions| ==> VersionOk(env, s, pid, p, j)
    ensures VersionOk(env, t, pid, q, k)
  {
    assert VersionOk(env, s, pid, p, k);
    var v := p.versions[k];
    assert q.versions[k] == v;
    LinkFrame(env, s, t, pid, p, q, k);
    FactsFrame(s, t, pid, p, q, v);
    AnchorFrame(env, s, t, pid, p, q, v);
  }

  lemma AnchorFrame(env: Platform, s: State, t: State, pid: nat, p: Proposal, q: Proposal, v: Version)
    requires VersionAnchored(env, s, pid, p, v) && Grows(s, t)
    requires FactsOf(t, pid, q, v) == FactsOf(s, pid, p, v)
    ensures VersionAnchored(env, t, pid, q, v)
  {
    var c0 :| Anchors(env, s.events[v.eventId], VersionPayload(env, FactsOf(s, pid, p, v), c0));
    assert Anchors(env, t.events[v.eventId], VersionPayload(env, FactsOf(t, pid, q, v), c0));
  }

  /** A proposal whose versions did not change stays well formed. */
  lemma ProposalFrame(env: Platform, s: State, t: State, pid: nat, p: Proposal, q: Proposal)
    requires ProposalOk(env, s, pid, p) && Grows(s, t)
    requires Keeps(p, q) && q.versions == p.versions && q.current == p.current
    requires q.status == Draft <==> p.status == Draft
    ensures ProposalOk(env, t, pid, q)
  {
    forall k | 0 <= k < |q.versions| ensures VersionOk(env, t, pid, q, k) {
      VersionFrame(env, s, t, pid, p, q, k);
    }
  }

  lemma SettlementAnchorFrame(env: Platform, s: State, t: State, i: nat)
    requires Grows(s, t) && i < |s.settlements| && i < |t.settlements| && t.settlements[i] == s.settlements[i]
    requires s.settlements[i].proposal in s.proposals && s.settlements[i].proposal in t.proposals
    requires CurrentNumber(t.proposals[s.settlements[i].proposal]) == CurrentNumber(s.proposals[s.settlements[i].proposal])
    requires s.settlements[i].transfer in s.documents
    requires SettlementAnchored(env, s, i)
    ensures SettlementAnchored(env, t, i)
  {
    assert SettlementFactsOf(t, i) == SettlementFactsOf(s, i);
  }

  lemma EvidenceFrame(env: Platform, s: State, t: State, pid: nat, p: Proposal, entry: LedgerEntry, transfer: nat)
    requires Grows(s, t) && transfer in s.documents && ProposalOk(env, s, pid, p) && p.versions != []
    ensures ShowsEvidence(s, entry, p.versions[|p.versions| - 1], transfer) ==> ShowsEvidence(t, entry, p.versions[|p.versions| - 1], transfer)
  {
    var v := p.versions[|p.versions| - 1];
    assert VersionOk(env, s, pid, p, |p.versions| - 1);
    hide VersionAnchored;
    assert forall d :: d in v.quotations ==> QuoteOf(t.documents, d) == QuoteOf(s.documents, d);
  }

  /** An existing settlement stays in order while its proposal keeps its versions. */
  lemma SettlementFrame(env: Platform, s: State, t: State, i: nat)
    requires Grows(s, t) && i < |s.settlements| && s.settlements <= t.settlements
    requires i < |s.ledger| && s.ledger <= t.ledger
    requires SettlementOk(env, s, i)
    requires var pid := s.settlements[i].proposal;
             && ProposalOk(env, s, pid, s.proposals[pid])
             && pid in t.proposals
             && Keeps(s.proposals[pid], t.proposals[pid])
             && t.proposals[pid].versions == s.proposals[pid].versions
             && t.proposals[pid].current == s.proposals[pid].current
             && t.proposals[pid].status in {Completed, Closed}
    ensures SettlementOk(env, t, i)
  {
    var row := s.settlements[i];
    var p, q := s.proposals[row.proposal], t.proposals[row.proposal];
    assert t.settlements[i] == row;
    LinkFrame(env, s, t, row.proposal, p, q, |p.versions|);
    SettlementAnchorFrame(env, s, t, i);
    EvidenceFrame(env, s, t, row.proposal, p, s.ledger[i], row.transfer);
    hide VersionOk, ShowsEvidence, SettlementAnchored;
  }

  // ---------------------------------------------------------------- steps that publish nothing

  /** Same published content and same place in the lifecycle. */
  ghost predicate Restyled(p: Proposal, q: Proposal, settled: bool) {
    && Keeps(p, q) && q.versions == p.versions && q.current == p.current
    && (q.status == Draft <==> p.status == Draft)
    && (p.status in {Completed, Closed} ==> q.status in {Completed, Closed})
    && PhaseOf(q, settled) == PhaseOf(p, settled)
  }

  ghost predicate CalmStep(s: State, t: State) {
    && Grows(s, t)
    && t.proposals.Keys == s.proposals.Keys
    && (forall pid :: pid in s.proposals ==> Restyled(s.proposals[pid], t.proposals[pid], SettlementOf(s, pid).Some?))
    && t.settlements == s.settlements && t.ledger == s.ledger && t.entries == s.entries && t.audit == s.audit
  }

  lemma CalmStepKeeps(env: Platform, s: State, t: State)
    requires Inv(env, s) && CalmStep(s, t)
    ensures Inv(env, t)
  {
    CalmStepKeepsRows(env, s, t);
    PaidFrame(s, t);
  }

  lemma CalmStepKeepsRows(env: Platform, s: State, t: State)
    requires RowsOk(env, s) && CalmStep(s, t)
    ensures RowsOk(env, t)
  {
    hide VersionOk, ShowsEvidence, SettlementAnchored;
    forall pid | pid in t.proposals ensures ProposalOk(env, t, pid, t.proposals[pid]) {
      ProposalFrame(env, s, t, pid, s.proposals[pid], t.proposals[pid]);
    }
    forall i | 0 <= i < |t.settlements| ensures SettlementOk(env, t, i) {
      assert SettlementOk(env, s, i);
      SettlementFrame(env, s, t, i);
    }
    forall i | 0 <= i < |t.settlements| ensures LedgerOk(t, i) { assert LedgerOk(s, i); }
  }

  // ---------------------------------------------------------------- money

  lemma {:induction false} PaidSumFrame(s: State, t: State, rows: seq<Settlement>, b: nat, squatted: bool)
    requires forall i :: 0 <= i < |rows| ==>
               && BuildingOf(t.proposals, rows[i].proposal) == BuildingOf(s.proposals, rows[i].proposal)
               && Squatted(t.entries, rows[i].proposal) == Squatted(s.entries, rows[i].proposal)
    ensures PaidSum(t, rows, b, squatted) == PaidSum(s, rows, b, squatted)
  {
    if rows != [] { PaidSumFrame(s, t, rows[..|rows| - 1], b, squatted); }
  }

  lemma PaidFrame(s: State, t: State)
    requires MoneyOk(s)
    requires t.entries == s.entries && t.settlements == s.settlements
    requires forall i :: 0 <= i < |s.settlements| ==>
               BuildingOf(t.proposals, s.settlements[i].proposal) == BuildingOf(s.proposals, s.settlements[i].proposal)
    ensures MoneyOk(t)
  {
    forall b ensures OutflowSum(t.entries, b) == -PaidSum(t, t.settlements, b, false) {
      PaidSumFrame(s, t, s.settlements, b, false);
    }
  }

  lemma OutflowKeyInjective(p: nat, q: nat)
    requires OutflowKey(p) == OutflowKey(q)
    ensures p == q
  {
    var prefix := "OUTFLOW:proposal:";
    assert OutflowKey(p)[|prefix|..] == Decimal.NatText(p);
    assert OutflowKey(q)[|prefix|..] == Decimal.NatText(q);
    Decimal.NatValueOfText(p);
    Decimal.NatValueOfText(q);
  }

  lemma OutflowSumAppends(entries: seq<FundEntry>, e: FundEntry, b: nat)
    ensures OutflowSum(entries + [e], b)
         == OutflowSum(entries, b) + (if e.building == b && e.kind == Outflow then e.amount else 0)
  {
    assert (entries + [e])[..|entries|] == entries;
  }

  lemma PaidSumAppends(s: State, rows: seq<Settlement>, row: Settlement, b: nat, squatted: bool)
    ensures PaidSum(s, rows + [row], b, squatted)
         == PaidSum(s, rows, b, squatted)
            + (if BuildingOf(s.proposals, row.proposal) == Some(b) && Squatted(s.entries, row.proposal) == squatted
               then row.amount else 0)
  {
    assert (rows + [row])[..|rows|] == rows;
  }

  /** A new entry under an unused key, or a new outflow, squats no key that is already used. */
  lemma SquattingFrame(entries: seq<FundEntry>, e: FundEntry, pid: nat)
    requires e.kind == Outflow || e.key != OutflowKey(pid)
    ensures Squatted(entries + [e], pid) == Squatted(entries, pid)
  {
    var more := entries + [e];
    if Squatted(entries, pid) {
      var i :| 0 <= i < |entries| && entries[i].key == OutflowKey(pid) && entries[i].kind != Outflow;
      assert more[i] == entries[i];
    }
  }

  /** A new source entry under an unused key changes no settled proposal's outflow. */
  lemma SourceMoneyKept(s: State, t: State, e: FundEntry)
    requires MoneyOk(s) && t == s.(entries := s.entries + [e])
    requires e.kind != Outflow && !KeyUsed(s.entries, e.key)
    ensures MoneyOk(t)
  {
    forall i | 0 <= i < |s.settlements|
      ensures Squatted(t.entries, s.settlements[i].proposal) == Squatted(s.entries, s.settlements[i].proposal)
      ensures KeyUsed(t.entries, OutflowKey(s.settlements[i].proposal))
    {
      assert KeyUsed(s.entries, OutflowKey(s.settlements[i].proposal));
      var j :| 0 <= j < |s.entries| && s.entries[j].key == OutflowKey(s.settlements[i].proposal);
      assert t.entries[j] == s.entries[j];
      SquattingFrame(s.entries, e, s.settlements[i].proposal);
    }
    forall b ensures OutflowSum(t.entries, b) == -PaidSum(t, t.settlements, b, false) {
      OutflowSumAppends(s.entries, e, b);
      PaidSumFrame(s, t, s.settlements, b, false);
    }
  }

  lemma RecordSourceKeeps(env: Platform, s: State, building: nat, kind: EntryType, amount: int, evidence: nat, key: string)
    requires Inv(env, s) && RecordFundSource(s, building, kind, amount, evidence, key).Ok?
    ensures Inv(env, RecordFundSource(s, building, kind, amount, evidence, key).value)
  {
    var t := RecordFundSource(s, building, kind, amount, evidence, key).value;
    SourceMoneyKept(s, t, t.entries[|s.entries|]);
    SourceRowsKept(env, s, t);
  }

  /** Rows and audit do not depend on the fund entries. */
  lemma SourceRowsKept(env: Platform, s: State, t: State)
    requires RowsOk(env, s) && AuditOk(s) && t == s.(entries := t.entries)
    ensures RowsOk(env, t) && AuditOk(t)
  {
    hide VersionOk, ShowsEvidence, SettlementAnchored;
    forall pid | pid in t.proposals ensures ProposalOk(env, t, pid, t.proposals[pid]) {
      ProposalFrame(env, s, t, pid, s.proposals[pid], t.proposals[pid]);
    }
    forall i | 0 <= i < |t.settlements| ensures SettlementOk(env, t, i) {
      assert SettlementOk(env, s, i);
      SettlementFrame(env, s, t, i);
    }
    forall i | 0 <= i < |t.settlements| ensures LedgerOk(t, i) { assert LedgerOk(s, i); }
  }

  lemma {:induction false} OutflowSumIgnoresVerification(a: seq<FundEntry>, b: seq<FundEntry>, building: nat)
    requires |a| == |b| && forall i :: 0 <= i < |a| ==> b[i] == a[i] || b[i] == a[i].(verified := true)
    ensures OutflowSum(b, building) == OutflowSum(a, building)
  {
    if a != [] { OutflowSumIgnoresVerification(a[..|a| - 1], b[..|b| - 1], building); }
  }

  lemma VerificationMoneyKept(s: State, t: State)
    requires MoneyOk(s) && t == s.(entries := t.entries) && |t.entries| == |s.entries|
    requires forall i :: 0 <= i < |s.entries| ==>
               t.entries[i] == s.entries[i] || t.entries[i] == s.entries[i].(verified := true)
    ensures MoneyOk(t)
  {
    assert forall i :: 0 <= i < |s.entries| ==>
      t.entries[i].key == s.entries[i].key && t.entries[i].kind == s.entries[i].kind && t.entries[i].proposal == s.entries[i].proposal;
    forall i | 0 <= i < |s.settlements| ensures KeyUsed(t.entries, OutflowKey(s.settlements[i].proposal)) {
      assert KeyUsed(s.entries, OutflowKey(s.settlements[i].proposal));
      var j :| 0 <= j < |s.entries| && s.entries[j].key == OutflowKey(s.settlements[i].proposal);
      assert t.entries[j].key == s.entries[j].key;
    }
    forall b ensures OutflowSum(t.entries, b) == -PaidSum(t, t.settlements, b, false) {
      OutflowSumIgnoresVerification(s.entries, t.entries, b);
      PaidSumFrame(s, t, s.settlements, b, false);
    }
  }

  lemma VerifySourceKeeps(env: Platform, s: State, entry: nat)
    requires Inv(env, s) && VerifyFundSource(s, entry).Ok?
    ensures Inv(env, VerifyFundSource(s, entry).value)
  {
    var t := VerifyFundSource(s, entry).value;
    SourceRowsKept(env, s, t);
    VerificationMoneyKept(s, t);
  }

  // ---------------------------------------------------------------- small steps

  /** Rows that are no part of the spending record may change freely. */
  lemma QuietKeeps(env: Platform, s: State, t: State)
    requires Inv(env, s) && Grows(s, t)
    requires t == s.(now := t.now, documents := t.documents, cases := t.cases)
    ensures Inv(env, t)
  {
    CalmStepKeeps(env, s, t);
  }

  /** Only a completed proposal can have been settled. */
  lemma UnsettledUnlessCompleted(env: Platform, s: State, pid: nat)
    requires RowsOk(env, s) && (pid in s.proposals ==> s.proposals[pid].status !in {Completed, Closed})
    ensures SettlementOf(s, pid).None?
  {
    forall i | 0 <= i < |s.settlements| ensures s.settlements[i].proposal != pid {
      assert SettlementOk(env, s, i);
    }
  }

  /** Completing or closing proposals is calm. */
  lemma ProgressKeeps(env: Platform, s: State, t: State)
    requires Inv(env, s)
    requires t == s.(cases := t.cases, proposals := t.proposals) && t.proposals.Keys == s.proposals.Keys
    requires forall pid :: pid in s.proposals ==> Progressed(s.proposals[pid], t.proposals[pid])
    ensures Inv(env, t)
  {
    hide RowsOk, AuditOk, MoneyOk;
    forall pid | pid in s.proposals
      ensures Restyled(s.proposals[pid], t.proposals[pid], SettlementOf(s, pid).Some?)
    {
      if s.proposals[pid].status == InProgress { UnsettledUnlessCompleted(env, s, pid); }
    }
    CalmStepKeeps(env, s, t);
  }

  ghost predicate Progressed(p: Proposal, q: Proposal) {
    || q == p
    || (q == p.(status := q.status, completedAt := q.completedAt, closedAt := q.closedAt)
        && p.status in {InProgress, Completed} && q.status in {Completed, Closed})
  }

  lemma CompleteCaseKeeps(env: Platform, s: State, caseId: nat, cause: string, result: string)
    requires Inv(env, s) && CompleteCaseWork(s, caseId, cause, result).Ok?
    ensures Inv(env, CompleteCaseWork(s, caseId, cause, result).value)
  {
    ProgressKeeps(env, s, CompleteCaseWork(s, caseId, cause, result).value);
  }

  lemma CompleteProposalKeeps(env: Platform, s: State, pid: nat, cause: string, result: string)
    requires Inv(env, s) && CompleteProposalWork(s, pid, cause, result).Ok?
    ensures Inv(env, CompleteProposalWork(s, pid, cause, result).value)
  {
    ProgressKeeps(env, s, CompleteProposalWork(s, pid, cause, result).value);
  }

  lemma CloseKeeps(env: Platform, s: State)
    requires Inv(env, s)
    ensures Inv(env, CloseExpired(s))
  {
    ProgressKeeps(env, s, CloseExpired(s));
  }

  // ---------------------------------------------------------------- one proposal

  /** One proposal row is new or changed in place; every other row is as before. */
  lemma OneProposalKeepsRows(env: Platform, s: State, t: State, pid: nat)
    requires RowsOk(env, s) && pid in t.proposals
    requires t == s.(proposals := s.proposals[pid := t.proposals[pid]], audit := t.audit)
    requires ProposalOk(env, s, pid, t.proposals[pid])
    requires SettlementOf(s, pid).None?
    requires if pid in s.proposals
             then Keeps(s.proposals[pid], t.proposals[pid]) && t.proposals[pid].versions == s.proposals[pid].versions
             else t.proposals[pid].versions == [] && FreshCase(s, t.proposals[pid])
    ensures RowsOk(env, t)
  {
    hide VersionOk, ShowsEvidence, SettlementAnchored;
    forall q | q in t.proposals ensures ProposalOk(env, t, q, t.proposals[q]) {
      if q == pid {
        ProposalFrame(env, s, t, pid, t.proposals[pid], t.proposals[pid]);
      } else {
        ProposalFrame(env, s, t, q, s.proposals[q], t.proposals[q]);
      }
    }
    OneProposalKeepsSettlements(env, s, t, pid);
  }

  ghost predicate FreshCase(s: State, p: Proposal) {
    p.caseId.Some? ==> forall q :: q in s.proposals ==> s.proposals[q].caseId != p.caseId
  }

  lemma OneProposalKeepsSettlements(env: Platform, s: State, t: State, pid: nat)
    requires RowsOk(env, s) && pid in t.proposals && SettlementOf(s, pid).None?
    requires t == s.(proposals := s.proposals[pid := t.proposals[pid]], audit := t.audit)
    ensures forall i :: 0 <= i < |t.settlements| ==> SettlementOk(env, t, i) && LedgerOk(t, i)
  {
    hide VersionOk, ShowsEvidence, SettlementAnchored;
    forall i | 0 <= i < |t.settlements| ensures SettlementOk(env, t, i) && LedgerOk(t, i) {
      assert SettlementOk(env, s, i) && LedgerOk(s, i);
      SettlementFrame(env, s, t, i);
    }
  }

  lemma SettledAreProposals(env: Platform, s: State)
    requires RowsOk(env, s)
    ensures forall i :: 0 <= i < |s.settlements| ==> s.settlements[i].proposal in s.proposals
  {
    forall i | 0 <= i < |s.settlements| ensures s.settlements[i].proposal in s.proposals { assert SettlementOk(env, s, i); }
  }

  lemma CreationKeepsRows(env: Platform, s: State, t: State, pid: nat)
    requires RowsOk(env, s) && pid !in s.proposals && pid in t.proposals
    requires t == s.(proposals := s.proposals[pid := t.proposals[pid]])
    requires var p := t.proposals[pid]; p.status == Draft && p.versions == [] && p.current == None && FreshCase(s, p)
    ensures RowsOk(env, t)
  {
    UnsettledUnlessCompleted(env, s, pid);
    OneProposalKeepsRows(env, s, t, pid);
  }

  lemma CreationKeepsAudit(s: State, t: State, pid: nat)
    requires AuditOk(s) && pid !in s.proposals && pid in t.proposals
    requires t == s.(proposals := s.proposals[pid := t.proposals[pid]]) && t.proposals[pid].status == Draft
    ensures AuditOk(t)
  {
  }

  lemma CreationKeeps(env: Platform, s: State, pid: nat, p: Proposal)
    requires Inv(env, s) && pid !in s.proposals
    requires p.status == Draft && p.versions == [] && p.current == None && FreshCase(s, p)
    ensures Inv(env, s.(proposals := s.proposals[pid := p]))
  {
    var t := s.(proposals := s.proposals[pid := p]);
    CreationKeepsRows(env, s, t, pid);
    CreationKeepsAudit(s, t, pid);
    SettledAreProposals(env, s);
    PaidFrame(s, t);
  }

  /** One audit row moves its proposal to the phase its columns now say. */
  lemma AuditedStep(s: State, t: State, row: Audit)
    requires AuditOk(s) && t.audit == s.audit + [row] && t.proposals.Keys == s.proposals.Keys
    requires row.proposal in s.proposals
    requires forall q :: q in s.proposals && q != row.proposal ==>
               t.proposals[q] == s.proposals[q] && SettlementOf(t, q).Some? == SettlementOf(s, q).Some?
    requires Advance(PhaseOf(s.proposals[row.proposal], SettlementOf(s, row.proposal).Some?), row)
          == Some(PhaseOf(t.proposals[row.proposal], SettlementOf(t, row.proposal).Some?))
    ensures AuditOk(t)
  {
    TrailGrows(s.audit, row);
  }

  lemma DecisionKeepsRows(env: Platform, s: State, t: State, pid: nat)
    requires RowsOk(env, s) && pid in s.proposals && pid in t.proposals
    requires t == s.(proposals := s.proposals[pid := t.proposals[pid]], audit := t.audit)
    requires s.proposals[pid].status == Published && t.proposals[pid].status in {InProgress, NotProceeding}
    requires t.proposals[pid] == s.proposals[pid].(status := t.proposals[pid].status, decidedAt := t.proposals[pid].decidedAt,
                                                   closedAt := t.proposals[pid].closedAt)
    ensures RowsOk(env, t)
  {
    assert ProposalOk(env, s, pid, s.proposals[pid]);
    UnsettledUnlessCompleted(env, s, pid);
    ProposalFrame(env, s, s, pid, s.proposals[pid], t.proposals[pid]);
    OneProposalKeepsRows(env, s, t, pid);
  }

  lemma DecisionKeepsAudit(s: State, t: State, pid: nat, proceed: bool)
    requires AuditOk(s) && pid in s.proposals && pid in t.proposals
    requires t == s.(proposals := s.proposals[pid := t.proposals[pid]], audit := s.audit + [Decided(pid, proceed)])
    requires s.proposals[pid].status == Published
    requires t.proposals[pid].status == (if proceed then InProgress else NotProceeding)
    requires t.proposals[pid].versions == s.proposals[pid].versions
    ensures AuditOk(t)
  {
    AuditedStep(s, t, Decided(pid, proceed));
  }

  lemma DecisionKeeps(env: Platform, s: State, pid: nat, proceed: bool)
    requires Inv(env, s) && DecideProposal(s, pid, proceed).Ok?
    ensures Inv(env, DecideProposal(s, pid, proceed).value)
  {
    hide RowsOk, AuditOk, MoneyOk;
    var t := DecideProposal(s, pid, proceed).value;
    DecisionKeepsRows(env, s, t, pid);
    DecisionKeepsAudit(s, t, pid, proceed);
    PaidFrame(s, t);
  }
}
