/** What LamTo promises about published spending, for every run from the empty database. */
module SpendingTheorems {
  import opened Wrappers
  import opened CanonicalValues
  import opened CanonicalJson
  import opened EvidencePayloads
  import opened SpendingState
  import opened SpendingInvariants
  import opened SpendingSafety
  import opened SpendingEvidence
  import opened SpendingRuns
  import Calendar
  import Integrity

  // ---------------------------------------------------------------- runs compose

  lemma {:induction false} RunComposes(env: Platform, s: State, first: seq<Step>, later: seq<Step>)
    ensures Run(env, s, first + later) == Run(env, Run(env, s, first), later)
  {
    if later == [] {
      assert first + later == first;
    } else {
      var n := |later| - 1;
      RunComposes(env, s, first, later[..n]);
      assert (first + later)[..|first + later| - 1] == first + later[..n];
    }
  }

  /** A reachable state, a later one, and both invariants. */
  lemma LaterState(env: Platform, first: seq<Step>, later: seq<Step>)
    requires PlatformLaws(env)
    ensures var s := Run(env, INITIAL, first);
            var t := Run(env, s, later);
            Inv(env, s) && Inv(env, t) && Extends(s, t)
  {
    RunKeeps(env, first);
    RunKeeps(env, first + later);
    RunComposes(env, INITIAL, first, later);
    RunExtends(env, Run(env, INITIAL, first), later);
  }

  // ---------------------------------------------------------------- tamper evidence

  /** The check of version k of a proposal, against the rows as they are now. */
  ghost function CheckVersion(env: Platform, s: State, pid: nat, k: nat): Result<Integrity.LocalCheck, CanonicalValues.Error>
    requires pid in s.proposals && k < |s.proposals[pid].versions| && s.proposals[pid].versions[k].eventId in s.events
  {
    var p := s.proposals[pid];
    var e := s.events[p.versions[k].eventId];
    Integrity.CheckLocal(env, e.payload, e.payloadHash,
                         Some(Integrity.RebuiltVersion(env, FactsOf(s, pid, p, p.versions[k]), CaseOf(s, p), e.payload)))
  }

  ghost function CheckSettlement(env: Platform, s: State, i: nat): Result<Integrity.LocalCheck, CanonicalValues.Error>
    requires i < |s.settlements| && s.settlements[i].proposal in s.proposals && s.settlements[i].eventId in s.events
  {
    var e := s.events[s.settlements[i].eventId];
    Integrity.CheckLocal(env, e.payload, e.payloadHash, Some(SettlementPayload(SettlementFactsOf(s, i))))
  }

  /** In every reachable state every published version checks out, re-triaged case or not. */
  lemma EveryVersionVerifies(env: Platform, steps: seq<Step>, pid: nat, k: nat)
    requires PlatformLaws(env)
    requires var s := Run(env, INITIAL, steps); pid in s.proposals && k < |s.proposals[pid].versions|
    ensures var s := Run(env, INITIAL, steps);
            && s.proposals[pid].versions[k].eventId in s.events
            && Integrity.Verified(CheckVersion(env, s, pid, k))
  {
    var s := Run(env, INITIAL, steps);
    RunKeeps(env, steps);
    var p := s.proposals[pid];
    assert ProposalOk(env, s, pid, p) && VersionOk(env, s, pid, p, k);
    var v := p.versions[k];
    var facts := FactsOf(s, pid, p, v);
    var c0 :| Anchors(env, s.events[v.eventId], VersionPayload(env, facts, c0));
    Integrity.UneditedVersionVerifies(env, facts, c0, CaseOf(s, p));
  }

  lemma EverySettlementVerifies(env: Platform, steps: seq<Step>, i: nat)
    requires PlatformLaws(env) && i < |Run(env, INITIAL, steps).settlements|
    ensures var s := Run(env, INITIAL, steps);
            && s.settlements[i].proposal in s.proposals && s.settlements[i].eventId in s.events
            && Integrity.Verified(CheckSettlement(env, s, i))
  {
    var s := Run(env, INITIAL, steps);
    RunKeeps(env, steps);
    assert SettlementOk(env, s, i);
    Integrity.UneditedSettlementVerifies(env, SettlementFactsOf(s, i));
  }

  /** No SHA-256 collision among the three pairs a check compares. */
  ghost predicate NoCollision(env: Platform, f0: VersionFacts, c0: Option<CaseFacts>, f: VersionFacts, rebuilt: Value, stored: Value) {
    && !Collision(env.nfc, env.sha, stored, VersionPayload(env, f0, c0))
    && !Collision(env.nfc, env.sha, rebuilt, VersionPayload(env, f0, c0))
    && !Collision(env.nfc, env.sha, Snapshot(f), Snapshot(f0))
  }

  /**
   Whatever anyone writes over a version's rows, its case and its stored payload: the check
   of its event still says VERIFIED exactly when the payload is intact and every column is
   what was published, up to NFC.
   */
  lemma EditedVersionIsDetected(env: Platform, steps: seq<Step>, pid: nat, k: nat,
                                edited: VersionFacts, c: Option<CaseFacts>, stored: Value)
    requires PlatformLaws(env) && Integrity.DateInRange(edited.start) && Integrity.DateInRange(edited.end)
    requires var s := Run(env, INITIAL, steps); pid in s.proposals && k < |s.proposals[pid].versions|
    ensures var s := Run(env, INITIAL, steps);
            var p := s.proposals[pid];
            var v := p.versions[k];
            var facts := FactsOf(s, pid, p, v);
            var rebuilt := Integrity.RebuiltVersion(env, edited, c, stored);
            && v.eventId in s.events
            && exists c0 :: Anchors(env, s.events[v.eventId], VersionPayload(env, facts, c0)) &&
                 (NoCollision(env, facts, c0, edited, rebuilt, stored) ==>
                    (Integrity.Verified(Integrity.CheckLocal(env, stored, s.events[v.eventId].payloadHash, Some(rebuilt)))
                     <==> Integrity.StoredIntact(env, stored, VersionPayload(env, facts, c0))
                          && Integrity.SameVersionFacts(env, edited, facts)))
  {
    var s := Run(env, INITIAL, steps);
    RunKeeps(env, steps);
    var p := s.proposals[pid];
    assert ProposalOk(env, s, pid, p) && VersionOk(env, s, pid, p, k);
    var facts := FactsOf(s, pid, p, p.versions[k]);
    var c0 :| Anchors(env, s.events[p.versions[k].eventId], VersionPayload(env, facts, c0));
    if NoCollision(env, facts, c0, edited, Integrity.RebuiltVersion(env, edited, c, stored), stored) {
      Integrity.VersionTamperEvidence(env, facts, c0, edited, c, stored);
    }
  }

  /** And for a Settlement: amount, version number, transfer hash and moment, whatever is written over row and payload. */
  lemma EditedSettlementIsDetected(env: Platform, steps: seq<Step>, i: nat, edited: SettlementFacts, stored: Value)
    requires PlatformLaws(env) && i < |Run(env, INITIAL, steps).settlements|
    requires Calendar.Datable(edited.settledAt) && Calendar.Datable(Run(env, INITIAL, steps).settlements[i].settledAt)
    ensures var s := Run(env, INITIAL, steps);
            && s.settlements[i].proposal in s.proposals && s.settlements[i].eventId in s.events
            && var facts, hash := SettlementFactsOf(s, i), s.events[s.settlements[i].eventId].payloadHash;
               && !Collision(env.nfc, env.sha, stored, SettlementPayload(facts))
               && !Collision(env.nfc, env.sha, SettlementPayload(edited), SettlementPayload(facts)) ==>
                 (Integrity.Verified(Integrity.CheckLocal(env, stored, hash, Some(SettlementPayload(edited))))
                  <==> && CanonicalBytes(env.nfc, stored).Ok?
                       && SameContent(Content(env.nfc, stored), Content(env.nfc, SettlementPayload(facts)))
                       && Integrity.SameSettlementFacts(env, edited, facts))
  {
    var s := Run(env, INITIAL, steps);
    RunKeeps(env, steps);
    hide Run, Inv, Calendar.Datable, Integrity.CheckLocal, Integrity.SameSettlementFacts, SettlementPayload, CanonicalBytes, Content, SameContent;
    SettlementStands(env, s, i);
    var facts := SettlementFactsOf(s, i);
    if !Collision(env.nfc, env.sha, stored, SettlementPayload(facts))
       && !Collision(env.nfc, env.sha, SettlementPayload(edited), SettlementPayload(facts)) {
      Integrity.SettlementTamperEvidence(env, facts, edited, stored);
    }
  }

  lemma SettlementStands(env: Platform, s: State, i: nat)
    requires Inv(env, s) && i < |s.settlements|
    ensures s.settlements[i].proposal in s.proposals && SettlementAnchored(env, s, i)
  {
    assert SettlementOk(env, s, i);
  }

  // ---------------------------------------------------------------- numbering and hash chain

  ghost predicate ChainLink(s: State, pid: nat, k: nat)
    requires pid in s.proposals && k < |s.proposals[pid].versions|
  {
    var p := s.proposals[pid];
    && p.versions[k].number == k + 1
    && p.current == Some(|p.versions| - 1)
    && p.versions[k].eventId in s.events
    && (k == 0 ==> s.events[p.versions[k].eventId].previousHash == ZERO_HASH)
    && (k > 0 ==> p.versions[k - 1].eventId in s.events
                  && s.events[p.versions[k].eventId].previousHash == "0x" + s.events[p.versions[k - 1].eventId].payloadHash)
  }

  lemma LinkedVersion(env: Platform, s: State, pid: nat, k: nat)
    requires pid in s.proposals && k < |s.proposals[pid].versions| && ProposalOk(env, s, pid, s.proposals[pid])
    ensures ChainLink(s, pid, k)
  {
    assert VersionOk(env, s, pid, s.proposals[pid], k);
    if k > 0 { assert VersionOk(env, s, pid, s.proposals[pid], k - 1); }
  }

  /**
   Versions are numbered 1..n, the current one is the nth, each event links to the hash of the
   one before it (the first to the zero hash), and no two versions share an event.
   */
  lemma HashChain(env: Platform, steps: seq<Step>, pid: nat, k: nat)
    requires PlatformLaws(env)
    requires var s := Run(env, INITIAL, steps); pid in s.proposals && k < |s.proposals[pid].versions|
    ensures var s := Run(env, INITIAL, steps); ChainLink(s, pid, k) && EventsUnshared(s)
  {
    var s := Run(env, INITIAL, steps);
    RunKeeps(env, steps);
    LinkedVersion(env, s, pid, k);
  }

  /** A link once written is never altered: later states hold the same versions and the same events. */
  lemma ChainIsFrozen(env: Platform, first: seq<Step>, later: seq<Step>, pid: nat, k: nat)
    requires PlatformLaws(env)
    requires var s := Run(env, INITIAL, first); pid in s.proposals && k < |s.proposals[pid].versions|
    ensures var s := Run(env, INITIAL, first);
            var t := Run(env, s, later);
            && pid in t.proposals && k < |t.proposals[pid].versions|
            && t.proposals[pid].versions[k] == s.proposals[pid].versions[k]
            && s.proposals[pid].versions[k].eventId in s.events && s.proposals[pid].versions[k].eventId in t.events
            && t.events[s.proposals[pid].versions[k].eventId] == s.events[s.proposals[pid].versions[k].eventId]
  {
    var s := Run(env, INITIAL, first);
    LaterState(env, first, later);
    assert ProposalOk(env, s, pid, s.proposals[pid]) && VersionOk(env, s, pid, s.proposals[pid], k);
    assert Evolves(s.proposals[pid], Run(env, s, later).proposals[pid]);
  }

  // ---------------------------------------------------------------- what is paid is what was decided

  /** The last audit rows of a proposal that reached a phase. */
  lemma {:induction false} TrailEnds(trail: seq<Audit>)
    requires Replay(trail).Some?
    ensures var n := |trail|;
            match Replay(trail).value
            case Fresh => true
            case Awaiting(m) => n >= 1 && trail[n - 1].VersionPublished? && trail[n - 1].number == m
            case Proceeding(m) =>
              && n >= 2 && trail[n - 1].Decided? && trail[n - 1].proceed
              && trail[n - 2].VersionPublished? && trail[n - 2].number == m
            case Stopped(m) =>
              && n >= 2 && trail[n - 1].Decided? && !trail[n - 1].proceed
              && trail[n - 2].VersionPublished? && trail[n - 2].number == m
            case Paid(m) =>
              && n >= 3 && trail[n - 1].Settled? && trail[n - 2].Decided? && trail[n - 2].proceed
              && trail[n - 3].VersionPublished? && trail[n - 3].number == m
  {
    if trail != [] {
      var n := |trail| - 1;
      TrailEnds(trail[..n]);
    }
  }

  lemma {:induction false} TrailIsOwn(audit: seq<Audit>, pid: nat)
    ensures forall i :: 0 <= i < |Trail(audit, pid)| ==> Trail(audit, pid)[i].proposal == pid
  {
    if audit != [] { TrailIsOwn(audit[..|audit| - 1], pid); }
  }

  /** Settlement i paid the current version's amount, links to its hash, and followed a Proceed decision on it. */
  ghost predicate PaidWhatWasDecided(t: State, i: nat)
    requires i < |t.settlements|
  {
    var row := t.settlements[i];
    && row.proposal in t.proposals
    && var q := t.proposals[row.proposal];
       var n := |q.versions|;
       && q.status in {Completed, Closed} && n > 0
       && q.current == Some(n - 1)
       && row.amount == q.versions[n - 1].amount
       && row.eventId in t.events && q.versions[n - 1].eventId in t.events
       && t.events[row.eventId].previousHash == "0x" + t.events[q.versions[n - 1].eventId].payloadHash
       && var trail := Trail(t.audit, row.proposal);
          && |trail| >= 3
          && trail[|trail| - 3..] == [VersionPublished(row.proposal, n), Decided(row.proposal, true), Settled(row.proposal)]
  }

  lemma SettledTrail(t: State, pid: nat)
    requires AuditOk(t) && pid in t.proposals
    requires t.proposals[pid].status in {Completed, Closed} && SettlementOf(t, pid).Some?
    ensures var trail := Trail(t.audit, pid);
            && |trail| >= 3
            && trail[|trail| - 3..] == [VersionPublished(pid, |t.proposals[pid].versions|), Decided(pid, true), Settled(pid)]
  {
    hide Replay;
    TrailIsOwn(t.audit, pid);
    PaidTrailEnds(Trail(t.audit, pid), pid, |t.proposals[pid].versions|);
  }

  lemma PaidTrailEnds(trail: seq<Audit>, pid: nat, n: nat)
    requires Replay(trail) == Some(Paid(n))
    requires forall i :: 0 <= i < |trail| ==> trail[i].proposal == pid
    ensures |trail| >= 3 && trail[|trail| - 3..] == [VersionPublished(pid, n), Decided(pid, true), Settled(pid)]
  {
    hide Replay;
    TrailEnds(trail);
    var k := |trail| - 3;
    assert trail[k..] == [trail[k], trail[k + 1], trail[k + 2]];
  }

  lemma PaidRow(env: Platform, t: State, i: nat)
    requires i < |t.settlements| && SettlementOk(env, t, i) && AuditOk(t)
    requires ProposalOk(env, t, t.settlements[i].proposal, t.proposals[t.settlements[i].proposal])
    ensures PaidWhatWasDecided(t, i)
  {
    LinkedVersion(env, t, t.settlements[i].proposal, |t.proposals[t.settlements[i].proposal].versions| - 1);
    HasSettlement(t, i);
    SettledTrail(t, t.settlements[i].proposal);
  }

  lemma HasSettlement(t: State, i: nat)
    requires i < |t.settlements|
    ensures SettlementOf(t, t.settlements[i].proposal).Some?
  {
  }

  /**
   From the moment a settlement exists and forever after, it paid what was decided: the amount of the
   proposal's current version, which was the last one published and had a Proceed decision after it.
   */
  lemma PaidAsDecided(env: Platform, first: seq<Step>, later: seq<Step>, i: nat)
    requires PlatformLaws(env) && i < |Run(env, INITIAL, first).settlements|
    ensures var s := Run(env, INITIAL, first);
            var t := Run(env, s, later);
            && i < |t.settlements| && t.settlements[i] == s.settlements[i]
            && PaidWhatWasDecided(s, i) && PaidWhatWasDecided(t, i)
            && s.settlements[i].proposal in s.proposals && s.settlements[i].proposal in t.proposals
            && t.proposals[s.settlements[i].proposal].versions == s.proposals[s.settlements[i].proposal].versions
  {
    var s := Run(env, INITIAL, first);
    var t := Run(env, s, later);
    LaterState(env, first, later);
    var pid := s.settlements[i].proposal;
    assert SettlementOk(env, s, i) && SettlementOk(env, t, i);
    PaidRow(env, s, i);
    PaidRow(env, t, i);
    assert Evolves(s.proposals[pid], t.proposals[pid]);
  }

  /** A proposal decided as not proceeding is never touched again: no version, no completion, no settlement. */
  lemma NotProceedingIsFinal(env: Platform, first: seq<Step>, later: seq<Step>, pid: nat)
    requires PlatformLaws(env)
    requires var s := Run(env, INITIAL, first); pid in s.proposals && s.proposals[pid].status == NotProceeding
    ensures var s := Run(env, INITIAL, first);
            var t := Run(env, s, later);
            && pid in t.proposals && t.proposals[pid] == s.proposals[pid]
            && SettlementOf(t, pid).None?
            && Trail(t.audit, pid) == Trail(s.audit, pid)
            && forall i :: 0 <= i < |t.entries| && t.entries[i].kind == Outflow ==> t.entries[i].proposal != Some(pid)
  {
    var s := Run(env, INITIAL, first);
    var t := Run(env, s, later);
    LaterState(env, first, later);
    assert Evolves(s.proposals[pid], t.proposals[pid]);
    UnsettledUnlessCompleted(env, t, pid);
    TrailPrefix(s.audit, t.audit, pid);
    StoppedTrailEnds(Trail(s.audit, pid), Trail(t.audit, pid), |t.proposals[pid].versions|);
  }

  lemma {:induction false} TrailPrefix(a: seq<Audit>, b: seq<Audit>, pid: nat)
    requires a <= b
    ensures Trail(a, pid) <= Trail(b, pid)
  {
    if |a| < |b| {
      TrailPrefix(a, b[..|b| - 1], pid);
    } else {
      assert a == b;
    }
  }

  /** A trail that has stopped admits no further row. */
  lemma {:induction false} StoppedTrailEnds(a: seq<Audit>, b: seq<Audit>, n: nat)
    requires a <= b && Replay(a) == Some(Stopped(n)) && Replay(b).Some?
    ensures a == b
  {
    if |a| < |b| {
      StoppedTrailEnds(a, b[..|b| - 1], n);
      assert false;
    }
  }

  // ---------------------------------------------------------------- conservation of money

  /** All settlement amounts of one building. */
  ghost function SettledSum(proposals: map<nat, Proposal>, rows: seq<Settlement>, building: nat): int {
    if rows == [] then 0
    else
      var row := rows[|rows| - 1];
      SettledSum(proposals, rows[..|rows| - 1], building)
      + (if BuildingOf(proposals, row.proposal) == Some(building) then row.amount else 0)
  }

  lemma {:induction false} PaidSumsSplit(s: State, rows: seq<Settlement>, b: nat)
    ensures PaidSum(s, rows, b, false) + PaidSum(s, rows, b, true) == SettledSum(s.proposals, rows, b)
  {
    if rows != [] { PaidSumsSplit(s, rows[..|rows| - 1], b); }
  }

  /** With every outflow posted, the balance is the verified sources plus the (negative) outflows. */
  lemma {:induction false} BalanceSplits(entries: seq<FundEntry>, ledger: seq<LedgerEntry>, b: nat)
    requires forall i :: 0 <= i < |entries| && entries[i].kind == Outflow ==>
               entries[i].proposal.Some? && InLedger(ledger, entries[i].proposal.value)
    ensures FundBalance(entries, ledger, b) == VerifiedSources(entries, b) + OutflowSum(entries, b)
  {
    if entries != [] { BalanceSplits(entries[..|entries| - 1], ledger, b); }
  }

  lemma OutflowsArePosted(env: Platform, s: State)
    requires Inv(env, s)
    ensures forall i :: 0 <= i < |s.entries| && s.entries[i].kind == Outflow ==>
              s.entries[i].proposal.Some? && InLedger(s.ledger, s.entries[i].proposal.value)
  {
    forall i | 0 <= i < |s.entries| && s.entries[i].kind == Outflow
      ensures s.entries[i].proposal.Some? && InLedger(s.ledger, s.entries[i].proposal.value)
    {
      assert Backed(s, s.entries[i]);
      var j :| 0 <= j < |s.settlements| && s.settlements[j].proposal == s.entries[i].proposal.value
               && s.entries[i].amount == -s.settlements[j].amount;
      assert LedgerOk(s, j);
    }
  }

  /** Settlement amounts are positive, so squatted ones show up in the sum. */
  lemma {:induction false} SquattedSumPositive(s: State, rows: seq<Settlement>, b: nat)
    requires forall i :: 0 <= i < |rows| ==> rows[i].amount > 0
    ensures PaidSum(s, rows, b, true) >= 0
    ensures PaidSum(s, rows, b, true) == 0 <==>
            forall i :: 0 <= i < |rows| && BuildingOf(s.proposals, rows[i].proposal) == Some(b) ==> !Squatted(s.entries, rows[i].proposal)
  {
    if rows != [] {
      var init := rows[..|rows| - 1];
      SquattedSumPositive(s, init, b);
      assert forall i :: 0 <= i < |init| ==> rows[i] == init[i];
    }
  }

  lemma SettlementsArePositive(env: Platform, s: State)
    requires RowsOk(env, s)
    ensures forall i :: 0 <= i < |s.settlements| ==> s.settlements[i].amount > 0
  {
    forall i | 0 <= i < |s.settlements| ensures s.settlements[i].amount > 0 {
      assert SettlementOk(env, s, i);
      PositiveSettlement(env, s, i);
    }
  }

  lemma PositiveSettlement(env: Platform, s: State, i: nat)
    requires i < |s.settlements| && SettlementOk(env, s, i)
    requires ProposalOk(env, s, s.settlements[i].proposal, s.proposals[s.settlements[i].proposal])
    ensures s.settlements[i].amount > 0
  {
    hide LinkBefore, VersionAnchored, SettlementAnchored;
    var p := s.proposals[s.settlements[i].proposal];
    assert VersionOk(env, s, s.settlements[i].proposal, p, |p.versions| - 1);
  }

  /**
   Conservation: in every reachable state a building's balance is its verified sources minus the
   settlements whose outflow was posted, and it is verified sources minus ALL its settlements
   exactly when no fund source was recorded under the outflow key of one of its settled proposals.
   */
  lemma Conservation(env: Platform, steps: seq<Step>, b: nat)
    requires PlatformLaws(env)
    ensures var s := Run(env, INITIAL, steps);
            && FundBalance(s.entries, s.ledger, b) == VerifiedSources(s.entries, b) - PaidSum(s, s.settlements, b, false)
            && (FundBalance(s.entries, s.ledger, b) == VerifiedSources(s.entries, b) - SettledSum(s.proposals, s.settlements, b)
                <==> forall i :: 0 <= i < |s.settlements| && BuildingOf(s.proposals, s.settlements[i].proposal) == Some(b) ==>
                       !Squatted(s.entries, s.settlements[i].proposal))
  {
    var s := Run(env, INITIAL, steps);
    RunKeeps(env, steps);
    OutflowsArePosted(env, s);
    BalanceSplits(s.entries, s.ledger, b);
    PaidSumsSplit(s, s.settlements, b);
    SettlementsArePositive(env, s);
    SquattedSumPositive(s, s.settlements, b);
  }

  /** Settlement i has ledger entry i and no other, and a proposal has at most one settlement. */
  ghost predicate LedgerMatches(s: State) {
    && |s.ledger| == |s.settlements|
    && (forall i :: 0 <= i < |s.settlements| ==>
          && s.ledger[i].settlement == i && s.ledger[i].proposal == s.settlements[i].proposal
          && s.ledger[i].actualCost == s.settlements[i].amount)
    && (forall i, j :: 0 <= i < j < |s.settlements| ==> s.settlements[i].proposal != s.settlements[j].proposal)
  }

  /** Entry j is the outflow of settlement i. */
  ghost predicate OutflowFor(s: State, i: nat, j: nat)
    requires i < |s.settlements| && j < |s.entries|
  {
    && s.entries[j].kind == Outflow && s.entries[j].proposal == Some(s.settlements[i].proposal)
    && s.entries[j].amount == -s.settlements[i].amount
    && BuildingOf(s.proposals, s.settlements[i].proposal) == Some(s.entries[j].building)
  }

  ghost predicate OneOutflow(s: State, i: nat)
    requires i < |s.settlements|
  {
    && (exists j :: 0 <= j < |s.entries| && OutflowFor(s, i, j))
    && forall j, k :: 0 <= j < |s.entries| && 0 <= k < |s.entries| && OutflowFor(s, i, j) && OutflowFor(s, i, k) ==> j == k
  }

  /** A settlement whose key was not squatted has its outflow, and only one. */
  lemma HasOneOutflow(s: State, i: nat)
    requires LedgerMatches(s) && MoneyOk(s) && i < |s.settlements|
    requires !Squatted(s.entries, s.settlements[i].proposal)
    ensures OneOutflow(s, i)
  {
    assert KeyUsed(s.entries, OutflowKey(s.settlements[i].proposal));
    var j :| 0 <= j < |s.entries| && s.entries[j].key == OutflowKey(s.settlements[i].proposal);
    assert Backed(s, s.entries[j]);
    OutflowKeyInjective(s.settlements[i].proposal, s.entries[j].proposal.value);
    assert OutflowFor(s, i, j);
    forall j, k | 0 <= j < |s.entries| && 0 <= k < |s.entries| && OutflowFor(s, i, j) && OutflowFor(s, i, k) ensures j == k {
      assert s.entries[j].key == s.entries[k].key;
    }
  }

  ghost predicate PaysSomeSettlement(s: State, j: nat)
    requires j < |s.entries|
  {
    exists i :: 0 <= i < |s.settlements| && OutflowFor(s, i, j)
  }

  /** Every outflow is the outflow of some settlement. */
  lemma OutflowIsSettled(s: State, j: nat)
    requires MoneyOk(s) && j < |s.entries| && s.entries[j].kind == Outflow
    ensures PaysSomeSettlement(s, j)
  {
    assert Backed(s, s.entries[j]);
    var i :| 0 <= i < |s.settlements| && s.settlements[i].proposal == s.entries[j].proposal.value
             && s.entries[j].amount == -s.settlements[i].amount;
    assert OutflowFor(s, i, j);
  }

  /** Settlements, ledger entries and outflows correspond one to one (short of squatted keys). */
  lemma OneToOne(env: Platform, steps: seq<Step>)
    requires PlatformLaws(env)
    ensures var s := Run(env, INITIAL, steps);
            && LedgerMatches(s)
            && (forall j :: 0 <= j < |s.entries| && s.entries[j].kind == Outflow ==> PaysSomeSettlement(s, j))
            && (forall i :: 0 <= i < |s.settlements| && !Squatted(s.entries, s.settlements[i].proposal) ==> OneOutflow(s, i))
  {
    var s := Run(env, INITIAL, steps);
    RunKeeps(env, steps);
    LedgersMatch(env, s);
    forall j | 0 <= j < |s.entries| && s.entries[j].kind == Outflow { OutflowIsSettled(s, j); }
    forall i | 0 <= i < |s.settlements| && !Squatted(s.entries, s.settlements[i].proposal) { HasOneOutflow(s, i); }
  }

  lemma LedgersMatch(env: Platform, s: State)
    requires RowsOk(env, s)
    ensures LedgerMatches(s)
  {
    forall i | 0 <= i < |s.settlements|
      ensures s.ledger[i].settlement == i && s.ledger[i].proposal == s.settlements[i].proposal
              && s.ledger[i].actualCost == s.settlements[i].amount
    {
      assert LedgerOk(s, i);
    }
  }

  // ---------------------------------------------------------------- the deployed service

  /** Every fund source is recorded under its default key, as the fund page does. */
  ghost predicate DefaultKeys(steps: seq<Step>) {
    forall k :: 0 <= k < |steps| && steps[k].RecordSourceStep? ==> steps[k].sourceKey == ""
  }

  /** No source holds a key that looks like an outflow's. */
  ghost predicate SourcesApart(entries: seq<FundEntry>) {
    forall i :: 0 <= i < |entries| && entries[i].kind != Outflow ==> !("OUTFLOW:" <= entries[i].key)
  }

  lemma DefaultKeyApart(kind: EntryType, fund: nat, sha256: string)
    requires kind != Outflow
    ensures !("OUTFLOW:" <= SourceKey(kind, fund, sha256)) && SourceKey(kind, fund, sha256) != ""
  {
    assert SourceKey(kind, fund, sha256)[0] == TypeName(kind)[0] && SourceKey(kind, fund, sha256)[1] == TypeName(kind)[1];
  }

  lemma OutflowKeySpelled(pid: nat)
    ensures "OUTFLOW:" <= OutflowKey(pid)
  {
  }

  lemma RecordingStaysApart(s: State, b: nat, kind: EntryType, amount: int, evidence: nat)
    requires SourcesApart(s.entries) && RecordFundSource(s, b, kind, amount, evidence, "").Ok?
    ensures SourcesApart(RecordFundSource(s, b, kind, amount, evidence, "").value.entries)
  {
    DefaultKeyApart(kind, b, s.documents[evidence].sha256);
  }

  lemma PublicationAddsNoEntry(env: Platform, s: State, t: State, pid: nat, draft: Version, eventId: string)
    requires PublishCommits(env, s, t, pid, draft, eventId)
    ensures t.entries == s.entries
  {
    hide QueueEvent;
    var p := s.proposals[pid];
    QueueGrows(env, s, eventId, VersionEvent, VersionPayload(env, FactsOf(s, pid, p, draft), CaseOf(s, p)), PreviousHash(s, p.versions));
  }

  lemma StepStaysApart(env: Platform, s: State, step: Step)
    requires SourcesApart(s.entries) && (step.RecordSourceStep? ==> step.sourceKey == "")
    ensures SourcesApart(Apply(env, s, step).entries)
  {
    hide PublishVersion, RecordSettlement, CompleteLinked, CloseCases, CloseProposals, RecordFundSource, QueueEvent;
    if Attempt(env, s, step).Ok? {
      match step {
        case PublishStep(pid, input, id) =>
          PublicationCommits(env, s, pid, input, id);
          PublicationAddsNoEntry(env, s, Attempt(env, s, step).value, pid,
                                 NewVersion(s.documents, s.proposals[pid], input, ResolveSchedule(input).value, ""), id);
        case SettleStep(pid, transfer, id) => SettlementCommits(env, s, pid, transfer, id);
        case RecordSourceStep(b, k, a, e, key) => RecordingStaysApart(s, b, k, a, e);
        case _ =>
      }
    }
  }

  lemma {:induction false} RunStaysApart(env: Platform, steps: seq<Step>)
    requires DefaultKeys(steps)
    ensures SourcesApart(Run(env, INITIAL, steps).entries)
  {
    if steps != [] {
      var n := |steps| - 1;
      RunStaysApart(env, steps[..n]);
      StepStaysApart(env, Run(env, INITIAL, steps[..n]), steps[n]);
    }
  }

  lemma NothingSquatted(entries: seq<FundEntry>, pid: nat)
    requires SourcesApart(entries)
    ensures !Squatted(entries, pid)
  {
    OutflowKeySpelled(pid);
  }

  /**
   With default keys the balance of every building in every reachable state is its verified sources minus all its
   settlements, and settlements, ledger entries and outflows correspond one to one.
   */
  lemma DeployedFundIsExact(env: Platform, steps: seq<Step>, b: nat)
    requires PlatformLaws(env) && DefaultKeys(steps)
    ensures var s := Run(env, INITIAL, steps);
            && FundBalance(s.entries, s.ledger, b) == VerifiedSources(s.entries, b) - SettledSum(s.proposals, s.settlements, b)
            && LedgerMatches(s)
            && (forall j :: 0 <= j < |s.entries| && s.entries[j].kind == Outflow ==> PaysSomeSettlement(s, j))
            && (forall i :: 0 <= i < |s.settlements| ==> OneOutflow(s, i))
  {
    hide Run, Inv, LedgerMatches, OneOutflow, PaysSomeSettlement, FundBalance, VerifiedSources, SettledSum, SourcesApart;
    var s := Run(env, INITIAL, steps);
    RunStaysApart(env, steps);
    Conservation(env, steps, b);
    OneToOne(env, steps);
    forall i | 0 <= i < |s.settlements| ensures !Squatted(s.entries, s.settlements[i].proposal) {
      NothingSquatted(s.entries, s.settlements[i].proposal);
    }
  }

  /** What the ledger shows of a settlement: the contractor of the version paid, and the hashes of exactly its documents. */
  lemma LedgerShowsEvidence(env: Platform, steps: seq<Step>, i: nat)
    requires PlatformLaws(env) && i < |Run(env, INITIAL, steps).settlements|
    ensures var s := Run(env, INITIAL, steps);
            && i < |s.ledger| && s.settlements[i].proposal in s.proposals
            && var p := s.proposals[s.settlements[i].proposal];
               && p.versions != []
               && ShowsEvidence(s, s.ledger[i], p.versions[|p.versions| - 1], s.settlements[i].transfer)
  {
    RunKeeps(env, steps);
    assert SettlementOk(env, Run(env, INITIAL, steps), i);
  }
}
