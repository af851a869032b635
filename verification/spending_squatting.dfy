/**
 A fund source recorded under another proposal's outflow key keeps that proposal's payment out of
 the balance: a concrete run, as evidence that the condition of the conservation theorem is needed.
 */
module SpendingSquatting {
  import opened Wrappers
  import opened CanonicalValues
  import opened CanonicalJson
  import opened EvidencePayloads
  import opened SpendingState
  import opened SpendingInvariants
  import opened SpendingSafety
  import opened SpendingEvidence
  import opened SpendingAcceptance
  import opened SpendingTheorems
  import Calendar
  import Integrity
  import PayloadSchema
  import Texts
  import Decimal

  const QUOTATION := Document(1, Quotation, true, "q")
  const PROOF_HASH: string := Decimal.Padded(2, 64)
  const PROOF := Document(1, PaymentProof, true, PROOF_HASH)
  const INPUT := VersionInput(7, "c", "p", "a", None, None, "", [1])
  const SETTLE_ID: string := "0x" + Decimal.Padded(1, 64)
  const SQUATTER := FundEntry(1, Inflow, 5, None, OutflowKey(1), false)

  const PREPARE: seq<Step> := [
    AddDocumentStep(1, QUOTATION), AddDocumentStep(2, PROOF), CreateStandaloneStep(1, 1),
    RecordSourceStep(1, Inflow, 5, 2, OutflowKey(1))]

  ghost predicate Reachable(env: Platform, s: State) {
    exists steps :: s == Run(env, INITIAL, steps)
  }

  lemma ReachableStep(env: Platform, s: State, step: Step, t: State)
    requires Reachable(env, s) && Attempt(env, s, step) == Ok(t)
    ensures Reachable(env, t)
  {
    var steps :| s == Run(env, INITIAL, steps);
    assert (steps + [step])[..|steps|] == steps;
    assert t == Run(env, INITIAL, steps + [step]);
  }

  lemma RunTwo(env: Platform, s: State, a: Step, b: Step)
    ensures Run(env, s, [a, b]) == Apply(env, Apply(env, s, a), b)
  {
    assert [a, b][..1] == [a] && [a][..0] == [];
    assert Run(env, s, [a]) == Apply(env, s, a);
  }

  lemma RunFour(env: Platform, s: State, steps: seq<Step>)
    requires |steps| == 4
    ensures Run(env, s, steps) ==
            Apply(env, Apply(env, Apply(env, Apply(env, s, steps[0]), steps[1]), steps[2]), steps[3])
  {
    RunTwo(env, s, steps[0], steps[1]);
    RunComposes(env, s, steps[..2], steps[2..]);
    assert steps == steps[..2] + steps[2..];
    assert steps[..2] == [steps[0], steps[1]] && steps[2..] == [steps[2], steps[3]];
    RunTwo(env, Run(env, s, steps[..2]), steps[2], steps[3]);
  }

  /** The rows the rest of the run depends on. */
  ghost predicate Prepared(s: State) {
    && s.now == 0 && s.documents == map[1 := QUOTATION, 2 := PROOF]
    && s.settlements == [] && s.ledger == [] && s.entries == [SQUATTER]
  }

  ghost predicate Stage(s: State, status: ProposalStatus) {
    && Prepared(s)
    && 1 in s.proposals
    && var p := s.proposals[1];
       && p.building == 1 && p.caseId == None && p.status == status
       && |p.versions| == 1 && p.current == Some(0) && p.versions[0].amount == 7 && p.versions[0].number == 1
       && p.versions[0].eventId == ZERO_HASH
       && s.events.Keys == {ZERO_HASH}
       && HexText(s.events[ZERO_HASH].payloadHash) && |s.events[ZERO_HASH].payloadHash| == 64
  }

  lemma AfterPreparation(env: Platform)
    ensures var s := Run(env, INITIAL, PREPARE);
            Prepared(s) && s.events == map[] && s.proposals == map[1 := Proposal(1, None, Draft, [], None, None, None, None)]
  {
    RunFour(env, INITIAL, PREPARE);
    var a := Apply(env, INITIAL, PREPARE[0]);
    assert a == INITIAL.(documents := map[1 := QUOTATION]);
    var b := Apply(env, a, PREPARE[1]);
    assert b == INITIAL.(documents := map[1 := QUOTATION, 2 := PROOF]);
    var c := Apply(env, b, PREPARE[2]);
    assert c == b.(proposals := map[1 := Proposal(1, None, Draft, [], None, None, None, None)]);
    assert OutflowKey(1) != "";
    assert Apply(env, c, PREPARE[3]) == c.(entries := [SQUATTER]);
  }

  lemma EventIds()
    ensures Integrity.Lower(ZERO_HASH) == ZERO_HASH && Texts.IsBytes32(ZERO_HASH)
    ensures Integrity.Lower(SETTLE_ID) == SETTLE_ID && Texts.IsBytes32(SETTLE_ID)
    ensures SETTLE_ID != ZERO_HASH
  {
    LinkIsLowercase(Decimal.Padded(0, 64));
    LinkIsLowercase(Decimal.Padded(1, 64));
    assert ZERO_HASH[2..] == Decimal.Padded(0, 64) && SETTLE_ID[2..] == Decimal.Padded(1, 64);
    assert ZERO_HASH[65] == Decimal.Padded(0, 64)[63] && SETTLE_ID[65] == Decimal.Padded(1, 64)[63];
  }

  lemma InputUsable(s: State)
    requires Prepared(s)
    ensures QuotationsUsable(s, 1, INPUT.quotations) && ResolveSchedule(INPUT).Ok?
    ensures !Texts.Blank(INPUT.contractor) && !Texts.Blank(INPUT.purpose) && !Texts.Blank(INPUT.action)
  {
    assert INPUT.quotations == [1];
  }

  /** A first publication whose guards hold and whose event is queued goes through. */
  lemma FirstPublication(env: Platform, s: State, pid: nat, input: VersionInput, id: string, draft: Version, queued: State)
    requires pid in s.proposals && s.proposals[pid].status == Draft && s.proposals[pid].versions == []
    requires input.amount > 0 && QuotationsUsable(s, s.proposals[pid].building, input.quotations) && ResolveSchedule(input).Ok?
    requires !Texts.Blank(input.contractor) && !Texts.Blank(input.purpose) && !Texts.Blank(input.action)
    requires draft == NewVersion(s.documents, s.proposals[pid], input, ResolveSchedule(input).value, "")
    requires QueueEvent(env, s, id, VersionEvent,
                        VersionPayload(env, FactsOf(s, pid, s.proposals[pid], draft), CaseOf(s, s.proposals[pid])), ZERO_HASH)
          == Ok((queued, id))
    requires !VersionEventTaken(s, id)
    ensures PublishVersion(env, s, pid, input, id)
         == Ok(queued.(proposals := s.proposals[pid := WithVersion(s.proposals[pid], draft.(eventId := id))],
                       audit := s.audit + [VersionPublished(pid, draft.number)]))
  {
    assert PreviousHash(s, s.proposals[pid].versions) == ZERO_HASH;
  }

  lemma ReachablePublication(env: Platform, s: State, pid: nat, input: VersionInput, id: string, t: State)
    requires Reachable(env, s) && PublishVersion(env, s, pid, input, id) == Ok(t)
    ensures Reachable(env, t)
  {
    PublishAttempt(env, s, pid, input, id);
    ReachableStep(env, s, PublishStep(pid, input, id), t);
  }

  lemma PublishedStage(s: State, t: State, draft: Version, queued: State)
    requires Prepared(s) && s.events == map[] && 1 in s.proposals
    requires s.proposals[1] == Proposal(1, None, Draft, [], None, None, None, None)
    requires draft.amount == 7 && draft.number == 1 && ZERO_HASH in queued.events
    requires queued == s.(events := s.events[ZERO_HASH := queued.events[ZERO_HASH]])
    requires HexText(queued.events[ZERO_HASH].payloadHash) && |queued.events[ZERO_HASH].payloadHash| == 64
    requires t == queued.(proposals := s.proposals[1 := WithVersion(s.proposals[1], draft.(eventId := ZERO_HASH))], audit := t.audit)
    ensures Stage(t, Published)
  {
  }

  lemma AfterPublication(env: Platform, s: State) returns (t: State)
    requires PlatformLaws(env) && Reachable(env, s) && Prepared(s) && s.events == map[] && 1 in s.proposals
    requires s.proposals[1] == Proposal(1, None, Draft, [], None, None, None, None)
    requires !VersionEventTaken(s, ZERO_HASH)
    ensures Reachable(env, t) && Stage(t, Published)
  {
    EventIds();
    InputUsable(s);
    var p := s.proposals[1];
    var draft := NewVersion(s.documents, p, INPUT, ResolveSchedule(INPUT).value, "");
    var facts := FactsOf(s, 1, p, draft);
    var payload := VersionPayload(env, facts, CaseOf(s, p));
    VersionCanonical(env, facts, CaseOf(s, p));
    PayloadSchema.VersionConforms(env, facts, CaseOf(s, p));
    QueueSucceeds(env, s, ZERO_HASH, VersionEvent, payload, ZERO_HASH);
    var queued := QueueEvent(env, s, ZERO_HASH, VersionEvent, payload, ZERO_HASH).value.0;
    FirstPublication(env, s, 1, INPUT, ZERO_HASH, draft, queued);
    t := PublishVersion(env, s, 1, INPUT, ZERO_HASH).value;
    ReachablePublication(env, s, 1, INPUT, ZERO_HASH, t);
    PublishedStage(s, t, draft, queued);
  }

  lemma AfterWork(env: Platform, s: State) returns (t: State)
    requires Reachable(env, s) && Stage(s, Published)
    ensures Reachable(env, t) && Stage(t, Completed)
  {
    var u := DecideProposal(s, 1, true).value;
    ReachableStep(env, s, DecideStep(1, true), u);
    assert Stage(u, InProgress);
    assert !Texts.Blank("c") && !Texts.Blank("r");
    t := CompleteProposalWork(u, 1, "c", "r").value;
    ReachableStep(env, u, CompleteProposalStep(1, "c", "r"), t);
  }

  /** A settlement whose guards hold and whose event is queued goes through; a used key adds no outflow. */
  lemma SettlementGoesThrough(env: Platform, s: State, pid: nat, transfer: nat, id: string, v: Version, queued: State)
    returns (t: State)
    requires Reachable(env, s)
    requires pid in s.proposals && s.proposals[pid].status == Completed && SettlementOf(s, pid).None?
    requires s.proposals[pid].current == Some(0) && s.proposals[pid].versions == [v] && v.eventId in s.events
    requires transfer in s.documents && s.documents[transfer].kind == PaymentProof && s.documents[transfer].clean
    requires s.documents[transfer].building == s.proposals[pid].building
    requires QueueEvent(env, s, id, SettlementEvent,
                        SettlementPayload(SettlementFacts(|s.settlements| + 1, pid, v.number, v.amount,
                                                          s.documents[transfer].sha256, s.now)),
                        "0x" + s.events[v.eventId].payloadHash)
          == Ok((queued, id))
    requires !SettlementEventTaken(s, id) && KeyUsed(s.entries, OutflowKey(pid))
    ensures Reachable(env, t)
    ensures t.proposals == queued.proposals && t.entries == s.entries
    ensures t.settlements == s.settlements + [Settlement(pid, v.amount, transfer, s.now, id)]
  {
    t := RecordSettlement(env, s, pid, transfer, id).value;
    SettleAttempt(env, s, pid, transfer, id);
    ReachableStep(env, s, SettleStep(pid, transfer, id), t);
  }

  lemma SettlementQueued(env: Platform, s: State) returns (queued: State)
    requires PlatformLaws(env) && Stage(s, Completed)
    ensures var v := s.proposals[1].versions[0];
            QueueEvent(env, s, SETTLE_ID, SettlementEvent,
                       SettlementPayload(SettlementFacts(|s.settlements| + 1, 1, v.number, v.amount, s.documents[2].sha256, s.now)),
                       "0x" + s.events[v.eventId].payloadHash) == Ok((queued, SETTLE_ID))
    ensures queued.proposals == s.proposals
  {
    EventIds();
    Calendar.StartIsDatable();
    Calendar.DatableIsStamp(0);
    assert s.documents[2] == PROOF && s.settlements == [];
    var v := s.proposals[1].versions[0];
    var facts := SettlementFacts(|s.settlements| + 1, 1, v.number, v.amount, s.documents[2].sha256, s.now);
    var link := "0x" + s.events[v.eventId].payloadHash;
    LinkIsLowercase(s.events[v.eventId].payloadHash);
    assert link[2..] == s.events[v.eventId].payloadHash;
    SettlementCanonical(env, facts);
    PayloadSchema.SettlementConforms(facts);
    hide Calendar.Stamp, Calendar.Rfc3339, SettlementPayload, CanonicalBytes, QueueEvent, PayloadSchema.Conforms;
    QueueSucceeds(env, s, SETTLE_ID, SettlementEvent, SettlementPayload(facts), link);
    queued := QueueEvent(env, s, SETTLE_ID, SettlementEvent, SettlementPayload(facts), link).value.0;
  }

  /** A reachable state: 7 dong were paid out of building 1 and its balance does not show it. */
  lemma SquattedKeyHidesPayment(env: Platform)
    requires PlatformLaws(env)
    ensures exists s :: Reachable(env, s) && HidesPayment(s)
  {
    var s := Run(env, INITIAL, PREPARE);
    AfterPreparation(env);
    assert s.proposals[1].versions == [];
    var t := AfterPublication(env, s);
    t := AfterWork(env, t);
    PaymentHidden(env, t);
  }

  ghost predicate HidesPayment(s: State) {
    SettledSum(s.proposals, s.settlements, 1) == 7 && FundBalance(s.entries, s.ledger, 1) == VerifiedSources(s.entries, 1) == 0
  }

  lemma PaymentHidden(env: Platform, u: State)
    requires PlatformLaws(env) && Reachable(env, u) && Stage(u, Completed)
    ensures exists s :: Reachable(env, s) && HidesPayment(s)
  {
    hide QueueEvent, Run, Reachable, HidesPayment, SettlementPayload, PlatformLaws, PROOF_HASH, OutflowKey;
    var queued := SettlementQueued(env, u);
    ReadyToSettle(u);
    hide Stage, KeyUsed, SettlementEventTaken;
    var t := SettlementGoesThrough(env, u, 1, 2, SETTLE_ID, u.proposals[1].versions[0], queued);
    Sums(t, u.now);
  }

  lemma ReadyToSettle(u: State)
    requires Stage(u, Completed)
    ensures u.proposals[1].status == Completed && u.proposals[1].building == 1 && SettlementOf(u, 1).None? && u.settlements == []
    ensures u.proposals[1].current == Some(0) && u.proposals[1].versions == [u.proposals[1].versions[0]]
    ensures u.proposals[1].versions[0].amount == 7 && u.proposals[1].versions[0].eventId in u.events
    ensures 2 in u.documents && u.documents[2].kind == PaymentProof && u.documents[2].clean && u.documents[2].building == 1
    ensures u.entries == [SQUATTER] && KeyUsed(u.entries, OutflowKey(1)) && !SettlementEventTaken(u, SETTLE_ID)
  {
    hide OutflowKey, PROOF_HASH;
    assert u.entries[0].key == OutflowKey(1);
  }

  lemma Sums(t: State, at: nat)
    requires t.entries == [SQUATTER] && t.settlements == [Settlement(1, 7, 2, at, SETTLE_ID)]
    requires 1 in t.proposals && t.proposals[1].building == 1
    ensures HidesPayment(t)
  {
    assert t.entries[..0] == [] && t.settlements[..0] == [];
  }
}
