/**
 Which transactions of the spending lifecycle go through: in every reachable state, exactly those whose rows and inputs
 meet a condition anyone could check beforehand. And a run that publishes a second version.
 */
module SpendingAcceptance {
  import opened Wrappers
  import opened CanonicalValues
  import opened CanonicalJson
  import opened EvidencePayloads
  import opened SpendingState
  import opened SpendingInvariants
  import opened SpendingSafety
  import opened SpendingEvidence
  import opened SpendingRuns
  import Calendar
  import Decimal
  import Integrity
  import PayloadSchema
  import Texts

  // ---------------------------------------------------------------- every event has its row

  ghost predicate OfVersion(s: State, id: string, pid: nat, k: nat) {
    pid in s.proposals && k < |s.proposals[pid].versions| && s.proposals[pid].versions[k].eventId == id
  }

  ghost predicate OfSettlement(s: State, id: string, i: nat) { i < |s.settlements| && s.settlements[i].eventId == id }

  ghost predicate Owned(s: State, id: string) {
    (exists pid: nat, k: nat :: OfVersion(s, id, pid, k)) || (exists i: nat :: OfSettlement(s, id, i))
  }

  ghost predicate EventsOwned(s: State) { forall id :: id in s.events ==> Owned(s, id) }

  lemma OwnedStays(s: State, t: State, id: string)
    requires Extends(s, t) && Owned(s, id)
    ensures Owned(t, id)
  {
    if pid: nat, k: nat :| OfVersion(s, id, pid, k) {
      assert Evolves(s.proposals[pid], t.proposals[pid]);
      assert OfVersion(t, id, pid, k);
    } else {
      var i: nat :| OfSettlement(s, id, i);
      assert OfSettlement(t, id, i);
    }
  }

  /** A queued event adds its id and nothing else. */
  lemma QueueAddsOne(env: Platform, s: State, eventId: string, kind: EventKind, payload: Value, previous: string)
    requires QueueEvent(env, s, eventId, kind, payload, previous).Ok?
    ensures var (t, id) := QueueEvent(env, s, eventId, kind, payload, previous).value;
            t == s.(events := t.events) && t.events.Keys == s.events.Keys + {id} && id == Integrity.Lower(eventId)
  {
    hide CanonicalBytes, Load, HashOf, PayloadSchema.Conforms;
  }

  lemma PublicationOwns(env: Platform, s: State, t: State, pid: nat, draft: Version, eventId: string)
    requires PublishCommits(env, s, t, pid, draft, eventId) && EventsOwned(s) && Extends(s, t)
    ensures EventsOwned(t)
  {
    hide QueueEvent, VersionPayload, PreviousHash, Extends, Integrity.Lower;
    var p := s.proposals[pid];
    QueueAddsOne(env, s, eventId, VersionEvent, VersionPayload(env, FactsOf(s, pid, p, draft), CaseOf(s, p)), PreviousHash(s, p.versions));
    assert OfVersion(t, Integrity.Lower(eventId), pid, |p.versions|);
    forall id | id in t.events && id in s.events ensures Owned(t, id) { OwnedStays(s, t, id); }
  }

  lemma SettlementOwns(env: Platform, s: State, t: State, pid: nat, transfer: nat, eventId: string)
    requires SettleCommits(env, s, t, pid, transfer, eventId) && EventsOwned(s) && Extends(s, t)
    ensures EventsOwned(t)
  {
    hide QueueEvent, SettlementPayload, Extends, Integrity.Lower, CreateOutflow, DocumentHashes;
    var v := s.proposals[pid].versions[s.proposals[pid].current.value];
    QueueAddsOne(env, s, eventId, SettlementEvent,
                 SettlementPayload(SettlementFacts(|s.settlements| + 1, pid, v.number, v.amount, s.documents[transfer].sha256, s.now)),
                 if v.eventId in s.events then "0x" + s.events[v.eventId].payloadHash else "");
    assert OfSettlement(t, Integrity.Lower(eventId), |s.settlements|);
    forall id | id in t.events && id in s.events ensures Owned(t, id) { OwnedStays(s, t, id); }
  }

  /** No other transaction touches events. */
  lemma EventsUntouched(env: Platform, s: State, step: Step)
    requires !step.PublishStep? && !step.SettleStep?
    ensures Apply(env, s, step).events == s.events
  {
    hide CompleteLinked, CloseCases, CloseProposals, CreateOutflow, OutflowKey;
  }

  lemma OwnedStep(env: Platform, s: State, step: Step)
    requires EventsOwned(s)
    ensures EventsOwned(Apply(env, s, step))
  {
    StepExtends(env, s, step);
    var t := Apply(env, s, step);
    hide Extends, Owned, PublishVersion, RecordSettlement, PublishCommits, SettleCommits;
    if step.PublishStep? && Attempt(env, s, step).Ok? {
      PublicationCommits(env, s, step.pid, step.input, step.eventId);
      PublicationOwns(env, s, t, step.pid, NewVersion(s.documents, s.proposals[step.pid], step.input, ResolveSchedule(step.input).value, ""), step.eventId);
    } else if step.SettleStep? && Attempt(env, s, step).Ok? {
      SettlementCommits(env, s, step.pid, step.transfer, step.eventId);
      SettlementOwns(env, s, t, step.pid, step.transfer, step.eventId);
    } else {
      if !step.PublishStep? && !step.SettleStep? { EventsUntouched(env, s, step); }
      forall id | id in s.events ensures Owned(t, id) { OwnedStays(s, t, id); }
    }
  }

  /** In every reachable state each event is that of a version or of a settlement. */
  lemma {:induction false} EveryEventIsOwned(env: Platform, steps: seq<Step>)
    ensures EventsOwned(Run(env, INITIAL, steps))
  {
    hide Apply, EventsOwned;
    if steps == [] {
      NoEvents();
    } else {
      EveryEventIsOwned(env, steps[..|steps| - 1]);
      OwnedStep(env, Run(env, INITIAL, steps[..|steps| - 1]), steps[|steps| - 1]);
    }
  }

  lemma NoEvents()
    ensures EventsOwned(INITIAL)
  {
  }

  // ---------------------------------------------------------------- conditions anyone can check

  /** The text is not white space alone. */
  ghost predicate Said(text: string) { exists i :: 0 <= i < |text| && !Texts.IsSpace(text[i]) }

  /** 64 lowercase hexadecimal digits, perhaps after 0x. */
  ghost predicate Hashed(text: string) { exists digits :: |digits| == 64 && HexText(digits) && (text == digits || text == "0x" + digits) }

  /** 0x and 64 hexadecimal digits, in either case, under which no event is stored. */
  ghost predicate FreeId(s: State, id: string) { Texts.IsBytes32(Integrity.Lower(id)) && Integrity.Lower(id) !in s.events }

  ghost predicate DatesFit(start: Option<Calendar.Date>, end: Option<Calendar.Date>) {
    || (start.None? && end.None?)
    || (&& start.Some? && end.Some?
        && Calendar.ValidDate(start.value) && start.value.year <= 9999 && Calendar.ValidDate(end.value) && end.value.year <= 9999
        && Calendar.ToOrdinal(start.value) <= Calendar.ToOrdinal(end.value))
  }

  /** One quotation or more, none twice, each a clean quotation of this building. */
  ghost predicate QuotedFrom(s: State, building: nat, ids: seq<nat>) {
    && |ids| >= 1
    && (forall i, j :: 0 <= i < |ids| && 0 <= j < |ids| && ids[i] == ids[j] ==> i == j)
    && (forall d :: d in ids ==> d in s.documents && s.documents[d] == Document(building, Quotation, true, s.documents[d].sha256))
  }

  /** The ids that stand in the payload of an event of this proposal are positive, as column ids are. */
  ghost predicate Numbered(s: State, pid: nat)
    requires pid in s.proposals
  {
    pid > 0 && s.proposals[pid].building > 0 && (s.proposals[pid].caseId == Some(0) ==> 0 !in s.cases)
  }

  ghost predicate MayPublish(s: State, pid: nat, input: VersionInput, id: string) {
    && pid in s.proposals && Numbered(s, pid)
    && (s.proposals[pid].status == Draft || s.proposals[pid].status == Published || s.proposals[pid].status == InProgress)
    && input.amount > 0 && Said(input.contractor) && Said(input.purpose) && Said(input.action)
    && DatesFit(input.start, input.end) && QuotedFrom(s, s.proposals[pid].building, input.quotations)
    && FreeId(s, id)
  }

  ghost predicate MaySettle(s: State, pid: nat, transfer: nat, id: string) {
    && pid in s.proposals && pid > 0 && s.proposals[pid].status == Completed
    && (forall i :: 0 <= i < |s.settlements| ==> s.settlements[i].proposal != pid)
    && transfer in s.documents && s.documents[transfer] == Document(s.proposals[pid].building, PaymentProof, true, s.documents[transfer].sha256)
    && Hashed(s.documents[transfer].sha256) && FreeId(s, id)
  }

  // ---------------------------------------------------------------- publishing

  lemma PublishAttempt(env: Platform, s: State, pid: nat, input: VersionInput, id: string)
    ensures Attempt(env, s, PublishStep(pid, input, id)) == PublishVersion(env, s, pid, input, id)
  {
    hide PublishVersion, QueueEvent, CanonicalBytes;
  }

  lemma SettleAttempt(env: Platform, s: State, pid: nat, transfer: nat, id: string)
    ensures Attempt(env, s, SettleStep(pid, transfer, id)) == RecordSettlement(env, s, pid, transfer, id)
  {
    hide RecordSettlement, QueueEvent, CanonicalBytes;
  }

  lemma SaidIsNotBlank(text: string)
    ensures Texts.Blank(text) <==> !Said(text)
  {
  }

  function MonthNumber(d: Calendar.Date): int { 12 * d.year + d.month - 1 }

  lemma BeforeByMonth(a: Calendar.Date, b: Calendar.Date)
    requires 1 <= a.month <= 12 && 1 <= b.month <= 12
    ensures Before(a, b) <==> MonthNumber(a) < MonthNumber(b) || (MonthNumber(a) == MonthNumber(b) && a.day < b.day)
  {
    if a.year < b.year { assert 12 * a.year + 12 <= 12 * b.year; }
    if b.year < a.year { assert 12 * b.year + 12 <= 12 * a.year; }
  }

  lemma LaterMonth(a: Calendar.Date, b: Calendar.Date)
    requires Calendar.ValidDate(a) && Calendar.ValidDate(b) && MonthNumber(a) < MonthNumber(b)
    ensures Calendar.ToOrdinal(a) < Calendar.ToOrdinal(b)
  {
    MonthEnds(a);
    MonthEnds(b);
    hide Calendar.MonthStart, Calendar.ToOrdinal, MonthNumber;
    Calendar.MonthsIncrease(MonthNumber(a) + 1, MonthNumber(b));
  }

  lemma EarlierIsBefore(a: Calendar.Date, b: Calendar.Date)
    requires Calendar.ValidDate(a) && Calendar.ValidDate(b)
    ensures Before(a, b) <==> Calendar.ToOrdinal(a) < Calendar.ToOrdinal(b)
  {
    MonthEnds(a);
    MonthEnds(b);
    BeforeByMonth(a, b);
    hide *;
    if MonthNumber(a) < MonthNumber(b) { LaterMonth(a, b); }
    if MonthNumber(b) < MonthNumber(a) { LaterMonth(b, a); }
  }

  /** A date lies before the next month. */
  lemma MonthEnds(d: Calendar.Date)
    requires Calendar.ValidDate(d)
    ensures var k := MonthNumber(d);
            k >= 12 && 1 <= d.month <= 12 && Calendar.ToOrdinal(d) == Calendar.MonthStart(k) + d.day - 1 < Calendar.MonthStart(k + 1)
  {
    var k := MonthNumber(d);
    assert k / 12 == d.year && k % 12 == d.month - 1;
  }

  lemma ScheduleFits(input: VersionInput)
    ensures ResolveSchedule(input).Ok? <==> DatesFit(input.start, input.end)
  {
    if input.start.Some? && input.end.Some? && Calendar.ValidDate(input.start.value) && Calendar.ValidDate(input.end.value) {
      EarlierIsBefore(input.end.value, input.start.value);
    }
    hide Calendar.ValidDate, Calendar.ToOrdinal, Before, Texts.DayMonthYear;
  }

  lemma QuotationsFit(s: State, building: nat, ids: seq<nat>)
    ensures QuotationsUsable(s, building, ids) <==> QuotedFrom(s, building, ids)
  {
    if QuotationsUsable(s, building, ids) {
      forall d | d in ids ensures d in s.documents && s.documents[d] == Document(building, Quotation, true, s.documents[d].sha256) {
        var i :| 0 <= i < |ids| && ids[i] == d;
      }
    }
    if QuotedFrom(s, building, ids) {
      forall i | 0 <= i < |ids| ensures ids[i] in s.documents && s.documents[ids[i]].kind == Quotation
                                         && s.documents[ids[i]].building == building && s.documents[ids[i]].clean {
        assert ids[i] in ids;
      }
    }
  }

  /** The hash a proposal's next event links to is one the queue takes. */
  lemma LinkIsBytes(env: Platform, s: State, pid: nat)
    requires PlatformLaws(env) && pid in s.proposals && ProposalOk(env, s, pid, s.proposals[pid])
    ensures var p := s.proposals[pid]; Texts.IsBytes32(Integrity.Lower(LinkBefore(s, p, |p.versions|)))
  {
    var p := s.proposals[pid];
    PreviousIsLink(env, s, pid, p);
    if p.versions == [] {
      assert ZERO_HASH[..2] == "0x";
      assert forall i :: 2 <= i < 66 ==> ZERO_HASH[i] == Decimal.Padded(0, 64)[i - 2];
    } else {
      assert VersionOk(env, s, pid, p, |p.versions| - 1);
      var e := s.events[p.versions[|p.versions| - 1].eventId];
      HashIsLong(env, s, pid, p, p.versions[|p.versions| - 1]);
      assert ("0x" + e.payloadHash)[..2] == "0x";
    }
  }

  lemma HashIsLong(env: Platform, s: State, pid: nat, p: Proposal, v: Version)
    requires PlatformLaws(env) && VersionAnchored(env, s, pid, p, v)
    ensures |s.events[v.eventId].payloadHash| == 64
  {
  }

  /** Everything but the queue. */
  lemma PublishGuards(env: Platform, s: State, pid: nat, input: VersionInput, id: string, draft: Version)
    requires pid in s.proposals && ResolveSchedule(input).Ok?
    requires draft == NewVersion(s.documents, s.proposals[pid], input, ResolveSchedule(input).value, "")
    ensures var p := s.proposals[pid];
            var r := QueueEvent(env, s, id, VersionEvent, VersionPayload(env, FactsOf(s, pid, p, draft), CaseOf(s, p)), PreviousHash(s, p.versions));
            PublishVersion(env, s, pid, input, id).Ok?
            <==> && p.status in {Draft, Published, InProgress} && input.amount > 0
                 && Said(input.contractor) && Said(input.purpose) && Said(input.action)
                 && QuotationsUsable(s, p.building, input.quotations)
                 && r.Ok? && !VersionEventTaken(s, r.value.1)
  {
    hide QueueEvent, VersionPayload, FactsOf, PreviousHash, QuotationsUsable, NewVersion, Said, Texts.Blank;
    SaidIsNotBlank(input.contractor);
    SaidIsNotBlank(input.purpose);
    SaidIsNotBlank(input.action);
  }

  /** The queue takes the event of a version exactly under a free id. */
  lemma VersionIsQueued(env: Platform, s: State, facts: VersionFacts, c: Option<CaseFacts>, previous: string, id: string)
    requires PlatformLaws(env) && Inv(env, s) && EventsOwned(s) && Texts.IsBytes32(Integrity.Lower(previous))
    requires facts.number > 0 && facts.amount > 0 && Integrity.DateInRange(facts.start) && Integrity.DateInRange(facts.end)
    ensures var r := QueueEvent(env, s, id, VersionEvent, VersionPayload(env, facts, c), previous);
            r.Ok? && !VersionEventTaken(s, r.value.1)
            <==> facts.proposalId > 0 && facts.buildingId > 0 && (c.Some? ==> c.value.id > 0) && FreeId(s, id)
  {
    hide Inv, PlatformLaws, VersionPayload, Integrity.DateInRange, QueueEvent, FreeId, VersionEventTaken, EventsOwned, CanonicalBytes,
         PayloadSchema.Conforms, Texts.IsBytes32;
    VersionCanonical(env, facts, c);
    PayloadSchema.VersionConforms(env, facts, c);
    IsDict(env, facts, c);
    if PayloadSchema.Conforms(PayloadSchema.PROPOSAL_CREATED, VersionPayload(env, facts, c)) {
      QueueFree(env, s, id, VersionEvent, VersionPayload(env, facts, c), previous);
    } else {
      NotQueued(env, s, id, VersionEvent, VersionPayload(env, facts, c), previous);
    }
  }

  lemma IsDict(env: Platform, facts: VersionFacts, c: Option<CaseFacts>)
    ensures VersionPayload(env, facts, c).Dict?
  {
  }

  /** What the draft's payload is made of, and what it links to. */
  lemma DraftFacts(env: Platform, s: State, pid: nat, input: VersionInput, draft: Version)
    requires PlatformLaws(env) && pid in s.proposals && ProposalOk(env, s, pid, s.proposals[pid])
    requires ResolveSchedule(input).Ok?
    requires draft == NewVersion(s.documents, s.proposals[pid], input, ResolveSchedule(input).value, "")
    ensures var p := s.proposals[pid];
            var facts, c := FactsOf(s, pid, p, draft), CaseOf(s, p);
            && facts.number > 0 && facts.amount == input.amount
            && (Numbered(s, pid) <==> facts.proposalId > 0 && facts.buildingId > 0 && (c.Some? ==> c.value.id > 0))
            && Integrity.DateInRange(facts.start) && Integrity.DateInRange(facts.end)
            && Texts.IsBytes32(Integrity.Lower(PreviousHash(s, p.versions)))
  {
    hide ProposalOk, PlatformLaws, Integrity.DateInRange, LinkBefore, PreviousHash, Texts.IsBytes32, Integrity.Lower, QuotesOf;
    ScheduleDates(input);
    PreviousIsLink(env, s, pid, s.proposals[pid]);
    LinkIsBytes(env, s, pid);
  }

  ghost predicate Taken(s: State, kind: EventKind, id: string) {
    if kind == VersionEvent then VersionEventTaken(s, id) else SettlementEventTaken(s, id)
  }

  /** A conforming payload with a well formed link is queued, and its id not yet taken, exactly if the id is free. */
  lemma QueueFree(env: Platform, s: State, id: string, kind: EventKind, payload: Value, previous: string)
    requires PlatformLaws(env) && Inv(env, s) && EventsOwned(s)
    requires payload.Dict? && CanonicalBytes(env.nfc, payload).Ok? && PayloadSchema.Conforms(SchemaOf(kind), payload)
    requires Texts.IsBytes32(Integrity.Lower(previous))
    ensures var r := QueueEvent(env, s, id, kind, payload, previous);
            r.Ok? && !Taken(s, kind, r.value.1) <==> FreeId(s, id)
  {
    var low := Integrity.Lower(id);
    if low !in s.events {
      NothingTaken(env, s, kind, low);
    } else {
      OwnedIsTaken(env, s, low);
    }
    hide Inv, Taken, EventsOwned, PayloadSchema.Conforms, SchemaOf, HashOf;
    CanonicalRoundTrip(env.nfc, payload);
  }

  lemma NothingTaken(env: Platform, s: State, kind: EventKind, id: string)
    requires Inv(env, s) && id !in s.events
    ensures !Taken(s, kind, id)
  {
    forall pid, k | pid in s.proposals && 0 <= k < |s.proposals[pid].versions| ensures s.proposals[pid].versions[k].eventId != id {
      assert VersionOk(env, s, pid, s.proposals[pid], k);
    }
    forall i | 0 <= i < |s.settlements| ensures s.settlements[i].eventId != id { assert SettlementOk(env, s, i); }
  }

  /** A stored event of a kind is taken by a row of that kind. */
  lemma OwnedIsTaken(env: Platform, s: State, id: string)
    requires Inv(env, s) && EventsOwned(s) && id in s.events
    ensures Taken(s, s.events[id].kind, id)
  {
    assert Owned(s, id);
    if pid: nat, k: nat :| OfVersion(s, id, pid, k) {
      assert VersionOk(env, s, pid, s.proposals[pid], k);
    } else {
      var i: nat :| OfSettlement(s, id, i);
      assert SettlementOk(env, s, i);
    }
  }

  /**
   In every reachable state a version is published exactly if the proposal is a draft, published or in progress, the amount is
   positive, the texts say something, the dates fit, the quotations are the building's own and clean, the ids in the payload are
   positive, and the id of the event is free.
   */
  lemma PublishesExactly(env: Platform, steps: seq<Step>, pid: nat, input: VersionInput, id: string)
    requires PlatformLaws(env)
    ensures Attempt(env, Run(env, INITIAL, steps), PublishStep(pid, input, id)).Ok? <==> MayPublish(Run(env, INITIAL, steps), pid, input, id)
  {
    RunKeeps(env, steps);
    EveryEventIsOwned(env, steps);
    hide Run, Inv, EventsOwned;
    PublishCondition(env, Run(env, INITIAL, steps), pid, input, id);
  }

  lemma PublishCondition(env: Platform, s: State, pid: nat, input: VersionInput, id: string)
    requires PlatformLaws(env) && Inv(env, s) && EventsOwned(s)
    ensures Attempt(env, s, PublishStep(pid, input, id)).Ok? <==> MayPublish(s, pid, input, id)
  {
    hide *;
    PublishAttempt(env, s, pid, input, id);
    ScheduleFits(input);
    if pid in s.proposals {
      PublishConditionOf(env, s, pid, input, id);
    } else {
      NoProposal(env, s, pid, input, id);
    }
  }

  lemma NoProposal(env: Platform, s: State, pid: nat, input: VersionInput, id: string)
    requires pid !in s.proposals
    ensures PublishVersion(env, s, pid, input, id).Err? && !MayPublish(s, pid, input, id)
  {
  }

  lemma NoSchedule(env: Platform, s: State, pid: nat, input: VersionInput, id: string)
    requires ResolveSchedule(input).Err?
    ensures PublishVersion(env, s, pid, input, id).Err?
  {
    hide QueueEvent, VersionPayload, FactsOf;
  }

  lemma PublishConditionOf(env: Platform, s: State, pid: nat, input: VersionInput, id: string)
    requires PlatformLaws(env) && Inv(env, s) && EventsOwned(s) && pid in s.proposals
    ensures PublishVersion(env, s, pid, input, id).Ok? <==> MayPublish(s, pid, input, id)
  {
    hide Inv, EventsOwned, PlatformLaws, ProposalOk, PublishVersion, QueueEvent, FactsOf, CaseOf, PreviousHash, VersionPayload, NewVersion,
         QuotationsUsable, QuotedFrom, Said, FreeId, DatesFit, ResolveSchedule, Numbered, VersionEventTaken;
    ScheduleFits(input);
    QuotationsFit(s, s.proposals[pid].building, input.quotations);
    if ResolveSchedule(input).Ok? {
      var p := s.proposals[pid];
      var draft := NewVersion(s.documents, p, input, ResolveSchedule(input).value, "");
      ProposalStands(env, s, pid);
      PublishGuards(env, s, pid, input, id, draft);
      DraftFacts(env, s, pid, input, draft);
      if input.amount > 0 { VersionIsQueued(env, s, FactsOf(s, pid, p, draft), CaseOf(s, p), PreviousHash(s, p.versions), id); }
    } else {
      NoSchedule(env, s, pid, input, id);
    }
  }

  // ---------------------------------------------------------------- settling

  lemma SettleGuards(env: Platform, s: State, pid: nat, transfer: nat, id: string)
    requires pid in s.proposals && s.proposals[pid].versions != [] && s.proposals[pid].current == Some(|s.proposals[pid].versions| - 1)
    requires s.proposals[pid].versions[|s.proposals[pid].versions| - 1].eventId in s.events
    ensures var p := s.proposals[pid];
            var v := p.versions[|p.versions| - 1];
            RecordSettlement(env, s, pid, transfer, id).Ok?
            <==> && p.status == Completed && SettlementOf(s, pid).None?
                 && transfer in s.documents
                 && s.documents[transfer] == Document(p.building, PaymentProof, true, s.documents[transfer].sha256)
                 && var r := QueueEvent(env, s, id, SettlementEvent, SettlementPayload(NextSettlement(s, pid, transfer)), "0x" + s.events[v.eventId].payloadHash);
                    r.Ok? && !SettlementEventTaken(s, r.value.1)
  {
    hide QueueEvent, SettlementPayload, SettlementOf, CreateOutflow, DocumentHashes, SettlementEventTaken;
  }

  lemma SettlementIsQueued(env: Platform, s: State, facts: SettlementFacts, previous: string, id: string)
    requires PlatformLaws(env) && Inv(env, s) && EventsOwned(s) && Texts.IsBytes32(Integrity.Lower(previous))
    requires facts.settlementId > 0 && facts.versionNumber > 0 && facts.amount > 0 && Calendar.Datable(facts.settledAt)
    ensures var r := QueueEvent(env, s, id, SettlementEvent, SettlementPayload(facts), previous);
            r.Ok? && !SettlementEventTaken(s, r.value.1) <==> facts.proposalId > 0 && Hashed(facts.transferSha256) && FreeId(s, id)
  {
    hide Inv, PlatformLaws, SettlementPayload, Calendar.Stamp, Calendar.Rfc3339, Calendar.Datable, EventsOwned,
         FreeId, Hashed, SettlementEventTaken, CanonicalBytes, PayloadSchema.Conforms, Texts.IsBytes32, HexText;
    SettlementCanonical(env, facts);
    Calendar.DatableIsStamp(facts.settledAt);
    PayloadSchema.SettlementConforms(facts);
    HexHash(facts.transferSha256);
    IsSettlementDict(facts);
    if PayloadSchema.Conforms(PayloadSchema.SETTLEMENT, SettlementPayload(facts)) {
      hide QueueEvent;
      QueueFree(env, s, id, SettlementEvent, SettlementPayload(facts), previous);
    } else {
      NotQueued(env, s, id, SettlementEvent, SettlementPayload(facts), previous);
    }
  }

  lemma IsSettlementDict(facts: SettlementFacts)
    ensures SettlementPayload(facts).Dict?
  {
  }

  lemma NotQueued(env: Platform, s: State, id: string, kind: EventKind, payload: Value, previous: string)
    requires !PayloadSchema.Conforms(SchemaOf(kind), payload)
    ensures QueueEvent(env, s, id, kind, payload, previous).Err?
  {
  }

  /** The last version is the current one, and the settlement links to its hash. */
  lemma LastStands(env: Platform, s: State, pid: nat)
    requires PlatformLaws(env) && pid in s.proposals && ProposalOk(env, s, pid, s.proposals[pid]) && s.proposals[pid].status == Completed
    ensures var p := s.proposals[pid];
            && p.versions != [] && p.current == Some(|p.versions| - 1)
            && var v := p.versions[|p.versions| - 1];
               v.amount > 0 && v.number > 0 && v.eventId in s.events
               && Texts.IsBytes32(Integrity.Lower("0x" + s.events[v.eventId].payloadHash))
  {
    var p := s.proposals[pid];
    assert VersionOk(env, s, pid, p, |p.versions| - 1);
    hide Texts.IsBytes32, Integrity.Lower, PlatformLaws;
    LinkIsBytes(env, s, pid);
  }

  lemma ProposalStands(env: Platform, s: State, pid: nat)
    requires Inv(env, s) && pid in s.proposals
    ensures ProposalOk(env, s, pid, s.proposals[pid])
  {
    hide ProposalOk, AuditOk, MoneyOk;
  }

  lemma HexHash(h: string)
    ensures PayloadSchema.HashText(h) <==> Hashed(h)
  {
    if |h| == 66 && h[..2] == "0x" { assert h == "0x" + h[2..]; }
    if |h| == 64 && HexText(h) { assert Hashed(h); }
    if Hashed(h) {
      var digits :| |digits| == 64 && HexText(digits) && (h == digits || h == "0x" + digits);
      assert h == "0x" + digits ==> h[2..] == digits;
    }
  }

  /**
   In every reachable state, at a time that can be written, a settlement is recorded exactly if the proposal is completed and not
   settled yet, the transfer proof is the building's own, clean and hashed, and the id is free.
   */
  lemma SettlesExactly(env: Platform, steps: seq<Step>, pid: nat, transfer: nat, id: string)
    requires PlatformLaws(env) && Calendar.Datable(Run(env, INITIAL, steps).now)
    ensures Attempt(env, Run(env, INITIAL, steps), SettleStep(pid, transfer, id)).Ok? <==> MaySettle(Run(env, INITIAL, steps), pid, transfer, id)
  {
    RunKeeps(env, steps);
    EveryEventIsOwned(env, steps);
    hide Run, Inv, EventsOwned;
    SettleCondition(env, Run(env, INITIAL, steps), pid, transfer, id);
  }

  lemma SettleCondition(env: Platform, s: State, pid: nat, transfer: nat, id: string)
    requires PlatformLaws(env) && Inv(env, s) && EventsOwned(s) && Calendar.Datable(s.now)
    ensures Attempt(env, s, SettleStep(pid, transfer, id)).Ok? <==> MaySettle(s, pid, transfer, id)
  {
    hide *;
    SettleAttempt(env, s, pid, transfer, id);
    if pid in s.proposals && s.proposals[pid].status == Completed {
      SettleConditionOf(env, s, pid, transfer, id);
    } else {
      NotCompleted(env, s, pid, transfer, id);
    }
  }

  lemma NotCompleted(env: Platform, s: State, pid: nat, transfer: nat, id: string)
    requires pid !in s.proposals || s.proposals[pid].status != Completed
    ensures RecordSettlement(env, s, pid, transfer, id).Err? && !MaySettle(s, pid, transfer, id)
  {
  }

  lemma SettleConditionOf(env: Platform, s: State, pid: nat, transfer: nat, id: string)
    requires PlatformLaws(env) && Inv(env, s) && EventsOwned(s) && Calendar.Datable(s.now)
    requires pid in s.proposals && s.proposals[pid].status == Completed
    ensures RecordSettlement(env, s, pid, transfer, id).Ok? <==> MaySettle(s, pid, transfer, id)
  {
    hide Inv, EventsOwned, PlatformLaws, ProposalOk, Calendar.Datable, Texts.IsBytes32, RecordSettlement, QueueEvent, SettlementPayload,
         FreeId, SettlementEventTaken, Hashed, Integrity.Lower;
    ProposalStands(env, s, pid);
    LastStands(env, s, pid);
    SettleGuards(env, s, pid, transfer, id);
    var p := s.proposals[pid];
    if transfer in s.documents {
      SettlementIsQueued(env, s, NextSettlement(s, pid, transfer), "0x" + s.events[p.versions[|p.versions| - 1].eventId].payloadHash, id);
    }
  }

  // ---------------------------------------------------------------- everything else

  /** No entry of the fund has this source key. */
  ghost predicate FreeKey(s: State, key: string) { forall i :: 0 <= i < |s.entries| ==> s.entries[i].key != key }

  /** The key of a source: the one given, or kind, fund and hash of the evidence. */
  ghost function KeyFor(kind: EntryType, building: nat, sha256: string, given: string): string {
    if given != "" then given
    else (if kind == OpeningBalance then "OPENING_BALANCE" else if kind == Inflow then "INFLOW" else "OUTFLOW")
         + ":" + Decimal.NatText(building) + ":" + sha256
  }

  /** When a transaction other than a publication or a settlement goes through. */
  ghost predicate MayStep(s: State, step: Step) {
    match step
    case AddDocumentStep(id, document) => id !in s.documents
    case OpenCaseStep(id, building, category, queue, locationId) => id !in s.cases
    case RetriageStep(id, category, queue, locationId) => id in s.cases
    case DeclineStep(id) => id in s.cases && s.cases[id].active
    case CreateStep(c, pid, reportsAllow) =>
      && c in s.cases && s.cases[c].active && s.cases[c].completedAt.None? && reportsAllow && pid !in s.proposals
      && forall q :: q in s.proposals ==> s.proposals[q].caseId != Some(c)
    case CreateStandaloneStep(building, pid) => pid !in s.proposals
    case DecideStep(pid, proceed) => pid in s.proposals && s.proposals[pid].status == Published
    case StartStep(c) =>
      && c in s.cases && s.cases[c].active && s.cases[c].completedAt.None?
      && forall q :: q in s.proposals && s.proposals[q].status == Published ==> s.proposals[q].caseId != Some(c)
    case CompleteCaseStep(c, cause, result) =>
      && c in s.cases && s.cases[c].active && s.cases[c].completedAt.None? && s.cases[c].startedAt.Some? && Said(cause) && Said(result)
    case CompleteProposalStep(pid, cause, result) =>
      pid in s.proposals && s.proposals[pid].caseId.None? && s.proposals[pid].status == InProgress && Said(cause) && Said(result)
    case RecordSourceStep(building, kind, amount, evidence, key) =>
      && (kind == OpeningBalance || kind == Inflow) && amount > 0
      && evidence in s.documents && s.documents[evidence].building == building && s.documents[evidence].clean
      && FreeKey(s, KeyFor(kind, building, s.documents[evidence].sha256, key))
    case VerifySourceStep(entry) =>
      entry < |s.entries| && !s.entries[entry].verified && (s.entries[entry].kind == OpeningBalance || s.entries[entry].kind == Inflow)
    case _ => true
  }

  /** The row that it enters or changes; every other row stays. */
  ghost predicate Enters(s: State, step: Step, t: State) {
    match step
    case AddDocumentStep(id, document) => t == s.(documents := s.documents[id := document])
    case OpenCaseStep(id, building, category, queue, locationId) =>
      t == s.(cases := s.cases[id := Case(building, true, None, None, None, category, queue, locationId)])
    case RetriageStep(id, category, queue, locationId) =>
      && id in s.cases
      && var c := s.cases[id];
         t == s.(cases := s.cases[id := Case(c.building, c.active, c.startedAt, c.completedAt, c.closedAt, category, queue, locationId)])
    case DeclineStep(id) => id in s.cases && t == s.(cases := s.cases[id := s.cases[id].(active := false, closedAt := Some(s.now))])
    case CreateStep(c, pid, reportsAllow) =>
      c in s.cases && t == s.(proposals := s.proposals[pid := Proposal(s.cases[c].building, Some(c), Draft, [], None, None, None, None)])
    case CreateStandaloneStep(building, pid) =>
      t == s.(proposals := s.proposals[pid := Proposal(building, None, Draft, [], None, None, None, None)])
    case RecordSourceStep(building, kind, amount, evidence, key) =>
      && evidence in s.documents
      && t == s.(entries := s.entries + [FundEntry(building, kind, amount, None, KeyFor(kind, building, s.documents[evidence].sha256, key), false)])
    case VerifySourceStep(entry) =>
      entry < |s.entries| && t == s.(entries := s.entries[entry := s.entries[entry].(verified := true)])
    case DecideStep(pid, proceed) =>
      && pid in s.proposals
      && t == s.(proposals := s.proposals[pid := s.proposals[pid].(status := if proceed then InProgress else NotProceeding, decidedAt := Some(s.now),
                                                                   closedAt := if proceed then None else Some(s.now))],
                 audit := s.audit + [Decided(pid, proceed)])
    case StartStep(c) =>
      c in s.cases && t == s.(cases := if s.cases[c].startedAt.Some? then s.cases else s.cases[c := s.cases[c].(startedAt := Some(s.now))])
    case CompleteCaseStep(c, cause, result) =>
      && c in s.cases && t == s.(cases := s.cases[c := s.cases[c].(completedAt := Some(s.now))], proposals := t.proposals)
      && t.proposals.Keys == s.proposals.Keys
      && forall q :: q in s.proposals ==>
           t.proposals[q] == if s.proposals[q].caseId == Some(c) && s.proposals[q].status == InProgress
                             then s.proposals[q].(status := Completed, completedAt := Some(s.now)) else s.proposals[q]
    case CompleteProposalStep(pid, cause, result) =>
      && pid in s.proposals
      && t == s.(proposals := s.proposals[pid := s.proposals[pid].(status := Completed, completedAt := Some(s.now))])
    case _ => true
  }

  /** Transactions that check nothing else go through exactly under their conditions, and enter what they were given. */
  lemma StepsExactly(env: Platform, s: State, step: Step)
    requires !step.PublishStep? && !step.SettleStep?
    ensures Attempt(env, s, step).Ok? <==> MayStep(s, step)
    ensures Attempt(env, s, step).Ok? ==> Enters(s, step, Attempt(env, s, step).value)
  {
    match step {
      case CompleteCaseStep(c, cause, result) => CompletionExactly(env, s, step);
      case CompleteProposalStep(pid, cause, result) => CompletionExactly(env, s, step);
      case RecordSourceStep(building, kind, amount, evidence, key) => SourceExactly(env, s, step);
      case StartStep(c) => StartExactly(env, s, step);
      case _ => hide Said, FreeKey, KeyFor;
    }
  }

  lemma CompletionExactly(env: Platform, s: State, step: Step)
    requires step.CompleteCaseStep? || step.CompleteProposalStep?
    ensures Attempt(env, s, step).Ok? <==> MayStep(s, step)
    ensures Attempt(env, s, step).Ok? ==> Enters(s, step, Attempt(env, s, step).value)
  {
    SaidIsNotBlank(step.cause);
    SaidIsNotBlank(step.result);
    hide Said, Texts.Blank;
  }

  lemma StartExactly(env: Platform, s: State, step: Step)
    requires step.StartStep?
    ensures Attempt(env, s, step).Ok? <==> MayStep(s, step)
    ensures Attempt(env, s, step).Ok? ==> Enters(s, step, Attempt(env, s, step).value)
  {
    if step.caseId in s.cases && s.cases[step.caseId].startedAt.Some? { assert s.cases[step.caseId := s.cases[step.caseId]] == s.cases; }
  }

  lemma SourceExactly(env: Platform, s: State, step: Step)
    requires step.RecordSourceStep?
    ensures Attempt(env, s, step).Ok? <==> MayStep(s, step)
    ensures Attempt(env, s, step).Ok? ==> Enters(s, step, Attempt(env, s, step).value)
  {
    hide Decimal.NatText;
  }
}
