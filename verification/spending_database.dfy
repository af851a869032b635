/**
 The spending services as they run: statements over mutable tables, with rollback when a
 later statement fails. Each is proved to commit exactly the transaction of SpendingState.
 */
module SpendingDatabase {
  import opened Wrappers
  import opened CanonicalValues
  import opened EvidencePayloads
  import opened SpendingState
  import Integrity
  import PayloadSchema
  import Texts

  /** No case carries two proposals (a one-to-one column). */
  ghost predicate OneProposalPerCase(proposals: map<nat, Proposal>) {
    forall p, q ::
      (p in proposals && q in proposals && proposals[p].caseId.Some? && proposals[p].caseId == proposals[q].caseId) ==> p == q
  }

  function ExpiredCases(cases: map<nat, Case>, now: nat): set<nat> {
    set c | c in cases && CaseExpired(cases[c], now)
  }

  function ExpiredProposals(s: State): set<nat> {
    set p | p in s.proposals && ProposalExpired(s, p)
  }

  /** Closing proposals looks at no case. */
  lemma ClosingIgnoresCases(s: State, t: State)
    requires t == s.(cases := t.cases)
    ensures ExpiredProposals(t) == ExpiredProposals(s)
    ensures CloseProposals(t) == CloseProposals(s)
  {
  }

  class Database {
    var now: nat
    var documents: map<nat, Document>
    var cases: map<nat, Case>
    var proposals: map<nat, Proposal>
    var events: map<string, Event>
    var settlements: seq<Settlement>
    var entries: seq<FundEntry>
    var ledger: seq<LedgerEntry>
    var audit: seq<Audit>

    constructor ()
      ensures View() == INITIAL
    {
      now, documents, cases, proposals, events := 0, map[], map[], map[], map[];
      settlements, entries, ledger, audit := [], [], [], [];
    }

    function View(): State
      reads this
    {
      State(now, documents, cases, proposals, events, settlements, entries, ledger, audit)
    }

    /** Get or insert one outbox event. */
    method QueuePlatformEvent(env: Platform, eventId: string, kind: EventKind, payload: Value, previousHash: string)
      returns (r: Result<string, SpendingState.Error>)
      modifies this`events
      ensures match QueueEvent(env, old(View()), eventId, kind, payload, previousHash)
              case Ok((t, id)) => r == Ok(id) && View() == t
              case Err(e) => r == Err(e) && View() == old(View())
    {
      hide PayloadSchema.Conforms, SchemaOf;
      var id, previous := Integrity.Lower(eventId), Integrity.Lower(previousHash);
      if !PayloadSchema.Conforms(SchemaOf(kind), payload) { return Err(ValidationError); }
      if !Texts.IsBytes32(id) || !Texts.IsBytes32(previous) { return Err(ValidationError); }
      var bytes := CanonicalJson.CanonicalBytes(env.nfc, payload);
      if bytes.Err? { return Err(ValidationError); }
      var normalized := CanonicalJson.Load(bytes.value);
      if normalized.None? { return Err(ValidationError); }
      var event := Event(kind, normalized.value, HashOf(env, normalized.value), previous);
      if id in events {
        if events[id] == event { return Ok(id); }
        return Err(EvidenceConflict);
      }
      events := events[id := event];
      return Ok(id);
    }

    method PublishProposalVersion(env: Platform, pid: nat, input: VersionInput, eventId: string)
      returns (r: Result<string, SpendingState.Error>)
      modifies this
      ensures Committed(PublishVersion(env, old(View()), pid, input, eventId), r.Ok?, old(View()))
      ensures r.Err? ==> r.error == PublishVersion(env, old(View()), pid, input, eventId).error
    {
      hide QueueEvent, VersionPayload, PreviousHash, ResolveSchedule, QuotationsUsable, VersionEventTaken;
      var before := View();
      if pid !in proposals { return Err(ValidationError); }
      var p := proposals[pid];
      if input.amount <= 0 { return Err(ValidationError); }
      if Texts.Blank(input.contractor) { return Err(ValidationError); }
      if p.status !in {Draft, Published, InProgress} { return Err(ValidationError); }
      if Texts.Blank(input.purpose) { return Err(ValidationError); }
      if Texts.Blank(input.action) { return Err(ValidationError); }
      var schedule := ResolveSchedule(input);
      if schedule.Err? { return Err(schedule.error); }
      if !QuotationsUsable(before, p.building, input.quotations) { return Err(ValidationError); }
      var version := NewVersion(documents, p, input, schedule.value, "");
      var payload := VersionPayload(env, FactsOf(before, pid, p, version), CaseOf(before, p));
      var queued := QueuePlatformEvent(env, eventId, VersionEvent, payload, PreviousHash(before, p.versions));
      if queued.Err? { return Err(queued.error); }
      if VersionEventTaken(before, queued.value) {
        events := before.events;
        return Err(IntegrityError);
      }
      version := version.(eventId := queued.value);
      proposals := proposals[pid := p.(versions := p.versions + [version])];
      proposals := proposals[pid := proposals[pid].(current := Some(|p.versions|), status := Published)];
      audit := audit + [VersionPublished(pid, version.number)];
      return Ok(queued.value);
    }

    /** The outcome is reported, and the tables hold the new state or the old one. */
    ghost predicate Committed(outcome: Outcome, ok: bool, before: State)
      reads this
    {
      ok == outcome.Ok? && View() == (if outcome.Ok? then outcome.value else before)
    }

    method Decide(pid: nat, proceed: bool) returns (r: Result<(), SpendingState.Error>)
      modifies this`proposals, this`audit
      ensures Committed(DecideProposal(old(View()), pid, proceed), r.Ok?, old(View()))
    {
      if pid !in proposals || proposals[pid].status != Published { return Err(ValidationError); }
      var p := proposals[pid];
      p := p.(status := if proceed then InProgress else NotProceeding);
      p := p.(decidedAt := Some(now));
      p := p.(closedAt := if proceed then None else Some(now));
      proposals := proposals[pid := p];
      audit := audit + [Decided(pid, proceed)];
      return Ok(());
    }

    /** The case's in-progress proposal, if there is one. */
    method FindInProgress(caseId: nat) returns (found: Option<nat>)
      ensures found.Some? ==> found.value in proposals && proposals[found.value].caseId == Some(caseId)
                              && proposals[found.value].status == InProgress
      ensures found.None? ==> forall q :: q in proposals ==> !(proposals[q].caseId == Some(caseId) && proposals[q].status == InProgress)
    {
      var todo := proposals.Keys;
      while todo != {}
        invariant todo <= proposals.Keys
        invariant forall q :: q in proposals && q !in todo ==> !(proposals[q].caseId == Some(caseId) && proposals[q].status == InProgress)
      {
        var q :| q in todo;
        if proposals[q].caseId == Some(caseId) && proposals[q].status == InProgress { return Some(q); }
        todo := todo - {q};
      }
      return None;
    }

    method CompleteCase(caseId: nat, cause: string, result: string) returns (r: Result<(), SpendingState.Error>)
      requires OneProposalPerCase(proposals)
      modifies this`cases, this`proposals
      ensures Committed(CompleteCaseWork(old(View()), caseId, cause, result), r.Ok?, old(View()))
    {
      if caseId !in cases || !cases[caseId].active || cases[caseId].completedAt.Some? { return Err(ValidationError); }
      if cases[caseId].startedAt.None? { return Err(ValidationError); }
      if Texts.Blank(cause) || Texts.Blank(result) { return Err(ValidationError); }
      cases := cases[caseId := cases[caseId].(completedAt := Some(now))];
      var found := FindInProgress(caseId);
      if found.Some? {
        var q := found.value;
        proposals := proposals[q := proposals[q].(status := Completed, completedAt := cases[caseId].completedAt)];
      }
      assert proposals == CompleteLinked(old(proposals), caseId, now);
      return Ok(());
    }

    method CompleteProposal(pid: nat, cause: string, result: string) returns (r: Result<(), SpendingState.Error>)
      modifies this`proposals
      ensures Committed(CompleteProposalWork(old(View()), pid, cause, result), r.Ok?, old(View()))
    {
      if pid !in proposals || proposals[pid].caseId.Some? || proposals[pid].status != InProgress { return Err(ValidationError); }
      if Texts.Blank(cause) || Texts.Blank(result) { return Err(ValidationError); }
      proposals := proposals[pid := proposals[pid].(status := Completed, completedAt := Some(now))];
      return Ok(());
    }

    /** The nightly job: one loop over expired cases, one over expired standalone proposals. */
    method CloseExpiredCompleted() returns (closed: nat)
      modifies this`cases, this`proposals
      ensures View() == CloseExpired(old(View()))
      ensures closed == |ExpiredCases(old(cases), now)| + |ExpiredProposals(old(View()))|
    {
      var closedCases := CloseExpiredCases();
      ClosingIgnoresCases(old(View()), View());
      var closedProposals := CloseExpiredProposals();
      closed := closedCases + closedProposals;
    }

    method CloseExpiredCases() returns (closed: nat)
      modifies this`cases
      ensures cases == CloseCases(old(cases), now)
      ensures closed == |ExpiredCases(old(cases), now)|
    {
      ghost var was := cases;
      var todo := ExpiredCases(cases, now);
      ghost var expired := todo;
      closed := 0;
      while todo != {}
        invariant todo <= expired && closed == |expired| - |todo|
        invariant cases.Keys == was.Keys
        invariant forall c :: c in was ==> cases[c] == (if c in expired - todo then CloseCase(was[c], now) else was[c])
        decreases todo
      {
        var c :| c in todo;
        cases := cases[c := cases[c].(active := false, closedAt := Some(now))];
        todo := todo - {c};
        closed := closed + 1;
      }
      assert cases == CloseCases(was, now);
    }

    method CloseExpiredProposals() returns (closed: nat)
      modifies this`proposals
      ensures proposals == CloseProposals(old(View()))
      ensures closed == |ExpiredProposals(old(View()))|
    {
      ghost var was := View();
      var todo := set p | p in proposals && proposals[p].caseId.None? && proposals[p].status == Completed
                          && proposals[p].completedAt.Some? && proposals[p].closedAt.None?
                          && proposals[p].completedAt.value + RATING_WINDOW <= now;
      ghost var selected := todo;
      ghost var due := {};
      closed := 0;
      while todo != {}
        invariant todo <= selected && due <= selected - todo && closed == |due|
        invariant forall p :: p in selected - todo ==> (p in due <==> ProposalExpired(was, p))
        invariant proposals.Keys == was.proposals.Keys
        invariant forall p :: p in was.proposals ==>
                    proposals[p] == (if p in selected - todo then CloseProposal(was, p) else was.proposals[p])
        decreases todo
      {
        var p :| p in todo;
        todo := todo - {p};
        var closeAt := proposals[p].completedAt.value + RATING_WINDOW;
        var settlement := FindSettlement(settlements, p);
        if settlement.Some? && settlement.value.settledAt > closeAt { closeAt := settlement.value.settledAt; }
        if now >= closeAt {
          proposals := proposals[p := proposals[p].(status := Closed, closedAt := Some(now))];
          closed := closed + 1;
          due := due + {p};
        }
      }
      assert due == ExpiredProposals(was);
      assert proposals == CloseProposals(was);
    }

    /** Get or create the outflow of a settled proposal, looking its source key up first. */
    method CreateSettlementOutflow(pid: nat, building: nat, amount: int)
      modifies this`entries
      ensures entries == CreateOutflow(old(entries), pid, building, amount)
    {
      for i := 0 to |entries|
        invariant forall j :: 0 <= j < i ==> entries[j].key != OutflowKey(pid)
        invariant entries == old(entries)
      {
        if entries[i].key == OutflowKey(pid) { return; }
      }
      entries := entries + [FundEntry(building, Outflow, -amount, Some(pid), OutflowKey(pid), false)];
    }

    method SettleProposal(env: Platform, pid: nat, transfer: nat, eventId: string) returns (r: Result<nat, SpendingState.Error>)
      modifies this
      ensures Committed(RecordSettlement(env, old(View()), pid, transfer, eventId), r.Ok?, old(View()))
      ensures r.Err? ==> r.error == RecordSettlement(env, old(View()), pid, transfer, eventId).error
    {
      hide QueueEvent, SettlementPayload, SettlementEventTaken, CreateOutflow;
      var before := View();
      if pid !in proposals || proposals[pid].status != Completed { return Err(ValidationError); }
      if FindSettlement(settlements, pid).Some? { return Err(ValidationError); }
      var p := proposals[pid];
      if p.current.None? || p.current.value >= |p.versions| { return Err(ValidationError); }
      if transfer !in documents || documents[transfer].kind != PaymentProof
         || documents[transfer].building != p.building || !documents[transfer].clean {
        return Err(ValidationError);
      }
      var v, i := p.versions[p.current.value], |settlements|;
      var payload := SettlementPayload(SettlementFacts(i + 1, pid, v.number, v.amount, documents[transfer].sha256, now));
      var queued := QueuePlatformEvent(env, eventId, SettlementEvent, payload,
                                       if v.eventId in events then "0x" + events[v.eventId].payloadHash else "");
      if queued.Err? { return Err(queued.error); }
      if SettlementEventTaken(before, queued.value) {
        events := before.events;
        return Err(IntegrityError);
      }
      settlements := settlements + [Settlement(pid, v.amount, transfer, now, queued.value)];
      CreateSettlementOutflow(pid, p.building, v.amount);
      ledger := ledger + [LedgerEntry(pid, i, v.amount, v.contractor, DocumentHashes(before, v, transfer))];
      audit := audit + [Settled(pid)];
      return Ok(i);
    }

    method RecordSource(building: nat, kind: EntryType, amount: int, evidence: nat, sourceKey: string)
      returns (r: Result<nat, SpendingState.Error>)
      modifies this`entries
      ensures Committed(RecordFundSource(old(View()), building, kind, amount, evidence, sourceKey), r.Ok?, old(View()))
    {
      if kind == Outflow || amount <= 0 { return Err(ValidationError); }
      if evidence !in documents || documents[evidence].building != building || !documents[evidence].clean {
        return Err(ValidationError);
      }
      var key := if sourceKey != "" then sourceKey else SourceKey(kind, building, documents[evidence].sha256);
      if KeyUsed(entries, key) { return Err(ValidationError); }
      entries := entries + [FundEntry(building, kind, amount, None, key, false)];
      return Ok(|entries| - 1);
    }

    method VerifySource(entry: nat) returns (r: Result<(), SpendingState.Error>)
      modifies this`entries
      ensures Committed(VerifyFundSource(old(View()), entry), r.Ok?, old(View()))
    {
      if entry >= |entries| || entries[entry].kind == Outflow || entries[entry].verified { return Err(ValidationError); }
      entries := entries[entry := entries[entry].(verified := true)];
      return Ok(());
    }
  }
}
