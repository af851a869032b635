/** Publishing a version and recording a Settlement keep the invariant. */
module SpendingEvidence {
  import opened Wrappers
  import opened CanonicalValues
  import opened CanonicalJson
  import opened EvidencePayloads
  import opened SpendingState
  import opened SpendingInvariants
  import opened SpendingSafety
  import Integrity
  import PayloadSchema
  import Texts
  import Calendar
  import Decimal

  // ---------------------------------------------------------------- the queued event

  /** A queued payload is stored under its own hash, linked to the hash it was given. */
  lemma Queued(env: Platform, s: State, eventId: string, kind: EventKind, payload: Value, previous: string)
    requires PlatformLaws(env) && payload.Dict? && CanonicalBytes(env.nfc, payload).Ok?
    requires QueueEvent(env, s, eventId, kind, payload, previous).Ok?
    ensures HexText(HashOf(env, payload))
    ensures var (t, id) := QueueEvent(env, s, eventId, kind, payload, previous).value;
            && t == s.(events := t.events) && Grows(s, t)
            && id in t.events
            && t.events[id].kind == kind && t.events[id].previousHash == Integrity.Lower(previous)
            && Anchors(env, t.events[id], payload)
  {
    Integrity.LoadedIsIntact(env, payload);
    CanonicalBytesAccepts(env.nfc, payload);
    Integrity.StoredHashes(env, Load(CanonicalBytes(env.nfc, payload).value).value, payload);
  }

  lemma HashHas64Digits(env: Platform, v: Value)
    requires PlatformLaws(env) && CanonicalBytes(env.nfc, v).Ok?
    ensures HexText(HashOf(env, v)) && |HashOf(env, v)| == 64
  {
  }

  /** An unused id and two well formed hashes: the event is queued. */
  lemma QueueSucceeds(env: Platform, s: State, id: string, kind: EventKind, payload: Value, previous: string)
    requires PlatformLaws(env) && payload.Dict? && CanonicalBytes(env.nfc, payload).Ok?
    requires Integrity.Lower(id) == id && Texts.IsBytes32(id) && id !in s.events
    requires Texts.IsBytes32(Integrity.Lower(previous)) && PayloadSchema.Conforms(SchemaOf(kind), payload)
    ensures QueueEvent(env, s, id, kind, payload, previous).Ok?
    ensures var (t, taken) := QueueEvent(env, s, id, kind, payload, previous).value;
            && taken == id && t == s.(events := s.events[id := t.events[id]])
            && HexText(t.events[id].payloadHash) && |t.events[id].payloadHash| == 64
  {
    hide PayloadSchema.Conforms, SchemaOf;
    CanonicalRoundTrip(env.nfc, payload);
    Queued(env, s, id, kind, payload, previous);
    HashHas64Digits(env, payload);
  }

  /** Queueing the same again changes nothing; the same id with another identity is a conflict. */
  lemma QueuedAgain(env: Platform, s: State, id: string, kind: EventKind, payload: Value, previous: string,
                    other: EventKind, otherPayload: Value, otherPrevious: string)
    requires QueueEvent(env, s, id, kind, payload, previous).Ok?
    ensures var (t, low) := QueueEvent(env, s, id, kind, payload, previous).value;
            && QueueEvent(env, t, id, kind, payload, previous) == Ok((t, low))
            && (QueueEvent(env, t, id, other, otherPayload, otherPrevious).Ok? ==>
                  && QueueEvent(env, t, id, other, otherPayload, otherPrevious) == Ok((t, low))
                  && other == kind && Integrity.Lower(otherPrevious) == Integrity.Lower(previous)
                  && CanonicalBytes(env.nfc, otherPayload).Ok?
                  && Load(CanonicalBytes(env.nfc, otherPayload).value) == Load(CanonicalBytes(env.nfc, payload).value))
  {
    hide CanonicalBytes, Load, PayloadSchema.Conforms, HashOf, Integrity.Lower, Texts.IsBytes32;
  }

  lemma VersionCanonical(env: Platform, f: VersionFacts, c: Option<CaseFacts>)
    requires PlatformLaws(env)
    ensures CanonicalBytes(env.nfc, VersionPayload(env, f, c)).Ok?
  {
    Integrity.PayloadAccepted(env, f, c);
    CanonicalBytesAccepts(env.nfc, VersionPayload(env, f, c));
  }

  lemma SettlementCanonical(env: Platform, f: SettlementFacts)
    requires PlatformLaws(env)
    ensures CanonicalBytes(env.nfc, SettlementPayload(f)).Ok?
  {
    Integrity.SettlementAccepted(env, f);
    CanonicalBytesAccepts(env.nfc, SettlementPayload(f));
  }

  lemma LinkIsLowercase(h: string)
    requires HexText(h)
    ensures Integrity.Lower("0x" + h) == "0x" + h
  {
    var link := "0x" + h;
    assert forall i :: 2 <= i < |link| ==> link[i] == h[i - 2];
  }

  lemma ZeroHashIsLowercase()
    ensures Integrity.Lower(ZERO_HASH) == ZERO_HASH
  {
    LinkIsLowercase(Decimal.Padded(0, 64));
  }

  lemma {:induction false} LastIsHighest(versions: seq<Version>)
    requires forall k :: 0 <= k < |versions| ==> versions[k].number == k + 1
    ensures LastNumber(versions) == |versions|
    ensures versions != [] ==> LastVersion(versions) == Some(versions[|versions| - 1])
  {
    if versions != [] { LastIsHighest(versions[..|versions| - 1]); }
  }

  /** Once numbered 1..n, the next event links to the nth version. */
  lemma PreviousIsLink(env: Platform, s: State, pid: nat, p: Proposal)
    requires ProposalOk(env, s, pid, p)
    ensures LastNumber(p.versions) == |p.versions|
    ensures PreviousHash(s, p.versions) == LinkBefore(s, p, |p.versions|)
    ensures Integrity.Lower(LinkBefore(s, p, |p.versions|)) == LinkBefore(s, p, |p.versions|)
  {
    forall k | 0 <= k < |p.versions| ensures p.versions[k].number == k + 1 { assert VersionOk(env, s, pid, p, k); }
    LastIsHighest(p.versions);
    if p.versions == [] {
      ZeroHashIsLowercase();
    } else {
      assert VersionOk(env, s, pid, p, |p.versions| - 1);
      LinkIsLowercase(s.events[p.versions[|p.versions| - 1].eventId].payloadHash);
    }
  }

  /** A queued payload linked to a proposal's last version. */
  lemma QueuedLink(env: Platform, s: State, pid: nat, eventId: string, kind: EventKind, payload: Value, previous: string)
    requires PlatformLaws(env) && payload.Dict? && CanonicalBytes(env.nfc, payload).Ok?
    requires pid in s.proposals && ProposalOk(env, s, pid, s.proposals[pid])
    requires previous == LinkBefore(s, s.proposals[pid], |s.proposals[pid].versions|)
    requires QueueEvent(env, s, eventId, kind, payload, previous).Ok?
    ensures var (t, id) := QueueEvent(env, s, eventId, kind, payload, previous).value;
            && t == s.(events := t.events) && Grows(s, t) && id in t.events
            && t.events[id].kind == kind && t.events[id].previousHash == previous && HexText(t.events[id].payloadHash)
            && Anchors(env, t.events[id], payload)
  {
    hide QueueEvent, CanonicalBytes, Load, LinkBefore, VersionOk;
    PreviousIsLink(env, s, pid, s.proposals[pid]);
    Queued(env, s, eventId, kind, payload, previous);
  }

  // ---------------------------------------------------------------- publishing

  lemma ScheduleDates(input: VersionInput)
    requires ResolveSchedule(input).Ok?
    ensures Integrity.DateInRange(input.start) && Integrity.DateInRange(input.end)
  {
  }

  /** A new version in place: its row is well formed and nothing else moved. */
  ghost predicate VersionAppended(env: Platform, s: State, t: State, pid: nat) {
    && pid in s.proposals && s.proposals[pid].status in {Draft, Published, InProgress}
    && Grows(s, t) && pid in t.proposals
    && var p, q := s.proposals[pid], t.proposals[pid];
       var n := |p.versions|;
       && t == s.(events := t.events, proposals := s.proposals[pid := q], audit := s.audit + [VersionPublished(pid, n + 1)])
       && |q.versions| == n + 1
       && q == WithVersion(p, q.versions[n])
       && VersionOk(env, t, pid, q, n)
       && !VersionEventTaken(s, q.versions[n].eventId)
  }

  /** What a successful publication commits. */
  ghost predicate PublishCommits(env: Platform, s: State, t: State, pid: nat, draft: Version, eventId: string) {
    && pid in s.proposals && s.proposals[pid].status in {Draft, Published, InProgress}
    && draft.number == LastNumber(s.proposals[pid].versions) + 1 && draft.amount > 0
    && Integrity.DateInRange(draft.start) && Integrity.DateInRange(draft.end)
    && (forall d :: d in draft.quotations ==> d in s.documents)
    && draft.listed == QuotesOf(s.documents, draft.quotations)
    && var p := s.proposals[pid];
       var r := QueueEvent(env, s, eventId, VersionEvent, VersionPayload(env, FactsOf(s, pid, p, draft), CaseOf(s, p)),
                           PreviousHash(s, p.versions));
       && r.Ok?
       && !VersionEventTaken(s, r.value.1)
       && t == r.value.0.(proposals := s.proposals[pid := WithVersion(p, draft.(eventId := r.value.1))],
                          audit := s.audit + [VersionPublished(pid, draft.number)])
  }

  lemma PublicationCommits(env: Platform, s: State, pid: nat, input: VersionInput, eventId: string)
    requires PublishVersion(env, s, pid, input, eventId).Ok?
    ensures pid in s.proposals && ResolveSchedule(input).Ok?
    ensures PublishCommits(env, s, PublishVersion(env, s, pid, input, eventId).value, pid,
                           NewVersion(s.documents, s.proposals[pid], input, ResolveSchedule(input).value, ""), eventId)
  {
    ScheduleDates(input);
  }

  /** The next version in place, and its event: anchored, linked, of its kind. */
  ghost predicate VersionQueued(env: Platform, s: State, t: State, pid: nat, v: Version, c0: Option<CaseFacts>) {
    && pid in s.proposals && pid in t.proposals
    && v.number == |s.proposals[pid].versions| + 1 && v.amount > 0
    && Integrity.DateInRange(v.start) && Integrity.DateInRange(v.end)
    && (forall d :: d in v.quotations ==> d in s.documents)
    && v.listed == QuotesOf(s.documents, v.quotations)
    && v.eventId in t.events
    && var e := t.events[v.eventId];
       && e.kind == VersionEvent && HexText(e.payloadHash)
       && e.previousHash == LinkBefore(s, s.proposals[pid], |s.proposals[pid].versions|)
       && Anchors(env, e, VersionPayload(env, FactsOf(s, pid, s.proposals[pid], v), c0))
  }

  /** Everything else a publication does. */
  ghost predicate OnlyAppends(s: State, t: State, pid: nat, v: Version) {
    && pid in s.proposals && s.proposals[pid].status in {Draft, Published, InProgress}
    && Grows(s, t)
    && t == s.(events := t.events, proposals := s.proposals[pid := WithVersion(s.proposals[pid], v)],
               audit := s.audit + [VersionPublished(pid, v.number)])
    && !VersionEventTaken(s, v.eventId)
  }

  /** Queueing the event of the draft, spelled out. */
  lemma PublishedEvent(env: Platform, s: State, t: State, pid: nat, draft: Version, eventId: string) returns (v: Version)
    requires PlatformLaws(env) && PublishCommits(env, s, t, pid, draft, eventId) && ProposalOk(env, s, pid, s.proposals[pid])
    ensures VersionQueued(env, s, t, pid, v, CaseOf(s, s.proposals[pid])) && OnlyAppends(s, t, pid, v)
  {
    var p := s.proposals[pid];
    var facts, c0 := FactsOf(s, pid, p, draft), CaseOf(s, p);
    hide QueueEvent, VersionPayload, VersionOk, PlatformLaws, LinkBefore, Anchors, VersionEventTaken, Grows, CaseOf,
         CanonicalBytes, HexText, PreviousHash, LastNumber, Integrity.DateInRange;
    PreviousIsLink(env, s, pid, p);
    VersionCanonical(env, facts, c0);
    QueuedLink(env, s, pid, eventId, VersionEvent, VersionPayload(env, facts, c0), PreviousHash(s, p.versions));
    hide ProposalOk;
    v := draft.(eventId := t.proposals[pid].versions[|p.versions|].eventId);
    assert FactsOf(s, pid, p, v) == facts;
  }

  lemma PublishedRow(env: Platform, s: State, t: State, pid: nat, draft: Version, eventId: string)
    requires PlatformLaws(env) && PublishCommits(env, s, t, pid, draft, eventId) && ProposalOk(env, s, pid, s.proposals[pid])
    ensures VersionAppended(env, s, t, pid)
  {
    var v := PublishedEvent(env, s, t, pid, draft, eventId);
    hide PublishCommits, PlatformLaws, VersionOk, ProposalOk, VersionEventTaken;
    QueuedVersionOk(env, s, t, pid, v, CaseOf(s, s.proposals[pid]));
  }

  lemma QueuedVersionOk(env: Platform, s: State, t: State, pid: nat, v: Version, c0: Option<CaseFacts>)
    requires PlatformLaws(env) && VersionQueued(env, s, t, pid, v, c0) && OnlyAppends(s, t, pid, v)
    requires ProposalOk(env, s, pid, s.proposals[pid])
    ensures VersionOk(env, t, pid, t.proposals[pid], |s.proposals[pid].versions|)
  {
    hide VersionPayload, PlatformLaws, CanonicalBytes, Load, HexText, Integrity.DateInRange;
    var p, q := s.proposals[pid], t.proposals[pid];
    LinkFrame(env, s, t, pid, p, q, |p.versions|);
    FactsFrame(s, t, pid, p, q, v);
    hide ProposalOk, LinkBefore, OnlyAppends, Grows, Anchors;
    assert q.versions[|p.versions|] == v;
    assert Anchors(env, t.events[v.eventId], VersionPayload(env, FactsOf(t, pid, q, v), c0));
  }

  lemma AppendedProposals(env: Platform, s: State, t: State, pid: nat)
    requires RowsOk(env, s) && VersionAppended(env, s, t, pid)
    ensures forall q :: q in t.proposals ==> ProposalOk(env, t, q, t.proposals[q])
  {
    forall q | q in t.proposals ensures ProposalOk(env, t, q, t.proposals[q]) {
      if q == pid {
        forall k | 0 <= k < |t.proposals[pid].versions| ensures VersionOk(env, t, pid, t.proposals[pid], k) {
          if k < |s.proposals[pid].versions| { VersionFrame(env, s, t, pid, s.proposals[pid], t.proposals[pid], k); }
        }
      } else {
        ProposalFrame(env, s, t, q, s.proposals[q], t.proposals[q]);
      }
    }
  }

  lemma AppendedSettlements(env: Platform, s: State, t: State, pid: nat)
    requires RowsOk(env, s) && VersionAppended(env, s, t, pid)
    ensures forall i :: 0 <= i < |t.settlements| ==> SettlementOk(env, t, i) && LedgerOk(t, i)
  {
    hide VersionOk, ShowsEvidence, SettlementAnchored;
    UnsettledUnlessCompleted(env, s, pid);
    forall i | 0 <= i < |t.settlements| ensures SettlementOk(env, t, i) && LedgerOk(t, i) {
      assert SettlementOk(env, s, i) && LedgerOk(s, i);
      SettlementFrame(env, s, t, i);
    }
  }

  lemma AppendedEvents(env: Platform, s: State, t: State, pid: nat)
    requires EventsUnshared(s) && VersionAppended(env, s, t, pid)
    ensures EventsUnshared(t)
  {
    var n := |s.proposals[pid].versions|;
    var id := t.proposals[pid].versions[n].eventId;
    forall q, k | q in s.proposals && 0 <= k < |s.proposals[q].versions| ensures s.proposals[q].versions[k].eventId != id { }
    forall p, q, j, k | p in t.proposals && q in t.proposals
        && 0 <= j < |t.proposals[p].versions| && 0 <= k < |t.proposals[q].versions|
        && t.proposals[p].versions[j].eventId == t.proposals[q].versions[k].eventId
      ensures p == q && j == k
    {
      if j < |s.proposals[p].versions| { assert t.proposals[p].versions[j] == s.proposals[p].versions[j]; }
      if k < |s.proposals[q].versions| { assert t.proposals[q].versions[k] == s.proposals[q].versions[k]; }
    }
  }

  lemma AppendedAudit(env: Platform, s: State, t: State, pid: nat)
    requires AuditOk(s) && VersionAppended(env, s, t, pid)
    requires SettlementOf(s, pid).None?
    requires s.proposals[pid].status == Draft <==> s.proposals[pid].versions == []
    ensures AuditOk(t)
  {
    AuditedStep(s, t, VersionPublished(pid, |s.proposals[pid].versions| + 1));
  }

  lemma PublishKeeps(env: Platform, s: State, pid: nat, input: VersionInput, eventId: string)
    requires PlatformLaws(env) && Inv(env, s) && PublishVersion(env, s, pid, input, eventId).Ok?
    ensures Inv(env, PublishVersion(env, s, pid, input, eventId).value)
  {
    var t := PublishVersion(env, s, pid, input, eventId).value;
    PublicationCommits(env, s, pid, input, eventId);
    PublishedRow(env, s, t, pid, NewVersion(s.documents, s.proposals[pid], input, ResolveSchedule(input).value, ""), eventId);
    AppendKeeps(env, s, t, pid);
  }

  lemma AppendKeepsRows(env: Platform, s: State, t: State, pid: nat)
    requires RowsOk(env, s) && VersionAppended(env, s, t, pid)
    ensures RowsOk(env, t)
  {
    AppendedProposals(env, s, t, pid);
    AppendedSettlements(env, s, t, pid);
    AppendedEvents(env, s, t, pid);
  }

  lemma AppendKeeps(env: Platform, s: State, t: State, pid: nat)
    requires Inv(env, s) && VersionAppended(env, s, t, pid)
    ensures Inv(env, t)
  {
    hide RowsOk, AuditOk, MoneyOk, VersionOk;
    AppendKeepsRows(env, s, t, pid);
    DraftHasNoVersion(env, s, pid);
    UnsettledUnlessCompleted(env, s, pid);
    AppendedAudit(env, s, t, pid);
    PaidFrame(s, t);
  }

  lemma DraftHasNoVersion(env: Platform, s: State, pid: nat)
    requires RowsOk(env, s) && pid in s.proposals
    ensures s.proposals[pid].status == Draft <==> s.proposals[pid].versions == []
  {
    assert ProposalOk(env, s, pid, s.proposals[pid]);
  }

  // ---------------------------------------------------------------- settling

  /** One more settlement with its ledger entry and outflow, the rest unmoved. */
  ghost predicate SettlementAppended(env: Platform, s: State, t: State, pid: nat) {
    && pid in s.proposals && s.proposals[pid].status == Completed && SettlementOf(s, pid).None?
    && Grows(s, t)
    && |t.settlements| == |s.settlements| + 1
    && var i := |s.settlements|;
       var row := t.settlements[i];
       && |t.ledger| == |s.ledger| + 1
       && t == s.(events := t.events, settlements := s.settlements + [row], ledger := s.ledger + [t.ledger[|s.ledger|]],
                  entries := CreateOutflow(s.entries, pid, s.proposals[pid].building, row.amount), audit := s.audit + [Settled(pid)])
       && row.proposal == pid
       && SettlementOk(env, t, i)
       && (|s.ledger| == i ==> LedgerOk(t, i))
       && !SettlementEventTaken(s, row.eventId)
  }

  /** What a successful settlement commits. */
  ghost predicate SettleCommits(env: Platform, s: State, t: State, pid: nat, transfer: nat, eventId: string) {
    && pid in s.proposals && s.proposals[pid].status == Completed && SettlementOf(s, pid).None?
    && transfer in s.documents
    && var p := s.proposals[pid];
       && p.current.Some? && p.current.value < |p.versions|
       && var v := p.versions[p.current.value];
          var facts := SettlementFacts(|s.settlements| + 1, pid, v.number, v.amount, s.documents[transfer].sha256, s.now);
          var previous := if v.eventId in s.events then "0x" + s.events[v.eventId].payloadHash else "";
          var r := QueueEvent(env, s, eventId, SettlementEvent, SettlementPayload(facts), previous);
          && r.Ok?
          && !SettlementEventTaken(s, r.value.1)
          && t == r.value.0.(
               settlements := s.settlements + [Settlement(pid, v.amount, transfer, s.now, r.value.1)],
               entries := CreateOutflow(s.entries, pid, p.building, v.amount),
               ledger := s.ledger + [LedgerEntry(pid, |s.settlements|, v.amount, v.contractor, DocumentHashes(s, v, transfer))],
               audit := s.audit + [Settled(pid)])
  }

  lemma SettlementCommits(env: Platform, s: State, pid: nat, transfer: nat, eventId: string)
    requires RecordSettlement(env, s, pid, transfer, eventId).Ok?
    ensures SettleCommits(env, s, RecordSettlement(env, s, pid, transfer, eventId).value, pid, transfer, eventId)
  {
  }

  lemma SettledRow(env: Platform, s: State, t: State, pid: nat, transfer: nat, eventId: string)
    requires PlatformLaws(env) && SettleCommits(env, s, t, pid, transfer, eventId) && ProposalOk(env, s, pid, s.proposals[pid])
    requires |s.ledger| == |s.settlements|
    ensures SettlementAppended(env, s, t, pid)
  {
    SettledEvent(env, s, t, pid, transfer, eventId);
    SettledEvidence(env, s, t, pid, transfer, eventId);
    hide QueueEvent, CanonicalBytes, Load, SettlementPayload, ShowsEvidence, ProposalOk, PlatformLaws, LinkBefore, Anchors;
    SettledRowOk(env, s, t, pid);
    hide SettlementOk;
  }

  /** What the settlement's event says: the row about to be written, at this moment. */
  function NextSettlement(s: State, pid: nat, transfer: nat): SettlementFacts
    requires pid in s.proposals && s.proposals[pid].versions != [] && transfer in s.documents
  {
    var v := s.proposals[pid].versions[|s.proposals[pid].versions| - 1];
    SettlementFacts(|s.settlements| + 1, pid, v.number, v.amount, s.documents[transfer].sha256, s.now)
  }

  lemma SettledEvent(env: Platform, s: State, t: State, pid: nat, transfer: nat, eventId: string)
    requires PlatformLaws(env) && SettleCommits(env, s, t, pid, transfer, eventId) && ProposalOk(env, s, pid, s.proposals[pid])
    ensures Grows(s, t) && t.documents == s.documents && t.proposals == s.proposals && t.now == s.now
    ensures |t.settlements| == |s.settlements| + 1 && s.proposals[pid].versions != []
    ensures var row := t.settlements[|s.settlements|];
            && row.proposal == pid && row.eventId in t.events
            && var e := t.events[row.eventId];
               && e.kind == SettlementEvent && e.previousHash == LinkBefore(s, s.proposals[pid], |s.proposals[pid].versions|)
               && Anchors(env, e, SettlementPayload(SettlementFactsOf(t, |s.settlements|)))
  {
    var p := s.proposals[pid];
    SettlementFactsFrame(env, s, t, pid, transfer, eventId);
    var facts := NextSettlement(s, pid, transfer);
    hide QueueEvent, SettlementPayload, SettlementFactsOf, VersionOk, PlatformLaws, Anchors, CreateOutflow, DocumentHashes,
         SettlementEventTaken, CanonicalBytes, HexText;
    SettlementCanonical(env, facts);
    assert p.current.value == |p.versions| - 1;
    QueuedLink(env, s, pid, eventId, SettlementEvent, SettlementPayload(facts), LinkBefore(s, p, |p.versions|));
  }

  lemma SettlementFactsFrame(env: Platform, s: State, t: State, pid: nat, transfer: nat, eventId: string)
    requires SettleCommits(env, s, t, pid, transfer, eventId) && ProposalOk(env, s, pid, s.proposals[pid])
    ensures t.documents == s.documents && t.proposals == s.proposals && s.proposals[pid].versions != []
    ensures |t.settlements| == |s.settlements| + 1 && t.settlements[|s.settlements|].proposal == pid
    ensures SettlementFactsOf(t, |s.settlements|) == NextSettlement(s, pid, transfer)
  {
    hide SettlementPayload, VersionOk, CreateOutflow, DocumentHashes, QueueEvent, SettlementEventTaken;
    var v := s.proposals[pid].versions[s.proposals[pid].current.value];
    QueueGrows(env, s, eventId, SettlementEvent,
               SettlementPayload(SettlementFacts(|s.settlements| + 1, pid, v.number, v.amount, s.documents[transfer].sha256, s.now)),
               if v.eventId in s.events then "0x" + s.events[v.eventId].payloadHash else "");
  }

  lemma SettledEvidence(env: Platform, s: State, t: State, pid: nat, transfer: nat, eventId: string)
    requires SettleCommits(env, s, t, pid, transfer, eventId) && ProposalOk(env, s, pid, s.proposals[pid])
    requires t.documents == s.documents && |s.ledger| == |s.settlements|
    ensures |t.ledger| == |s.ledger| + 1 && s.proposals[pid].versions != []
    ensures ShowsEvidence(t, t.ledger[|s.ledger|], s.proposals[pid].versions[|s.proposals[pid].versions| - 1], transfer)
  {
    hide QueueEvent, SettlementPayload, VersionOk, CreateOutflow;
    var v := s.proposals[pid].versions[s.proposals[pid].current.value];
    assert t.ledger[|s.ledger|].hashes == DocumentHashes(t, v, transfer);
  }

  lemma SettledRowOk(env: Platform, s: State, t: State, pid: nat)
    requires PlatformLaws(env) && Grows(s, t) && t.proposals == s.proposals && pid in s.proposals
    requires ProposalOk(env, s, pid, s.proposals[pid])
    requires |t.settlements| == |s.settlements| + 1
    requires var p, row := s.proposals[pid], t.settlements[|s.settlements|];
             && p.status == Completed && p.versions != []
             && (|s.settlements| < |t.ledger| ==>
                   ShowsEvidence(t, t.ledger[|s.settlements|], p.versions[|p.versions| - 1], row.transfer))
             && row.proposal == pid && row.amount == p.versions[|p.versions| - 1].amount
             && row.settledAt <= t.now && row.transfer in t.documents && row.eventId in t.events
             && var e := t.events[row.eventId];
                && e.kind == SettlementEvent && e.previousHash == LinkBefore(s, p, |p.versions|)
                && Anchors(env, e, SettlementPayload(SettlementFactsOf(t, |s.settlements|)))
    ensures SettlementOk(env, t, |s.settlements|)
  {
    var p := s.proposals[pid];
    hide Anchors, ShowsEvidence, SettlementPayload, SettlementFactsOf, VersionOk;
    LinkFrame(env, s, t, pid, p, p, |p.versions|);
  }

  lemma SettledProposals(env: Platform, s: State, t: State, pid: nat)
    requires RowsOk(env, s) && SettlementAppended(env, s, t, pid)
    ensures forall q :: q in t.proposals ==> ProposalOk(env, t, q, t.proposals[q])
  {
    forall q | q in t.proposals ensures ProposalOk(env, t, q, t.proposals[q]) {
      ProposalFrame(env, s, t, q, s.proposals[q], t.proposals[q]);
    }
  }

  lemma SettledSettlements(env: Platform, s: State, t: State, pid: nat)
    requires RowsOk(env, s) && SettlementAppended(env, s, t, pid)
    ensures forall i :: 0 <= i < |t.settlements| ==> SettlementOk(env, t, i)
  {
    hide VersionOk, EventsUnshared, ShowsEvidence, SettlementAnchored, LedgerOk, CreateOutflow;
    forall i | 0 <= i < |t.settlements| ensures SettlementOk(env, t, i) {
      if i < |s.settlements| {
        assert SettlementOk(env, s, i);
        SettlementFrame(env, s, t, i);
      }
    }
  }

  lemma SettledLedger(env: Platform, s: State, t: State, pid: nat)
    requires RowsOk(env, s) && SettlementAppended(env, s, t, pid)
    ensures forall i :: 0 <= i < |t.settlements| ==> LedgerOk(t, i)
  {
    hide ProposalOk, SettlementOk, EventsUnshared, CreateOutflow;
    forall i | 0 <= i < |t.settlements| ensures LedgerOk(t, i) {
      if i < |s.settlements| { assert LedgerOk(s, i); }
    }
  }

  lemma SettledAudit(env: Platform, s: State, t: State, pid: nat)
    requires AuditOk(s) && SettlementAppended(env, s, t, pid)
    ensures AuditOk(t)
  {
    hide SettlementOk, LedgerOk, CreateOutflow, Grows, Replay, Trail;
    assert t.settlements[|s.settlements|].proposal == pid;
    forall q | q != pid ensures SettlementOf(t, q).Some? == SettlementOf(s, q).Some? {
      if exists i :: 0 <= i < |s.settlements| && s.settlements[i].proposal == q {
        var i :| 0 <= i < |s.settlements| && s.settlements[i].proposal == q;
        assert t.settlements[i].proposal == q;
      }
    }
    AuditedStep(s, t, Settled(pid));
  }

  /** An unsettled proposal's outflow key is held, if at all, by an entry that is no outflow. */
  lemma UnsettledKeyIsSquatted(s: State, pid: nat)
    requires MoneyOk(s) && SettlementOf(s, pid).None?
    ensures KeyUsed(s.entries, OutflowKey(pid)) <==> Squatted(s.entries, pid)
  {
    forall i | 0 <= i < |s.entries| && s.entries[i].key == OutflowKey(pid) ensures s.entries[i].kind != Outflow {
      if s.entries[i].kind == Outflow { OutflowKeyInjective(pid, s.entries[i].proposal.value); }
    }
  }

  lemma SettledOutflows(s: State, t: State, pid: nat)
    requires MoneyOk(s) && pid in s.proposals && SettlementOf(s, pid).None?
    requires |t.settlements| == |s.settlements| + 1 && t.proposals == s.proposals
    requires t.settlements == s.settlements + [t.settlements[|s.settlements|]]
    requires t.settlements[|s.settlements|].proposal == pid
    requires t.entries == CreateOutflow(s.entries, pid, s.proposals[pid].building, t.settlements[|s.settlements|].amount)
    ensures forall b :: OutflowSum(t.entries, b) == -PaidSum(t, t.settlements, b, false)
  {
    var row := t.settlements[|s.settlements|];
    var e := FundEntry(s.proposals[pid].building, Outflow, -row.amount, Some(pid), OutflowKey(pid), false);
    UnsettledKeyIsSquatted(s, pid);
    forall q ensures Squatted(t.entries, q) == Squatted(s.entries, q) { SquattingFrame(s.entries, e, q); }
    forall b ensures OutflowSum(t.entries, b) == -PaidSum(t, t.settlements, b, false) {
      OutflowSumAppends(s.entries, e, b);
      PaidSumAppends(t, s.settlements, row, b, false);
      PaidSumFrame(s, t, s.settlements, b, false);
    }
  }

  lemma SettledKeys(s: State, t: State, pid: nat)
    requires MoneyOk(s) && pid in s.proposals && SettlementOf(s, pid).None?
    requires |t.settlements| == |s.settlements| + 1
    requires t.settlements == s.settlements + [t.settlements[|s.settlements|]]
    requires t.settlements[|s.settlements|].proposal == pid
    requires t.entries == CreateOutflow(s.entries, pid, s.proposals[pid].building, t.settlements[|s.settlements|].amount)
    ensures forall i, j :: 0 <= i < j < |t.entries| ==> t.entries[i].key != t.entries[j].key
    ensures forall i :: 0 <= i < |t.settlements| ==> KeyUsed(t.entries, OutflowKey(t.settlements[i].proposal))
  {
    forall key | KeyUsed(s.entries, key) ensures KeyUsed(t.entries, key) {
      var j :| 0 <= j < |s.entries| && s.entries[j].key == key;
      assert t.entries[j] == s.entries[j];
    }
    assert KeyUsed(t.entries, OutflowKey(pid)) by {
      if !KeyUsed(s.entries, OutflowKey(pid)) { assert t.entries[|s.entries|].key == OutflowKey(pid); }
    }
    forall i | 0 <= i < |t.settlements| ensures KeyUsed(t.entries, OutflowKey(t.settlements[i].proposal)) {
      if i < |s.settlements| { assert KeyUsed(s.entries, OutflowKey(s.settlements[i].proposal)); }
    }
  }

  lemma SettledMoney(env: Platform, s: State, t: State, pid: nat)
    requires MoneyOk(s) && SettlementAppended(env, s, t, pid)
    ensures MoneyOk(t)
  {
    SettledKeys(s, t, pid);
    SettledOutflows(s, t, pid);
    forall i | 0 <= i < |t.entries| && t.entries[i].kind == Outflow
      ensures t.entries[i].proposal.Some? && t.entries[i].key == OutflowKey(t.entries[i].proposal.value) && Backed(t, t.entries[i])
    {
      if i < |s.entries| {
        assert t.entries[i] == s.entries[i];
        var j :| 0 <= j < |s.settlements| && s.settlements[j].proposal == s.entries[i].proposal.value
                 && s.entries[i].amount == -s.settlements[j].amount;
        assert t.settlements[j] == s.settlements[j];
      } else {
        assert t.settlements[|s.settlements|].proposal == pid;
      }
    }
  }

  lemma SettledKeepsRows(env: Platform, s: State, t: State, pid: nat)
    requires RowsOk(env, s) && SettlementAppended(env, s, t, pid)
    ensures RowsOk(env, t)
  {
    hide VersionOk, ProposalOk, SettlementOk, LedgerOk;
    SettledProposals(env, s, t, pid);
    SettledSettlements(env, s, t, pid);
    SettledLedger(env, s, t, pid);
    forall i | 0 <= i < |s.settlements| ensures s.settlements[i].eventId != t.settlements[|s.settlements|].eventId { }
  }

  lemma SettleKeeps(env: Platform, s: State, pid: nat, transfer: nat, eventId: string)
    requires PlatformLaws(env) && Inv(env, s) && RecordSettlement(env, s, pid, transfer, eventId).Ok?
    ensures Inv(env, RecordSettlement(env, s, pid, transfer, eventId).value)
  {
    var t := RecordSettlement(env, s, pid, transfer, eventId).value;
    SettlementCommits(env, s, pid, transfer, eventId);
    SettledRow(env, s, t, pid, transfer, eventId);
    SettledKeepsRows(env, s, t, pid);
    SettledAudit(env, s, t, pid);
    SettledMoney(env, s, t, pid);
  }

  // ---------------------------------------------------------------- what was entered is what is published

  /** Two digits, two digits and four, between slashes: day, month and year. */
  ghost predicate DateShown(text: string, d: Calendar.Date) {
    && |text| == 10 && text[2] == '/' && text[5] == '/'
    && Decimal.AllDigits(text[..2]) && Decimal.AllDigits(text[3..5]) && Decimal.AllDigits(text[6..])
    && Decimal.NatValue(text[..2]) == d.day && Decimal.NatValue(text[3..5]) == d.month && Decimal.NatValue(text[6..]) == d.year
  }

  /** The frozen label shows both dates if there are any, else the text that was entered, else that nothing is scheduled. */
  ghost predicate ScheduleShows(input: VersionInput, shown: string) {
    if input.start.Some? && input.end.Some? then
      |shown| == 23 && DateShown(shown[..10], input.start.value) && shown[10..13] == " \U{2013} " && DateShown(shown[13..], input.end.value)
    else
      || (shown != "" && Texts.Trimmed(input.schedule, shown))
      || (shown == "To be scheduled" && forall i :: 0 <= i < |input.schedule| ==> Texts.IsSpace(input.schedule[i]))
  }

  lemma DateIsShown(d: Calendar.Date)
    requires Calendar.ValidDate(d) && d.year < 10000
    ensures DateShown(Texts.DayMonthYear(d), d)
  {
    var text := Texts.DayMonthYear(d);
    assert Decimal.Pow10(2) == 100 && Decimal.Pow10(4) == 10000;
    Decimal.ValueOfPadded(d.day, 2);
    Decimal.ValueOfPadded(d.month, 2);
    Decimal.ValueOfPadded(d.year, 4);
    hide Decimal.Padded, Decimal.NatValue, Decimal.Pow10;
    assert text[..2] == Decimal.Padded(d.day, 2) && text[3..5] == Decimal.Padded(d.month, 2) && text[6..] == Decimal.Padded(d.year, 4);
  }

  lemma ScheduleIsShown(input: VersionInput)
    requires ResolveSchedule(input).Ok?
    ensures ScheduleShows(input, ResolveSchedule(input).value)
  {
    hide Texts.DayMonthYear, DateShown, Calendar.ValidDate, Texts.IsSpace, Texts.Trimmed;
    var shown := ResolveSchedule(input).value;
    if input.start.Some? && input.end.Some? {
      DateIsShown(input.start.value);
      DateIsShown(input.end.value);
      TenLong(input.start.value);
      TenLong(input.end.value);
      var a, b := Texts.DayMonthYear(input.start.value), Texts.DayMonthYear(input.end.value);
      assert shown == a + " \U{2013} " + b;
      assert shown[..10] == a && shown[10..13] == " \U{2013} " && shown[13..] == b;
    } else {
      Texts.StripTrims(input.schedule);
    }
  }

  lemma TenLong(d: Calendar.Date)
    ensures |Texts.DayMonthYear(d)| == 10
  {
    hide Decimal.Padded;
  }

  /** A published version says what was entered: amount, dates and quotations as they are, texts up to surrounding blanks. */
  lemma PublishedAsEntered(env: Platform, s: State, pid: nat, input: VersionInput, eventId: string)
    requires PublishVersion(env, s, pid, input, eventId).Ok?
    ensures var t := PublishVersion(env, s, pid, input, eventId).value;
            && pid in t.proposals && t.proposals[pid].current.Some?
            && t.proposals[pid].current.value < |t.proposals[pid].versions|
            && var v := t.proposals[pid].versions[t.proposals[pid].current.value];
               && v.amount == input.amount && v.start == input.start && v.end == input.end && v.quotations == input.quotations
               && Texts.Trimmed(input.contractor, v.contractor) && Texts.Trimmed(input.purpose, v.purpose) && Texts.Trimmed(input.action, v.action)
               && v.contractor != "" && v.purpose != "" && v.action != ""
               && v.listed == QuotesOf(s.documents, input.quotations)
               && ScheduleShows(input, v.schedule)
               && (v.start.Some? <==> v.end.Some?) && (v.start.Some? ==> !Before(v.end.value, v.start.value))
  {
    PublicationCommits(env, s, pid, input, eventId);
    Texts.StripTrims(input.contractor);
    Texts.StripTrims(input.purpose);
    Texts.StripTrims(input.action);
    ScheduleIsShown(input);
    hide QueueEvent, VersionPayload, PreviousHash, Texts.Trimmed, ScheduleShows;
  }
}
