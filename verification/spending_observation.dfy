/**
 The verification of a published ledger entry, end to end: what it reads, the local checks and the verdict
 they lead to; for entries nobody touched, and for any database written over afterwards.
 */
module SpendingObservation {
  import opened Wrappers
  import opened CanonicalValues
  import opened CanonicalJson
  import opened EvidencePayloads
  import opened SpendingState
  import opened SpendingInvariants
  import opened SpendingRuns
  import opened SpendingTheorems
  import Calendar
  import Integrity
  import IntegrityVerdict
  import Outbox

  // ---------------------------------------------------------------- what is read

  /** The row of one version and its event, as the database holds them now. */
  datatype VersionReading = VersionReading(
    eventId: string,
    status: Outbox.Status,
    payload: Value,
    payloadHash: string,
    facts: VersionFacts,
    caseNow: Option<CaseFacts>)

  datatype SettlementReading = SettlementReading(
    eventId: string,
    status: Outbox.Status,
    payload: Value,
    payloadHash: string,
    facts: SettlementFacts)

  /** Everything the verification of one entry reads: documents, versions in order, settlement. */
  datatype Reading = Reading(docs: seq<IntegrityVerdict.Document>, versions: seq<VersionReading>, settlement: SettlementReading)

  /** What the registry answers for each event. */
  datatype Registry = Registry(answer: string -> IntegrityVerdict.Answer, disabled: bool, reachable: bool)

  function VersionCheck(env: Platform, v: VersionReading): Result<Integrity.LocalCheck, CanonicalValues.Error> {
    Integrity.CheckLocal(env, v.payload, v.payloadHash, Some(Integrity.RebuiltVersion(env, v.facts, v.caseNow, v.payload)))
  }

  function SettlementCheck(env: Platform, v: SettlementReading): Result<Integrity.LocalCheck, CanonicalValues.Error> {
    Integrity.CheckLocal(env, v.payload, v.payloadHash, Some(SettlementPayload(v.facts)))
  }

  function Checks(env: Platform, r: Reading): (c: seq<Result<Integrity.LocalCheck, CanonicalValues.Error>>)
    ensures |c| == |r.versions| + 1
    ensures forall k :: 0 <= k < |r.versions| ==> c[k] == VersionCheck(env, r.versions[k])
    ensures c[|r.versions|] == SettlementCheck(env, r.settlement)
  {
    seq(|r.versions|, k requires 0 <= k < |r.versions| => VersionCheck(env, r.versions[k])) + [SettlementCheck(env, r.settlement)]
  }

  function Locals(env: Platform, r: Reading): (locals: seq<bool>)
    ensures |locals| == |r.versions| + 1
    ensures forall k :: 0 <= k < |locals| ==> locals[k] == Integrity.Verified(Checks(env, r)[k])
  {
    seq(|r.versions| + 1, k requires 0 <= k < |r.versions| + 1 => Integrity.Verified(Checks(env, r)[k]))
  }

  function ProbeOf(eventId: string, payloadHash: string, status: Outbox.Status, registry: Registry): IntegrityVerdict.Probe {
    IntegrityVerdict.Probe(IntegrityVerdict.Event(payloadHash, status), registry.answer(eventId))
  }

  /** The events of all versions in order, then the Settlement's. */
  function Probes(r: Reading, registry: Registry): (ps: seq<IntegrityVerdict.Probe>)
    ensures |ps| == |r.versions| + 1
    ensures forall k :: 0 <= k < |r.versions| ==>
              ps[k] == ProbeOf(r.versions[k].eventId, r.versions[k].payloadHash, r.versions[k].status, registry)
    ensures ps[|r.versions|] == ProbeOf(r.settlement.eventId, r.settlement.payloadHash, r.settlement.status, registry)
  {
    seq(|r.versions|, k requires 0 <= k < |r.versions| =>
      ProbeOf(r.versions[k].eventId, r.versions[k].payloadHash, r.versions[k].status, registry))
    + [ProbeOf(r.settlement.eventId, r.settlement.payloadHash, r.settlement.status, registry)]
  }

  /** No local check escapes with an exception. */
  predicate Checkable(env: Platform, r: Reading) { forall k :: 0 <= k < |Checks(env, r)| ==> Checks(env, r)[k].Ok? }

  /** None when a local check escapes with an exception, and no observation is recorded. */
  ghost function Observed(env: Platform, r: Reading, registry: Registry): Option<IntegrityVerdict.Verdict> {
    if !Checkable(env, r) then None
    else Some(IntegrityVerdict.Outcome(r.docs, Locals(env, r), Probes(r, registry), registry.disabled, registry.reachable))
  }

  /** The observation is recorded as independent: the registry gave a record for every event. */
  ghost predicate Consulted(r: Reading, registry: Registry) {
    !registry.disabled && registry.reachable && IntegrityVerdict.AllAnswered(Probes(r, registry))
  }

  ghost predicate ChainDisagrees(r: Reading, registry: Registry) {
    IntegrityVerdict.ChainDisagrees(Probes(r, registry), registry.disabled, registry.reachable)
  }

  ghost predicate ChainAvailable(r: Reading, registry: Registry) {
    IntegrityVerdict.ChainAvailable(Probes(r, registry), registry.disabled, registry.reachable)
  }

  ghost predicate AllSettled(r: Reading) {
    && (forall k :: 0 <= k < |r.versions| ==> r.versions[k].status == Outbox.Local || r.versions[k].status == Outbox.Confirmed)
    && (r.settlement.status == Outbox.Local || r.settlement.status == Outbox.Confirmed)
  }

  /** Some event that is not settled locally has a record with another hash. */
  lemma DisagreementMeans(r: Reading, registry: Registry)
    ensures ChainDisagrees(r, registry) <==>
            !registry.disabled && registry.reachable
            && exists k :: 0 <= k <= |r.versions| && IntegrityVerdict.Contradicted(Probes(r, registry)[k])
  {
    var ps := Probes(r, registry);
    if p :| p in ps && IntegrityVerdict.Contradicted(p) {
      var k :| 0 <= k < |ps| && ps[k] == p;
      assert IntegrityVerdict.Contradicted(Probes(r, registry)[k]);
    }
  }

  lemma SettledMeans(r: Reading, registry: Registry)
    ensures IntegrityVerdict.AllSettled(Probes(r, registry)) <==> AllSettled(r)
  {
    var ps := Probes(r, registry);
    if IntegrityVerdict.AllSettled(ps) {
      forall k | 0 <= k <= |r.versions| ensures ps[k].event.status == Outbox.Local || ps[k].event.status == Outbox.Confirmed {
        assert ps[k] in ps;
      }
      assert forall k :: 0 <= k < |r.versions| ==> ps[k].event.status == r.versions[k].status;
    }
  }

  /** The verdict in terms of documents, checks and chain. */
  lemma ObservedMeans(env: Platform, r: Reading, registry: Registry)
    ensures Observed(env, r, registry) == Some(IntegrityVerdict.Verified) <==>
            && IntegrityVerdict.AllClean(r.docs) && IntegrityVerdict.AllVerified(Locals(env, r))
            && !ChainDisagrees(r, registry) && (ChainAvailable(r, registry) || AllSettled(r))
    ensures IntegrityVerdict.AllClean(r.docs) && Checkable(env, r) ==>
            (Observed(env, r, registry) == Some(IntegrityVerdict.Mismatch)
             <==> !IntegrityVerdict.AllVerified(Locals(env, r)) || ChainDisagrees(r, registry))
  {
    IntegrityVerdict.VerifiedDocuments(r.docs);
    SettledMeans(r, registry);
    hide Probes, IntegrityVerdict.AllClean, AllSettled, IntegrityVerdict.AllSettled, IntegrityVerdict.ChainAvailable, IntegrityVerdict.ChainDisagrees;
    if IntegrityVerdict.AllVerified(Locals(env, r)) {
      forall k | 0 <= k < |Checks(env, r)| ensures Checks(env, r)[k].Ok? { assert Locals(env, r)[k]; }
    }
  }

  // ---------------------------------------------------------------- what a reachable state shows

  /** Settlement i can be observed: its proposal and all events are there. */
  ghost predicate Observable(s: State, i: nat) {
    && i < |s.settlements| && s.settlements[i].proposal in s.proposals && s.settlements[i].eventId in s.events
    && s.proposals[s.settlements[i].proposal].versions != []
    && forall k :: 0 <= k < |s.proposals[s.settlements[i].proposal].versions| ==>
         s.proposals[s.settlements[i].proposal].versions[k].eventId in s.events
  }

  /** Storage and outbox: what a document hashes to, if it can be read, and the status of each event. */
  datatype Surroundings = Surroundings(bytes: nat -> Option<string>, status: string -> Outbox.Status)

  function VersionsOf(s: State, i: nat): seq<Version>
    requires i < |s.settlements| && s.settlements[i].proposal in s.proposals
  {
    s.proposals[s.settlements[i].proposal].versions
  }

  /** What the current version's snapshot lists, in order, against the documents' own rows; then the transfer proof. */
  function DocumentsOf(s: State, i: nat, bytes: nat -> Option<string>): seq<IntegrityVerdict.Document>
    requires Observable(s, i)
  {
    var listed, transfer := VersionsOf(s, i)[|VersionsOf(s, i)| - 1].listed, s.settlements[i].transfer;
    seq(|listed|, n requires 0 <= n < |listed| =>
      IntegrityVerdict.Document(QuoteOf(s.documents, listed[n].id).sha256, listed[n].sha256, bytes(listed[n].id)))
    + [IntegrityVerdict.Document(QuoteOf(s.documents, transfer).sha256, QuoteOf(s.documents, transfer).sha256, bytes(transfer))]
  }

  function VersionNow(s: State, i: nat, k: nat, status: string -> Outbox.Status): VersionReading
    requires Observable(s, i) && k < |VersionsOf(s, i)|
  {
    var pid, v := s.settlements[i].proposal, VersionsOf(s, i)[k];
    VersionReading(v.eventId, status(v.eventId), s.events[v.eventId].payload, s.events[v.eventId].payloadHash,
                   FactsOf(s, pid, s.proposals[pid], v), CaseOf(s, s.proposals[pid]))
  }

  function SettlementNow(s: State, i: nat, status: string -> Outbox.Status): SettlementReading
    requires Observable(s, i)
  {
    var id := s.settlements[i].eventId;
    SettlementReading(id, status(id), s.events[id].payload, s.events[id].payloadHash, SettlementFactsOf(s, i))
  }

  function ReadingOf(s: State, i: nat, around: Surroundings): (r: Reading)
    requires Observable(s, i)
    ensures |r.versions| == |VersionsOf(s, i)| && r.settlement == SettlementNow(s, i, around.status)
    ensures forall k :: 0 <= k < |r.versions| ==> r.versions[k] == VersionNow(s, i, k, around.status)
  {
    Reading(DocumentsOf(s, i, around.bytes),
            seq(|VersionsOf(s, i)|, k requires 0 <= k < |VersionsOf(s, i)| => VersionNow(s, i, k, around.status)),
            SettlementNow(s, i, around.status))
  }

  /** Every document of the entry can be read and hashes to what was recorded of it. */
  ghost predicate DocumentsIntact(s: State, i: nat, bytes: nat -> Option<string>)
    requires Observable(s, i)
  {
    forall d :: d in VersionsOf(s, i)[|VersionsOf(s, i)| - 1].quotations || d == s.settlements[i].transfer ==>
      bytes(d) == Some(QuoteOf(s.documents, d).sha256)
  }

  lemma IntactIsClean(s: State, i: nat, bytes: nat -> Option<string>)
    requires Observable(s, i)
    requires var v := VersionsOf(s, i)[|VersionsOf(s, i)| - 1]; v.listed == QuotesOf(s.documents, v.quotations)
    ensures IntegrityVerdict.AllClean(DocumentsOf(s, i, bytes)) <==> DocumentsIntact(s, i, bytes)
  {
    var v := VersionsOf(s, i)[|VersionsOf(s, i)| - 1];
    var quotations, transfer, docs := v.quotations, s.settlements[i].transfer, DocumentsOf(s, i, bytes);
    var ids := quotations + [transfer];
    assert forall n :: 0 <= n < |ids| ==>
      (IntegrityVerdict.Clean(docs[n]) <==> bytes(ids[n]) == Some(QuoteOf(s.documents, ids[n]).sha256));
    if IntegrityVerdict.AllClean(docs) {
      forall d | d in quotations || d == transfer ensures bytes(d) == Some(QuoteOf(s.documents, d).sha256) {
        assert d in ids;
        var n :| 0 <= n < |ids| && ids[n] == d;
        assert IntegrityVerdict.Clean(docs[n]);
      }
    }
    if DocumentsIntact(s, i, bytes) {
      forall n | 0 <= n < |docs| ensures IntegrityVerdict.Clean(docs[n]) {
        assert ids[n] in quotations || ids[n] == transfer;
      }
    }
  }

  /** What the invariant says of an entry: its events are there, and its snapshot lists its quotations. */
  lemma EntryStands(env: Platform, s: State, i: nat)
    requires PlatformLaws(env) && Inv(env, s) && i < |s.settlements|
    ensures Observable(s, i)
    ensures var v := VersionsOf(s, i)[|VersionsOf(s, i)| - 1]; v.listed == QuotesOf(s.documents, v.quotations)
  {
    SettlementStandsOk(env, s, i);
    var versions, pid := VersionsOf(s, i), s.settlements[i].proposal;
    hide Inv, SettlementAnchored, HexText, PlatformLaws, VersionStandsOk;
    forall k | 0 <= k < |versions|
      ensures versions[k].eventId in s.events && versions[k].listed == QuotesOf(s.documents, versions[k].quotations)
    {
      VersionStands(env, s, pid, k);
    }
    assert versions[|versions| - 1].listed == QuotesOf(s.documents, versions[|versions| - 1].quotations);
  }

  lemma SettlementStandsOk(env: Platform, s: State, i: nat)
    requires PlatformLaws(env) && Inv(env, s) && i < |s.settlements|
    ensures s.settlements[i].proposal in s.proposals && s.settlements[i].eventId in s.events && VersionsOf(s, i) != []
    ensures SettlementAnchored(env, s, i) && HexText(s.events[s.settlements[i].eventId].payloadHash)
    ensures ProposalOk(env, s, s.settlements[i].proposal, s.proposals[s.settlements[i].proposal])
  {
    assert SettlementOk(env, s, i);
    hide ProposalOk, SettlementPayload;
    AnchoredHashHex(env, s.events[s.settlements[i].eventId], SettlementPayload(SettlementFactsOf(s, i)));
  }

  lemma VersionStands(env: Platform, s: State, pid: nat, k: nat)
    requires pid in s.proposals && k < |s.proposals[pid].versions| && ProposalOk(env, s, pid, s.proposals[pid])
    ensures VersionStandsOk(env, s, pid, k)
    ensures s.proposals[pid].versions[k].listed == QuotesOf(s.documents, s.proposals[pid].versions[k].quotations)
  {
    hide VersionAnchored, LinkBefore, HexText;
    assert VersionOk(env, s, pid, s.proposals[pid], k);
  }

  /** Version k of the proposal is anchored as it stands, under a hexadecimal hash. */
  ghost predicate VersionStandsOk(env: Platform, s: State, pid: nat, k: nat)
    requires pid in s.proposals && k < |s.proposals[pid].versions|
  {
    var v := s.proposals[pid].versions[k];
    && v.eventId in s.events && HexText(s.events[v.eventId].payloadHash)
    && Integrity.DateInRange(v.start) && Integrity.DateInRange(v.end)
    && VersionAnchored(env, s, pid, s.proposals[pid], v)
  }

  lemma AnchoredHashHex(env: Platform, e: Event, payload: Value)
    requires PlatformLaws(env) && Anchors(env, e, payload)
    ensures HexText(e.payloadHash)
  {
  }

  // ---------------------------------------------------------------- untouched entries

  /** In a reachable state every local check passes. */
  lemma LocalChecksPass(env: Platform, steps: seq<Step>, i: nat, around: Surroundings)
    requires PlatformLaws(env) && i < |Run(env, INITIAL, steps).settlements|
    ensures var s := Run(env, INITIAL, steps);
            Observable(s, i) && IntegrityVerdict.AllVerified(Locals(env, ReadingOf(s, i, around)))
  {
    hide Run, Inv, Integrity.Verified, Integrity.CheckLocal, VersionStandsOk;
    var s := Run(env, INITIAL, steps);
    RunKeeps(env, steps);
    EntryStands(env, s, i);
    var r, pid := ReadingOf(s, i, around), s.settlements[i].proposal;
    forall k | 0 <= k < |r.versions| ensures Integrity.Verified(VersionCheck(env, r.versions[k])) {
      EveryVersionVerifies(env, steps, pid, k);
      assert VersionCheck(env, r.versions[k]) == CheckVersion(env, s, pid, k);
    }
    EverySettlementVerifies(env, steps, i);
    assert SettlementCheck(env, r.settlement) == CheckSettlement(env, s, i);
  }

  /**
   So the verdict on an entry nobody tampered with depends on its documents and on the chain alone: VERIFIED exactly
   when all documents are intact, no record disagrees, and the chain answered for every event or every event is settled;
   with intact documents, MISMATCH exactly when a record disagrees.
   */
  lemma UntouchedEntryObserved(env: Platform, steps: seq<Step>, i: nat, around: Surroundings, registry: Registry)
    requires PlatformLaws(env) && i < |Run(env, INITIAL, steps).settlements|
    ensures var s := Run(env, INITIAL, steps);
            && Observable(s, i)
            && var r := ReadingOf(s, i, around);
               && (Observed(env, r, registry) == Some(IntegrityVerdict.Verified) <==>
                     && DocumentsIntact(s, i, around.bytes) && !ChainDisagrees(r, registry)
                     && (ChainAvailable(r, registry) || AllSettled(r)))
               && (DocumentsIntact(s, i, around.bytes) ==>
                     (Observed(env, r, registry) == Some(IntegrityVerdict.Mismatch) <==> ChainDisagrees(r, registry)))
  {
    hide Run, Inv, ChainDisagrees, ChainAvailable, AllSettled, DocumentsIntact, Observed, IntegrityVerdict.AllClean, VersionStandsOk;
    var s := Run(env, INITIAL, steps);
    RunKeeps(env, steps);
    EntryStands(env, s, i);
    LocalChecksPass(env, steps, i, around);
    var r := ReadingOf(s, i, around);
    IntactIsClean(s, i, around.bytes);
    assert r.docs == DocumentsOf(s, i, around.bytes);
    ObservedMeans(env, r, registry);
    PassedAreCheckable(env, r);
  }

  lemma PassedAreCheckable(env: Platform, r: Reading)
    requires IntegrityVerdict.AllVerified(Locals(env, r))
    ensures Checkable(env, r)
  {
    forall k | 0 <= k < |Checks(env, r)| ensures Checks(env, r)[k].Ok? { assert Locals(env, r)[k]; }
  }

  // ---------------------------------------------------------------- a database written over

  /** A version row by its proposal and its index, a settlement by its index. */
  datatype Origin = Origin(rows: seq<(nat, nat)>, settlement: nat)

  /** Every event the rows are linked to is one of these published ones; anything else may have been written over. */
  ghost predicate Linked(s: State, r: Reading, o: Origin) {
    && |o.rows| == |r.versions|
    && o.settlement < |s.settlements| && s.settlements[o.settlement].proposal in s.proposals
    && s.settlements[o.settlement].eventId in s.events && r.settlement.eventId == s.settlements[o.settlement].eventId
    && forall k :: 0 <= k < |o.rows| ==> LinkedTo(s, r.versions[k], o.rows[k].0, o.rows[k].1)
  }

  ghost predicate LinkedTo(s: State, v: VersionReading, pid: nat, n: nat) {
    && pid in s.proposals && n < |s.proposals[pid].versions|
    && s.proposals[pid].versions[n].eventId in s.events && v.eventId == s.proposals[pid].versions[n].eventId
  }

  /** Dates and moments are ones the columns can hold. */
  ghost predicate Storable(r: Reading) {
    && Calendar.Datable(r.settlement.facts.settledAt)
    && forall k :: 0 <= k < |r.versions| ==>
         Integrity.DateInRange(r.versions[k].facts.start) && Integrity.DateInRange(r.versions[k].facts.end)
  }

  function PublishedFacts(s: State, pid: nat, n: nat): VersionFacts
    requires pid in s.proposals && n < |s.proposals[pid].versions|
  {
    FactsOf(s, pid, s.proposals[pid], s.proposals[pid].versions[n])
  }

  /** The case columns a version was anchored with, None for a version that is not anchored. */
  ghost function AnchoredCase(env: Platform, s: State, pid: nat, n: nat): (c0: Option<CaseFacts>)
    requires pid in s.proposals && n < |s.proposals[pid].versions|
    ensures VersionStandsOk(env, s, pid, n) ==>
              Anchors(env, s.events[s.proposals[pid].versions[n].eventId], VersionPayload(env, PublishedFacts(s, pid, n), c0))
  {
    if VersionStandsOk(env, s, pid, n) then
      var c0 :| Anchors(env, s.events[s.proposals[pid].versions[n].eventId], VersionPayload(env, PublishedFacts(s, pid, n), c0));
      c0
    else None
  }

  /** The row shows what was published under its event: the anchored payload is intact and every column agrees after NFC. */
  ghost predicate VersionUnchanged(env: Platform, s: State, pid: nat, n: nat, v: VersionReading)
    requires pid in s.proposals && n < |s.proposals[pid].versions|
  {
    && Integrity.StoredIntact(env, v.payload, VersionPayload(env, PublishedFacts(s, pid, n), AnchoredCase(env, s, pid, n)))
    && Integrity.SameVersionFacts(env, v.facts, PublishedFacts(s, pid, n))
  }

  ghost predicate SettlementUnchanged(env: Platform, s: State, i: nat, v: SettlementReading)
    requires i < |s.settlements| && s.settlements[i].proposal in s.proposals
  {
    && CanonicalBytes(env.nfc, v.payload).Ok?
    && SameContent(Content(env.nfc, v.payload), Content(env.nfc, SettlementPayload(SettlementFactsOf(s, i))))
    && Integrity.SameSettlementFacts(env, v.facts, SettlementFactsOf(s, i))
  }

  /** Every row shows what was published under the event it is linked to. */
  ghost predicate Unchanged(env: Platform, s: State, r: Reading, o: Origin)
    requires Linked(s, r, o)
  {
    && SettlementUnchanged(env, s, o.settlement, r.settlement)
    && forall k :: 0 <= k < |r.versions| ==> VersionUnchanged(env, s, o.rows[k].0, o.rows[k].1, r.versions[k])
  }

  /** None of the pairs the checks compare collides under SHA-256: three for each version, two for the Settlement. */
  ghost predicate Collisionless(env: Platform, s: State, r: Reading, o: Origin)
    requires Linked(s, r, o)
  {
    && SettlementCollisionless(env, s, o.settlement, r.settlement)
    && forall k :: 0 <= k < |r.versions| ==> VersionCollisionless(env, s, o.rows[k].0, o.rows[k].1, r.versions[k])
  }

  ghost predicate SettlementCollisionless(env: Platform, s: State, i: nat, v: SettlementReading)
    requires i < |s.settlements| && s.settlements[i].proposal in s.proposals
  {
    && !Collision(env.nfc, env.sha, v.payload, SettlementPayload(SettlementFactsOf(s, i)))
    && !Collision(env.nfc, env.sha, SettlementPayload(v.facts), SettlementPayload(SettlementFactsOf(s, i)))
  }

  ghost predicate VersionCollisionless(env: Platform, s: State, pid: nat, n: nat, v: VersionReading)
    requires pid in s.proposals && n < |s.proposals[pid].versions|
  {
    NoCollision(env, PublishedFacts(s, pid, n), AnchoredCase(env, s, pid, n), v.facts,
                Integrity.RebuiltVersion(env, v.facts, v.caseNow, v.payload), v.payload)
  }

  /** These digits, with or without a leading 0x. */
  ghost predicate IsHash(text: string, digits: string) { text == digits || text == "0x" + digits }

  /** The row carries the anchored hash of its event. */
  ghost predicate HashKept(s: State, eventId: string, payloadHash: string) {
    eventId in s.events && IsHash(payloadHash, s.events[eventId].payloadHash)
  }

  ghost predicate HashesKept(s: State, r: Reading) {
    && HashKept(s, r.settlement.eventId, r.settlement.payloadHash)
    && forall k :: 0 <= k < |r.versions| ==> HashKept(s, r.versions[k].eventId, r.versions[k].payloadHash)
  }

  /** A check looks at the hash without its prefix only. */
  lemma SameTarget(env: Platform, stored: Value, a: string, h: string, rebuilt: Value)
    requires HexText(h) && IsHash(a, h)
    ensures Integrity.CheckLocal(env, stored, a, Some(rebuilt)) == Integrity.CheckLocal(env, stored, h, Some(rebuilt))
  {
    hide PayloadHash;
    if |h| >= 2 { assert h[1] != 'x'; }
  }

  lemma VersionCheckDecides(env: Platform, s: State, pid: nat, n: nat, v: VersionReading)
    requires PlatformLaws(env) && LinkedTo(s, v, pid, n) && VersionStandsOk(env, s, pid, n)
    requires Integrity.DateInRange(v.facts.start) && Integrity.DateInRange(v.facts.end) && VersionCollisionless(env, s, pid, n, v)
    requires HashKept(s, v.eventId, v.payloadHash)
    ensures Integrity.Verified(VersionCheck(env, v)) <==> VersionUnchanged(env, s, pid, n, v)
  {
    var c0, facts := AnchoredCase(env, s, pid, n), PublishedFacts(s, pid, n);
    SameTarget(env, v.payload, v.payloadHash, s.events[v.eventId].payloadHash, Integrity.RebuiltVersion(env, v.facts, v.caseNow, v.payload));
    hide Integrity.CheckLocal, Integrity.StoredIntact, Integrity.SameVersionFacts, VersionPayload, Integrity.RebuiltVersion, CanonicalBytes, Load,
         Collision, Integrity.Verified, FactsOf;
    Integrity.VersionTamperEvidence(env, facts, c0, v.facts, v.caseNow, v.payload);
  }

  lemma SettlementCheckDecides(env: Platform, s: State, i: nat, v: SettlementReading)
    requires PlatformLaws(env) && i < |s.settlements| && s.settlements[i].proposal in s.proposals && SettlementAnchored(env, s, i)
    requires v.eventId == s.settlements[i].eventId && HexText(s.events[v.eventId].payloadHash)
    requires Calendar.Datable(v.facts.settledAt) && Calendar.Datable(s.settlements[i].settledAt)
    requires SettlementCollisionless(env, s, i, v) && HashKept(s, v.eventId, v.payloadHash)
    ensures Integrity.Verified(SettlementCheck(env, v)) <==> SettlementUnchanged(env, s, i, v)
  {
    SameTarget(env, v.payload, v.payloadHash, s.events[v.eventId].payloadHash, SettlementPayload(v.facts));
    hide Integrity.CheckLocal, Integrity.SameSettlementFacts, SettlementPayload, CanonicalBytes, Load, Content, SameContent,
         Collision, Integrity.Verified, Calendar.Datable;
    Integrity.SettlementTamperEvidence(env, SettlementFactsOf(s, i), v.facts, v.payload);
  }

  /** With the anchored hashes in place, all checks pass exactly when nothing was changed. */
  lemma ChecksDecide(env: Platform, s: State, r: Reading, o: Origin)
    requires PlatformLaws(env) && Inv(env, s) && Linked(s, r, o) && Storable(r)
    requires Calendar.Datable(s.settlements[o.settlement].settledAt) && Collisionless(env, s, r, o) && HashesKept(s, r)
    ensures IntegrityVerdict.AllVerified(Locals(env, r)) <==> Unchanged(env, s, r, o)
  {
    SettlementStandsOk(env, s, o.settlement);
    hide ProposalOk, HexText, VersionStandsOk, VersionUnchanged, SettlementUnchanged, Integrity.Verified, VersionCheck, SettlementCheck,
         SettlementCollisionless, VersionCollisionless, SettlementAnchored, Integrity.DateInRange, Calendar.Datable, HashKept;
    SettlementCheckDecides(env, s, o.settlement, r.settlement);
    forall k | 0 <= k < |r.versions|
      ensures Integrity.Verified(VersionCheck(env, r.versions[k])) <==> VersionUnchanged(env, s, o.rows[k].0, o.rows[k].1, r.versions[k])
    {
      VersionStands(env, s, o.rows[k].0, o.rows[k].1);
      VersionCheckDecides(env, s, o.rows[k].0, o.rows[k].1, r.versions[k]);
    }
    AllChecks(env, r);
  }

  lemma AllChecks(env: Platform, r: Reading)
    ensures IntegrityVerdict.AllVerified(Locals(env, r)) <==>
            && Integrity.Verified(SettlementCheck(env, r.settlement))
            && forall k :: 0 <= k < |r.versions| ==> Integrity.Verified(VersionCheck(env, r.versions[k]))
  {
    hide Integrity.Verified, VersionCheck, SettlementCheck;
    var locals, n := Locals(env, r), |r.versions|;
    assert forall k :: 0 <= k < n ==> locals[k] == Integrity.Verified(VersionCheck(env, r.versions[k]));
    assert locals[n] == Integrity.Verified(SettlementCheck(env, r.settlement));
  }

  /**
   Whatever is written over rows, cases, stored payloads, statuses and documents, as long as the events keep their
   hashes: with clean documents and no exception the verdict is MISMATCH exactly when some row does not show what was
   published under its event or the chain disagrees, short of a collision of one of the named pairs.
   */
  lemma EditIsReported(env: Platform, steps: seq<Step>, r: Reading, o: Origin, registry: Registry)
    requires PlatformLaws(env) && Linked(Run(env, INITIAL, steps), r, o) && Storable(r)
    requires Calendar.Datable(Run(env, INITIAL, steps).settlements[o.settlement].settledAt)
    requires Collisionless(env, Run(env, INITIAL, steps), r, o)
    requires HashesKept(Run(env, INITIAL, steps), r) && IntegrityVerdict.AllClean(r.docs) && Checkable(env, r)
    ensures Observed(env, r, registry) == Some(IntegrityVerdict.Mismatch)
       <==> !Unchanged(env, Run(env, INITIAL, steps), r, o) || ChainDisagrees(r, registry)
  {
    hide Run, Inv, Unchanged, Collisionless, HashesKept, ChainDisagrees, ChainAvailable, AllSettled, Observed,
         IntegrityVerdict.AllClean, Checkable, Calendar.Datable, Storable, Linked;
    RunKeeps(env, steps);
    ChecksDecide(env, Run(env, INITIAL, steps), r, o);
    ObservedMeans(env, r, registry);
  }

  /** What the registry holds of the rows' events, if it answers, is what was anchored. */
  ghost predicate Registered(s: State, r: Reading, registry: Registry) {
    && AnswersOwn(s, r.settlement.eventId, registry)
    && forall k :: 0 <= k < |r.versions| ==> AnswersOwn(s, r.versions[k].eventId, registry)
  }

  ghost predicate AnswersOwn(s: State, id: string, registry: Registry) {
    registry.answer(id).Record? ==> id in s.events && IsHash(registry.answer(id).payloadHash, s.events[id].payloadHash)
  }

  ghost predicate HexHashes(s: State, r: Reading) {
    && (r.settlement.eventId in s.events ==> HexText(s.events[r.settlement.eventId].payloadHash))
    && forall k :: 0 <= k < |r.versions| ==> (r.versions[k].eventId in s.events ==> HexText(s.events[r.versions[k].eventId].payloadHash))
  }

  lemma LinkedHex(env: Platform, s: State, r: Reading, o: Origin)
    requires PlatformLaws(env) && Inv(env, s) && Linked(s, r, o)
    ensures HexHashes(s, r)
  {
    hide VersionAnchored, SettlementAnchored, HexText, PlatformLaws, Integrity.DateInRange;
    SettlementStandsOk(env, s, o.settlement);
    hide ProposalOk;
    forall k | 0 <= k < |r.versions| ensures HexText(s.events[r.versions[k].eventId].payloadHash) {
      VersionStands(env, s, o.rows[k].0, o.rows[k].1);
    }
  }

  /** Two spellings of one hash are the same hash; of two hashes, no. */
  lemma Spelled(a: string, b: string, h: string)
    requires HexText(h) && IsHash(a, h)
    ensures Integrity.SameHash(a, b) <==> IsHash(b, h)
  {
    if |h| >= 2 { assert h[1] != 'x'; }
    if IsHash(b, h) && a != b { assert a == "0x" + h || b == "0x" + h; }
    if a == "0x" + b { assert a[2..] == b; }
    if b == "0x" + a { assert b[2..] == a; }
    if a == "0x" + h { assert a[2..] == h; }
  }

  /** Once the chain was consulted, it disagrees exactly when some row's hash is not the anchored one. */
  lemma ConsultedDisagreement(s: State, r: Reading, registry: Registry)
    requires Registered(s, r, registry) && Consulted(r, registry) && HexHashes(s, r)
    ensures !ChainDisagrees(r, registry) <==> HashesKept(s, r)
    ensures ChainAvailable(r, registry)
  {
    var ps, n := Probes(r, registry), |r.versions|;
    DisagreementMeans(r, registry);
    assert ps[n] in ps;
    assert forall k :: 0 <= k <= n ==> ps[k].event.status != Outbox.Local && ps[k].answer.Record?;
    forall k | 0 <= k < n
      ensures IntegrityVerdict.Contradicted(ps[k]) <==> !HashKept(s, r.versions[k].eventId, r.versions[k].payloadHash)
    {
      assert AnswersOwn(s, r.versions[k].eventId, registry);
      Spelled(registry.answer(r.versions[k].eventId).payloadHash, r.versions[k].payloadHash, s.events[r.versions[k].eventId].payloadHash);
    }
    Spelled(registry.answer(r.settlement.eventId).payloadHash, r.settlement.payloadHash, s.events[r.settlement.eventId].payloadHash);
    assert IntegrityVerdict.Contradicted(ps[n]) <==> !HashKept(s, r.settlement.eventId, r.settlement.payloadHash);
  }

  /**
   And with nothing spared, hashes included: once the chain was consulted, and holds of the rows' events what was
   anchored, the verdict is VERIFIED exactly when the documents are clean, every row carries the anchored hash of its event
   and shows what was published under it, short of a collision of one of the named pairs.
   */
  lemma ConsultedVerdict(env: Platform, steps: seq<Step>, r: Reading, o: Origin, registry: Registry)
    requires PlatformLaws(env) && Linked(Run(env, INITIAL, steps), r, o) && Storable(r)
    requires Calendar.Datable(Run(env, INITIAL, steps).settlements[o.settlement].settledAt)
    requires Collisionless(env, Run(env, INITIAL, steps), r, o)
    requires Registered(Run(env, INITIAL, steps), r, registry) && Consulted(r, registry)
    ensures Observed(env, r, registry) == Some(IntegrityVerdict.Verified)
       <==> && IntegrityVerdict.AllClean(r.docs) && HashesKept(Run(env, INITIAL, steps), r)
            && Unchanged(env, Run(env, INITIAL, steps), r, o)
  {
    hide Run, Inv, Unchanged, Collisionless, HashesKept, ChainDisagrees, ChainAvailable, AllSettled, Observed,
         IntegrityVerdict.AllClean, Checkable, Calendar.Datable, Storable, Linked, Registered, Consulted, HexHashes;
    var s := Run(env, INITIAL, steps);
    RunKeeps(env, steps);
    LinkedHex(env, s, r, o);
    ConsultedDisagreement(s, r, registry);
    ObservedMeans(env, r, registry);
    if HashesKept(s, r) { ChecksDecide(env, s, r, o); }
  }
}
