/**
 The anchored payloads: a published proposal version and a Settlement, built
 from the rows LamTo publishes.
 */
module EvidencePayloads {
  import opened Wrappers
  import opened CanonicalValues
  import opened CanonicalJson
  import opened ContentMaps
  import Calendar
  import Utf8

  /** NFC and SHA-256 as the platform provides them. */
  datatype Platform = Platform(nfc: string -> string, sha: seq<Utf8.byte> -> string)

  /** NFC behaves, and SHA-256 digests are written as 64 lowercase hexadecimal digits. No injectivity is assumed. */
  ghost predicate PlatformLaws(env: Platform) {
    && NfcLaws(env.nfc)
    && (forall bs :: HexText(env.sha(bs)) && |env.sha(bs)| == 64)
  }

  predicate HexText(s: string) {
    forall i :: 0 <= i < |s| ==> '0' <= s[i] <= '9' || 'a' <= s[i] <= 'f'
  }

  datatype Quote = Quote(id: nat, sha256: string)

  /** The published columns of one proposal version, with its quotations in link order. */
  datatype VersionFacts = VersionFacts(
    proposalId: nat,
    number: nat,
    caseId: Option<nat>,
    buildingId: nat,
    amount: int,
    contractor: string,
    purpose: string,
    action: string,
    start: Option<Calendar.Date>,
    end: Option<Calendar.Date>,
    schedule: string,
    quotations: seq<Quote>)

  /** The triage columns of the case, which may change after publication. */
  datatype CaseFacts = CaseFacts(id: nat, category: string, queue: string, locationId: nat)

  datatype SettlementFacts = SettlementFacts(
    settlementId: nat,
    proposalId: nat,
    versionNumber: nat,
    amount: int,
    transferSha256: string,
    settledAt: nat)

  const SNAPSHOT_FIELDS: seq<string> := [
    "proposal_id", "proposal_version", "case_id", "building_id", "amount_vnd", "contractor_name",
    "purpose", "proposed_action", "expected_start", "expected_end", "expected_schedule", "quotation_versions"]

  const PROPOSAL_FIELDS: seq<string> := [
    "proposal_id", "proposal_version", "record_id", "building_id", "amount_vnd",
    "proposal_snapshot_hash", "quotation_hash"]

  const SENT_CASE_FIELDS: seq<string> := ["case_id", "case_snapshot_hash"]

  const CASE_SNAPSHOT_FIELDS: seq<string> := ["case_id", "category", "management_queue", "location_id"]

  const QUOTE_FIELDS: seq<string> := ["version_id", "sha256"]

  const SETTLEMENT_FIELDS: seq<string> := [
    "schema", "settlement_id", "proposal_id", "proposal_version", "amount_vnd", "transfer_sha256", "settled_at"]

  const SETTLEMENT_TAG: string := "settlement.v2"

  /** Anchored fields that describe the case rather than the spend. */
  const CASE_PAYLOAD_FIELDS: seq<string> := [
    "case_id", "case_snapshot_hash", "report_id", "report_snapshot_hash",
    "estimated_amount_vnd", "photo_hash", "photo_hashes"]

  // ---------------------------------------------------------------- builders

  /** `payload_hash` of a value that always canonicalises. */
  function HashOf(env: Platform, v: Value): string {
    match PayloadHash(env.nfc, env.sha, v)
    case Ok(h) => h
    case Err(_) => ""
  }

  function OptionalId(id: Option<nat>): Value { if id.Some? then Int(id.value) else Null }

  function OptionalDate(d: Option<Calendar.Date>): Value {
    if d.Some? then Str(Calendar.IsoDate(d.value)) else Null
  }

  function QuoteRecord(q: Quote): Value { Dict(Fields(QUOTE_FIELDS, [Int(q.id), Str(q.sha256)])) }

  function QuoteRecords(qs: seq<Quote>): (r: seq<Value>)
    ensures |r| == |qs| && forall i :: 0 <= i < |qs| ==> r[i] == QuoteRecord(qs[i])
  {
    seq(|qs|, i requires 0 <= i < |qs| => QuoteRecord(qs[i]))
  }

  function QuoteHashes(qs: seq<Quote>): (r: seq<Value>)
    ensures |r| == |qs| && forall i :: 0 <= i < |qs| ==> r[i] == Str(qs[i].sha256)
  {
    seq(|qs|, i requires 0 <= i < |qs| => Str(qs[i].sha256))
  }

  function SnapshotValues(f: VersionFacts): seq<Value> {
    [Int(f.proposalId), Int(f.number), OptionalId(f.caseId), Int(f.buildingId), Int(f.amount), Str(f.contractor),
     Str(f.purpose), Str(f.action), OptionalDate(f.start), OptionalDate(f.end), Str(f.schedule),
     List(QuoteRecords(f.quotations))]
  }

  function Snapshot(f: VersionFacts): Value { Dict(Fields(SNAPSHOT_FIELDS, SnapshotValues(f))) }

  function SpendValues(env: Platform, f: VersionFacts): seq<Value> {
    [Int(f.proposalId), Int(f.number), Int(f.proposalId), Int(f.buildingId), Int(f.amount),
     Str(HashOf(env, Snapshot(f))), Str(HashOf(env, List(QuoteHashes(f.quotations))))]
  }

  function CaseSnapshot(c: CaseFacts): Value {
    Dict(Fields(CASE_SNAPSHOT_FIELDS, [Int(c.id), Str(c.category), Str(c.queue), Int(c.locationId)]))
  }

  function SpendMembers(env: Platform, f: VersionFacts): seq<Member> {
    Fields(PROPOSAL_FIELDS, SpendValues(env, f))
  }

  function CaseMembers(env: Platform, c: Option<CaseFacts>): seq<Member> {
    if c.None? then []
    else Fields(SENT_CASE_FIELDS, [Int(c.value.id), Str(HashOf(env, CaseSnapshot(c.value)))])
  }

  /** The payload anchored when a version is published. */
  function VersionPayload(env: Platform, f: VersionFacts, c: Option<CaseFacts>): Value {
    Dict(SpendMembers(env, f) + CaseMembers(env, c))
  }

  function SettlementValues(f: SettlementFacts): seq<Value> {
    [Str(SETTLEMENT_TAG), Int(f.settlementId), Int(f.proposalId), Int(f.versionNumber), Int(f.amount),
     Str(f.transferSha256), Str(Calendar.Rfc3339(f.settledAt))]
  }

  /** The payload anchored when a proposal is settled. */
  function SettlementPayload(f: SettlementFacts): Value {
    Dict(Fields(SETTLEMENT_FIELDS, SettlementValues(f)))
  }

  // ---------------------------------------------------------------- field names

  lemma SpendNames()
    ensures FieldNames(PROPOSAL_FIELDS)
  {
    assert forall i :: 0 <= i < |PROPOSAL_FIELDS| ==> Ascii(PROPOSAL_FIELDS[i]);
  }

  lemma CaseNames()
    ensures FieldNames(SENT_CASE_FIELDS) && FieldNames(QUOTE_FIELDS)
  {
  }

  lemma CaseSnapshotNames()
    ensures FieldNames(CASE_SNAPSHOT_FIELDS)
  {
  }

  lemma SettlementNames()
    ensures FieldNames(SETTLEMENT_FIELDS)
  {
    assert forall i :: 0 <= i < |SETTLEMENT_FIELDS| ==> Ascii(SETTLEMENT_FIELDS[i]);
  }

  lemma SnapshotNames()
    ensures FieldNames(SNAPSHOT_FIELDS)
  {
    assert forall i :: 0 <= i < |SNAPSHOT_FIELDS| ==> Ascii(SNAPSHOT_FIELDS[i]);
  }

  lemma SpendIsNoCaseField(i: nat)
    requires i < |PROPOSAL_FIELDS|
    ensures PROPOSAL_FIELDS[i] !in CASE_PAYLOAD_FIELDS
  {
  }

  // ---------------------------------------------------------------- field by field

  predicate Holds(ms: seq<Member>, name: string, value: Value) { Member(Str(name), value) in ms }

  predicate Lacks(ms: seq<Member>, name: string) { forall m :: m in ms ==> m.key != Str(name) }

  lemma FieldHeld(names: seq<string>, values: seq<Value>, i: nat)
    requires |names| == |values| && i < |names|
    ensures Holds(Fields(names, values), names[i], values[i])
  {
    assert Fields(names, values)[i] == Member(Str(names[i]), values[i]);
  }

  /** Without a case there are no case fields. */
  lemma NoCaseFields(env: Platform, f: VersionFacts)
    ensures forall name :: name in CASE_PAYLOAD_FIELDS ==> Lacks(SpendMembers(env, f), name)
  {
    hide SpendValues;
    forall name, m | name in CASE_PAYLOAD_FIELDS && m in SpendMembers(env, f) ensures m.key != Str(name) {
      var i :| 0 <= i < |SpendMembers(env, f)| && SpendMembers(env, f)[i] == m;
      SpendIsNoCaseField(i);
    }
  }

  /** The anchored version payload names each value, and case fields only if there is a case. */
  lemma VersionPayloadFields(env: Platform, f: VersionFacts, c: Option<CaseFacts>)
    ensures var ms := VersionPayload(env, f, c).members;
            && Holds(ms, "proposal_id", Int(f.proposalId)) && Holds(ms, "record_id", Int(f.proposalId))
            && Holds(ms, "proposal_version", Int(f.number)) && Holds(ms, "building_id", Int(f.buildingId))
            && Holds(ms, "amount_vnd", Int(f.amount))
            && Holds(ms, "proposal_snapshot_hash", Str(HashOf(env, Snapshot(f))))
            && Holds(ms, "quotation_hash", Str(HashOf(env, List(QuoteHashes(f.quotations)))))
            && (c.Some? ==> Holds(ms, "case_id", Int(c.value.id)) && Holds(ms, "case_snapshot_hash", Str(HashOf(env, CaseSnapshot(c.value)))))
            && (c.None? ==> forall name :: name in CASE_PAYLOAD_FIELDS ==> Lacks(ms, name))
  {
    hide HashOf, Snapshot, QuoteHashes, CaseSnapshot;
    var ms, values := SpendMembers(env, f), SpendValues(env, f);
    forall i | 0 <= i < 7 ensures Holds(ms, PROPOSAL_FIELDS[i], values[i]) { FieldHeld(PROPOSAL_FIELDS, values, i); }
    assert PROPOSAL_FIELDS[0] == "proposal_id" && PROPOSAL_FIELDS[1] == "proposal_version" && PROPOSAL_FIELDS[2] == "record_id";
    assert PROPOSAL_FIELDS[3] == "building_id" && PROPOSAL_FIELDS[4] == "amount_vnd";
    assert PROPOSAL_FIELDS[5] == "proposal_snapshot_hash" && PROPOSAL_FIELDS[6] == "quotation_hash";
    NoCaseFields(env, f);
    if c.None? {
      assert VersionPayload(env, f, c).members == ms;
    } else {
      var sent := [Int(c.value.id), Str(HashOf(env, CaseSnapshot(c.value)))];
      FieldHeld(SENT_CASE_FIELDS, sent, 0);
      FieldHeld(SENT_CASE_FIELDS, sent, 1);
    }
  }

  /** And so does the snapshot behind its hash. */
  lemma SnapshotFields(f: VersionFacts)
    ensures var ms := Snapshot(f).members;
            && Holds(ms, "proposal_id", Int(f.proposalId)) && Holds(ms, "proposal_version", Int(f.number))
            && Holds(ms, "building_id", Int(f.buildingId)) && Holds(ms, "amount_vnd", Int(f.amount))
            && Holds(ms, "case_id", OptionalId(f.caseId)) && Holds(ms, "contractor_name", Str(f.contractor))
            && Holds(ms, "purpose", Str(f.purpose)) && Holds(ms, "proposed_action", Str(f.action))
            && Holds(ms, "expected_start", OptionalDate(f.start)) && Holds(ms, "expected_end", OptionalDate(f.end))
            && Holds(ms, "expected_schedule", Str(f.schedule))
            && Holds(ms, "quotation_versions", List(QuoteRecords(f.quotations)))
  {
    hide OptionalId, OptionalDate, QuoteRecords;
    var ms, values := Snapshot(f).members, SnapshotValues(f);
    forall i | 0 <= i < 12 ensures Holds(ms, SNAPSHOT_FIELDS[i], values[i]) { FieldHeld(SNAPSHOT_FIELDS, values, i); }
    assert SNAPSHOT_FIELDS[0] == "proposal_id" && SNAPSHOT_FIELDS[1] == "proposal_version";
    assert SNAPSHOT_FIELDS[3] == "building_id" && SNAPSHOT_FIELDS[4] == "amount_vnd";
    assert SNAPSHOT_FIELDS[2] == "case_id" && SNAPSHOT_FIELDS[5] == "contractor_name" && SNAPSHOT_FIELDS[6] == "purpose";
    assert SNAPSHOT_FIELDS[7] == "proposed_action" && SNAPSHOT_FIELDS[8] == "expected_start" && SNAPSHOT_FIELDS[9] == "expected_end";
    assert SNAPSHOT_FIELDS[10] == "expected_schedule" && SNAPSHOT_FIELDS[11] == "quotation_versions";
  }

  lemma SettlementPayloadFields(f: SettlementFacts)
    ensures var ms := SettlementPayload(f).members;
            && Holds(ms, "schema", Str("settlement.v2")) && Holds(ms, "settlement_id", Int(f.settlementId))
            && Holds(ms, "proposal_id", Int(f.proposalId)) && Holds(ms, "proposal_version", Int(f.versionNumber))
            && Holds(ms, "amount_vnd", Int(f.amount)) && Holds(ms, "transfer_sha256", Str(f.transferSha256))
            && Holds(ms, "settled_at", Str(Calendar.Rfc3339(f.settledAt)))
  {
    hide Calendar.Rfc3339;
    var ms, values := SettlementPayload(f).members, SettlementValues(f);
    forall i | 0 <= i < 7 ensures Holds(ms, SETTLEMENT_FIELDS[i], values[i]) { FieldHeld(SETTLEMENT_FIELDS, values, i); }
    assert SETTLEMENT_FIELDS[0] == "schema" && SETTLEMENT_FIELDS[1] == "settlement_id" && SETTLEMENT_FIELDS[2] == "proposal_id";
    assert SETTLEMENT_FIELDS[3] == "proposal_version" && SETTLEMENT_FIELDS[4] == "amount_vnd";
    assert SETTLEMENT_FIELDS[5] == "transfer_sha256" && SETTLEMENT_FIELDS[6] == "settled_at";
  }
}
