/** The closed vocabulary of anchored payloads: which fields an event may have, and what each may hold. */
module PayloadSchema {
  import opened Wrappers
  import opened CanonicalValues
  import opened CanonicalJson
  import opened ContentMaps
  import opened EvidencePayloads
  import Calendar
  import Decimal
  import Integrity

  /** The shapes the two schemas use; none of them admits free text. */
  datatype Shape = Id | PositiveInt | Money | Hash | Hashes | Timestamp | OneOf(texts: seq<string>)

  /** Field j is names[j] of shape shapes[j]; all fields must be there but the optional ones. */
  datatype Schema = Schema(names: seq<string>, shapes: seq<Shape>, optional: set<nat>)

  const PROPOSAL_CREATED: Schema := Schema(
    PROPOSAL_FIELDS + CASE_PAYLOAD_FIELDS,
    [Id, PositiveInt, Id, Id, Money, Hash, Hash] + [Id, Hash, Id, Hash, Money, Hash, Hashes],
    {3, 7, 8, 9, 10, 11, 12, 13})

  const SETTLEMENT: Schema := Schema(
    SETTLEMENT_FIELDS, [OneOf([SETTLEMENT_TAG]), Id, Id, PositiveInt, Money, Hash, Timestamp], {})

  /** 64 lowercase hexadecimal digits, perhaps after 0x. */
  predicate HashText(s: string) {
    (|s| == 64 && HexText(s)) || (|s| == 66 && s[..2] == "0x" && HexText(s[2..]))
  }

  predicate Shaped(shape: Shape, v: Value) {
    match shape
    case Id => v.Int? && v.n > 0
    case PositiveInt => v.Int? && v.n > 0
    case Money => v.Int? && v.n >= 0
    case Hash => v.Str? && HashText(v.s)
    case Hashes => v.List? && v.items != [] && forall i :: 0 <= i < |v.items| ==> v.items[i].Str? && HashText(v.items[i].s)
    case Timestamp => v.Str? && Calendar.Stamp(v.s)
    case OneOf(texts) => v.Str? && v.s in texts
  }

  /** Known, and of its shape. */
  predicate FieldOk(schema: Schema, m: Member)
    requires |schema.names| == |schema.shapes|
  {
    && m.key.Str? && m.key.s in schema.names
    && forall j :: 0 <= j < |schema.names| && schema.names[j] == m.key.s ==> Shaped(schema.shapes[j], m.value)
  }

  /** Known fields only, all required ones, each of its shape. */
  predicate Conforms(schema: Schema, payload: Value)
    requires |schema.names| == |schema.shapes|
  {
    && payload.Dict?
    && (forall i :: 0 <= i < |payload.members| ==> FieldOk(schema, payload.members[i]))
    && (forall j :: 0 <= j < |schema.names| && j !in schema.optional ==> HasKey(payload.members, Str(schema.names[j])))
  }

  // ---------------------------------------------------------------- what is stored

  /** Names and fixed texts are ASCII, so normalisation cannot touch them. */
  ghost predicate Opaque(schema: Schema) {
    && |schema.names| == |schema.shapes|
    && (forall j :: 0 <= j < |schema.names| ==> Ascii(schema.names[j]))
    && (forall j :: 0 <= j < |schema.shapes| && schema.shapes[j].OneOf? ==> forall t :: t in schema.shapes[j].texts ==> Ascii(t))
  }

  lemma HashTextIsAscii(s: string)
    requires HashText(s)
    ensures Ascii(s)
  {
    if |s| == 66 { assert forall i :: 2 <= i < 66 ==> s[i] == s[2..][i - 2]; assert s[0] == s[..2][0] && s[1] == s[..2][1]; }
  }

  lemma StampIsAscii(s: string)
    requires Calendar.Stamp(s)
    ensures Ascii(s)
  {
    hide Calendar.ValidDate, Decimal.NatValue;
    forall i | 0 <= i < 27 ensures s[i] < 128 as char {
      assert 0 <= i < 4 ==> Decimal.IsDigit(s[..4][i]);
      assert 5 <= i < 7 ==> Decimal.IsDigit(s[5..7][i - 5]);
      assert 8 <= i < 10 ==> Decimal.IsDigit(s[8..10][i - 8]);
      assert 11 <= i < 13 ==> Decimal.IsDigit(s[11..13][i - 11]);
      assert 14 <= i < 16 ==> Decimal.IsDigit(s[14..16][i - 14]);
      assert 17 <= i < 19 ==> Decimal.IsDigit(s[17..19][i - 17]);
      assert 20 <= i < 26 ==> Decimal.IsDigit(s[20..26][i - 20]);
    }
  }

  /** A value of one of the shapes is its own normalisation, with nothing to sort. */
  lemma ShapedIsFixed(nfc: string -> string, shape: Shape, v: Value)
    requires NfcLaws(nfc) && Shaped(shape, v)
    requires shape.OneOf? ==> forall t :: t in shape.texts ==> Ascii(t)
    ensures Canonicalizable(nfc, v) && Content(nfc, v) == v && SortKeys(v) == v
  {
    match shape {
      case Hash => HashTextIsAscii(v.s);
      case Timestamp => StampIsAscii(v.s);
      case Hashes =>
        forall i | 0 <= i < |v.items| ensures Canonicalizable(nfc, v.items[i]) && Content(nfc, v.items[i]) == v.items[i] {
          HashTextIsAscii(v.items[i].s);
        }
        StringsAreFixed(nfc, v.items);
      case _ =>
    }
  }

  lemma StringsAreFixed(nfc: string -> string, items: seq<Value>)
    requires NfcLaws(nfc) && forall i :: 0 <= i < |items| ==> items[i].Str? && Canonicalizable(nfc, items[i]) && Content(nfc, items[i]) == items[i]
    ensures Canonicalizable(nfc, List(items)) && Content(nfc, List(items)) == List(items) && SortKeys(List(items)) == List(items)
  {
    forall i | 0 <= i < |items| { NormalizeAccepts(nfc, items[i]); }
    ItemsNormalized(nfc, items);
    NormalizeAccepts(nfc, List(items));
    assert NormalizeItems(nfc, items).value == items;
    assert SortItems(items) == items;
  }

  /** A field that conforms is stored as it is. */
  lemma FieldIsFixed(nfc: string -> string, schema: Schema, m: Member)
    requires NfcLaws(nfc) && Opaque(schema) && FieldOk(schema, m)
    ensures NormMember(nfc, m) == m && SortMember(m) == m
  {
    var j :| 0 <= j < |schema.names| && schema.names[j] == m.key.s;
    ShapedIsFixed(nfc, schema.shapes[j], m.value);
  }

  /** Storing a conforming payload keeps exactly its fields; only their order may change. So what is stored conforms too. */
  lemma ConformingIsKept(nfc: string -> string, schema: Schema, payload: Value)
    requires NfcLaws(nfc) && Opaque(schema) && Conforms(schema, payload) && CanonicalBytes(nfc, payload).Ok?
    ensures var stored := Load(CanonicalBytes(nfc, payload).value);
            && stored.Some? && stored.value.Dict?
            && (forall m :: m in stored.value.members <==> m in payload.members)
            && Conforms(schema, stored.value)
  {
    var ms := payload.members;
    CanonicalRoundTrip(nfc, payload);
    CanonicalBytesAccepts(nfc, payload);
    ContentOfDict(nfc, ms);
    hide CanonicalBytes, Load, Canonicalizable, Opaque, FieldOk, Content;
    forall i | 0 <= i < |ms| ensures NormMember(nfc, ms[i]) == ms[i] && SortMember(ms[i]) == ms[i] { FieldIsFixed(nfc, schema, ms[i]); }
    assert NormMembers(nfc, ms) == ms && SortValues(ms) == ms;
    SameFieldsConform(schema, ms, SortMembers(ms));
  }

  lemma SameFieldsConform(schema: Schema, a: seq<Member>, b: seq<Member>)
    requires |schema.names| == |schema.shapes| && Conforms(schema, Dict(a)) && forall m :: m in a <==> m in b
    ensures Conforms(schema, Dict(b))
  {
    hide FieldOk;
    forall i | 0 <= i < |b| ensures FieldOk(schema, b[i]) {
      assert b[i] in a;
      var k :| 0 <= k < |a| && a[k] == b[i];
    }
    forall j | 0 <= j < |schema.names| && j !in schema.optional ensures HasKey(b, Str(schema.names[j])) {
      var i :| 0 <= i < |a| && a[i].key == Str(schema.names[j]);
      assert a[i] in b;
      var k :| 0 <= k < |b| && b[k] == a[i];
    }
  }

  // ---------------------------------------------------------------- the two schemas

  ghost predicate DistinctNames(schema: Schema) { forall i, j :: 0 <= i < j < |schema.names| ==> schema.names[i] != schema.names[j] }

  lemma FieldAt(schema: Schema, k: nat, v: Value)
    requires |schema.names| == |schema.shapes| && DistinctNames(schema) && k < |schema.names|
    ensures FieldOk(schema, Member(Str(schema.names[k]), v)) <==> Shaped(schema.shapes[k], v)
  {
  }

  lemma CasePayloadNames()
    ensures FieldNames(CASE_PAYLOAD_FIELDS)
  {
    assert forall i :: 0 <= i < |CASE_PAYLOAD_FIELDS| ==> Ascii(CASE_PAYLOAD_FIELDS[i]);
  }

  lemma SchemasAreOpaque()
    ensures Opaque(PROPOSAL_CREATED) && DistinctNames(PROPOSAL_CREATED)
    ensures Opaque(SETTLEMENT) && DistinctNames(SETTLEMENT)
  {
    SpendNames();
    CasePayloadNames();
    SettlementNames();
    forall i | 0 <= i < |PROPOSAL_FIELDS| ensures PROPOSAL_FIELDS[i] !in CASE_PAYLOAD_FIELDS { SpendIsNoCaseField(i); }
    ProposalOpaque();
    SettlementOpaque();
  }

  lemma ProposalOpaque()
    requires FieldNames(PROPOSAL_FIELDS) && FieldNames(CASE_PAYLOAD_FIELDS)
    requires forall i :: 0 <= i < |PROPOSAL_FIELDS| ==> PROPOSAL_FIELDS[i] !in CASE_PAYLOAD_FIELDS
    ensures Opaque(PROPOSAL_CREATED) && DistinctNames(PROPOSAL_CREATED)
  {
    var a, b := PROPOSAL_FIELDS, CASE_PAYLOAD_FIELDS;
    assert |a| == 7 && |b| == 7;
    hide PROPOSAL_FIELDS, CASE_PAYLOAD_FIELDS;
  }

  lemma SettlementOpaque()
    requires FieldNames(SETTLEMENT_FIELDS)
    ensures Opaque(SETTLEMENT) && DistinctNames(SETTLEMENT)
  {
  }

  // ---------------------------------------------------------------- what the services anchor

  lemma HashOfIsHash(env: Platform, v: Value)
    requires PlatformLaws(env) && (v.Dict? || v.List?) && Canonicalizable(env.nfc, v)
    ensures HashText(HashOf(env, v))
  {
    CanonicalBytesAccepts(env.nfc, v);
  }

  /** Member k of these is field k + offset of the schema. */
  ghost predicate Follows(schema: Schema, ms: seq<Member>, offset: nat) {
    && |schema.names| == |schema.shapes| && offset + |ms| <= |schema.names|
    && forall k :: 0 <= k < |ms| ==> ms[k].key == Str(schema.names[offset + k])
  }

  lemma FollowingConforms(schema: Schema, ms: seq<Member>, more: seq<Member>, offset: nat)
    requires DistinctNames(schema) && Follows(schema, ms, 0) && Follows(schema, more, offset)
    requires forall j :: 0 <= j < |schema.names| && j !in schema.optional ==> j < |ms|
    ensures Conforms(schema, Dict(ms + more))
       <==> && (forall k :: 0 <= k < |ms| ==> Shaped(schema.shapes[k], ms[k].value))
            && (forall k :: 0 <= k < |more| ==> Shaped(schema.shapes[offset + k], more[k].value))
  {
    var all := ms + more;
    forall k | 0 <= k < |ms| ensures FieldOk(schema, all[k]) <==> Shaped(schema.shapes[k], ms[k].value) {
      assert all[k] == ms[k] == Member(Str(schema.names[k]), ms[k].value);
      FieldAt(schema, k, ms[k].value);
    }
    forall k | 0 <= k < |more| ensures FieldOk(schema, all[|ms| + k]) <==> Shaped(schema.shapes[offset + k], more[k].value) {
      assert all[|ms| + k] == more[k] == Member(Str(schema.names[offset + k]), more[k].value);
      FieldAt(schema, offset + k, more[k].value);
    }
    hide FieldOk, Shaped, DistinctNames;
    forall j | 0 <= j < |schema.names| && j !in schema.optional ensures HasKey(all, Str(schema.names[j])) {
      assert all[j].key == Str(schema.names[j]);
    }
    if Conforms(schema, Dict(all)) {
      forall k | 0 <= k < |more| ensures Shaped(schema.shapes[offset + k], more[k].value) { assert FieldOk(schema, all[|ms| + k]); }
    }
    if (forall k :: 0 <= k < |ms| ==> Shaped(schema.shapes[k], ms[k].value))
       && (forall k :: 0 <= k < |more| ==> Shaped(schema.shapes[offset + k], more[k].value)) {
      forall i | 0 <= i < |all| ensures FieldOk(schema, all[i]) {
        if i >= |ms| { assert Shaped(schema.shapes[offset + (i - |ms|)], more[i - |ms|].value); }
      }
    }
  }

  /** Hashes are always of their shape, so a version's payload is refused for its shape only if some id is not positive. */
  lemma VersionConforms(env: Platform, f: VersionFacts, c: Option<CaseFacts>)
    requires PlatformLaws(env) && Integrity.DateInRange(f.start) && Integrity.DateInRange(f.end)
    ensures Conforms(PROPOSAL_CREATED, VersionPayload(env, f, c))
       <==> f.proposalId > 0 && f.number > 0 && f.buildingId > 0 && f.amount >= 0 && (c.Some? ==> c.value.id > 0)
  {
    SchemasAreOpaque();
    Integrity.SnapshotDecides(env, f, f);
    Integrity.HashListDecides(env, f.quotations, f.quotations);
    HashOfIsHash(env, Snapshot(f));
    HashOfIsHash(env, List(QuoteHashes(f.quotations)));
    if c.Some? {
      Integrity.CaseSnapshotDecides(env, c.value, c.value);
      HashOfIsHash(env, CaseSnapshot(c.value));
    }
    VersionFollows(env, f, c);
    hide PROPOSAL_FIELDS, CASE_PAYLOAD_FIELDS, HashOf, Snapshot, CaseSnapshot, QuoteHashes, HashText, DistinctNames, Opaque, Integrity.DateInRange,
         Canonicalizable, PlatformLaws, Follows, Conforms;
    FollowingConforms(PROPOSAL_CREATED, SpendMembers(env, f), CaseMembers(env, c), 7);
    VersionShapes(env, f, c);
  }

  lemma VersionFollows(env: Platform, f: VersionFacts, c: Option<CaseFacts>)
    ensures Follows(PROPOSAL_CREATED, SpendMembers(env, f), 0) && Follows(PROPOSAL_CREATED, CaseMembers(env, c), 7)
    ensures forall j :: 0 <= j < |PROPOSAL_CREATED.names| && j !in PROPOSAL_CREATED.optional ==> j < |SpendMembers(env, f)|
  {
    hide HashOf, Snapshot, CaseSnapshot, QuoteHashes;
    var names := PROPOSAL_CREATED.names;
    assert |PROPOSAL_FIELDS| == 7 && |CASE_PAYLOAD_FIELDS| == 7;
    assert forall k :: 0 <= k < 2 ==> SENT_CASE_FIELDS[k] == CASE_PAYLOAD_FIELDS[k];
    hide PROPOSAL_FIELDS, CASE_PAYLOAD_FIELDS, SENT_CASE_FIELDS;
    assert forall k :: 0 <= k < 7 ==> names[k] == PROPOSAL_FIELDS[k] && names[7 + k] == CASE_PAYLOAD_FIELDS[k];
  }

  lemma VersionShapes(env: Platform, f: VersionFacts, c: Option<CaseFacts>)
    requires HashText(HashOf(env, Snapshot(f))) && HashText(HashOf(env, List(QuoteHashes(f.quotations))))
    requires c.Some? ==> HashText(HashOf(env, CaseSnapshot(c.value)))
    ensures var ms, more := SpendMembers(env, f), CaseMembers(env, c);
            && |ms| == 7 && |more| == (if c.Some? then 2 else 0) && |PROPOSAL_CREATED.shapes| == 14
            && ((forall k :: 0 <= k < |ms| ==> Shaped(PROPOSAL_CREATED.shapes[k], ms[k].value))
                <==> f.proposalId > 0 && f.number > 0 && f.buildingId > 0 && f.amount >= 0)
            && ((forall k :: 0 <= k < |more| ==> Shaped(PROPOSAL_CREATED.shapes[7 + k], more[k].value)) <==> (c.Some? ==> c.value.id > 0))
  {
    hide HashOf, Snapshot, CaseSnapshot, QuoteHashes, HashText;
    var ms, shapes := SpendMembers(env, f), PROPOSAL_CREATED.shapes;
    assert ms[0].value == Int(f.proposalId) && ms[1].value == Int(f.number) && ms[2].value == Int(f.proposalId);
    assert ms[3].value == Int(f.buildingId) && ms[4].value == Int(f.amount);
    assert shapes[0] == Id && shapes[1] == PositiveInt && shapes[2] == Id && shapes[3] == Id && shapes[4] == Money && shapes[5] == Hash && shapes[6] == Hash;
    assert shapes[7] == Id && shapes[8] == Hash;
    if c.Some? { assert CaseMembers(env, c)[0].value == Int(c.value.id); }
  }

  /** And a Settlement's only if an id is not positive, the transfer's hash is none, or the moment is past the year 9999. */
  lemma SettlementConforms(f: SettlementFacts)
    ensures Conforms(SETTLEMENT, SettlementPayload(f))
       <==> && f.settlementId > 0 && f.proposalId > 0 && f.versionNumber > 0 && f.amount >= 0
            && HashText(f.transferSha256) && Calendar.Stamp(Calendar.Rfc3339(f.settledAt))
  {
    SchemasAreOpaque();
    var ms := SettlementPayload(f).members;
    SettlementShapes(f);
    SettlementFollows(f);
    hide Calendar.Rfc3339, Calendar.Stamp, HashText, SETTLEMENT_FIELDS, DistinctNames, Opaque, Conforms, Shaped, SettlementValues, Follows;
    assert ms + [] == ms;
    FollowingConforms(SETTLEMENT, ms, [], 0);
  }

  lemma SettlementFollows(f: SettlementFacts)
    ensures Follows(SETTLEMENT, SettlementPayload(f).members, 0) && Follows(SETTLEMENT, [], 0)
    ensures |SETTLEMENT.names| == |SettlementPayload(f).members|
  {
    hide Calendar.Rfc3339;
    assert |SETTLEMENT_FIELDS| == 7;
    hide SETTLEMENT_FIELDS;
  }

  lemma SettlementShapes(f: SettlementFacts)
    ensures |SettlementPayload(f).members| == 7 == |SETTLEMENT.shapes|
    ensures (forall k :: 0 <= k < |SettlementPayload(f).members| ==> Shaped(SETTLEMENT.shapes[k], SettlementPayload(f).members[k].value))
       <==> && f.settlementId > 0 && f.proposalId > 0 && f.versionNumber > 0 && f.amount >= 0
            && HashText(f.transferSha256) && Calendar.Stamp(Calendar.Rfc3339(f.settledAt))
  {
    hide Calendar.Rfc3339, Calendar.Stamp, HashText;
    SettlementMembers(f);
    hide SETTLEMENT_FIELDS, SettlementPayload;
    var shapes := SETTLEMENT.shapes;
    assert shapes[0] == OneOf([SETTLEMENT_TAG]) && shapes[1] == Id && shapes[2] == Id && shapes[3] == PositiveInt;
    assert shapes[4] == Money && shapes[5] == Hash && shapes[6] == Timestamp;
    hide SETTLEMENT_TAG;
  }

  lemma SettlementMembers(f: SettlementFacts)
    ensures SettlementPayload(f).Dict? && |SettlementPayload(f).members| == |SettlementValues(f)| == 7
    ensures forall k :: 0 <= k < 7 ==> SettlementPayload(f).members[k].value == SettlementValues(f)[k]
  {
    hide Calendar.Rfc3339;
  }
}
