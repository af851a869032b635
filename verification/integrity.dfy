/**
 The local integrity check: re-hash what was stored and what is published, and
 compare both with the anchored hash.
 */
module Integrity {
  import opened Wrappers
  import opened CanonicalValues
  import opened CanonicalJson
  import opened ContentMaps
  import opened EvidencePayloads
  import Calendar

  /** One check: the two re-hashes (None when there is none) and the verdict. */
  datatype LocalCheck = LocalCheck(stored: Option<string>, published: Option<string>, verified: bool)

  function StripPrefix(h: string): string { if "0x" <= h then h[2..] else h }

  function Lower(s: string): (r: string)
    ensures |r| == |s|
    ensures HexText(s) ==> r == s
  {
    seq(|s|, i requires 0 <= i < |s| => LowerChar(s[i]))
  }

  function LowerChar(c: char): char { if 'A' <= c <= 'Z' then c + 32 as char else c }

  /** The same character, or the two cases of one ASCII letter. */
  ghost predicate SameLetter(c: char, d: char) {
    || c == d
    || ('A' <= c <= 'Z' && d as int == c as int + 32)
    || ('A' <= d <= 'Z' && c as int == d as int + 32)
  }

  ghost predicate SameButCase(a: string, b: string) {
    |a| == |b| && forall i :: 0 <= i < |a| ==> SameLetter(a[i], b[i])
  }

  lemma LowerDecides(a: string, b: string)
    ensures Lower(a) == Lower(b) <==> SameButCase(a, b)
  {
    if Lower(a) == Lower(b) {
      forall i | 0 <= i < |a| ensures SameLetter(a[i], b[i]) { assert Lower(a)[i] == Lower(b)[i]; }
    }
  }

  predicate IsCaseField(m: Member) { m.key.Str? && m.key.s in CASE_PAYLOAD_FIELDS }

  /** The members that are (or are not) case fields, in order. */
  function Select(ms: seq<Member>, caseFields: bool): seq<Member> {
    if ms == [] then []
    else
      var n := |ms| - 1;
      Select(ms[..n], caseFields) + (if IsCaseField(ms[n]) == caseFields then [ms[n]] else [])
  }

  /** A version's payload rebuilt from its published rows; the case fields keep their anchored values. */
  function RebuiltVersion(env: Platform, f: VersionFacts, c: Option<CaseFacts>, stored: Value): Value {
    var kept := if stored.Dict? then stored.members else [];
    Dict(Select(VersionPayload(env, f, c).members, false) + Select(kept, true))
  }

  /** Re-hash one event locally. Err is an exception escaping the check. */
  function CheckLocal(env: Platform, stored: Value, anchoredHash: string, rebuilt: Option<Value>): Result<LocalCheck, Error> {
    var target := Lower(StripPrefix(anchoredHash));
    var storedRehash :=
      match PayloadHash(env.nfc, env.sha, stored)
      case Ok(h) => Some(h)
      case Err(_) => None;
    match rebuilt
    case None => Ok(LocalCheck(storedRehash, None, storedRehash == Some(target)))
    case Some(v) =>
      match PayloadHash(env.nfc, env.sha, v)
      case Err(e) => Err(e)
      case Ok(h) => Ok(LocalCheck(storedRehash, Some(h), storedRehash == Some(target) && h == target))
  }

  predicate Verified(r: Result<LocalCheck, Error>) { r.Ok? && r.value.verified }

  // ---------------------------------------------------------------- the comparison, hash by hash

  /** The same digits, with or without a leading 0x. */
  ghost predicate SameHash(a: string, b: string) {
    a == b || (a == "0x" + b && !("0x" <= b)) || (b == "0x" + a && !("0x" <= a))
  }

  lemma SameHashStrips(a: string, b: string)
    ensures StripPrefix(a) == StripPrefix(b) <==> SameHash(a, b)
  {
    if "0x" <= a { assert a == "0x" + a[2..]; }
    if "0x" <= b { assert b == "0x" + b[2..]; }
  }

  /** An anchored hash is compared as it was written. */
  lemma AnchoredHashReadsBack(env: Platform, h: string)
    requires HexText(h)
    ensures Lower(StripPrefix(h)) == h
  {
    if |h| >= 2 { assert h[1] != 'x'; }
  }

  /** With a payload anchored under its own hash, VERIFIED says that both re-hashes equal that hash. */
  lemma VerifiedByHash(env: Platform, anchored: Value, stored: Value, rebuilt: Value)
    requires PlatformLaws(env) && CanonicalBytes(env.nfc, anchored).Ok?
    ensures Verified(CheckLocal(env, stored, HashOf(env, anchored), Some(rebuilt)))
       <==> PayloadHash(env.nfc, env.sha, stored) == PayloadHash(env.nfc, env.sha, anchored)
            && PayloadHash(env.nfc, env.sha, rebuilt) == PayloadHash(env.nfc, env.sha, anchored)
  {
    AnchoredHashReadsBack(env, HashOf(env, anchored));
  }

  // ---------------------------------------------------------------- field comparisons

  /** Equal after NFC. */
  ghost predicate SameText(env: Platform, a: string, b: string) { env.nfc(a) == env.nfc(b) }

  ghost predicate SameQuotes(env: Platform, a: seq<Quote>, b: seq<Quote>) {
    |a| == |b| && forall i :: 0 <= i < |a| ==> a[i].id == b[i].id && SameText(env, a[i].sha256, b[i].sha256)
  }

  /** Every published column of a version agrees after NFC. */
  ghost predicate SameVersionFacts(env: Platform, a: VersionFacts, b: VersionFacts) {
    && a.proposalId == b.proposalId && a.number == b.number && a.caseId == b.caseId
    && a.buildingId == b.buildingId && a.amount == b.amount
    && SameText(env, a.contractor, b.contractor) && SameText(env, a.purpose, b.purpose)
    && SameText(env, a.action, b.action) && SameText(env, a.schedule, b.schedule)
    && a.start == b.start && a.end == b.end
    && SameQuotes(env, a.quotations, b.quotations)
  }

  ghost predicate SameSettlementFacts(env: Platform, a: SettlementFacts, b: SettlementFacts) {
    && a.settlementId == b.settlementId && a.proposalId == b.proposalId
    && a.versionNumber == b.versionNumber && a.amount == b.amount
    && SameText(env, a.transferSha256, b.transferSha256)
    && a.settledAt == b.settledAt
  }

  predicate DateInRange(d: Option<Calendar.Date>) {
    d.Some? ==> Calendar.ValidDate(d.value) && d.value.year < 10000
  }

  /** Equal once normalised and key-sorted. */
  ghost predicate SameValue(env: Platform, v: Value, w: Value) {
    SortKeys(Content(env.nfc, v)) == SortKeys(Content(env.nfc, w))
  }

  lemma LeavesDecide(env: Platform)
    ensures forall m, n :: SameValue(env, Int(m), Int(n)) <==> m == n
    ensures forall s, t :: SameValue(env, Str(s), Str(t)) <==> SameText(env, s, t)
    ensures forall p, q :: SameValue(env, OptionalId(p), OptionalId(q)) <==> p == q
  {
  }

  lemma QuoteDecides(env: Platform, a: Quote, b: Quote)
    requires PlatformLaws(env)
    ensures Canonicalizable(env.nfc, QuoteRecord(a))
    ensures SameValue(env, QuoteRecord(a), QuoteRecord(b))
       <==> a.id == b.id && SameText(env, a.sha256, b.sha256)
  {
    CaseNames();
    var va, vb := [Int(a.id), Str(a.sha256)], [Int(b.id), Str(b.sha256)];
    RecordDecides(env, QUOTE_FIELDS, va, vb);
    assert va[0] == Int(a.id) && va[1] == Str(a.sha256) && vb[0] == Int(b.id) && vb[1] == Str(b.sha256);
  }

  /** Two accepted records over the same names share content exactly when their fields do. */
  lemma RecordDecides(env: Platform, names: seq<string>, vs: seq<Value>, ws: seq<Value>)
    requires PlatformLaws(env) && FieldNames(names) && |names| == |vs| == |ws|
    requires forall i :: 0 <= i < |vs| ==> Canonicalizable(env.nfc, vs[i])
    requires forall i :: 0 <= i < |ws| ==> Canonicalizable(env.nfc, ws[i])
    ensures Canonicalizable(env.nfc, Dict(Fields(names, vs)))
    ensures SameValue(env, Dict(Fields(names, vs)), Dict(Fields(names, ws)))
       <==> forall i :: 0 <= i < |names| ==> SameValue(env, vs[i], ws[i])
  {
    RecordAccepted(env.nfc, names, vs);
    RecordAccepted(env.nfc, names, ws);
    NormMapDecides(env.nfc, Fields(names, vs), Fields(names, ws));
    RecordMapDecides(env.nfc, names, vs, ws);
    ContentOfDict(env.nfc, Fields(names, vs));
    ContentOfDict(env.nfc, Fields(names, ws));
    SortKeysDecidesContent(Content(env.nfc, Dict(Fields(names, vs))), Content(env.nfc, Dict(Fields(names, ws))));
  }

  lemma ListDecides(env: Platform, a: seq<Value>, b: seq<Value>)
    requires PlatformLaws(env)
    requires forall i :: 0 <= i < |a| ==> Canonicalizable(env.nfc, a[i])
    requires forall i :: 0 <= i < |b| ==> Canonicalizable(env.nfc, b[i])
    ensures Canonicalizable(env.nfc, List(a))
    ensures SameValue(env, List(a), List(b))
       <==> |a| == |b| && forall i :: 0 <= i < |a| ==> SameValue(env, a[i], b[i])
  {
    forall i | 0 <= i < |a| { NormalizeAccepts(env.nfc, a[i]); }
    forall i | 0 <= i < |b| { NormalizeAccepts(env.nfc, b[i]); }
    ItemsNormalized(env.nfc, a);
    ItemsNormalized(env.nfc, b);
    var ca, cb := NormalizeItems(env.nfc, a).value, NormalizeItems(env.nfc, b).value;
    if |a| == |b| { SortedItemsEqual(ca, cb); }
  }

  lemma QuotesDecide(env: Platform, a: seq<Quote>, b: seq<Quote>)
    requires PlatformLaws(env)
    ensures Canonicalizable(env.nfc, List(QuoteRecords(a)))
    ensures SameValue(env, List(QuoteRecords(a)), List(QuoteRecords(b)))
       <==> SameQuotes(env, a, b)
  {
    forall i | 0 <= i < |a| { QuoteDecides(env, a[i], a[i]); }
    forall i | 0 <= i < |b| { QuoteDecides(env, b[i], b[i]); }
    ListDecides(env, QuoteRecords(a), QuoteRecords(b));
    if |a| == |b| {
      forall i | 0 <= i < |a| { QuoteDecides(env, a[i], b[i]); }
    }
  }

  lemma HashListDecides(env: Platform, a: seq<Quote>, b: seq<Quote>)
    requires PlatformLaws(env)
    ensures Canonicalizable(env.nfc, List(QuoteHashes(a)))
    ensures SameQuotes(env, a, b) ==>
            SameValue(env, List(QuoteHashes(a)), List(QuoteHashes(b)))
  {
    ListDecides(env, QuoteHashes(a), QuoteHashes(b));
  }

  lemma DateDecides(env: Platform, a: Option<Calendar.Date>, b: Option<Calendar.Date>)
    requires PlatformLaws(env) && DateInRange(a) && DateInRange(b)
    ensures SameValue(env, OptionalDate(a), OptionalDate(b)) <==> a == b
  {
    if a.Some? && b.Some? {
      IsoIsAscii(a.value);
      IsoIsAscii(b.value);
      if Calendar.IsoDate(a.value) == Calendar.IsoDate(b.value) { Calendar.IsoDateInjective(a.value, b.value); }
    }
  }

  lemma IsoIsAscii(d: Calendar.Date)
    ensures Ascii(Calendar.IsoDate(d))
  {
  }

  /** The snapshot pins every published column. */
  lemma SnapshotDecides(env: Platform, a: VersionFacts, b: VersionFacts)
    requires PlatformLaws(env)
    requires DateInRange(a.start) && DateInRange(a.end) && DateInRange(b.start) && DateInRange(b.end)
    ensures Canonicalizable(env.nfc, Snapshot(a))
    ensures SameValue(env, Snapshot(a), Snapshot(b))
       <==> SameVersionFacts(env, a, b)
  {
    SnapshotNames();
    QuotesDecide(env, a.quotations, b.quotations);
    QuotesDecide(env, b.quotations, a.quotations);
    DateDecides(env, a.start, b.start);
    DateDecides(env, a.end, b.end);
    var va, vb := SnapshotValues(a), SnapshotValues(b);
    RecordDecides(env, SNAPSHOT_FIELDS, va, vb);
    ScalarsDecide(env, a, b);
  }

  /** Field by field, the snapshot compares the published columns. */
  lemma ScalarsDecide(env: Platform, a: VersionFacts, b: VersionFacts)
    ensures (forall i :: 0 <= i < 12 ==> SameValue(env, SnapshotValues(a)[i], SnapshotValues(b)[i]))
       <==> && a.proposalId == b.proposalId && a.number == b.number && a.caseId == b.caseId
            && a.buildingId == b.buildingId && a.amount == b.amount
            && SameText(env, a.contractor, b.contractor) && SameText(env, a.purpose, b.purpose)
            && SameText(env, a.action, b.action) && SameText(env, a.schedule, b.schedule)
            && SameValue(env, OptionalDate(a.start), OptionalDate(b.start))
            && SameValue(env, OptionalDate(a.end), OptionalDate(b.end))
            && SameValue(env, List(QuoteRecords(a.quotations)), List(QuoteRecords(b.quotations)))
  {
    hide SameValue, QuoteRecords;
    var va, vb := SnapshotValues(a), SnapshotValues(b);
    assert va[0] == Int(a.proposalId) && va[1] == Int(a.number) && va[2] == OptionalId(a.caseId);
    assert va[3] == Int(a.buildingId) && va[4] == Int(a.amount) && va[5] == Str(a.contractor);
    assert va[6] == Str(a.purpose) && va[7] == Str(a.action) && va[8] == OptionalDate(a.start);
    assert va[9] == OptionalDate(a.end) && va[10] == Str(a.schedule) && va[11] == List(QuoteRecords(a.quotations));
    LeavesDecide(env);
  }

  /** The case snapshot behind its hash pins the triage columns. */
  lemma CaseSnapshotDecides(env: Platform, a: CaseFacts, b: CaseFacts)
    requires PlatformLaws(env)
    ensures Canonicalizable(env.nfc, CaseSnapshot(a))
    ensures SameValue(env, CaseSnapshot(a), CaseSnapshot(b))
       <==> a.id == b.id && SameText(env, a.category, b.category) && SameText(env, a.queue, b.queue) && a.locationId == b.locationId
  {
    CaseSnapshotNames();
    var va, vb := [Int(a.id), Str(a.category), Str(a.queue), Int(a.locationId)], [Int(b.id), Str(b.category), Str(b.queue), Int(b.locationId)];
    RecordDecides(env, CASE_SNAPSHOT_FIELDS, va, vb);
    LeavesDecide(env);
    hide SameValue;
    assert va[0] == Int(a.id) && va[1] == Str(a.category) && va[2] == Str(a.queue) && va[3] == Int(a.locationId);
    assert vb[0] == Int(b.id) && vb[1] == Str(b.category) && vb[2] == Str(b.queue) && vb[3] == Int(b.locationId);
  }

  // ---------------------------------------------------------------- splitting the payload

  lemma {:induction false} SelectDistributes(a: seq<Member>, b: seq<Member>, caseFields: bool)
    ensures Select(a + b, caseFields) == Select(a, caseFields) + Select(b, caseFields)
  {
    if b == [] {
      assert a + b == a;
    } else {
      var n := |b| - 1;
      SelectDistributes(a, b[..n], caseFields);
      assert (a + b)[..|a| + n] == a + b[..n];
    }
  }

  lemma {:induction false} SelectAllOrNone(ms: seq<Member>, caseFields: bool)
    requires forall i :: 0 <= i < |ms| ==> IsCaseField(ms[i]) == caseFields
    ensures Select(ms, caseFields) == ms && Select(ms, !caseFields) == []
  {
    if ms != [] {
      var n := |ms| - 1;
      SelectAllOrNone(ms[..n], caseFields);
      assert ms[..n] + [ms[n]] == ms;
    }
  }

  /** Dropping the case fields of a fresh payload leaves the spend fields, whatever the case says now. */
  lemma SpendSurvives(env: Platform, f: VersionFacts, c: Option<CaseFacts>)
    ensures Select(VersionPayload(env, f, c).members, false) == SpendMembers(env, f)
  {
    var spend, sent := SpendMembers(env, f), CaseMembers(env, c);
    forall i | 0 <= i < |spend| ensures !IsCaseField(spend[i]) { SpendIsNoCaseField(i); }
    forall i | 0 <= i < |sent| ensures IsCaseField(sent[i]) { assert SENT_CASE_FIELDS[i] == CASE_PAYLOAD_FIELDS[i]; }
    SelectAllOrNone(spend, false);
    SelectAllOrNone(sent, true);
    SelectDistributes(spend, sent, false);
    assert spend + [] == spend;
  }

  ghost function CasePart(m: map<string, Value>): map<string, Value> {
    map k | k in m && k in CASE_PAYLOAD_FIELDS :: m[k]
  }

  lemma {:induction false} SelectMap(ms: seq<Member>)
    requires StringKeys(ms)
    ensures AsMap(Select(ms, true)) == CasePart(AsMap(ms))
  {
    if ms != [] {
      var n := |ms| - 1;
      var kept := Select(ms[..n], true);
      SelectMap(ms[..n]);
      assert (kept + [ms[n]])[..|kept|] == kept && kept + [] == kept;
    }
  }

  /** No key of the stored payload spells a case field differently and normalises to it. */
  ghost predicate CaseKeysPlain(env: Platform, ms: seq<Member>) {
    forall i :: 0 <= i < |ms| && env.nfc(KeyText(ms[i])) in CASE_PAYLOAD_FIELDS ==> IsCaseField(ms[i])
  }

  lemma CaseFieldsFixed(env: Platform, k: string)
    requires PlatformLaws(env) && k in CASE_PAYLOAD_FIELDS
    ensures env.nfc(k) == k
  {
    CaseFieldsAscii(k);
  }

  lemma CaseFieldsAscii(k: string)
    requires k in CASE_PAYLOAD_FIELDS
    ensures Ascii(k)
  {
  }

  lemma {:induction false} SelectCommutes(env: Platform, ms: seq<Member>)
    requires PlatformLaws(env) && StringKeys(ms) && CaseKeysPlain(env, ms)
    ensures NormMembers(env.nfc, Select(ms, true)) == Select(NormMembers(env.nfc, ms), true)
  {
    if ms != [] {
      var n := |ms| - 1;
      var ns := NormMembers(env.nfc, ms);
      SelectCommutes(env, ms[..n]);
      assert ns[..n] == NormMembers(env.nfc, ms[..n]);
      assert ns[n] == NormMember(env.nfc, ms[n]);
      if IsCaseField(ms[n]) { CaseFieldsFixed(env, ms[n].key.s); }
    }
  }

  lemma StoredCasePart(env: Platform, ms: seq<Member>)
    requires PlatformLaws(env) && StringKeys(ms) && CaseKeysPlain(env, ms)
    ensures NormMap(env.nfc, Select(ms, true)) == CasePart(NormMap(env.nfc, ms))
  {
    SelectCommutes(env, ms);
    SelectMap(NormMembers(env.nfc, ms));
  }

  lemma SpendKeys(env: Platform, f: VersionFacts)
    requires PlatformLaws(env)
    ensures NormMap(env.nfc, SpendMembers(env, f)).Keys == set n | n in PROPOSAL_FIELDS
    ensures CasePart(NormMap(env.nfc, SpendMembers(env, f))) == map[]
  {
    SpendNames();
    RecordMap(env.nfc, PROPOSAL_FIELDS, SpendValues(env, f));
    FieldMapKeys(env.nfc, PROPOSAL_FIELDS, SpendValues(env, f));
    forall k | k in PROPOSAL_FIELDS ensures k !in CASE_PAYLOAD_FIELDS {
      var i :| 0 <= i < |PROPOSAL_FIELDS| && PROPOSAL_FIELDS[i] == k;
      SpendIsNoCaseField(i);
    }
  }

  lemma CaseKeys(env: Platform, c: Option<CaseFacts>)
    requires PlatformLaws(env)
    ensures CasePart(NormMap(env.nfc, CaseMembers(env, c))) == NormMap(env.nfc, CaseMembers(env, c))
    ensures NormMap(env.nfc, CaseMembers(env, c)).Keys !! (set n | n in PROPOSAL_FIELDS)
  {
    var m := NormMap(env.nfc, CaseMembers(env, c));
    if c.Some? {
      var values := [Int(c.value.id), Str(HashOf(env, CaseSnapshot(c.value)))];
      CaseNames();
      RecordMap(env.nfc, SENT_CASE_FIELDS, values);
      FieldMapKeys(env.nfc, SENT_CASE_FIELDS, values);
    }
    forall k | k in m ensures k in CASE_PAYLOAD_FIELDS && k !in PROPOSAL_FIELDS {
      assert k == CASE_PAYLOAD_FIELDS[0] || k == CASE_PAYLOAD_FIELDS[1];
      if k in PROPOSAL_FIELDS {
        var i :| 0 <= i < |PROPOSAL_FIELDS| && PROPOSAL_FIELDS[i] == k;
        SpendIsNoCaseField(i);
        assert false;
      }
    }
  }

  lemma PayloadAccepted(env: Platform, f: VersionFacts, c: Option<CaseFacts>)
    requires PlatformLaws(env)
    ensures Canonicalizable(env.nfc, VersionPayload(env, f, c))
  {
    SpendAccepted(env, f);
    if c.Some? {
      CaseAccepted(env, c);
      ConcatAccepted(env, SpendMembers(env, f), CaseMembers(env, c));
    } else {
      assert SpendMembers(env, f) + [] == SpendMembers(env, f);
    }
  }

  lemma SpendAccepted(env: Platform, f: VersionFacts)
    requires PlatformLaws(env)
    ensures Canonicalizable(env.nfc, Dict(SpendMembers(env, f)))
    ensures forall i :: 0 <= i < |SpendMembers(env, f)| ==>
              Ascii(KeyText(SpendMembers(env, f)[i])) && !IsCaseField(SpendMembers(env, f)[i])
  {
    SpendNames();
    RecordAccepted(env.nfc, PROPOSAL_FIELDS, SpendValues(env, f));
    var spend := SpendMembers(env, f);
    forall i | 0 <= i < |spend| ensures Ascii(KeyText(spend[i])) && !IsCaseField(spend[i]) {
      SpendIsNoCaseField(i);
      assert spend[i].key == Str(PROPOSAL_FIELDS[i]);
    }
  }

  lemma CaseAccepted(env: Platform, c: Option<CaseFacts>)
    requires PlatformLaws(env)
    ensures Canonicalizable(env.nfc, Dict(CaseMembers(env, c)))
    ensures forall i :: 0 <= i < |CaseMembers(env, c)| ==> IsCaseField(CaseMembers(env, c)[i])
  {
    if c.Some? {
      CaseNames();
      RecordAccepted(env.nfc, SENT_CASE_FIELDS, [Int(c.value.id), Str(HashOf(env, CaseSnapshot(c.value)))]);
      forall i | 0 <= i < |SENT_CASE_FIELDS| ensures IsCaseField(CaseMembers(env, c)[i]) {
        assert SENT_CASE_FIELDS[i] == CASE_PAYLOAD_FIELDS[i];
      }
    }
  }

  lemma ConcatAccepted(env: Platform, spend: seq<Member>, sent: seq<Member>)
    requires PlatformLaws(env)
    requires Canonicalizable(env.nfc, Dict(spend)) && Canonicalizable(env.nfc, Dict(sent))
    requires forall i :: 0 <= i < |spend| ==> Ascii(KeyText(spend[i])) && !IsCaseField(spend[i])
    requires forall i :: 0 <= i < |sent| ==> IsCaseField(sent[i])
    ensures Canonicalizable(env.nfc, Dict(spend + sent))
  {
    forall i | 0 <= i < |sent| ensures env.nfc(sent[i].key.s) == sent[i].key.s {
      CaseFieldsFixed(env, sent[i].key.s);
    }
  }

  // ---------------------------------------------------------------- tamper evidence

  /** The stored payload still says what was anchored, its case fields spelled as anchored. */
  ghost predicate StoredIntact(env: Platform, stored: Value, anchored: Value) {
    && stored.Dict? && CanonicalBytes(env.nfc, stored).Ok?
    && SameContent(Content(env.nfc, stored), Content(env.nfc, anchored))
    && CaseKeysPlain(env, stored.members)
  }

  /** The spend fields have the same map exactly when ids, amount and the two hashes agree. */
  lemma SpendDecides(env: Platform, a: VersionFacts, b: VersionFacts)
    requires PlatformLaws(env)
    ensures NormMap(env.nfc, SpendMembers(env, a)) == NormMap(env.nfc, SpendMembers(env, b))
       <==> && a.proposalId == b.proposalId && a.number == b.number
            && a.buildingId == b.buildingId && a.amount == b.amount
            && HashOf(env, Snapshot(a)) == HashOf(env, Snapshot(b))
            && HashOf(env, List(QuoteHashes(a.quotations))) == HashOf(env, List(QuoteHashes(b.quotations)))
  {
    SpendNames();
    RecordMapDecides(env.nfc, PROPOSAL_FIELDS, SpendValues(env, a), SpendValues(env, b));
    HashesAreFixed(env, Snapshot(a), Snapshot(b));
    HashesAreFixed(env, List(QuoteHashes(a.quotations)), List(QuoteHashes(b.quotations)));
    SpendScalars(env, a, b);
  }

  lemma SpendScalars(env: Platform, a: VersionFacts, b: VersionFacts)
    ensures (forall i :: 0 <= i < 7 ==>
               SortKeys(Content(env.nfc, SpendValues(env, a)[i])) == SortKeys(Content(env.nfc, SpendValues(env, b)[i])))
       <==> && a.proposalId == b.proposalId && a.number == b.number
            && a.buildingId == b.buildingId && a.amount == b.amount
            && SameText(env, HashOf(env, Snapshot(a)), HashOf(env, Snapshot(b)))
            && SameText(env, HashOf(env, List(QuoteHashes(a.quotations))), HashOf(env, List(QuoteHashes(b.quotations))))
  {
    var va, vb := SpendValues(env, a), SpendValues(env, b);
    assert (forall i :: 0 <= i < 7 ==> SameValue(env, va[i], vb[i]))
      <==> && SameValue(env, va[0], vb[0]) && SameValue(env, va[1], vb[1]) && SameValue(env, va[2], vb[2])
           && SameValue(env, va[3], vb[3]) && SameValue(env, va[4], vb[4]) && SameValue(env, va[5], vb[5])
           && SameValue(env, va[6], vb[6]);
    LeavesDecide(env);
  }

  lemma HashesAreFixed(env: Platform, v: Value, w: Value)
    requires PlatformLaws(env)
    ensures SameText(env, HashOf(env, v), HashOf(env, w)) <==> HashOf(env, v) == HashOf(env, w)
  {
    assert Ascii(HashOf(env, v)) && Ascii(HashOf(env, w));
  }

  /** Equal contents hash alike; short of a collision only they do. */
  lemma HashOfDecides(env: Platform, v: Value, w: Value)
    requires PlatformLaws(env)
    requires v.Dict? || v.List?
    requires w.Dict? || w.List?
    requires Canonicalizable(env.nfc, v) && Canonicalizable(env.nfc, w)
    ensures SameValue(env, v, w) ==> HashOf(env, v) == HashOf(env, w)
    ensures !Collision(env.nfc, env.sha, v, w) && HashOf(env, v) == HashOf(env, w) ==> SameValue(env, v, w)
    ensures SameValue(env, v, w) <==> SameContent(Content(env.nfc, v), Content(env.nfc, w))
  {
    CanonicalBytesAccepts(env.nfc, v);
    CanonicalBytesAccepts(env.nfc, w);
    BytesDecideContent(env.nfc, v, w);
    NormalizeYieldsNormal(env.nfc, v);
    NormalizeYieldsNormal(env.nfc, w);
    NormalIsPlain(env.nfc, Content(env.nfc, v));
    NormalIsPlain(env.nfc, Content(env.nfc, w));
    SortKeysDecidesContent(Content(env.nfc, v), Content(env.nfc, w));
  }

  /** The spend fields pin every published column; the only escape is a collision of the two snapshots. */
  lemma SpendPinsFacts(env: Platform, a: VersionFacts, b: VersionFacts)
    requires PlatformLaws(env)
    requires DateInRange(a.start) && DateInRange(a.end) && DateInRange(b.start) && DateInRange(b.end)
    ensures SameVersionFacts(env, a, b) ==>
            NormMap(env.nfc, SpendMembers(env, a)) == NormMap(env.nfc, SpendMembers(env, b))
    ensures !Collision(env.nfc, env.sha, Snapshot(a), Snapshot(b))
            && NormMap(env.nfc, SpendMembers(env, a)) == NormMap(env.nfc, SpendMembers(env, b)) ==>
            SameVersionFacts(env, a, b)
  {
    SpendDecides(env, a, b);
    SnapshotDecides(env, a, b);
    SnapshotDecides(env, b, a);
    HashOfDecides(env, Snapshot(a), Snapshot(b));
    HashListDecides(env, a.quotations, b.quotations);
    HashListDecides(env, b.quotations, a.quotations);
    HashOfDecides(env, List(QuoteHashes(a.quotations)), List(QuoteHashes(b.quotations)));
  }

  /** With the stored payload intact, the rebuilt payload compares the spend fields and nothing else. */
  lemma RebuiltComparesSpend(env: Platform, f0: VersionFacts, c0: Option<CaseFacts>,
                             f: VersionFacts, c: Option<CaseFacts>, stored: Value)
    requires PlatformLaws(env)
    requires StoredIntact(env, stored, VersionPayload(env, f0, c0))
    ensures Canonicalizable(env.nfc, RebuiltVersion(env, f, c, stored))
    ensures SameValue(env, RebuiltVersion(env, f, c, stored), VersionPayload(env, f0, c0))
       <==> NormMap(env.nfc, SpendMembers(env, f)) == NormMap(env.nfc, SpendMembers(env, f0))
  {
    var nfc := env.nfc;
    var kept := Select(stored.members, true);
    var spend, spend0, sent0 := SpendMembers(env, f), SpendMembers(env, f0), CaseMembers(env, c0);
    CanonicalBytesAccepts(nfc, stored);
    PayloadAccepted(env, f0, c0);
    SpendSurvives(env, f, c);
    RebuiltAccepted(env, f, stored.members);
    // the kept members are the anchored case members
    NormMapDecides(nfc, stored.members, spend0 + sent0);
    StoredCasePart(env, stored.members);
    NormMapConcat(nfc, spend0, sent0);
    SpendKeys(env, f0);
    CaseKeys(env, c0);
    assert NormMap(nfc, kept) == NormMap(nfc, sent0) by {
      UnionCasePart(NormMap(nfc, spend0), NormMap(nfc, sent0));
    }
    // so the spend members decide
    NormMapConcat(nfc, spend, kept);
    SpendKeys(env, f);
    NormMapDecides(nfc, spend + kept, spend0 + sent0);
    DisjointUnionCancels(NormMap(nfc, spend), NormMap(nfc, spend0), NormMap(nfc, sent0));
    PayloadShape(env, f0, c0);
    HashOfDecides(env, Dict(spend + kept), VersionPayload(env, f0, c0));
  }

  lemma PayloadShape(env: Platform, f: VersionFacts, c: Option<CaseFacts>)
    ensures VersionPayload(env, f, c) == Dict(SpendMembers(env, f) + CaseMembers(env, c))
  {
  }

  lemma UnionCasePart(spend: map<string, Value>, sent: map<string, Value>)
    requires CasePart(spend) == map[] && CasePart(sent) == sent
    ensures CasePart(spend + sent) == sent
  {
    forall k | k in spend ensures k !in CASE_PAYLOAD_FIELDS {
      assert k in CASE_PAYLOAD_FIELDS <==> k in CasePart(spend);
    }
    forall k | k in sent ensures k in CASE_PAYLOAD_FIELDS {
      assert k in CasePart(sent);
    }
  }

  lemma DisjointUnionCancels(a: map<string, Value>, b: map<string, Value>, c: map<string, Value>)
    requires a.Keys == b.Keys && a.Keys !! c.Keys
    ensures a + c == b + c <==> a == b
  {
    if a + c == b + c {
      forall k | k in a ensures a[k] == b[k] { assert (a + c)[k] == a[k] && (b + c)[k] == b[k]; }
    }
  }

  lemma RebuiltAccepted(env: Platform, f: VersionFacts, ms: seq<Member>)
    requires PlatformLaws(env) && Canonicalizable(env.nfc, Dict(ms))
    ensures Canonicalizable(env.nfc, Dict(SpendMembers(env, f) + Select(ms, true)))
  {
    SpendAccepted(env, f);
    SelectAccepted(env, ms);
    ConcatAccepted(env, SpendMembers(env, f), Select(ms, true));
  }

  lemma {:induction false} SelectAccepted(env: Platform, ms: seq<Member>)
    requires Canonicalizable(env.nfc, Dict(ms))
    ensures Canonicalizable(env.nfc, Dict(Select(ms, true)))
    ensures forall i :: 0 <= i < |Select(ms, true)| ==>
              IsCaseField(Select(ms, true)[i]) && Select(ms, true)[i] in ms
  {
    if ms != [] {
      var n := |ms| - 1;
      SelectAccepted(env, ms[..n]);
      var kept := Select(ms[..n], true);
      forall i | 0 <= i < |kept| && IsCaseField(ms[n]) ensures env.nfc(kept[i].key.s) != env.nfc(ms[n].key.s) {
        assert kept[i] in ms[..n];
        var j :| 0 <= j < n && ms[j] == kept[i];
      }
      forall i | 0 <= i < |Select(ms, true)| ensures Select(ms, true)[i] in ms {
        if i < |kept| { assert kept[i] in ms[..n]; }
      }
    }
  }

  /**
   Tamper evidence for a version, both ways: whatever happened to the stored payload, the
   published rows and the case, the check says VERIFIED exactly when the stored payload and
   every published column still agree with what was anchored. The only escape is one of three
   explicit SHA-256 collisions.
   */
  lemma VersionTamperEvidence(env: Platform, f0: VersionFacts, c0: Option<CaseFacts>,
                              f: VersionFacts, c: Option<CaseFacts>, stored: Value)
    requires PlatformLaws(env)
    requires DateInRange(f.start) && DateInRange(f.end) && DateInRange(f0.start) && DateInRange(f0.end)
    requires !Collision(env.nfc, env.sha, stored, VersionPayload(env, f0, c0))
    requires !Collision(env.nfc, env.sha, RebuiltVersion(env, f, c, stored), VersionPayload(env, f0, c0))
    requires !Collision(env.nfc, env.sha, Snapshot(f), Snapshot(f0))
    ensures Verified(CheckLocal(env, stored, HashOf(env, VersionPayload(env, f0, c0)),
                                Some(RebuiltVersion(env, f, c, stored))))
       <==> StoredIntact(env, stored, VersionPayload(env, f0, c0)) && SameVersionFacts(env, f, f0)
  {
    var anchored := VersionPayload(env, f0, c0);
    var rebuilt := RebuiltVersion(env, f, c, stored);
    PayloadAccepted(env, f0, c0);
    CanonicalBytesAccepts(env.nfc, anchored);
    VerifiedByHash(env, anchored, stored, rebuilt);
    if StoredIntact(env, stored, anchored) {
      StoredHashes(env, stored, anchored);
      RebuiltComparesSpend(env, f0, c0, f, c, stored);
      CanonicalBytesAccepts(env.nfc, rebuilt);
      HashOfDecides(env, rebuilt, anchored);
      SpendPinsFacts(env, f, f0);
    }
    if Verified(CheckLocal(env, stored, HashOf(env, anchored), Some(rebuilt))) {
      VerifiedIsIntact(env, f0, c0, f, c, stored);
    }
  }

  lemma StoredHashes(env: Platform, stored: Value, anchored: Value)
    requires PlatformLaws(env) && anchored.Dict? && Canonicalizable(env.nfc, anchored)
    requires StoredIntact(env, stored, anchored)
    ensures PayloadHash(env.nfc, env.sha, stored) == PayloadHash(env.nfc, env.sha, anchored)
  {
    CanonicalBytesAccepts(env.nfc, stored);
    CanonicalBytesAccepts(env.nfc, anchored);
    BytesDecideContent(env.nfc, stored, anchored);
  }

  /** A verified check leaves the stored payload no room: same content, same spelling of the case fields. */
  lemma VerifiedIsIntact(env: Platform, f0: VersionFacts, c0: Option<CaseFacts>,
                         f: VersionFacts, c: Option<CaseFacts>, stored: Value)
    requires PlatformLaws(env)
    requires !Collision(env.nfc, env.sha, stored, VersionPayload(env, f0, c0))
    requires !Collision(env.nfc, env.sha, RebuiltVersion(env, f, c, stored), VersionPayload(env, f0, c0))
    requires CanonicalBytes(env.nfc, VersionPayload(env, f0, c0)).Ok?
    requires PayloadHash(env.nfc, env.sha, stored) == PayloadHash(env.nfc, env.sha, VersionPayload(env, f0, c0))
    requires PayloadHash(env.nfc, env.sha, RebuiltVersion(env, f, c, stored))
          == PayloadHash(env.nfc, env.sha, VersionPayload(env, f0, c0))
    ensures StoredIntact(env, stored, VersionPayload(env, f0, c0))
  {
    var nfc, anchored := env.nfc, VersionPayload(env, f0, c0);
    var rebuilt := RebuiltVersion(env, f, c, stored);
    HashDecidesContent(nfc, env.sha, stored, anchored);
    HashDecidesContent(nfc, env.sha, rebuilt, anchored);
    CanonicalBytesAccepts(nfc, stored);
    CanonicalBytesAccepts(nfc, rebuilt);
    CanonicalBytesAccepts(nfc, anchored);
    ContentIsDict(nfc, stored, anchored);
    var ms := stored.members;
    NormMapDecides(nfc, ms, anchored.members);
    NormMapDecides(nfc, rebuilt.members, anchored.members);
    SpendSurvives(env, f, c);
    forall i | 0 <= i < |ms| && nfc(KeyText(ms[i])) in CASE_PAYLOAD_FIELDS ensures IsCaseField(ms[i]) {
      NormMapKeys(nfc, ms, nfc(KeyText(ms[i])));
      NormMapKeys(nfc, rebuilt.members, nfc(KeyText(ms[i])));
      CaseKeyKept(env, f, ms, i);
    }
  }

  /** A stored key that normalises to a rebuilt case key is that key. */
  lemma CaseKeyKept(env: Platform, f: VersionFacts, ms: seq<Member>, i: nat)
    requires PlatformLaws(env) && Canonicalizable(env.nfc, Dict(ms)) && i < |ms|
    requires env.nfc(KeyText(ms[i])) in CASE_PAYLOAD_FIELDS
    requires exists j :: 0 <= j < |SpendMembers(env, f) + Select(ms, true)|
                         && env.nfc(KeyText((SpendMembers(env, f) + Select(ms, true))[j])) == env.nfc(KeyText(ms[i]))
    ensures IsCaseField(ms[i])
  {
    var spend, kept := SpendMembers(env, f), Select(ms, true);
    var j :| 0 <= j < |spend + kept| && env.nfc(KeyText((spend + kept)[j])) == env.nfc(KeyText(ms[i]));
    SpendAccepted(env, f);
    SelectAccepted(env, ms);
    assert forall l :: 0 <= l < |spend| ==> (spend + kept)[l] == spend[l] && spend[l].key.Str?;
    if j >= |spend| {
      var m := kept[j - |spend|];
      assert (spend + kept)[j] == m;
      var l :| 0 <= l < |ms| && ms[l] == m;
      assert l == i;
    }
  }

  lemma ContentIsDict(nfc: string -> string, v: Value, anchored: Value)
    requires CanonicalBytes(nfc, v).Ok? && CanonicalBytes(nfc, anchored).Ok? && anchored.Dict?
    requires SameContent(Content(nfc, v), Content(nfc, anchored))
    ensures v.Dict?
  {
  }

  /** Unedited rows always verify, with no assumption on SHA-256 and whatever the case says by now. */
  lemma UneditedVersionVerifies(env: Platform, f: VersionFacts, c0: Option<CaseFacts>, c: Option<CaseFacts>)
    requires PlatformLaws(env)
    requires DateInRange(f.start) && DateInRange(f.end)
    ensures var anchored := VersionPayload(env, f, c0);
            && CanonicalBytes(env.nfc, anchored).Ok?
            && Load(CanonicalBytes(env.nfc, anchored).value).Some?
            && var stored := Load(CanonicalBytes(env.nfc, anchored).value).value;
               Verified(CheckLocal(env, stored, HashOf(env, anchored), Some(RebuiltVersion(env, f, c, stored))))
  {
    var anchored := VersionPayload(env, f, c0);
    PayloadAccepted(env, f, c0);
    CanonicalBytesAccepts(env.nfc, anchored);
    CanonicalRoundTrip(env.nfc, anchored);
    var stored := Load(CanonicalBytes(env.nfc, anchored).value).value;
    var rebuilt := RebuiltVersion(env, f, c, stored);
    LoadedIsIntact(env, anchored);
    StoredHashes(env, stored, anchored);
    RebuiltComparesSpend(env, f, c0, f, c, stored);
    CanonicalBytesAccepts(env.nfc, rebuilt);
    HashOfDecides(env, rebuilt, anchored);
    VerifiedByHash(env, anchored, stored, rebuilt);
  }

  /** What the queue stores is intact. */
  lemma LoadedIsIntact(env: Platform, anchored: Value)
    requires PlatformLaws(env) && anchored.Dict? && CanonicalBytes(env.nfc, anchored).Ok?
    ensures Load(CanonicalBytes(env.nfc, anchored).value).Some?
    ensures StoredIntact(env, Load(CanonicalBytes(env.nfc, anchored).value).value, anchored)
  {
    CanonicalRoundTrip(env.nfc, anchored);
    var content := Content(env.nfc, anchored);
    var stored := SortKeys(content);
    NormalizeYieldsNormal(env.nfc, anchored);
    SortKeysKeepsNormal(env.nfc, content);
    NormalizeFixesNormal(env.nfc, stored);
    NormalIsPlain(env.nfc, content);
    SortKeysIdempotent(content);
    SortKeysDecidesContent(stored, content);
    assert forall i :: 0 <= i < |stored.members| ==> env.nfc(stored.members[i].key.s) == stored.members[i].key.s;
  }

  // ---------------------------------------------------------------- settlements

  lemma StampIsAscii(t: nat)
    ensures Ascii(Calendar.Rfc3339(t))
  {
  }

  /** Field by field, the payloads compare the published columns. */
  lemma SettlementScalars(env: Platform, a: SettlementFacts, b: SettlementFacts)
    requires PlatformLaws(env) && Calendar.Datable(a.settledAt) && Calendar.Datable(b.settledAt)
    ensures (forall i :: 0 <= i < 7 ==> SameValue(env, SettlementValues(a)[i], SettlementValues(b)[i]))
       <==> SameSettlementFacts(env, a, b)
  {
    hide SameValue;
    StampIsAscii(a.settledAt);
    StampIsAscii(b.settledAt);
    LeavesDecide(env);
    hide Calendar.Rfc3339, Calendar.Datable, Ascii;
    if Calendar.Rfc3339(a.settledAt) == Calendar.Rfc3339(b.settledAt) { Calendar.Rfc3339Injective(a.settledAt, b.settledAt); }
    var va, vb := SettlementValues(a), SettlementValues(b);
    assert va[0] == vb[0] && va[1] == Int(a.settlementId) && va[2] == Int(a.proposalId);
    assert va[3] == Int(a.versionNumber) && va[4] == Int(a.amount) && va[5] == Str(a.transferSha256);
    assert va[6] == Str(Calendar.Rfc3339(a.settledAt));
    assert env.nfc(Calendar.Rfc3339(a.settledAt)) == Calendar.Rfc3339(a.settledAt);
  }

  lemma SettlementAccepted(env: Platform, f: SettlementFacts)
    requires PlatformLaws(env)
    ensures Canonicalizable(env.nfc, SettlementPayload(f))
  {
    hide Calendar.Rfc3339;
    SettlementNames();
    RecordAccepted(env.nfc, SETTLEMENT_FIELDS, SettlementValues(f));
  }

  /** The payload pins every column of a Settlement, its moment to the microsecond. */
  lemma SettlementDecides(env: Platform, a: SettlementFacts, b: SettlementFacts)
    requires PlatformLaws(env) && Calendar.Datable(a.settledAt) && Calendar.Datable(b.settledAt)
    ensures SameValue(env, SettlementPayload(a), SettlementPayload(b)) <==> SameSettlementFacts(env, a, b)
  {
    hide SameValue, SameSettlementFacts, Calendar.Datable;
    SettlementNames();
    RecordDecides(env, SETTLEMENT_FIELDS, SettlementValues(a), SettlementValues(b));
    SettlementScalars(env, a, b);
  }

  /** Tamper evidence for a Settlement, both ways, short of a collision of one of two pairs. */
  lemma SettlementTamperEvidence(env: Platform, f0: SettlementFacts, f: SettlementFacts, stored: Value)
    requires PlatformLaws(env) && Calendar.Datable(f0.settledAt) && Calendar.Datable(f.settledAt)
    requires !Collision(env.nfc, env.sha, stored, SettlementPayload(f0))
    requires !Collision(env.nfc, env.sha, SettlementPayload(f), SettlementPayload(f0))
    ensures Verified(CheckLocal(env, stored, HashOf(env, SettlementPayload(f0)), Some(SettlementPayload(f))))
       <==> && CanonicalBytes(env.nfc, stored).Ok?
            && SameContent(Content(env.nfc, stored), Content(env.nfc, SettlementPayload(f0)))
            && SameSettlementFacts(env, f, f0)
  {
    var anchored, rebuilt := SettlementPayload(f0), SettlementPayload(f);
    SettlementDecides(env, f, f0);
    SettlementAccepted(env, f);
    SettlementAccepted(env, f0);
    CanonicalBytesAccepts(env.nfc, anchored);
    CanonicalBytesAccepts(env.nfc, rebuilt);
    VerifiedByHash(env, anchored, stored, rebuilt);
    HashOfDecides(env, rebuilt, anchored);
    if CanonicalBytes(env.nfc, stored).Ok? {
      HashDecidesContent(env.nfc, env.sha, stored, anchored);
    }
  }

  /** An unedited Settlement verifies, with no assumption on SHA-256. */
  lemma UneditedSettlementVerifies(env: Platform, f: SettlementFacts)
    requires PlatformLaws(env)
    ensures var anchored := SettlementPayload(f);
            && CanonicalBytes(env.nfc, anchored).Ok?
            && Load(CanonicalBytes(env.nfc, anchored).value).Some?
            && Verified(CheckLocal(env, Load(CanonicalBytes(env.nfc, anchored).value).value,
                                   HashOf(env, anchored), Some(anchored)))
  {
    var anchored := SettlementPayload(f);
    SettlementAccepted(env, f);
    CanonicalBytesAccepts(env.nfc, anchored);
    LoadedIsIntact(env, anchored);
    var stored := Load(CanonicalBytes(env.nfc, anchored).value).value;
    StoredHashes(env, stored, anchored);
    VerifiedByHash(env, anchored, stored, anchored);
  }
}
