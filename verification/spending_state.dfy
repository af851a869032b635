/**
 The spending lifecycle as transactions over the database tables: proposals and
 their versions, Proceed decisions, work, Settlement, fund and ledger entries.
 A transaction either commits a new state or is refused and leaves the old one.
 */
module SpendingState {
  import opened Wrappers
  import opened CanonicalValues
  import opened CanonicalJson
  import opened EvidencePayloads
  import Integrity
  import PayloadSchema
  import Texts
  import Calendar
  import Decimal

  // ---------------------------------------------------------------- rows

  datatype DocumentKind = Quotation | PaymentProof | OtherKind

  datatype Document = Document(building: nat, kind: DocumentKind, clean: bool, sha256: string)

  datatype Case = Case(
    building: nat,
    active: bool,
    startedAt: Option<nat>,
    completedAt: Option<nat>,
    closedAt: Option<nat>,
    category: string,
    queue: string,
    locationId: nat)

  datatype ProposalStatus = Draft | Published | NotProceeding | InProgress | Completed | Closed

  /** `quotations` are the links of a version to its documents, `listed` what its snapshot column says of them. */
  datatype Version = Version(
    number: nat,
    amount: int,
    contractor: string,
    purpose: string,
    action: string,
    start: Option<Calendar.Date>,
    end: Option<Calendar.Date>,
    schedule: string,
    quotations: seq<nat>,
    listed: seq<Quote>,
    eventId: string)

  /** `versions` holds the proposal's version rows in insertion order; `current` points at one of them. */
  datatype Proposal = Proposal(
    building: nat,
    caseId: Option<nat>,
    status: ProposalStatus,
    versions: seq<Version>,
    current: Option<nat>,
    decidedAt: Option<nat>,
    completedAt: Option<nat>,
    closedAt: Option<nat>)

  datatype EventKind = VersionEvent | SettlementEvent

  /** The immutable identity of an outbox event. */
  datatype Event = Event(kind: EventKind, payload: Value, payloadHash: string, previousHash: string)

  datatype Settlement = Settlement(proposal: nat, amount: int, transfer: nat, settledAt: nat, eventId: string)

  datatype EntryType = OpeningBalance | Inflow | Outflow

  /** `verified` says that a verification row exists for the entry. */
  datatype FundEntry = FundEntry(
    building: nat,
    kind: EntryType,
    amount: int,
    proposal: Option<nat>,
    key: string,
    verified: bool)

  datatype LedgerEntry = LedgerEntry(
    proposal: nat,
    settlement: nat,
    actualCost: int,
    contractor: string,
    hashes: set<string>)

  datatype Audit =
    | VersionPublished(proposal: nat, number: nat)
    | Decided(proposal: nat, proceed: bool)
    | Settled(proposal: nat)

  datatype State = State(
    now: nat,
    documents: map<nat, Document>,
    cases: map<nat, Case>,
    proposals: map<nat, Proposal>,
    events: map<string, Event>,
    settlements: seq<Settlement>,
    entries: seq<FundEntry>,
    ledger: seq<LedgerEntry>,
    audit: seq<Audit>)

  datatype Error = ValidationError | EvidenceConflict | IntegrityError

  type Outcome = Result<State, Error>

  const INITIAL := State(0, map[], map[], map[], map[], [], [], [], [])

  const ZERO_HASH: string := "0x" + Decimal.Padded(0, 64)

  const RATING_WINDOW: nat := 14 * Calendar.MICROS_PER_DAY

  // ---------------------------------------------------------------- evidence queue

  function SchemaOf(kind: EventKind): (schema: PayloadSchema.Schema)
    ensures |schema.names| == |schema.shapes|
  {
    match kind
    case VersionEvent => PayloadSchema.PROPOSAL_CREATED
    case SettlementEvent => PayloadSchema.SETTLEMENT
  }

  /** Idempotent insert of one event; the second component is its normalised id. */
  function QueueEvent(env: Platform, s: State, eventId: string, kind: EventKind, payload: Value, previousHash: string)
    : Result<(State, string), Error>
  {
    var id, previous := Integrity.Lower(eventId), Integrity.Lower(previousHash);
    if !PayloadSchema.Conforms(SchemaOf(kind), payload) then Err(ValidationError)
    else if !Texts.IsBytes32(id) || !Texts.IsBytes32(previous) then Err(ValidationError)
    else
      match CanonicalBytes(env.nfc, payload)
      case Err(_) => Err(ValidationError)
      case Ok(bytes) =>
        match Load(bytes)
        case None => Err(ValidationError)
        case Some(normalized) =>
          var event := Event(kind, normalized, HashOf(env, normalized), previous);
          if id !in s.events then Ok((s.(events := s.events[id := event]), id))
          else if s.events[id] == event then Ok((s, id))
          else Err(EvidenceConflict)
  }

  predicate VersionEventTaken(s: State, id: string) {
    exists pid :: pid in s.proposals && exists k :: 0 <= k < |s.proposals[pid].versions| && s.proposals[pid].versions[k].eventId == id
  }

  predicate SettlementEventTaken(s: State, id: string) {
    exists i :: 0 <= i < |s.settlements| && s.settlements[i].eventId == id
  }

  // ---------------------------------------------------------------- published rows

  function QuoteOf(documents: map<nat, Document>, id: nat): Quote {
    Quote(id, if id in documents then documents[id].sha256 else "")
  }

  function QuotesOf(documents: map<nat, Document>, ids: seq<nat>): (r: seq<Quote>)
    ensures |r| == |ids| && forall i :: 0 <= i < |ids| ==> r[i] == QuoteOf(documents, ids[i])
  {
    seq(|ids|, i requires 0 <= i < |ids| => QuoteOf(documents, ids[i]))
  }

  /** The published columns of a version row, as any reader sees them now. */
  function FactsOf(s: State, pid: nat, p: Proposal, v: Version): VersionFacts {
    VersionFacts(pid, v.number, p.caseId, p.building, v.amount, v.contractor, v.purpose, v.action,
                 v.start, v.end, v.schedule, QuotesOf(s.documents, v.quotations))
  }

  /** The case columns as they are now. */
  function CaseOf(s: State, p: Proposal): Option<CaseFacts> {
    if p.caseId.Some? && p.caseId.value in s.cases then
      var c := s.cases[p.caseId.value];
      Some(CaseFacts(p.caseId.value, c.category, c.queue, c.locationId))
    else None
  }

  function SettlementFactsOf(s: State, i: nat): SettlementFacts
    requires i < |s.settlements| && s.settlements[i].proposal in s.proposals
  {
    var row := s.settlements[i];
    var p := s.proposals[row.proposal];
    SettlementFacts(i + 1, row.proposal, CurrentNumber(p), row.amount,
                    QuoteOf(s.documents, row.transfer).sha256, row.settledAt)
  }

  function CurrentNumber(p: Proposal): nat {
    if p.current.Some? && p.current.value < |p.versions| then p.versions[p.current.value].number else 0
  }

  // ---------------------------------------------------------------- proposals

  /** `reportsAllow`: no linked report is private or in progress. */
  function CreateProposal(s: State, caseId: nat, pid: nat, reportsAllow: bool): Outcome {
    if caseId !in s.cases || !s.cases[caseId].active || s.cases[caseId].completedAt.Some? then Err(ValidationError)
    else if !reportsAllow then Err(ValidationError)
    else if exists q :: q in s.proposals && s.proposals[q].caseId == Some(caseId) then Err(ValidationError)
    else if pid in s.proposals then Err(IntegrityError)
    else Ok(s.(proposals := s.proposals[pid := Proposal(s.cases[caseId].building, Some(caseId), Draft, [], None, None, None, None)]))
  }

  function CreateStandaloneProposal(s: State, building: nat, pid: nat): Outcome {
    if pid in s.proposals then Err(IntegrityError)
    else Ok(s.(proposals := s.proposals[pid := Proposal(building, None, Draft, [], None, None, None, None)]))
  }

  datatype VersionInput = VersionInput(
    amount: int,
    contractor: string,
    purpose: string,
    action: string,
    start: Option<Calendar.Date>,
    end: Option<Calendar.Date>,
    schedule: string,
    quotations: seq<nat>)

  predicate Before(a: Calendar.Date, b: Calendar.Date) {
    a.year < b.year || (a.year == b.year && (a.month < b.month || (a.month == b.month && a.day < b.day)))
  }

  /** The frozen schedule label. */
  function ResolveSchedule(i: VersionInput): Result<string, Error> {
    if !Integrity.DateInRange(i.start) || !Integrity.DateInRange(i.end) then Err(ValidationError)
    else if i.start.Some? != i.end.Some? then Err(ValidationError)
    else if i.start.Some? then
      if Before(i.end.value, i.start.value) then Err(ValidationError)
      else Ok(Texts.DayMonthYear(i.start.value) + " \U{2013} " + Texts.DayMonthYear(i.end.value))
    else if !Texts.Blank(i.schedule) then Ok(Texts.Strip(i.schedule))
    else Ok("To be scheduled")
  }

  predicate Distinct(ids: seq<nat>) { forall i, j :: 0 <= i < j < |ids| ==> ids[i] != ids[j] }

  predicate QuotationsUsable(s: State, building: nat, ids: seq<nat>) {
    && ids != [] && Distinct(ids)
    && forall i :: 0 <= i < |ids| ==>
         ids[i] in s.documents && s.documents[ids[i]].kind == Quotation
         && s.documents[ids[i]].building == building && s.documents[ids[i]].clean
  }

  /** Highest version number so far, 0 when there is none. */
  function LastNumber(versions: seq<Version>): nat {
    if versions == [] then 0
    else
      var n, m := versions[|versions| - 1].number, LastNumber(versions[..|versions| - 1]);
      if n > m then n else m
  }

  /** The row carrying the highest number. */
  function LastVersion(versions: seq<Version>): Option<Version> {
    if versions == [] then None
    else
      var v := versions[|versions| - 1];
      if v.number == LastNumber(versions) then Some(v) else LastVersion(versions[..|versions| - 1])
  }

  /** Hash the next event of a proposal links to. */
  function PreviousHash(s: State, versions: seq<Version>): string {
    var last := LastVersion(versions);
    if last.None? then ZERO_HASH
    else if last.value.eventId in s.events then "0x" + s.events[last.value.eventId].payloadHash
    else ""
  }

  function PublishVersion(env: Platform, s: State, pid: nat, input: VersionInput, eventId: string): Outcome {
    if pid !in s.proposals then Err(ValidationError)
    else
      var p := s.proposals[pid];
      var schedule := ResolveSchedule(input);
      if input.amount <= 0 || Texts.Blank(input.contractor) then Err(ValidationError)
      else if p.status !in {Draft, Published, InProgress} then Err(ValidationError)
      else if Texts.Blank(input.purpose) || Texts.Blank(input.action) then Err(ValidationError)
      else if schedule.Err? then Err(schedule.error)
      else if !QuotationsUsable(s, p.building, input.quotations) then Err(ValidationError)
      else
        var draft := NewVersion(s.documents, p, input, schedule.value, "");
        match QueueEvent(env, s, eventId, VersionEvent, VersionPayload(env, FactsOf(s, pid, p, draft), CaseOf(s, p)),
                         PreviousHash(s, p.versions))
        case Err(e) => Err(e)
        case Ok((queued, id)) =>
          if VersionEventTaken(s, id) then Err(IntegrityError)
          else
            Ok(queued.(proposals := s.proposals[pid := WithVersion(p, draft.(eventId := id))],
                       audit := s.audit + [VersionPublished(pid, draft.number)]))
  }

  function NewVersion(documents: map<nat, Document>, p: Proposal, input: VersionInput, schedule: string, eventId: string): Version {
    Version(LastNumber(p.versions) + 1, input.amount, Texts.Strip(input.contractor), Texts.Strip(input.purpose),
            Texts.Strip(input.action), input.start, input.end, schedule, input.quotations, QuotesOf(documents, input.quotations), eventId)
  }

  /** Append the row, point at it, and ask for a (new) Proceed decision. */
  function WithVersion(p: Proposal, v: Version): Proposal {
    p.(versions := p.versions + [v], current := Some(|p.versions|), status := Published)
  }

  function DecideProposal(s: State, pid: nat, proceed: bool): Outcome {
    if pid !in s.proposals || s.proposals[pid].status != Published then Err(ValidationError)
    else
      var p := s.proposals[pid].(
        status := if proceed then InProgress else NotProceeding,
        decidedAt := Some(s.now),
        closedAt := if proceed then None else Some(s.now));
      Ok(s.(proposals := s.proposals[pid := p], audit := s.audit + [Decided(pid, proceed)]))
  }

  // ---------------------------------------------------------------- work

  function StartCaseWork(s: State, caseId: nat): Outcome {
    if caseId !in s.cases || !s.cases[caseId].active || s.cases[caseId].completedAt.Some? then Err(ValidationError)
    else if exists q :: q in s.proposals && s.proposals[q].caseId == Some(caseId) && s.proposals[q].status == Published
    then Err(ValidationError)
    else
      var c := s.cases[caseId];
      Ok(s.(cases := s.cases[caseId := c.(startedAt := if c.startedAt.None? then Some(s.now) else c.startedAt)]))
  }

  /** Completing a case completes the proposal that was decided to proceed with, and no other. */
  function CompleteCaseWork(s: State, caseId: nat, cause: string, result: string): Outcome {
    if caseId !in s.cases || !s.cases[caseId].active || s.cases[caseId].completedAt.Some?
       || s.cases[caseId].startedAt.None? then Err(ValidationError)
    else if Texts.Blank(cause) || Texts.Blank(result) then Err(ValidationError)
    else
      Ok(s.(cases := s.cases[caseId := s.cases[caseId].(completedAt := Some(s.now))],
            proposals := CompleteLinked(s.proposals, caseId, s.now)))
  }

  function CompleteLinked(proposals: map<nat, Proposal>, caseId: nat, now: nat): map<nat, Proposal> {
    map q | q in proposals :: CompletedWith(proposals[q], caseId, now)
  }

  function CompletedWith(p: Proposal, caseId: nat, now: nat): Proposal {
    if p.caseId == Some(caseId) && p.status == InProgress then p.(status := Completed, completedAt := Some(now)) else p
  }

  function CompleteProposalWork(s: State, pid: nat, cause: string, result: string): Outcome {
    if pid !in s.proposals || s.proposals[pid].caseId.Some? || s.proposals[pid].status != InProgress
    then Err(ValidationError)
    else if Texts.Blank(cause) || Texts.Blank(result) then Err(ValidationError)
    else
      Ok(s.(proposals := s.proposals[pid := s.proposals[pid].(status := Completed, completedAt := Some(s.now))]))
  }

  function SettlementOf(s: State, pid: nat): Option<Settlement> {
    FindSettlement(s.settlements, pid)
  }

  function FindSettlement(rows: seq<Settlement>, pid: nat): (r: Option<Settlement>)
    ensures r.Some? <==> exists i :: 0 <= i < |rows| && rows[i].proposal == pid
    ensures r.Some? ==> r.value in rows && r.value.proposal == pid
  {
    if rows == [] then None
    else if rows[0].proposal == pid then Some(rows[0])
    else
      assert forall i :: 1 <= i < |rows| ==> rows[i] == rows[1..][i - 1];
      FindSettlement(rows[1..], pid)
  }

  predicate CaseExpired(c: Case, now: nat) {
    c.completedAt.Some? && c.completedAt.value + RATING_WINDOW <= now && c.closedAt.None?
  }

  predicate ProposalExpired(s: State, pid: nat)
    requires pid in s.proposals
  {
    var p := s.proposals[pid];
    && p.caseId.None? && p.status == Completed && p.completedAt.Some? && p.closedAt.None?
    && p.completedAt.value + RATING_WINDOW <= s.now
    && (SettlementOf(s, pid).Some? ==> SettlementOf(s, pid).value.settledAt <= s.now)
  }

  /** The nightly closing of cases and standalone proposals past the rating window. */
  function CloseExpired(s: State): State {
    s.(cases := CloseCases(s.cases, s.now), proposals := CloseProposals(s))
  }

  function CloseCases(cases: map<nat, Case>, now: nat): map<nat, Case> {
    map c | c in cases :: CloseCase(cases[c], now)
  }

  function CloseProposals(s: State): map<nat, Proposal> {
    map q | q in s.proposals :: CloseProposal(s, q)
  }

  function CloseCase(c: Case, now: nat): Case {
    if CaseExpired(c, now) then c.(active := false, closedAt := Some(now)) else c
  }

  function CloseProposal(s: State, pid: nat): Proposal
    requires pid in s.proposals
  {
    if ProposalExpired(s, pid) then s.proposals[pid].(status := Closed, closedAt := Some(s.now)) else s.proposals[pid]
  }

  // ---------------------------------------------------------------- settlement, fund and ledger

  function OutflowKey(pid: nat): string { "OUTFLOW:proposal:" + Decimal.NatText(pid) }

  predicate KeyUsed(entries: seq<FundEntry>, key: string) {
    exists i :: 0 <= i < |entries| && entries[i].key == key
  }

  /** Get or create the outflow of a settled proposal, by source key. */
  function CreateOutflow(entries: seq<FundEntry>, pid: nat, building: nat, amount: int): seq<FundEntry> {
    if KeyUsed(entries, OutflowKey(pid)) then entries
    else entries + [FundEntry(building, Outflow, -amount, Some(pid), OutflowKey(pid), false)]
  }

  function DocumentHashes(s: State, v: Version, transfer: nat): set<string> {
    (set q | q in v.quotations :: QuoteOf(s.documents, q).sha256) + {QuoteOf(s.documents, transfer).sha256}
  }

  function RecordSettlement(env: Platform, s: State, pid: nat, transfer: nat, eventId: string): Outcome {
    if pid !in s.proposals || s.proposals[pid].status != Completed then Err(ValidationError)
    else if SettlementOf(s, pid).Some? then Err(ValidationError)
    else
      var p := s.proposals[pid];
      if p.current.None? || p.current.value >= |p.versions| then Err(ValidationError)
      else if transfer !in s.documents || s.documents[transfer].kind != PaymentProof
              || s.documents[transfer].building != p.building || !s.documents[transfer].clean
      then Err(ValidationError)
      else
        var v := p.versions[p.current.value];
        var i := |s.settlements|;
        var facts := SettlementFacts(i + 1, pid, v.number, v.amount, s.documents[transfer].sha256, s.now);
        var previous := if v.eventId in s.events then "0x" + s.events[v.eventId].payloadHash else "";
        match QueueEvent(env, s, eventId, SettlementEvent, SettlementPayload(facts), previous)
        case Err(e) => Err(e)
        case Ok((queued, id)) =>
          if SettlementEventTaken(s, id) then Err(IntegrityError)
          else
            Ok(queued.(settlements := s.settlements + [Settlement(pid, v.amount, transfer, s.now, id)],
                       entries := CreateOutflow(s.entries, pid, p.building, v.amount),
                       ledger := s.ledger + [LedgerEntry(pid, i, v.amount, v.contractor, DocumentHashes(s, v, transfer))],
                       audit := s.audit + [Settled(pid)]))
  }

  function TypeName(kind: EntryType): string {
    match kind
    case OpeningBalance => "OPENING_BALANCE"
    case Inflow => "INFLOW"
    case Outflow => "OUTFLOW"
  }

  function SourceKey(kind: EntryType, fund: nat, sha256: string): string {
    TypeName(kind) + ":" + Decimal.NatText(fund) + ":" + sha256
  }

  /** `sourceKey` may be "" to take the default key. */
  function RecordFundSource(s: State, building: nat, kind: EntryType, amount: int, evidence: nat, sourceKey: string): Outcome {
    if kind == Outflow || amount <= 0 then Err(ValidationError)
    else if evidence !in s.documents || s.documents[evidence].building != building || !s.documents[evidence].clean
    then Err(ValidationError)
    else
      var key := if sourceKey != "" then sourceKey else SourceKey(kind, building, s.documents[evidence].sha256);
      if KeyUsed(s.entries, key) then Err(ValidationError)
      else Ok(s.(entries := s.entries + [FundEntry(building, kind, amount, None, key, false)]))
  }

  function VerifyFundSource(s: State, entry: nat): Outcome {
    if entry >= |s.entries| || s.entries[entry].kind == Outflow || s.entries[entry].verified then Err(ValidationError)
    else Ok(s.(entries := s.entries[entry := s.entries[entry].(verified := true)]))
  }

  predicate InLedger(ledger: seq<LedgerEntry>, pid: nat) {
    exists i :: 0 <= i < |ledger| && ledger[i].proposal == pid
  }

  /** Verified sources and finalised postings count towards the balance. */
  predicate Counts(e: FundEntry, ledger: seq<LedgerEntry>) {
    if e.kind == Outflow then e.proposal.Some? && InLedger(ledger, e.proposal.value) else e.verified
  }

  function FundBalance(entries: seq<FundEntry>, ledger: seq<LedgerEntry>, building: nat): int {
    if entries == [] then 0
    else
      var e := entries[|entries| - 1];
      FundBalance(entries[..|entries| - 1], ledger, building)
      + (if e.building == building && Counts(e, ledger) then e.amount else 0)
  }

  // ---------------------------------------------------------------- surroundings

  function AddDocument(s: State, id: nat, d: Document): Outcome {
    if id in s.documents then Err(IntegrityError) else Ok(s.(documents := s.documents[id := d]))
  }

  function OpenCase(s: State, id: nat, building: nat, category: string, queue: string, locationId: nat): Outcome {
    if id in s.cases then Err(IntegrityError)
    else Ok(s.(cases := s.cases[id := Case(building, true, None, None, None, category, queue, locationId)]))
  }

  /** The triage columns of a case may change at any time. */
  function RetriageCase(s: State, id: nat, category: string, queue: string, locationId: nat): Outcome {
    if id !in s.cases then Err(ValidationError)
    else Ok(s.(cases := s.cases[id := s.cases[id].(category := category, queue := queue, locationId := locationId)]))
  }

  /** Declining the last open report closes its case. */
  function DeclineCase(s: State, id: nat): Outcome {
    if id !in s.cases || !s.cases[id].active then Err(ValidationError)
    else Ok(s.(cases := s.cases[id := s.cases[id].(active := false, closedAt := Some(s.now))]))
  }

  // ---------------------------------------------------------------- runs

  datatype Step =
    | Tick(elapsed: nat)
    | AddDocumentStep(id: nat, document: Document)
    | OpenCaseStep(id: nat, building: nat, category: string, queue: string, locationId: nat)
    | RetriageStep(id: nat, category: string, queue: string, locationId: nat)
    | DeclineStep(id: nat)
    | CreateStep(caseId: nat, pid: nat, reportsAllow: bool)
    | CreateStandaloneStep(building: nat, pid: nat)
    | PublishStep(pid: nat, input: VersionInput, eventId: string)
    | DecideStep(pid: nat, proceed: bool)
    | StartStep(caseId: nat)
    | CompleteCaseStep(caseId: nat, cause: string, result: string)
    | CompleteProposalStep(pid: nat, cause: string, result: string)
    | CloseStep
    | SettleStep(pid: nat, transfer: nat, eventId: string)
    | RecordSourceStep(building: nat, kind: EntryType, amount: int, evidence: nat, sourceKey: string)
    | VerifySourceStep(entry: nat)

  function Attempt(env: Platform, s: State, step: Step): Outcome {
    match step
    case Tick(elapsed) => Ok(s.(now := s.now + elapsed))
    case AddDocumentStep(id, d) => AddDocument(s, id, d)
    case OpenCaseStep(id, b, c, q, l) => OpenCase(s, id, b, c, q, l)
    case RetriageStep(id, c, q, l) => RetriageCase(s, id, c, q, l)
    case DeclineStep(id) => DeclineCase(s, id)
    case CreateStep(c, pid, ok) => CreateProposal(s, c, pid, ok)
    case CreateStandaloneStep(b, pid) => CreateStandaloneProposal(s, b, pid)
    case PublishStep(pid, input, id) => PublishVersion(env, s, pid, input, id)
    case DecideStep(pid, proceed) => DecideProposal(s, pid, proceed)
    case StartStep(c) => StartCaseWork(s, c)
    case CompleteCaseStep(c, cause, result) => CompleteCaseWork(s, c, cause, result)
    case CompleteProposalStep(pid, cause, result) => CompleteProposalWork(s, pid, cause, result)
    case CloseStep => Ok(CloseExpired(s))
    case SettleStep(pid, transfer, id) => RecordSettlement(env, s, pid, transfer, id)
    case RecordSourceStep(b, k, a, e, key) => RecordFundSource(s, b, k, a, e, key)
    case VerifySourceStep(e) => VerifyFundSource(s, e)
  }

  /** A refused transaction rolls back. */
  function Apply(env: Platform, s: State, step: Step): State {
    match Attempt(env, s, step)
    case Ok(t) => t
    case Err(_) => s
  }

  function Run(env: Platform, s: State, steps: seq<Step>): State {
    if steps == [] then s
    else Apply(env, Run(env, s, steps[..|steps| - 1]), steps[|steps| - 1])
  }
}
