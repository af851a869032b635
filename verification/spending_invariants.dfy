/** What every transaction of the spending lifecycle keeps. */
module SpendingInvariants {
  import opened Wrappers
  import opened CanonicalValues
  import opened CanonicalJson
  import opened EvidencePayloads
  import opened SpendingState
  import Integrity

  // ---------------------------------------------------------------- audit trail

  /** Where a proposal's own audit trail has got to; n is the last published version number. */
  datatype Phase = Fresh | Awaiting(n: nat) | Proceeding(n: nat) | Stopped(n: nat) | Paid(n: nat)

  function Advance(phase: Phase, row: Audit): Option<Phase> {
    match (phase, row)
    case (Fresh, VersionPublished(_, m)) => if m == 1 then Some(Awaiting(1)) else None
    case (Awaiting(n), VersionPublished(_, m)) => if m == n + 1 then Some(Awaiting(m)) else None
    case (Awaiting(n), Decided(_, proceed)) => Some(if proceed then Proceeding(n) else Stopped(n))
    case (Proceeding(n), VersionPublished(_, m)) => if m == n + 1 then Some(Awaiting(m)) else None
    case (Proceeding(n), Settled(_)) => Some(Paid(n))
    case _ => None
  }

  /** The rows about one proposal, oldest first. */
  function Trail(audit: seq<Audit>, pid: nat): seq<Audit> {
    if audit == [] then []
    else
      var n := |audit| - 1;
      Trail(audit[..n], pid) + (if audit[n].proposal == pid then [audit[n]] else [])
  }

  /** None when the trail is not one the lifecycle allows. */
  function Replay(trail: seq<Audit>): Option<Phase> {
    if trail == [] then Some(Fresh)
    else
      var n := |trail| - 1;
      match Replay(trail[..n])
      case None => None
      case Some(phase) => Advance(phase, trail[n])
  }

  function PhaseOf(p: Proposal, settled: bool): Phase {
    var n := |p.versions|;
    match p.status
    case Draft => Fresh
    case Published => Awaiting(n)
    case InProgress => Proceeding(n)
    case NotProceeding => Stopped(n)
    case _ => if settled then Paid(n) else Proceeding(n)
  }

  lemma TrailGrows(audit: seq<Audit>, row: Audit)
    ensures Trail(audit + [row], row.proposal) == Trail(audit, row.proposal) + [row]
    ensures forall q :: q != row.proposal ==> Trail(audit + [row], q) == Trail(audit, q)
    ensures Replay(Trail(audit, row.proposal)).Some? ==>
            Replay(Trail(audit + [row], row.proposal)) == Advance(Replay(Trail(audit, row.proposal)).value, row)
  {
    assert (audit + [row])[..|audit|] == audit;
    var trail := Trail(audit, row.proposal);
    assert (trail + [row])[..|trail|] == trail;
    forall q | q != row.proposal ensures Trail(audit + [row], q) == Trail(audit, q) {
      assert Trail(audit, q) + [] == Trail(audit, q);
    }
  }

  // ---------------------------------------------------------------- versions and settlements

  /** The hash version k links to. */
  ghost function LinkBefore(s: State, p: Proposal, k: nat): string
    requires k <= |p.versions|
  {
    if k == 0 then ZERO_HASH
    else if p.versions[k - 1].eventId in s.events then "0x" + s.events[p.versions[k - 1].eventId].payloadHash
    else ""
  }

  /** The event carries this payload and its hash. */
  ghost predicate Anchors(env: Platform, e: Event, payload: Value) {
    && CanonicalBytes(env.nfc, payload).Ok?
    && Load(CanonicalBytes(env.nfc, payload).value).Some?
    && e.payload == Load(CanonicalBytes(env.nfc, payload).value).value
    && e.payloadHash == HashOf(env, payload)
  }

  /** A version's event anchors its columns as they are now, with the case columns of some moment. */
  ghost predicate VersionAnchored(env: Platform, s: State, pid: nat, p: Proposal, v: Version) {
    && v.eventId in s.events
    && exists c0 :: Anchors(env, s.events[v.eventId], VersionPayload(env, FactsOf(s, pid, p, v), c0))
  }

  ghost predicate VersionOk(env: Platform, s: State, pid: nat, p: Proposal, k: nat)
    requires k < |p.versions|
  {
    var v := p.versions[k];
    && v.number == k + 1 && v.amount > 0
    && Integrity.DateInRange(v.start) && Integrity.DateInRange(v.end)
    && (forall q :: q in v.quotations ==> q in s.documents)
    && v.listed == QuotesOf(s.documents, v.quotations)
    && v.eventId in s.events
    && s.events[v.eventId].kind == VersionEvent
    && HexText(s.events[v.eventId].payloadHash)
    && s.events[v.eventId].previousHash == LinkBefore(s, p, k)
    && VersionAnchored(env, s, pid, p, v)
  }

  ghost predicate ProposalOk(env: Platform, s: State, pid: nat, p: Proposal) {
    && (forall k :: 0 <= k < |p.versions| ==> VersionOk(env, s, pid, p, k))
    && p.current == (if p.versions == [] then None else Some(|p.versions| - 1))
    && (p.status == Draft <==> p.versions == [])
  }

  ghost predicate SettlementAnchored(env: Platform, s: State, i: nat)
    requires i < |s.settlements| && s.settlements[i].proposal in s.proposals
  {
    && s.settlements[i].eventId in s.events
    && Anchors(env, s.events[s.settlements[i].eventId], SettlementPayload(SettlementFactsOf(s, i)))
  }

  /** Paid at the amount of the proposal's current version, and linked to that version's hash. */
  ghost predicate SettlementOk(env: Platform, s: State, i: nat)
    requires i < |s.settlements|
  {
    var row := s.settlements[i];
    && row.proposal in s.proposals
    && row.transfer in s.documents
    && row.settledAt <= s.now
    && row.eventId in s.events
    && var p := s.proposals[row.proposal];
    && p.status in {Completed, Closed}
    && p.versions != []
    && row.amount == p.versions[|p.versions| - 1].amount
    && s.events[row.eventId].kind == SettlementEvent
    && s.events[row.eventId].previousHash == LinkBefore(s, p, |p.versions|)
    && SettlementAnchored(env, s, i)
    && (i < |s.ledger| ==> ShowsEvidence(s, s.ledger[i], p.versions[|p.versions| - 1], row.transfer))
  }

  /** The ledger entry names the version's contractor and the hashes of exactly its documents. */
  ghost predicate ShowsEvidence(s: State, entry: LedgerEntry, v: Version, transfer: nat) {
    entry.contractor == v.contractor && entry.hashes == DocumentHashes(s, v, transfer)
  }

  ghost predicate LedgerOk(s: State, i: nat)
    requires i < |s.settlements| && i < |s.ledger|
  {
    && s.ledger[i].settlement == i
    && s.ledger[i].proposal == s.settlements[i].proposal
    && s.ledger[i].actualCost == s.settlements[i].amount
  }

  /** No two version rows and no two settlements share an event. */
  ghost predicate EventsUnshared(s: State) {
    && (forall p, q, j, k ::
          (p in s.proposals && q in s.proposals && 0 <= j < |s.proposals[p].versions| && 0 <= k < |s.proposals[q].versions|
           && s.proposals[p].versions[j].eventId == s.proposals[q].versions[k].eventId) ==> p == q && j == k)
    && (forall i, j :: 0 <= i < j < |s.settlements| ==> s.settlements[i].eventId != s.settlements[j].eventId)
  }

  ghost predicate RowsOk(env: Platform, s: State) {
    && (forall pid :: pid in s.proposals ==> ProposalOk(env, s, pid, s.proposals[pid]))
    && (forall p, q ::
          (p in s.proposals && q in s.proposals && s.proposals[p].caseId.Some?
           && s.proposals[p].caseId == s.proposals[q].caseId) ==> p == q)
    && (forall i :: 0 <= i < |s.settlements| ==> SettlementOk(env, s, i))
    && (forall i, j :: 0 <= i < j < |s.settlements| ==> s.settlements[i].proposal != s.settlements[j].proposal)
    && |s.ledger| == |s.settlements|
    && (forall i :: 0 <= i < |s.settlements| ==> LedgerOk(s, i))
    && EventsUnshared(s)
  }

  ghost predicate AuditOk(s: State) {
    && (forall pid :: pid in s.proposals ==>
          Replay(Trail(s.audit, pid)) == Some(PhaseOf(s.proposals[pid], SettlementOf(s, pid).Some?)))
    && (forall pid :: pid !in s.proposals ==> Trail(s.audit, pid) == [])
  }

  // ---------------------------------------------------------------- money

  /** The outflow key of this proposal is held by an entry that is no outflow. */
  ghost predicate Squatted(entries: seq<FundEntry>, pid: nat) {
    exists i :: 0 <= i < |entries| && entries[i].key == OutflowKey(pid) && entries[i].kind != Outflow
  }

  ghost function BuildingOf(proposals: map<nat, Proposal>, pid: nat): Option<nat> {
    if pid in proposals then Some(proposals[pid].building) else None
  }

  ghost function OutflowSum(entries: seq<FundEntry>, building: nat): int {
    if entries == [] then 0
    else
      var e := entries[|entries| - 1];
      OutflowSum(entries[..|entries| - 1], building)
      + (if e.building == building && e.kind == Outflow then e.amount else 0)
  }

  ghost function VerifiedSources(entries: seq<FundEntry>, building: nat): int {
    if entries == [] then 0
    else
      var e := entries[|entries| - 1];
      VerifiedSources(entries[..|entries| - 1], building)
      + (if e.building == building && e.kind != Outflow && e.verified then e.amount else 0)
  }

  /** Settlement amounts of a building, restricted to those with (or without) a squatted outflow key. */
  ghost function PaidSum(s: State, rows: seq<Settlement>, building: nat, squatted: bool): int {
    if rows == [] then 0
    else
      var row := rows[|rows| - 1];
      PaidSum(s, rows[..|rows| - 1], building, squatted)
      + (if BuildingOf(s.proposals, row.proposal) == Some(building) && Squatted(s.entries, row.proposal) == squatted
         then row.amount else 0)
  }

  /** Some settlement of the entry's proposal paid this amount out of this building's fund. */
  ghost predicate Backed(s: State, e: FundEntry)
    requires e.proposal.Some?
  {
    && BuildingOf(s.proposals, e.proposal.value) == Some(e.building)
    && exists j :: 0 <= j < |s.settlements| && s.settlements[j].proposal == e.proposal.value && e.amount == -s.settlements[j].amount
  }

  ghost predicate MoneyOk(s: State) {
    && (forall i, j :: 0 <= i < j < |s.entries| ==> s.entries[i].key != s.entries[j].key)
    && (forall i :: 0 <= i < |s.entries| && s.entries[i].kind == Outflow ==>
          && s.entries[i].proposal.Some?
          && s.entries[i].key == OutflowKey(s.entries[i].proposal.value)
          && Backed(s, s.entries[i]))
    && (forall i :: 0 <= i < |s.settlements| ==> KeyUsed(s.entries, OutflowKey(s.settlements[i].proposal)))
    && (forall b :: OutflowSum(s.entries, b) == -PaidSum(s, s.settlements, b, false))
  }

  ghost predicate Inv(env: Platform, s: State) {
    RowsOk(env, s) && AuditOk(s) && MoneyOk(s)
  }

  // ---------------------------------------------------------------- what a step may change

  /** A proposal row keeps its identity and its versions; once decided against or completed it is fixed. */
  ghost predicate Evolves(p: Proposal, q: Proposal) {
    && p.building == q.building && p.caseId == q.caseId
    && p.versions <= q.versions
    && (p.status in {Completed, Closed} ==>
          q.status in {Completed, Closed} && q.versions == p.versions && q.current == p.current)
    && (p.status == NotProceeding ==> q == p)
  }

  ghost predicate EntriesGrow(a: seq<FundEntry>, b: seq<FundEntry>) {
    && |a| <= |b|
    && forall i :: 0 <= i < |a| ==> b[i] == a[i] || (a[i].kind != Outflow && b[i] == a[i].(verified := true))
  }

  /** Nothing published is edited or lost from s to t. */
  ghost predicate Extends(s: State, t: State) {
    && s.now <= t.now
    && (forall d :: d in s.documents ==> d in t.documents && t.documents[d] == s.documents[d])
    && (forall e :: e in s.events ==> e in t.events && t.events[e] == s.events[e])
    && (forall pid :: pid in s.proposals ==> pid in t.proposals && Evolves(s.proposals[pid], t.proposals[pid]))
    && s.settlements <= t.settlements
    && s.ledger <= t.ledger
    && s.audit <= t.audit
    && EntriesGrow(s.entries, t.entries)
  }

  lemma ExtendsTransitive(s: State, t: State, u: State)
    requires Extends(s, t) && Extends(t, u)
    ensures Extends(s, u)
  {
    forall pid | pid in s.proposals ensures pid in u.proposals && Evolves(s.proposals[pid], u.proposals[pid]) {
      assert Evolves(t.proposals[pid], u.proposals[pid]);
    }
  }

  lemma QueueGrows(env: Platform, s: State, eventId: string, kind: EventKind, payload: Value, previous: string)
    ensures var r := QueueEvent(env, s, eventId, kind, payload, previous);
            r.Ok? ==>
              && r.value.0 == s.(events := r.value.0.events)
              && (forall e :: e in s.events ==> e in r.value.0.events && r.value.0.events[e] == s.events[e])
  {
  }
}
