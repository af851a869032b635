/**
 One row of the evidence outbox: claiming it under a lease, and the four ways a worker
 settles it. Times are whole seconds.
 */
module Outbox {
  import opened Powers
  import opened Wrappers
  import Integrity

  const LEASE_SECONDS := 180
  const RETRY_BASE_SECONDS := 30
  const RETRY_MAX_SECONDS := 3600

  /** No worker ever writes `Failed`. */
  datatype Status = Pending | Submitted | Confirmed | Mismatch | Local | Failed

  /** The signed columns of an event; no step of a worker changes them. */
  datatype Identity = Identity(payloadHash: string, previousHash: string, eventType: nat, signer: nat)

  /** What the registry holds for an event id; written once. */
  datatype Record = Record(payloadHash: string, previousHash: string, eventType: nat, signer: nat)

  datatype Row = Row(
    status: Status,
    attempts: nat,
    nextAttemptAt: Option<int>,
    leaseExpiresAt: Option<int>,
    submittedAt: Option<int>,
    lastAttemptAt: Option<int>,
    confirmedAt: Option<int>)

  const NEW_ROW := Row(Pending, 0, None, None, None, None, None)

  predicate Terminal(status: Status) { status in {Confirmed, Mismatch, Local} }

  // ---------------------------------------------------------------- matching

  function NormalizeHash(h: string): string { Integrity.StripPrefix(Integrity.Lower(h)) }

  predicate RecordMatches(r: Record, e: Identity) {
    && NormalizeHash(r.payloadHash) == NormalizeHash(e.payloadHash)
    && Integrity.Lower(r.previousHash) == Integrity.Lower(e.previousHash)
    && r.eventType == e.eventType
    && r.signer == e.signer
  }

  /** The record a transaction of the outbox writes for an event. */
  function OwnRecord(e: Identity): Record {
    var hash := Integrity.Lower(e.payloadHash);
    Record(if "0x" <= hash then hash else "0x" + hash, Integrity.Lower(e.previousHash), e.eventType, e.signer)
  }

  lemma LowerTwice(s: string)
    ensures Integrity.Lower(Integrity.Lower(s)) == Integrity.Lower(s)
    ensures Integrity.Lower("0x" + s) == "0x" + Integrity.Lower(s)
  {
  }

  /** What the worker itself sent is never a mismatch, however hashes and prefixes are spelled. */
  lemma OwnRecordMatches(e: Identity)
    ensures RecordMatches(OwnRecord(e), e)
  {
    var hash := Integrity.Lower(e.payloadHash);
    LowerTwice(e.payloadHash);
    LowerTwice(e.previousHash);
    LowerTwice(hash);
    assert ("0x" + hash)[2..] == hash;
  }

  // ---------------------------------------------------------------- matching, column by column

  ghost predicate Prefixed(h: string) { |h| >= 2 && h[0] == '0' && (h[1] == 'x' || h[1] == 'X') }

  /** The same digits in either case, each with or without its prefix. */
  ghost predicate SameDigits(a: string, b: string) {
    || Integrity.SameButCase(a, b)
    || (Prefixed(a) && !Prefixed(b) && Integrity.SameButCase(a[2..], b))
    || (Prefixed(b) && !Prefixed(a) && Integrity.SameButCase(a, b[2..]))
  }

  /** The record says of the event what the event says of itself. */
  ghost predicate Agrees(r: Record, e: Identity) {
    && SameDigits(r.payloadHash, e.payloadHash) && Integrity.SameButCase(r.previousHash, e.previousHash)
    && r.eventType == e.eventType && r.signer == e.signer
  }

  lemma LowerPrefix(h: string)
    ensures "0x" <= Integrity.Lower(h) <==> Prefixed(h)
    ensures Prefixed(h) ==> Integrity.Lower(h)[2..] == Integrity.Lower(h[2..])
  {
    var l := Integrity.Lower(h);
    if |h| >= 2 {
      assert l[0] == Integrity.LowerChar(h[0]) && l[1] == Integrity.LowerChar(h[1]);
      assert "0x" <= l <==> l[0] == '0' && l[1] == 'x';
    }
  }

  lemma NormalizedDecides(a: string, b: string)
    ensures NormalizeHash(a) == NormalizeHash(b) <==> SameDigits(a, b)
  {
    LowerPrefix(a);
    LowerPrefix(b);
    Integrity.LowerDecides(a, b);
    if Prefixed(a) { Integrity.LowerDecides(a[2..], b); }
    if Prefixed(b) { Integrity.LowerDecides(a, b[2..]); }
    if Prefixed(a) && Prefixed(b) {
      Integrity.LowerDecides(a[2..], b[2..]);
      assert Integrity.Lower(a) == "0x" + Integrity.Lower(a)[2..] && Integrity.Lower(b) == "0x" + Integrity.Lower(b)[2..];
    }
  }

  /** Matching is agreement of all four columns, hashes up to their spelling. */
  lemma MatchesByColumns(r: Record, e: Identity)
    ensures RecordMatches(r, e) <==> Agrees(r, e)
  {
    NormalizedDecides(r.payloadHash, e.payloadHash);
    Integrity.LowerDecides(r.previousHash, e.previousHash);
  }

  // ---------------------------------------------------------------- retry delay

  function RetryDelay(attempts: nat): int {
    var seconds := RETRY_BASE_SECONDS * Pow2(if attempts >= 1 then attempts - 1 else 0);
    if seconds < RETRY_MAX_SECONDS then seconds else RETRY_MAX_SECONDS
  }

  /** Delays lie in 30..3600, never shrink, double from one attempt to the next below the cap, and are capped from the 8th on. */
  lemma RetryDelayBounds(a: nat, b: nat)
    requires a <= b
    ensures RETRY_BASE_SECONDS <= RetryDelay(a) <= RetryDelay(b) <= RETRY_MAX_SECONDS
    ensures 1 <= a < 7 ==> RetryDelay(a + 1) == 2 * RetryDelay(a)
    ensures b >= 8 ==> RetryDelay(b) == RETRY_MAX_SECONDS
  {
    Pow2Grows(if a >= 1 then a - 1 else 0, if b >= 1 then b - 1 else 0);
    assert Pow2(6) == 64 && Pow2(7) == 128;
    if b >= 8 { Pow2Grows(7, b - 1); }
    if 1 <= a < 7 { Pow2Grows(a, 6); }
  }

  // ---------------------------------------------------------------- row transitions

  /** Due: pending and past its retry time, or held under a lease that ran out. */
  predicate Claimable(r: Row, now: int) {
    || (r.status == Pending && (r.nextAttemptAt.None? || r.nextAttemptAt.value <= now))
    || (r.status == Submitted && r.leaseExpiresAt.Some? && r.leaseExpiresAt.value <= now)
  }

  function Claim(r: Row, now: int): Row {
    r.(status := Submitted, leaseExpiresAt := Some(now + LEASE_SECONDS),
       submittedAt := if r.submittedAt.Some? then r.submittedAt else Some(now), lastAttemptAt := Some(now))
  }

  function Confirm(r: Row, now: int): Row {
    r.(status := Confirmed, leaseExpiresAt := None, confirmedAt := Some(now))
  }

  function Disagree(r: Row): Row { r.(status := Mismatch, leaseExpiresAt := None) }

  function Retry(r: Row, now: int): Row {
    r.(attempts := r.attempts + 1, status := Pending, leaseExpiresAt := None,
       nextAttemptAt := Some(now + RetryDelay(r.attempts + 1)), lastAttemptAt := Some(now))
  }

  function SettleLocally(r: Row): Row {
    r.(status := Local, leaseExpiresAt := None, submittedAt := None, confirmedAt := None)
  }

  // ---------------------------------------------------------------- the row as an object

  class OutboxEvent {
    var status: Status
    var attempts: nat
    var nextAttemptAt: Option<int>
    var leaseExpiresAt: Option<int>
    var submittedAt: Option<int>
    var lastAttemptAt: Option<int>
    var confirmedAt: Option<int>

    constructor ()
      ensures Value() == NEW_ROW
    {
      status, attempts := Pending, 0;
      nextAttemptAt, leaseExpiresAt, submittedAt, lastAttemptAt, confirmedAt := None, None, None, None, None;
    }

    function Value(): Row
      reads this
    {
      Row(status, attempts, nextAttemptAt, leaseExpiresAt, submittedAt, lastAttemptAt, confirmedAt)
    }

    method TryClaim(now: int) returns (claimed: bool)
      modifies this
      ensures claimed == Claimable(old(Value()), now)
      ensures Value() == if claimed then Claim(old(Value()), now) else old(Value())
    {
      if !Claimable(Value(), now) { return false; }
      status := Submitted;
      leaseExpiresAt := Some(now + LEASE_SECONDS);
      if submittedAt.None? { submittedAt := Some(now); }
      lastAttemptAt := Some(now);
      return true;
    }

    method MarkConfirmed(now: int)
      modifies this
      ensures Value() == Confirm(old(Value()), now)
    {
      status := Confirmed;
      leaseExpiresAt := None;
      confirmedAt := Some(now);
    }

    method MarkMismatch()
      modifies this
      ensures Value() == Disagree(old(Value()))
    {
      status := Mismatch;
      leaseExpiresAt := None;
    }

    method MarkRetry(now: int)
      modifies this
      ensures Value() == Retry(old(Value()), now)
    {
      attempts := attempts + 1;
      status := Pending;
      leaseExpiresAt := None;
      nextAttemptAt := Some(now + RetryDelay(attempts));
      lastAttemptAt := Some(now);
    }

    method MarkLocal()
      modifies this
      ensures Value() == SettleLocally(old(Value()))
    {
      status := Local;
      leaseExpiresAt := None;
      submittedAt := None;
      confirmedAt := None;
    }

    /** One undisturbed attempt on a claimed row, given what the client answered. */
    method ProcessClaimed(e: Identity, answer: Answer, now: int)
      modifies this
      ensures Value() == Processed(old(Value()), e, answer, now)
    {
      match answer {
        case AnchoringDisabled => MarkLocal();
        case FindFailed => MarkRetry(now);
        case Found(record) =>
          if RecordMatches(record, e) {
            MarkConfirmed(now);
          } else {
            MarkMismatch();
          }
        case SubmitFailed => MarkRetry(now);
        case Receipt => MarkConfirmed(now);
      }
    }
  }

  /** What one attempt runs into: no anchoring, an error, a record, or a receipt with status 1. */
  datatype Answer = AnchoringDisabled | FindFailed | Found(record: Record) | SubmitFailed | Receipt

  function Processed(r: Row, e: Identity, answer: Answer, now: int): Row {
    match answer
    case AnchoringDisabled => SettleLocally(r)
    case FindFailed => Retry(r, now)
    case Found(record) => if RecordMatches(record, e) then Confirm(r, now) else Disagree(r)
    case SubmitFailed => Retry(r, now)
    case Receipt => Confirm(r, now)
  }

  /** After one attempt the row is terminal or waits at least 30 seconds: it is not due again now. */
  lemma ProcessedNotDue(r: Row, e: Identity, answer: Answer, now: int)
    ensures !Claimable(Processed(r, e, answer, now), now)
  {
    RetryDelayBounds(r.attempts + 1, r.attempts + 1);
  }

  // ---------------------------------------------------------------- one batch

  /** Indices of the due rows, oldest first. */
  function Due(rows: seq<Row>, now: int): (r: seq<nat>)
    ensures forall i :: 0 <= i < |r| ==> r[i] < |rows| && Claimable(rows[r[i]], now)
    ensures forall i, j :: 0 <= i < j < |r| ==> r[i] < r[j]
    ensures forall k :: 0 <= k < |rows| && Claimable(rows[k], now) ==> k in r
  {
    if rows == [] then []
    else
      var n := |rows| - 1;
      var init := Due(rows[..n], now);
      if Claimable(rows[n], now) then init + [n] else init
  }

  /** The outbox table in creation order, with the identities beside it. */
  class OutboxTable {
    const identities: seq<Identity>
    var rows: seq<Row>

    constructor (identities: seq<Identity>)
      ensures this.identities == identities && |rows| == |identities|
    {
      this.identities := identities;
      rows := seq(|identities|, _ => NEW_ROW);
    }

    /** The oldest due row, claimed. */
    method ClaimNextDue(now: int) returns (claimed: Option<nat>)
      modifies this`rows
      ensures claimed == if Due(old(rows), now) == [] then None else Some(Due(old(rows), now)[0])
      ensures rows == if claimed.None? then old(rows) else old(rows)[claimed.value := Claim(old(rows)[claimed.value], now)]
    {
      for i := 0 to |rows|
        invariant rows == old(rows)
        invariant forall k :: 0 <= k < i ==> !Claimable(rows[k], now)
      {
        if Claimable(rows[i], now) {
          FirstDue(rows, now, i);
          rows := rows[i := Claim(rows[i], now)];
          return Some(i);
        }
      }
      return None;
    }

    /**
     One batch by a single undisturbed worker at one moment: the first `limit` due rows, each once and
     in creation order, are processed, and nothing else changes. The rest stay due.
     */
    method ProcessDue(limit: nat, answers: seq<Answer>, now: int) returns (processed: seq<nat>)
      requires |rows| == |identities| == |answers|
      modifies this`rows
      ensures processed == FirstOf(Due(old(rows), now), limit)
      ensures |rows| == |identities|
      ensures forall k :: 0 <= k < |rows| ==>
                rows[k] == if k in processed then Processed(Claim(old(rows)[k], now), identities[k], answers[k], now) else old(rows)[k]
    {
      hide Due, Claimable, Claim, Processed;
      processed := [];
      ghost var due := Due(rows, now);
      for i := 0 to limit
        invariant |rows| == |identities|
        invariant processed == FirstOf(due, i) && |processed| == i
        invariant forall k :: 0 <= k < |rows| ==>
                    rows[k] == if k in processed then Processed(Claim(old(rows)[k], now), identities[k], answers[k], now) else old(rows)[k]
      {
        ProcessedDue(old(rows), rows, processed, identities, answers, now);
        var claimed := ClaimNextDue(now);
        if claimed.None? {
          assert due[i..] == [];
          break;
        }
        var k := claimed.value;
        assert k == due[i];
        rows := rows[k := Processed(rows[k], identities[k], answers[k], now)];
        processed := processed + [k];
      }
    }
  }

  function FirstOf<T>(s: seq<T>, n: nat): seq<T> { if |s| <= n then s else s[..n] }

  lemma FirstDue(rows: seq<Row>, now: int, i: nat)
    requires i < |rows| && Claimable(rows[i], now)
    requires forall k :: 0 <= k < i ==> !Claimable(rows[k], now)
    ensures Due(rows, now) != [] && Due(rows, now)[0] == i
  {
    var due := Due(rows, now);
    var j :| 0 <= j < |due| && due[j] == i;
    assert due[0] <= due[j];
  }

  /** Processed rows drop out of the due list; the others keep their place in it. */
  lemma {:induction false} ProcessedDue(was: seq<Row>, rows: seq<Row>, processed: seq<nat>, identities: seq<Identity>,
                                        answers: seq<Answer>, now: int)
    requires |was| == |rows| == |identities| == |answers|
    requires processed == FirstOf(Due(was, now), |processed|)
    requires forall k :: 0 <= k < |rows| ==>
               rows[k] == if k in processed then Processed(Claim(was[k], now), identities[k], answers[k], now) else was[k]
    ensures Due(rows, now) == Due(was, now)[|processed|..]
  {
    var due, rest := Due(was, now), Due(was, now)[|processed|..];
    forall k ensures k in Due(rows, now) <==> k in rest {
      if 0 <= k < |rows| { ProcessedNotDue(Claim(was[k], now), identities[k], answers[k], now); }
    }
    SortedSame(Due(rows, now), rest);
  }

  lemma InitMembers(a: seq<nat>, k: nat)
    requires a != [] && forall i, j :: 0 <= i < j < |a| ==> a[i] < a[j]
    ensures k in a[..|a| - 1] <==> k in a && k != a[|a| - 1]
  {
    if k in a && k != a[|a| - 1] {
      var i :| 0 <= i < |a| && a[i] == k;
      assert a[..|a| - 1][i] == k;
    }
  }

  /** Strictly increasing sequences with the same elements are equal. */
  lemma {:induction false} SortedSame(a: seq<nat>, b: seq<nat>)
    requires forall i, j :: 0 <= i < j < |a| ==> a[i] < a[j]
    requires forall i, j :: 0 <= i < j < |b| ==> b[i] < b[j]
    requires forall k :: k in a <==> k in b
    ensures a == b
    decreases |a| + |b|
  {
    assert a != [] ==> a[|a| - 1] in b;
    assert b != [] ==> b[|b| - 1] in a;
    if a != [] && b != [] {
      var m, n := |a| - 1, |b| - 1;
      assert a[m] == b[n];
      forall k ensures k in a[..m] <==> k in b[..n] {
        InitMembers(a, k);
        InitMembers(b, k);
      }
      SortedSame(a[..m], b[..n]);
      assert a == a[..m] + [a[m]] && b == b[..n] + [b[n]];
    }
  }
}
