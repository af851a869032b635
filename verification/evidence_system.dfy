/**
 The spending record, its outbox and the registry as one system: every event the record queues is an outbox row, and
 what the verification of an entry hears from the registry is what the workers and others have put there.
 */
module EvidenceSystem {
  import opened Wrappers
  import opened CanonicalValues
  import opened CanonicalJson
  import opened EvidencePayloads
  import opened SpendingState
  import opened SpendingInvariants
  import opened SpendingEvidence
  import opened SpendingRuns
  import opened SpendingObservation
  import Calendar
  import Integrity
  import IntegrityVerdict
  import Outbox
  import OutboxRuns
  import Texts

  // ---------------------------------------------------------------- the system

  /** `order` are the event ids in the order of their outbox rows. */
  datatype System = System(record: State, outbox: OutboxRuns.System, order: seq<string>)

  datatype SystemStep = Transact(step: Step) | Deliver(delivery: OutboxRuns.Step)

  function TypeNumber(kind: EventKind): nat {
    match kind
    case VersionEvent => 1
    case SettlementEvent => 10
  }

  /** The signed columns of an event; all are signed by the platform. */
  function IdentityOf(e: Event, signer: nat): Outbox.Identity {
    Outbox.Identity(e.payloadHash, e.previousHash, TypeNumber(e.kind), signer)
  }

  /** The event a transaction has queued, if any. */
  function NewEvents(s: State, t: State, step: Step): seq<string> {
    if !step.PublishStep? && !step.SettleStep? then []
    else
      var id := Integrity.Lower(step.eventId);
      if id in t.events && id !in s.events then [id] else []
  }

  /** The registry stores hashes as 32 bytes; rows enter the outbox through the record alone. */
  predicate Possible(delivery: OutboxRuns.Step) {
    && !delivery.Enqueue?
    && (delivery.ForeignStep? ==> Texts.IsBytes32(delivery.record.payloadHash) && Texts.IsBytes32(delivery.record.previousHash))
  }

  function Advance(env: Platform, signer: nat, y: System, step: SystemStep): System {
    match step
    case Transact(step) =>
      var t := Apply(env, y.record, step);
      var ids := NewEvents(y.record, t, step);
      if ids == [] then y.(record := t)
      else System(t, OutboxRuns.Next(y.outbox, OutboxRuns.Enqueue(IdentityOf(t.events[ids[0]], signer))), y.order + ids)
    case Deliver(delivery) => if Possible(delivery) then y.(outbox := OutboxRuns.Next(y.outbox, delivery)) else y
  }

  function Start(anchoring: bool): System { System(INITIAL, OutboxRuns.Initial(anchoring), []) }

  function Evolve(env: Platform, signer: nat, anchoring: bool, steps: seq<SystemStep>): System {
    if steps == [] then Start(anchoring)
    else Advance(env, signer, Evolve(env, signer, anchoring, steps[..|steps| - 1]), steps[|steps| - 1])
  }

  /** The transactions among the steps. */
  function Transactions(steps: seq<SystemStep>): seq<Step> {
    if steps == [] then []
    else
      var last := steps[|steps| - 1];
      Transactions(steps[..|steps| - 1]) + (if last.Transact? then [last.step] else [])
  }

  /** The record goes through a run of its own, so all that holds of such runs holds of it. */
  lemma {:induction false} RecordRuns(env: Platform, signer: nat, anchoring: bool, steps: seq<SystemStep>)
    ensures Evolve(env, signer, anchoring, steps).record == Run(env, INITIAL, Transactions(steps))
  {
    hide Apply;
    if steps != [] {
      var n := |steps| - 1;
      RecordRuns(env, signer, anchoring, steps[..n]);
      var before := Transactions(steps[..n]);
      if steps[n].Transact? {
        assert (before + [steps[n].step])[..|before|] == before;
      } else {
        assert before + [] == before;
      }
    }
  }

  // ---------------------------------------------------------------- the invariant

  ghost predicate EventsHex(events: map<string, Event>) {
    forall id :: id in events ==>
      HexText(events[id].payloadHash) && |events[id].payloadHash| == 64 && Texts.IsBytes32(events[id].previousHash)
  }

  /** Outbox row k is the row of event order[k]. */
  ghost predicate Matched(signer: nat, y: System) {
    && |y.order| == |y.outbox.ids|
    && (forall j, k :: 0 <= j < k < |y.order| ==> y.order[j] != y.order[k])
    && (forall id :: id in y.record.events <==> id in y.order)
    && (forall k :: 0 <= k < |y.order| ==> y.order[k] in y.record.events && y.outbox.ids[k] == IdentityOf(y.record.events[y.order[k]], signer))
  }

  ghost predicate ChainBytes(o: OutboxRuns.System) {
    forall e :: e in o.chain ==> Texts.IsBytes32(o.chain[e].payloadHash) && Texts.IsBytes32(o.chain[e].previousHash)
  }

  ghost predicate Sound(signer: nat, y: System) {
    Matched(signer, y) && EventsHex(y.record.events) && ChainBytes(y.outbox) && OutboxRuns.Inv(y.outbox)
  }

  /** A queued event is stored under its own id and under a hash of 64 hexadecimal digits. */
  lemma QueueAdds(env: Platform, s: State, eventId: string, kind: EventKind, payload: Value, previous: string)
    requires PlatformLaws(env) && EventsHex(s.events) && QueueEvent(env, s, eventId, kind, payload, previous).Ok?
    ensures var (t, id) := QueueEvent(env, s, eventId, kind, payload, previous).value;
            && id == Integrity.Lower(eventId) && t == s.(events := t.events) && t.events.Keys == s.events.Keys + {id}
            && (forall e :: e in s.events ==> t.events[e] == s.events[e])
            && EventsHex(t.events)
  {
    var bytes := CanonicalBytes(env.nfc, payload).value;
    HashShape(env, Load(bytes).value);
    hide CanonicalBytes, Load, HashOf, HexText, SchemaOf, PlatformLaws;
    StoredIsCanonical(env, payload);
  }

  lemma HashShape(env: Platform, v: Value)
    requires PlatformLaws(env)
    ensures PayloadHash(env.nfc, env.sha, v).Ok? ==> HexText(HashOf(env, v)) && |HashOf(env, v)| == 64
  {
  }

  lemma StoredIsCanonical(env: Platform, payload: Value)
    requires PlatformLaws(env) && CanonicalBytes(env.nfc, payload).Ok? && Load(CanonicalBytes(env.nfc, payload).value).Some?
    ensures PayloadHash(env.nfc, env.sha, Load(CanonicalBytes(env.nfc, payload).value).value).Ok?
  {
    CanonicalRoundTrip(env.nfc, payload);
  }

  /** One transaction adds at most the event it names. */
  lemma TransactionAdds(env: Platform, s: State, step: Step)
    requires PlatformLaws(env) && EventsHex(s.events)
    ensures var t := Apply(env, s, step);
            && EventsHex(t.events)
            && (forall e :: e in s.events ==> e in t.events && t.events[e] == s.events[e])
            && (forall e :: e in t.events <==> e in s.events || e in NewEvents(s, t, step))
  {
    hide PublishVersion, RecordSettlement, CompleteLinked, CloseCases, CloseProposals, QueueEvent, EventsHex, PlatformLaws, Integrity.Lower;
    if Attempt(env, s, step).Ok? {
      match step {
        case PublishStep(pid, input, id) =>
          PublicationCommits(env, s, pid, input, id);
          PublicationAdds(env, s, Attempt(env, s, step).value, pid,
                          NewVersion(s.documents, s.proposals[pid], input, ResolveSchedule(input).value, ""), id);
        case SettleStep(pid, transfer, id) =>
          SettlementCommits(env, s, pid, transfer, id);
          SettlementAdds(env, s, Attempt(env, s, step).value, pid, transfer, id);
        case _ =>
      }
    }
  }

  lemma PublicationAdds(env: Platform, s: State, t: State, pid: nat, draft: Version, eventId: string)
    requires PlatformLaws(env) && EventsHex(s.events) && PublishCommits(env, s, t, pid, draft, eventId)
    ensures EventsHex(t.events) && t.events.Keys == s.events.Keys + {Integrity.Lower(eventId)}
    ensures forall e :: e in s.events ==> t.events[e] == s.events[e]
  {
    hide QueueEvent, EventsHex, VersionPayload, FactsOf, PlatformLaws, Integrity.Lower, PreviousHash;
    var p := s.proposals[pid];
    QueueAdds(env, s, eventId, VersionEvent, VersionPayload(env, FactsOf(s, pid, p, draft), CaseOf(s, p)), PreviousHash(s, p.versions));
  }

  lemma SettlementAdds(env: Platform, s: State, t: State, pid: nat, transfer: nat, eventId: string)
    requires PlatformLaws(env) && EventsHex(s.events) && SettleCommits(env, s, t, pid, transfer, eventId)
    ensures EventsHex(t.events) && t.events.Keys == s.events.Keys + {Integrity.Lower(eventId)}
    ensures forall e :: e in s.events ==> t.events[e] == s.events[e]
  {
    hide QueueEvent, EventsHex, SettlementPayload, PlatformLaws, Integrity.Lower, CreateOutflow, DocumentHashes;
    var v := s.proposals[pid].versions[s.proposals[pid].current.value];
    QueueAdds(env, s, eventId, SettlementEvent,
              SettlementPayload(SettlementFacts(|s.settlements| + 1, pid, v.number, v.amount, s.documents[transfer].sha256, s.now)),
              if v.eventId in s.events then "0x" + s.events[v.eventId].payloadHash else "");
  }

  /** The record and its outbox grow together, by the events given. */
  lemma QueuedKeeps(signer: nat, y: System, z: System, ids: seq<string>)
    requires Matched(signer, y) && |ids| <= 1 && z.order == y.order + ids
    requires forall e :: e in y.record.events ==> e in z.record.events && z.record.events[e] == y.record.events[e]
    requires forall e :: e in z.record.events <==> e in y.record.events || e in ids
    requires forall id :: id in ids ==> id !in y.record.events
    requires z.outbox.ids == y.outbox.ids + (if ids == [] then [] else [IdentityOf(z.record.events[ids[0]], signer)])
    ensures Matched(signer, z)
  {
    forall k | 0 <= k < |z.order| ensures z.order[k] in z.record.events && z.outbox.ids[k] == IdentityOf(z.record.events[z.order[k]], signer) {
      if k < |y.order| { assert z.order[k] == y.order[k]; } else { assert z.order[k] == ids[0]; }
    }
  }

  lemma NewIsNew(s: State, t: State, step: Step)
    ensures |NewEvents(s, t, step)| <= 1 && forall id :: id in NewEvents(s, t, step) ==> id in t.events && id !in s.events
  {
    hide Integrity.Lower;
  }

  lemma TransactKeeps(env: Platform, signer: nat, y: System, step: Step)
    requires PlatformLaws(env) && Sound(signer, y)
    ensures Sound(signer, Advance(env, signer, y, Transact(step)))
  {
    var z, t := Advance(env, signer, y, Transact(step)), Apply(env, y.record, step);
    TransactionAdds(env, y.record, step);
    NewIsNew(y.record, t, step);
    var ids := NewEvents(y.record, t, step);
    hide Apply, EventsHex, OutboxRuns.Inv, PlatformLaws, NewEvents, Matched, IdentityOf, Texts.IsBytes32;
    if ids != [] { OutboxRuns.StepKeeps(y.outbox, OutboxRuns.Enqueue(IdentityOf(t.events[ids[0]], signer))); }
    assert y.order + [] == y.order && y.outbox.ids + [] == y.outbox.ids;
    assert ids != [] ==> ids == [ids[0]];
    QueuedKeeps(signer, y, z, ids);
  }

  lemma DeliverKeeps(signer: nat, y: System, delivery: OutboxRuns.Step)
    requires Sound(signer, y) && Possible(delivery)
    ensures Sound(signer, y.(outbox := OutboxRuns.Next(y.outbox, delivery)))
  {
    var o := OutboxRuns.Next(y.outbox, delivery);
    OutboxRuns.StepKeeps(y.outbox, delivery);
    NoNewRows(y.outbox, delivery);
    forall e | e in o.chain ensures Texts.IsBytes32(o.chain[e].payloadHash) && Texts.IsBytes32(o.chain[e].previousHash) {
      if e in y.outbox.chain {
        OutboxRuns.StepExtends(y.outbox, delivery);
      } else {
        ChainGrows(y.outbox, delivery, e);
        if !delivery.ForeignStep? {
          assert y.order[e] in y.record.events && y.outbox.ids[e] == IdentityOf(y.record.events[y.order[e]], signer);
          OwnHash(y.outbox.ids[e]);
        }
      }
    }
  }

  lemma NoNewRows(o: OutboxRuns.System, delivery: OutboxRuns.Step)
    requires !delivery.Enqueue?
    ensures OutboxRuns.Next(o, delivery).ids == o.ids
  {
  }

  /** The registry gets a record from a mined transaction, which writes the event's own, or from somebody else. */
  lemma ChainGrows(o: OutboxRuns.System, delivery: OutboxRuns.Step, e: nat)
    requires e in OutboxRuns.Next(o, delivery).chain && e !in o.chain
    ensures delivery.ForeignStep? ==> OutboxRuns.Next(o, delivery).chain[e] == delivery.record
    ensures !delivery.ForeignStep? ==> e < |o.ids| && OutboxRuns.Next(o, delivery).chain[e] == Outbox.OwnRecord(o.ids[e])
  {
  }

  lemma OwnHash(e: Outbox.Identity)
    requires HexText(e.payloadHash) && |e.payloadHash| == 64 && Texts.IsBytes32(e.previousHash)
    ensures Outbox.OwnRecord(e).payloadHash == "0x" + e.payloadHash && Texts.IsBytes32("0x" + e.payloadHash)
    ensures Outbox.OwnRecord(e).previousHash == e.previousHash
  {
    assert Integrity.Lower(e.payloadHash) == e.payloadHash;
    assert e.payloadHash[1] != 'x';
    BytesAreLower(e.previousHash);
  }

  lemma BytesAreLower(h: string)
    requires Texts.IsBytes32(h)
    ensures Integrity.Lower(h) == h
  {
    assert h[0] == h[..2][0] && h[1] == h[..2][1];
  }

  lemma {:induction false} EvolvesSoundly(env: Platform, signer: nat, anchoring: bool, steps: seq<SystemStep>)
    requires PlatformLaws(env)
    ensures Sound(signer, Evolve(env, signer, anchoring, steps))
  {
    hide Sound, Advance, PlatformLaws;
    if steps == [] {
      StartsSoundly(signer, anchoring);
    } else {
      var y := Evolve(env, signer, anchoring, steps[..|steps| - 1]);
      EvolvesSoundly(env, signer, anchoring, steps[..|steps| - 1]);
      AdvanceKeeps(env, signer, y, steps[|steps| - 1]);
    }
  }

  lemma StartsSoundly(signer: nat, anchoring: bool)
    ensures Sound(signer, Start(anchoring))
  {
  }

  lemma AdvanceKeeps(env: Platform, signer: nat, y: System, step: SystemStep)
    requires PlatformLaws(env) && Sound(signer, y)
    ensures Sound(signer, Advance(env, signer, y, step))
  {
    hide Sound, Apply, PlatformLaws;
    match step {
      case Transact(step) => TransactKeeps(env, signer, y, step);
      case Deliver(delivery) => if Possible(delivery) { DeliverKeeps(signer, y, delivery); }
    }
  }

  // ---------------------------------------------------------------- what the verification hears

  /** The outbox row of an event. */
  ghost function SlotOf(y: System, id: string): (k: nat)
    requires id in y.order
    ensures k < |y.order| && y.order[k] == id
  {
    var k :| 0 <= k < |y.order| && y.order[k] == id;
    k
  }

  ghost function StatusIn(y: System, id: string): Outbox.Status {
    if id in y.order && SlotOf(y, id) < |y.outbox.rows| then y.outbox.rows[SlotOf(y, id)].status else Outbox.Pending
  }

  /** The registry's answer for an event, if the call goes through. */
  ghost function AnswerIn(y: System, heard: set<string>, id: string): IntegrityVerdict.Answer {
    if id !in heard then IntegrityVerdict.NoAnswer
    else if id in y.order && SlotOf(y, id) in y.outbox.chain then IntegrityVerdict.Record(y.outbox.chain[SlotOf(y, id)].payloadHash)
    else IntegrityVerdict.NoRecord
  }

  ghost function RegistryIn(y: System, heard: set<string>, reachable: bool): Registry {
    Registry(id => AnswerIn(y, heard, id), !y.outbox.anchoring, reachable)
  }

  ghost function AroundIn(y: System, bytes: nat -> Option<string>): Surroundings {
    Surroundings(bytes, id => StatusIn(y, id))
  }

  /** The registry holds the event's own hash, if it holds anything of it. */
  ghost predicate HoldsOwn(y: System, id: string) {
    && id in y.record.events
    && (id in y.order && SlotOf(y, id) in y.outbox.chain ==>
          y.outbox.chain[SlotOf(y, id)].payloadHash == "0x" + y.record.events[id].payloadHash)
  }

  /** Of lowercase 32-byte hashes, only the same are the same but for their spelling. */
  lemma BytesSame(a: string, b: string)
    requires Texts.IsBytes32(a) && Texts.IsBytes32(b)
    ensures Integrity.SameButCase(a, b) <==> a == b
  {
    BytesAreLower(a);
    BytesAreLower(b);
    Integrity.LowerDecides(a, b);
  }

  lemma BytesSameDigits(a: string, h: string)
    requires Texts.IsBytes32(a) && HexText(h) && |h| == 64
    ensures Outbox.SameDigits(a, h) <==> a == "0x" + h
  {
    assert a[0] == a[..2][0] && a[1] == a[..2][1];
    assert h[1] != 'x' && h[1] != 'X';
    assert a == "0x" + a[2..];
    Integrity.LowerDecides(a[2..], h);
    assert Integrity.Lower(h) == h;
    assert HexText(a[2..]);
    assert Integrity.Lower(a[2..]) == a[2..];
  }

  /** The columns of a queued event as the registry writes them: type 1 is a version, type 10 a settlement. */
  ghost function QueuedRecord(e: Event, signer: nat): Outbox.Record {
    Outbox.Record("0x" + e.payloadHash, e.previousHash, if e.kind == VersionEvent then 1 else 10, signer)
  }

  /** What the registry says of a confirmed event, column by column, is what was queued, whoever recorded it; of a mismatched one, not. */
  lemma VerdictRecord(signer: nat, y: System, id: string)
    requires Sound(signer, y) && StatusIn(y, id) in {Outbox.Confirmed, Outbox.Mismatch}
    ensures id in y.record.events && id in y.order && SlotOf(y, id) in y.outbox.chain
    ensures var e := y.record.events[id];
            StatusIn(y, id) == Outbox.Confirmed <==> y.outbox.chain[SlotOf(y, id)] == QueuedRecord(e, signer)
  {
    var k := SlotOf(y, id);
    assert OutboxRuns.RowOk(y.outbox, k);
    assert id in y.record.events && y.outbox.ids[k] == IdentityOf(y.record.events[id], signer);
    Outbox.MatchesByColumns(y.outbox.chain[k], y.outbox.ids[k]);
    BytesSame(y.outbox.chain[k].previousHash, y.outbox.ids[k].previousHash);
    BytesSameDigits(y.outbox.chain[k].payloadHash, y.outbox.ids[k].payloadHash);
    hide Outbox.RecordMatches, OutboxRuns.RowOk, Outbox.SameDigits, Integrity.SameButCase;
  }

  /**
   In every run CONFIRMED means that the registry holds of the event exactly its payload hash, the hash it links to, the number of
   its type and the platform's signer; MISMATCH that it holds a record that differs from this one.
   */
  lemma VerdictsAreOfTheRecord(env: Platform, signer: nat, anchoring: bool, steps: seq<SystemStep>, id: string)
    requires PlatformLaws(env)
    ensures var y := Evolve(env, signer, anchoring, steps);
            StatusIn(y, id) in {Outbox.Confirmed, Outbox.Mismatch} ==>
              && id in y.record.events && id in y.order && SlotOf(y, id) in y.outbox.chain
              && var e := y.record.events[id];
                 (StatusIn(y, id) == Outbox.Confirmed <==> y.outbox.chain[SlotOf(y, id)] == QueuedRecord(e, signer))
  {
    hide Evolve, Sound, StatusIn;
    var y := Evolve(env, signer, anchoring, steps);
    EvolvesSoundly(env, signer, anchoring, steps);
    if StatusIn(y, id) in {Outbox.Confirmed, Outbox.Mismatch} { VerdictRecord(signer, y, id); }
  }

  /** A confirmed event has its own hash in the registry, whoever recorded it. */
  lemma ConfirmedHoldsOwn(signer: nat, y: System, id: string)
    requires Sound(signer, y) && StatusIn(y, id) == Outbox.Confirmed
    ensures HoldsOwn(y, id) && id in y.order && SlotOf(y, id) in y.outbox.chain
  {
    VerdictRecord(signer, y, id);
  }

  /** Nobody but the outbox has written to the registry. */
  ghost predicate NoForeign(steps: seq<SystemStep>) {
    forall k :: 0 <= k < |steps| ==> !(steps[k].Deliver? && steps[k].delivery.ForeignStep?)
  }

  ghost predicate OwnRecords(o: OutboxRuns.System) {
    forall e :: e in o.chain ==> e < |o.ids| && o.chain[e] == Outbox.OwnRecord(o.ids[e])
  }

  lemma StepKeepsOwn(o: OutboxRuns.System, delivery: OutboxRuns.Step)
    requires OwnRecords(o) && !delivery.ForeignStep?
    ensures OwnRecords(OutboxRuns.Next(o, delivery))
  {
    var p := OutboxRuns.Next(o, delivery);
    OutboxRuns.StepExtends(o, delivery);
    forall e | e in p.chain ensures e < |p.ids| && p.chain[e] == Outbox.OwnRecord(p.ids[e]) {
      if e !in o.chain { ChainGrows(o, delivery, e); }
    }
  }

  lemma {:induction false} EvolvesOwn(env: Platform, signer: nat, anchoring: bool, steps: seq<SystemStep>)
    requires NoForeign(steps)
    ensures OwnRecords(Evolve(env, signer, anchoring, steps).outbox)
  {
    hide Apply, OutboxRuns.Next, OwnRecords, NewEvents;
    if steps == [] {
      assert OwnRecords(OutboxRuns.Initial(anchoring)) by { NothingRecorded(anchoring); }
    } else {
      var n := |steps| - 1;
      EvolvesOwn(env, signer, anchoring, steps[..n]);
      var y := Evolve(env, signer, anchoring, steps[..n]);
      match steps[n] {
        case Transact(step) =>
          var t := Apply(env, y.record, step);
          var ids := NewEvents(y.record, t, step);
          NewIsNew(y.record, t, step);
          if ids != [] { StepKeepsOwn(y.outbox, OutboxRuns.Enqueue(IdentityOf(t.events[ids[0]], signer))); }
        case Deliver(delivery) => if Possible(delivery) { StepKeepsOwn(y.outbox, delivery); }
      }
    }
  }

  lemma NothingRecorded(anchoring: bool)
    ensures OwnRecords(OutboxRuns.Initial(anchoring))
  {
  }

  lemma OwnHoldsOwn(signer: nat, y: System, id: string)
    requires Sound(signer, y) && OwnRecords(y.outbox) && id in y.record.events
    ensures HoldsOwn(y, id)
  {
    if id in y.order && SlotOf(y, id) in y.outbox.chain {
      var k := SlotOf(y, id);
      assert y.outbox.ids[k] == IdentityOf(y.record.events[y.order[k]], signer);
      OwnHash(y.outbox.ids[k]);
    }
  }

  // ---------------------------------------------------------------- the verdict, end to end

  /** Every event of the entry is confirmed. */
  ghost predicate EntryConfirmed(y: System, i: nat)
    requires Observable(y.record, i)
  {
    && StatusIn(y, y.record.settlements[i].eventId) == Outbox.Confirmed
    && forall k :: 0 <= k < |VersionsOf(y.record, i)| ==> StatusIn(y, VersionsOf(y.record, i)[k].eventId) == Outbox.Confirmed
  }

  ghost predicate EntryHeard(y: System, i: nat, heard: set<string>)
    requires Observable(y.record, i)
  {
    && y.record.settlements[i].eventId in heard
    && forall k :: 0 <= k < |VersionsOf(y.record, i)| ==> VersionsOf(y.record, i)[k].eventId in heard
  }

  lemma OwnProbe(y: System, heard: set<string>, reachable: bool, id: string)
    requires HoldsOwn(y, id) && HexText(y.record.events[id].payloadHash)
    ensures IntegrityVerdict.CheckOf(ProbeOf(id, y.record.events[id].payloadHash, StatusIn(y, id), RegistryIn(y, heard, reachable)))
         != IntegrityVerdict.Disagrees
  {
    var h := y.record.events[id].payloadHash;
    if |h| >= 2 { assert h[1] != 'x'; }
  }

  /** As long as the registry holds the events' own hashes, it does not disagree with rows nobody touched. */
  lemma UntouchedAgrees(signer: nat, y: System, i: nat, bytes: nat -> Option<string>, heard: set<string>, reachable: bool)
    requires Sound(signer, y) && Observable(y.record, i)
    requires HoldsOwn(y, y.record.settlements[i].eventId)
    requires forall k :: 0 <= k < |VersionsOf(y.record, i)| ==> HoldsOwn(y, VersionsOf(y.record, i)[k].eventId)
    ensures !ChainDisagrees(ReadingOf(y.record, i, AroundIn(y, bytes)), RegistryIn(y, heard, reachable))
  {
    var r, registry := ReadingOf(y.record, i, AroundIn(y, bytes)), RegistryIn(y, heard, reachable);
    DisagreementMeans(r, registry);
    hide Sound, OutboxRuns.Inv, Matched, HexText, HoldsOwn, IntegrityVerdict.CheckOf, StatusIn;
    forall k | 0 <= k <= |r.versions| ensures IntegrityVerdict.CheckOf(Probes(r, registry)[k]) != IntegrityVerdict.Disagrees {
      var id := if k < |r.versions| then VersionsOf(y.record, i)[k].eventId else y.record.settlements[i].eventId;
      HashIsHex(signer, y, id);
      OwnProbe(y, heard, reachable, id);
    }
  }

  lemma HashIsHex(signer: nat, y: System, id: string)
    requires Sound(signer, y) && id in y.record.events
    ensures HexText(y.record.events[id].payloadHash)
  {
  }

  /** Without foreign records, an untouched entry with intact documents is never reported as MISMATCH, whatever the workers did. */
  lemma NeverMismatch(env: Platform, signer: nat, anchoring: bool, steps: seq<SystemStep>, i: nat,
                      bytes: nat -> Option<string>, heard: set<string>, reachable: bool)
    requires PlatformLaws(env) && NoForeign(steps)
    requires i < |Evolve(env, signer, anchoring, steps).record.settlements|
    ensures var y := Evolve(env, signer, anchoring, steps);
            && Observable(y.record, i)
            && (DocumentsIntact(y.record, i, bytes) ==>
                  Observed(env, ReadingOf(y.record, i, AroundIn(y, bytes)), RegistryIn(y, heard, reachable)) != Some(IntegrityVerdict.Mismatch))
  {
    hide Evolve, Sound, Run, Observed, ChainDisagrees, DocumentsIntact, OwnRecords, HoldsOwn, PlatformLaws;
    var y := Evolve(env, signer, anchoring, steps);
    EvolvesSoundly(env, signer, anchoring, steps);
    EvolvesOwn(env, signer, anchoring, steps);
    RecordRuns(env, signer, anchoring, steps);
    UntouchedEntryObserved(env, Transactions(steps), i, AroundIn(y, bytes), RegistryIn(y, heard, reachable));
    OwnHoldsOwn(signer, y, y.record.settlements[i].eventId);
    forall k | 0 <= k < |VersionsOf(y.record, i)| ensures HoldsOwn(y, VersionsOf(y.record, i)[k].eventId) {
      OwnHoldsOwn(signer, y, VersionsOf(y.record, i)[k].eventId);
    }
    UntouchedAgrees(signer, y, i, bytes, heard, reachable);
  }

  /** Once the outbox has confirmed every event of an entry, and whatever others write, its verification is VERIFIED and independent. */
  lemma ConfirmedEntryVerifies(env: Platform, signer: nat, anchoring: bool, steps: seq<SystemStep>, i: nat,
                               bytes: nat -> Option<string>, heard: set<string>)
    requires PlatformLaws(env) && i < |Evolve(env, signer, anchoring, steps).record.settlements|
    ensures var y := Evolve(env, signer, anchoring, steps);
            && Observable(y.record, i)
            && (EntryConfirmed(y, i) && EntryHeard(y, i, heard) && DocumentsIntact(y.record, i, bytes) && y.outbox.anchoring ==>
                  var r, registry := ReadingOf(y.record, i, AroundIn(y, bytes)), RegistryIn(y, heard, true);
                  Observed(env, r, registry) == Some(IntegrityVerdict.Verified) && Consulted(r, registry))
  {
    hide Evolve, Sound, Run, Observed, ChainDisagrees, ChainAvailable, DocumentsIntact, HoldsOwn, PlatformLaws, AllSettled, StatusIn;
    var y := Evolve(env, signer, anchoring, steps);
    EvolvesSoundly(env, signer, anchoring, steps);
    RecordRuns(env, signer, anchoring, steps);
    var registry := RegistryIn(y, heard, true);
    UntouchedEntryObserved(env, Transactions(steps), i, AroundIn(y, bytes), registry);
    var r := ReadingOf(y.record, i, AroundIn(y, bytes));
    if EntryConfirmed(y, i) && EntryHeard(y, i, heard) && DocumentsIntact(y.record, i, bytes) && y.outbox.anchoring {
      ConfirmedHoldsOwn(signer, y, y.record.settlements[i].eventId);
      forall k | 0 <= k < |VersionsOf(y.record, i)|
        ensures HoldsOwn(y, VersionsOf(y.record, i)[k].eventId)
        ensures VersionsOf(y.record, i)[k].eventId in y.order && SlotOf(y, VersionsOf(y.record, i)[k].eventId) in y.outbox.chain
      {
        ConfirmedHoldsOwn(signer, y, VersionsOf(y.record, i)[k].eventId);
      }
      UntouchedAgrees(signer, y, i, bytes, heard, true);
      AnsweredAvailable(r, registry);
    }
  }

  lemma AnsweredAvailable(r: Reading, registry: Registry)
    requires Consulted(r, registry)
    ensures ChainAvailable(r, registry)
  {
    assert Probes(r, registry)[0] in Probes(r, registry);
  }

  /** Every event the rows are linked to had been confirmed. */
  ghost predicate LinkedConfirmed(y: System, r: Reading) {
    && StatusIn(y, r.settlement.eventId) == Outbox.Confirmed
    && forall k :: 0 <= k < |r.versions| ==> StatusIn(y, r.versions[k].eventId) == Outbox.Confirmed
  }

  /**
   The whole promise: let the record, the workers, the registry and others run as they may, then write over the database
   at will: rows, cases, payloads, hashes, statuses, documents. If the events shown had been confirmed and the verification
   consulted the chain, it says VERIFIED exactly when the documents it lists are clean, every row carries the anchored
   hash of its event and shows what was published under it, short of a collision of one of the named pairs.
   */
  lemma WrittenOverAfterConfirmation(env: Platform, signer: nat, anchoring: bool, steps: seq<SystemStep>, r: Reading, o: Origin,
                                     heard: set<string>, reachable: bool)
    requires PlatformLaws(env) && Linked(Evolve(env, signer, anchoring, steps).record, r, o) && Storable(r)
    requires Calendar.Datable(Evolve(env, signer, anchoring, steps).record.settlements[o.settlement].settledAt)
    requires Collisionless(env, Evolve(env, signer, anchoring, steps).record, r, o)
    requires LinkedConfirmed(Evolve(env, signer, anchoring, steps), r)
    requires Consulted(r, RegistryIn(Evolve(env, signer, anchoring, steps), heard, reachable))
    ensures var y := Evolve(env, signer, anchoring, steps);
            Observed(env, r, RegistryIn(y, heard, reachable)) == Some(IntegrityVerdict.Verified)
            <==> IntegrityVerdict.AllClean(r.docs) && HashesKept(y.record, r) && Unchanged(env, y.record, r, o)
  {
    hide Evolve, Sound, Run, Observed, Linked, Storable, Collisionless, Consulted, HashesKept, Unchanged, IntegrityVerdict.AllClean, PlatformLaws,
         Calendar.Datable, StatusIn, HoldsOwn;
    var y := Evolve(env, signer, anchoring, steps);
    EvolvesSoundly(env, signer, anchoring, steps);
    RecordRuns(env, signer, anchoring, steps);
    ConfirmedHoldsOwn(signer, y, r.settlement.eventId);
    OwnAnswer(y, heard, reachable, r.settlement.eventId);
    forall k | 0 <= k < |r.versions| ensures AnswersOwn(y.record, r.versions[k].eventId, RegistryIn(y, heard, reachable)) {
      ConfirmedHoldsOwn(signer, y, r.versions[k].eventId);
      OwnAnswer(y, heard, reachable, r.versions[k].eventId);
    }
    ConsultedVerdict(env, Transactions(steps), r, o, RegistryIn(y, heard, reachable));
  }

  lemma OwnAnswer(y: System, heard: set<string>, reachable: bool, id: string)
    requires HoldsOwn(y, id)
    ensures AnswersOwn(y.record, id, RegistryIn(y, heard, reachable))
  {
  }
}
