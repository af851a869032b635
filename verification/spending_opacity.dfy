/** What is anchored says nothing in free text: over whole runs every stored payload keeps to its schema. */
module SpendingOpacity {
  import opened Wrappers
  import opened CanonicalValues
  import opened CanonicalJson
  import opened EvidencePayloads
  import opened SpendingState
  import opened SpendingInvariants
  import opened SpendingEvidence
  import PayloadSchema

  ghost predicate EventConforms(e: Event) { PayloadSchema.Conforms(SchemaOf(e.kind), e.payload) }

  ghost predicate EventsConform(events: map<string, Event>) { forall id :: id in events ==> EventConforms(events[id]) }

  lemma SchemasOpaque(kind: EventKind)
    ensures PayloadSchema.Opaque(SchemaOf(kind))
  {
    PayloadSchema.SchemasAreOpaque();
  }

  /** What the queue stores, after normalisation, is still of the shape it accepted. */
  lemma QueueKeepsShape(env: Platform, s: State, eventId: string, kind: EventKind, payload: Value, previous: string)
    requires PlatformLaws(env) && EventsConform(s.events) && QueueEvent(env, s, eventId, kind, payload, previous).Ok?
    ensures EventsConform(QueueEvent(env, s, eventId, kind, payload, previous).value.0.events)
  {
    SchemasOpaque(kind);
    hide SchemaOf, PayloadSchema.Conforms, PayloadSchema.Opaque, HashOf, Load, CanonicalBytes;
    PayloadSchema.ConformingIsKept(env.nfc, SchemaOf(kind), payload);
  }

  lemma PublicationKeepsShape(env: Platform, s: State, t: State, pid: nat, draft: Version, eventId: string)
    requires PlatformLaws(env) && EventsConform(s.events) && PublishCommits(env, s, t, pid, draft, eventId)
    ensures EventsConform(t.events)
  {
    hide QueueEvent, EventsConform;
    var p := s.proposals[pid];
    QueueKeepsShape(env, s, eventId, VersionEvent, VersionPayload(env, FactsOf(s, pid, p, draft), CaseOf(s, p)), PreviousHash(s, p.versions));
  }

  lemma SettlementKeepsShape(env: Platform, s: State, t: State, pid: nat, transfer: nat, eventId: string)
    requires PlatformLaws(env) && EventsConform(s.events) && SettleCommits(env, s, t, pid, transfer, eventId)
    ensures EventsConform(t.events)
  {
    hide QueueEvent, EventsConform;
    var v := s.proposals[pid].versions[s.proposals[pid].current.value];
    QueueKeepsShape(env, s, eventId, SettlementEvent,
                    SettlementPayload(SettlementFacts(|s.settlements| + 1, pid, v.number, v.amount, s.documents[transfer].sha256, s.now)),
                    if v.eventId in s.events then "0x" + s.events[v.eventId].payloadHash else "");
  }

  lemma StepKeepsShape(env: Platform, s: State, step: Step)
    requires PlatformLaws(env) && EventsConform(s.events)
    ensures EventsConform(Apply(env, s, step).events)
  {
    hide PublishVersion, RecordSettlement, CompleteLinked, CloseCases, CloseProposals, QueueEvent, EventsConform, PlatformLaws;
    if Attempt(env, s, step).Ok? {
      match step {
        case PublishStep(pid, input, id) =>
          PublicationCommits(env, s, pid, input, id);
          PublicationKeepsShape(env, s, Attempt(env, s, step).value, pid,
                                NewVersion(s.documents, s.proposals[pid], input, ResolveSchedule(input).value, ""), id);
        case SettleStep(pid, transfer, id) =>
          SettlementCommits(env, s, pid, transfer, id);
          SettlementKeepsShape(env, s, Attempt(env, s, step).value, pid, transfer, id);
        case _ =>
      }
    }
  }

  /**
   In every reachable state every anchored payload has the fields of its schema and no others, all required ones
   among them, and each holds a number, a hash, a timestamp or the fixed schema tag: never free text.
   */
  lemma {:induction false} AnchoredPayloadsAreOpaque(env: Platform, steps: seq<Step>)
    requires PlatformLaws(env)
    ensures EventsConform(Run(env, INITIAL, steps).events)
  {
    if steps != [] {
      var n := |steps| - 1;
      AnchoredPayloadsAreOpaque(env, steps[..n]);
      StepKeepsShape(env, Run(env, INITIAL, steps[..n]), steps[n]);
    }
  }
}
