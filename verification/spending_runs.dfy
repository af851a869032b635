/** Whole runs of the spending lifecycle: what every reachable state satisfies and what no step undoes. */
module SpendingRuns {
  import opened Wrappers
  import opened CanonicalValues
  import opened CanonicalJson
  import opened EvidencePayloads
  import opened SpendingState
  import opened SpendingInvariants
  import opened SpendingSafety
  import opened SpendingEvidence

  // ---------------------------------------------------------------- one step

  lemma PublishExtends(env: Platform, s: State, t: State, pid: nat, draft: Version, eventId: string)
    requires PublishCommits(env, s, t, pid, draft, eventId)
    ensures Extends(s, t)
  {
    hide QueueEvent, VersionPayload;
    var p := s.proposals[pid];
    QueueGrows(env, s, eventId, VersionEvent, VersionPayload(env, FactsOf(s, pid, p, draft), CaseOf(s, p)),
               PreviousHash(s, p.versions));
  }

  lemma SettleExtends(env: Platform, s: State, t: State, pid: nat, transfer: nat, eventId: string)
    requires SettleCommits(env, s, t, pid, transfer, eventId)
    ensures Extends(s, t)
  {
    hide QueueEvent, SettlementPayload, DocumentHashes;
    var v := s.proposals[pid].versions[s.proposals[pid].current.value];
    var facts := SettlementFacts(|s.settlements| + 1, pid, v.number, v.amount, s.documents[transfer].sha256, s.now);
    var previous := if v.eventId in s.events then "0x" + s.events[v.eventId].payloadHash else "";
    QueueGrows(env, s, eventId, SettlementEvent, SettlementPayload(facts), previous);
  }

  /** Transactions that change proposals' status and dates only. */
  lemma ProgressExtends(s: State, t: State)
    requires t == s.(cases := t.cases, proposals := t.proposals) && t.proposals.Keys == s.proposals.Keys
    requires forall pid :: pid in s.proposals ==> Progressed(s.proposals[pid], t.proposals[pid])
    ensures Extends(s, t)
  {
  }

  lemma CompleteCaseExtends(s: State, c: nat, cause: string, result: string)
    requires CompleteCaseWork(s, c, cause, result).Ok?
    ensures Extends(s, CompleteCaseWork(s, c, cause, result).value)
  {
    ProgressExtends(s, CompleteCaseWork(s, c, cause, result).value);
  }

  lemma CompleteProposalExtends(s: State, pid: nat, cause: string, result: string)
    requires CompleteProposalWork(s, pid, cause, result).Ok?
    ensures Extends(s, CompleteProposalWork(s, pid, cause, result).value)
  {
    ProgressExtends(s, CompleteProposalWork(s, pid, cause, result).value);
  }

  lemma CloseExtends(s: State)
    ensures Extends(s, CloseExpired(s))
  {
    ProgressExtends(s, CloseExpired(s));
  }

  /** Rows outside the spending record. */
  lemma QuietExtends(s: State, t: State)
    requires Grows(s, t) && t == s.(now := t.now, documents := t.documents, cases := t.cases)
    ensures Extends(s, t)
  {
  }

  lemma CreationExtends(s: State, t: State, pid: nat)
    requires pid !in s.proposals && pid in t.proposals && t == s.(proposals := s.proposals[pid := t.proposals[pid]])
    ensures Extends(s, t)
  {
  }

  lemma DecisionExtends(s: State, pid: nat, proceed: bool)
    requires DecideProposal(s, pid, proceed).Ok?
    ensures Extends(s, DecideProposal(s, pid, proceed).value)
  {
  }

  lemma SourceExtends(s: State, t: State)
    requires t == s.(entries := t.entries) && EntriesGrow(s.entries, t.entries)
    ensures Extends(s, t)
  {
  }

  lemma NothingExtends(s: State)
    ensures Extends(s, s)
  {
  }

  /** Every transaction, successful or refused, only extends what is there. */
  lemma StepExtends(env: Platform, s: State, step: Step)
    ensures Extends(s, Apply(env, s, step))
  {
    hide Extends, PublishVersion, RecordSettlement, CompleteCaseWork, CompleteProposalWork, CloseExpired, DecideProposal;
    NothingExtends(s);
    if Attempt(env, s, step).Ok? {
      var t := Attempt(env, s, step).value;
      match step {
        case PublishStep(pid, input, id) =>
          PublicationCommits(env, s, pid, input, id);
          PublishExtends(env, s, t, pid, NewVersion(s.documents, s.proposals[pid], input, ResolveSchedule(input).value, ""), id);
        case SettleStep(pid, transfer, id) =>
          SettlementCommits(env, s, pid, transfer, id);
          SettleExtends(env, s, t, pid, transfer, id);
        case CompleteCaseStep(c, cause, result) => CompleteCaseExtends(s, c, cause, result);
        case CompleteProposalStep(pid, cause, result) => CompleteProposalExtends(s, pid, cause, result);
        case CloseStep => CloseExtends(s);
        case DecideStep(pid, proceed) => DecisionExtends(s, pid, proceed);
        case CreateStep(c, pid, ok) => CreationExtends(s, t, pid);
        case CreateStandaloneStep(b, pid) => CreationExtends(s, t, pid);
        case RecordSourceStep(b, k, a, e, key) => SourceExtends(s, t);
        case VerifySourceStep(e) => SourceExtends(s, t);
        case _ => QuietExtends(s, t);
      }
    }
  }

  /** Every transaction keeps the invariant. */
  lemma StepKeeps(env: Platform, s: State, step: Step)
    requires PlatformLaws(env) && Inv(env, s)
    ensures Inv(env, Apply(env, s, step))
  {
    hide Inv, PublishVersion, RecordSettlement, CompleteCaseWork, CompleteProposalWork, CloseExpired, DecideProposal,
         RecordFundSource, VerifyFundSource;
    if Attempt(env, s, step).Ok? {
      var t := Attempt(env, s, step).value;
      match step {
        case PublishStep(pid, input, id) => PublishKeeps(env, s, pid, input, id);
        case SettleStep(pid, transfer, id) => SettleKeeps(env, s, pid, transfer, id);
        case CompleteCaseStep(c, cause, result) => CompleteCaseKeeps(env, s, c, cause, result);
        case CompleteProposalStep(pid, cause, result) => CompleteProposalKeeps(env, s, pid, cause, result);
        case CloseStep => CloseKeeps(env, s);
        case DecideStep(pid, proceed) => DecisionKeeps(env, s, pid, proceed);
        case CreateStep(c, pid, ok) => CreationKeeps(env, s, pid, t.proposals[pid]);
        case CreateStandaloneStep(b, pid) => CreationKeeps(env, s, pid, t.proposals[pid]);
        case RecordSourceStep(b, k, a, e, key) => RecordSourceKeeps(env, s, b, k, a, e, key);
        case VerifySourceStep(e) => VerifySourceKeeps(env, s, e);
        case _ => QuietKeeps(env, s, t);
      }
    }
  }

  // ---------------------------------------------------------------- runs

  lemma InitialOk(env: Platform)
    ensures Inv(env, INITIAL)
  {
  }

  /** The invariant holds in every reachable state. */
  lemma {:induction false} RunKeeps(env: Platform, steps: seq<Step>)
    requires PlatformLaws(env)
    ensures Inv(env, Run(env, INITIAL, steps))
  {
    if steps == [] {
      InitialOk(env);
    } else {
      var n := |steps| - 1;
      RunKeeps(env, steps[..n]);
      StepKeeps(env, Run(env, INITIAL, steps[..n]), steps[n]);
    }
  }

  /** Along any run nothing published is edited, reordered or lost. */
  lemma {:induction false} RunExtends(env: Platform, s: State, steps: seq<Step>)
    ensures Extends(s, Run(env, s, steps))
  {
    if steps != [] {
      var n := |steps| - 1;
      RunExtends(env, s, steps[..n]);
      var t := Run(env, s, steps[..n]);
      StepExtends(env, t, steps[n]);
      ExtendsTransitive(s, t, Run(env, s, steps));
    }
  }
}
