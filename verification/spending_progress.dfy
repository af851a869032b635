/**
 What can still happen: from which reachable states a proposal can be paid, and from which it never will be; what the nightly
 closing closes; and a run that publishes a second version.
 */
module SpendingProgress {
  import opened Wrappers
  import opened CanonicalValues
  import opened CanonicalJson
  import opened EvidencePayloads
  import opened SpendingState
  import opened SpendingInvariants
  import opened SpendingSafety
  import opened SpendingEvidence
  import opened SpendingRuns
  import opened SpendingTheorems
  import opened SpendingTimeline
  import opened SpendingAcceptance
  import Calendar
  import Decimal
  import Integrity
  import Texts

  // ---------------------------------------------------------------- what leads where

  ghost predicate Leads(env: Platform, s: State, t: State) { exists later :: t == Run(env, s, later) }

  /** What every reachable state satisfies, as far as it is needed here. */
  ghost predicate Sound(env: Platform, s: State) { Inv(env, s) && EventsOwned(s) && CasesThere(s) }

  ghost predicate CasesThere(s: State) {
    forall q :: q in s.proposals && s.proposals[q].caseId.Some? ==> s.proposals[q].caseId.value in s.cases
  }

  lemma CasesStep(env: Platform, s: State, step: Step)
    requires CasesThere(s)
    ensures CasesThere(Apply(env, s, step))
  {
    var t := Apply(env, s, step);
    hide PublishVersion, RecordSettlement, QueueEvent, KeyUsed, SourceKey, CaseExpired, ProposalExpired;
    if step.PublishStep? || step.SettleStep? {
      CasesUntouched(env, s, step);
      StepKeepsIdentity(env, s, step);
    }
  }

  lemma StepKeepsIdentity(env: Platform, s: State, step: Step)
    requires step.PublishStep? || step.SettleStep?
    ensures var t := Apply(env, s, step);
            t.proposals.Keys == s.proposals.Keys && forall q :: q in s.proposals ==> t.proposals[q].caseId == s.proposals[q].caseId
  {
    hide PublishVersion, RecordSettlement, QueueEvent;
    if Attempt(env, s, step).Ok? {
      match step {
        case PublishStep(pid, input, id) =>
          PublicationCommits(env, s, pid, input, id);
          var p, draft := s.proposals[pid], NewVersion(s.documents, s.proposals[pid], input, ResolveSchedule(input).value, "");
          QueueGrows(env, s, id, VersionEvent, VersionPayload(env, FactsOf(s, pid, p, draft), CaseOf(s, p)), PreviousHash(s, p.versions));
        case SettleStep(pid, transfer, id) =>
          SettlementCommits(env, s, pid, transfer, id);
          var v := s.proposals[pid].versions[s.proposals[pid].current.value];
          QueueGrows(env, s, id, SettlementEvent,
                     SettlementPayload(SettlementFacts(|s.settlements| + 1, pid, v.number, v.amount, s.documents[transfer].sha256, s.now)),
                     if v.eventId in s.events then "0x" + s.events[v.eventId].payloadHash else "");
      }
    }
  }

  lemma SoundStep(env: Platform, s: State, step: Step)
    requires PlatformLaws(env) && Sound(env, s)
    ensures Sound(env, Apply(env, s, step))
  {
    hide *;
    SoundParts(env, s);
    StepKeeps(env, s, step);
    OwnedStep(env, s, step);
    CasesStep(env, s, step);
    SoundFrom(env, Apply(env, s, step));
  }

  lemma SoundParts(env: Platform, s: State)
    requires Sound(env, s)
    ensures Inv(env, s) && EventsOwned(s) && CasesThere(s)
  {
  }

  lemma SoundFrom(env: Platform, s: State)
    requires Inv(env, s) && EventsOwned(s) && CasesThere(s)
    ensures Sound(env, s)
  {
  }

  lemma {:induction false} RunsAreSound(env: Platform, steps: seq<Step>)
    requires PlatformLaws(env)
    ensures Sound(env, Run(env, INITIAL, steps))
  {
    hide Sound, Apply, PlatformLaws;
    if steps == [] {
      InitialOk(env);
      NoEvents();
      assert Sound(env, INITIAL) by { StartsSound(env); }
    } else {
      RunsAreSound(env, steps[..|steps| - 1]);
      SoundStep(env, Run(env, INITIAL, steps[..|steps| - 1]), steps[|steps| - 1]);
    }
  }

  lemma StartsSound(env: Platform)
    ensures Sound(env, INITIAL)
  {
    InitialOk(env);
    NoEvents();
  }

  lemma LeadsNowhere(env: Platform, s: State)
    ensures Leads(env, s, s)
  {
    assert Run(env, s, []) == s;
  }

  /** One more step. */
  lemma LeadsOn(env: Platform, s: State, u: State, step: Step, t: State)
    requires PlatformLaws(env) && Leads(env, s, u) && Sound(env, u) && Attempt(env, u, step) == Ok(t)
    ensures Leads(env, s, t) && Sound(env, t)
  {
    hide Sound, PlatformLaws;
    SoundStep(env, u, step);
    var later :| u == Run(env, s, later);
    assert (later + [step])[..|later|] == later;
    assert t == Run(env, s, later + [step]);
  }

  // ---------------------------------------------------------------- who can still be paid

  ghost predicate Settled(s: State, pid: nat) { exists i :: 0 <= i < |s.settlements| && s.settlements[i].proposal == pid }

  /** Its case, if it has one, is open and its work not completed. */
  ghost predicate CaseOpen(s: State, p: Proposal) {
    p.caseId.Some? ==> p.caseId.value in s.cases && s.cases[p.caseId.value].active && s.cases[p.caseId.value].completedAt.None?
  }

  ghost predicate Payable(s: State, pid: nat)
    requires pid in s.proposals
  {
    var p := s.proposals[pid];
    p.status == Completed || (p.status in {Draft, Published, InProgress} && CaseOpen(s, p))
  }

  /** The same proposal of the same case, at the same moment, unsettled, with this id still free. */
  ghost predicate Onward(s: State, t: State, pid: nat, id: string) {
    && pid in s.proposals && pid in t.proposals && Numbered(t, pid) && t.now == s.now && !Settled(t, pid) && FreeId(t, id)
    && t.proposals[pid].building == s.proposals[pid].building && t.proposals[pid].caseId == s.proposals[pid].caseId
  }

  const TEXTS := VersionInput(1, "c", "p", "a", None, None, "", [])

  lemma {:induction false} FreshKey<T>(m: map<nat, T>) returns (d: nat)
    ensures d !in m && forall k :: k in m ==> k < d
    decreases m.Keys
  {
    if m == map[] {
      d := 0;
    } else {
      var k :| k in m;
      var rest := m - {k};
      assert rest.Keys == m.Keys - {k};
      var e := FreshKey(rest);
      d := if e > k then e else k + 1;
      forall j | j in m ensures j < d { assert j == k || j in rest; }
    }
  }

  /** A new document changes nothing else. */
  lemma AddsDocument(env: Platform, s: State, u: State, pid: nat, id: string, document: Document) returns (t: State, d: nat)
    requires PlatformLaws(env) && Leads(env, s, u) && Sound(env, u) && Onward(s, u, pid, id)
    ensures Leads(env, s, t) && Sound(env, t) && Onward(s, t, pid, id)
    ensures d in t.documents && t.documents[d] == document && t == u.(documents := t.documents)
  {
    hide Sound, PlatformLaws, Leads, Run;
    d := FreshKey(u.documents);
    t := u.(documents := u.documents[d := document]);
    assert Attempt(env, u, AddDocumentStep(d, document)) == Ok(t);
    LeadsOn(env, s, u, AddDocumentStep(d, document), t);
  }

  lemma TextsSaid(text: string)
    requires text in ["c", "p", "a", "r"]
    ensures Said(text)
  {
    assert !Texts.IsSpace(text[0]);
  }

  lemma OnwardSame(s: State, u: State, t: State, pid: nat, id: string)
    requires Onward(s, u, pid, id) && t.events == u.events && t.settlements == u.settlements && t.now == u.now && t.cases.Keys == u.cases.Keys
    requires pid in t.proposals && t.proposals[pid].building == u.proposals[pid].building && t.proposals[pid].caseId == u.proposals[pid].caseId
    ensures Onward(s, t, pid, id)
  {
  }

  /** What may be published is. */
  lemma Publishes(env: Platform, s: State, u: State, pid: nat, input: VersionInput, id: string) returns (t: State)
    requires PlatformLaws(env) && Leads(env, s, u) && Sound(env, u) && MayPublish(u, pid, input, id)
    ensures Leads(env, s, t) && Sound(env, t) && PublishVersion(env, u, pid, input, id) == Ok(t)
  {
    hide *;
    SoundParts(env, u);
    PublishCondition(env, u, pid, input, id);
    PublishAttempt(env, u, pid, input, id);
    t := Attempt(env, u, PublishStep(pid, input, id)).value;
    LeadsOn(env, s, u, PublishStep(pid, input, id), t);
  }

  /** A draft is published. */
  lemma PublishesDraft(env: Platform, s: State, u: State, pid: nat, id: string, other: string) returns (t: State)
    requires PlatformLaws(env) && Leads(env, s, u) && Sound(env, u) && Onward(s, u, pid, id) && Onward(s, u, pid, other)
    requires u.proposals[pid].status == Draft && Integrity.Lower(id) != Integrity.Lower(other)
    ensures Leads(env, s, t) && Sound(env, t) && Onward(s, t, pid, other) && t.proposals[pid].status == Published && t.cases == u.cases
  {
    hide Sound, Run, Leads, PlatformLaws, PublishVersion, Integrity.Lower, Texts.IsBytes32, MayPublish, FreeId, Settled;
    var v, d := AddsDocument(env, s, u, pid, id, Document(u.proposals[pid].building, Quotation, true, ""));
    var input := TEXTS.(quotations := [d]);
    OnwardSame(s, u, v, pid, other);
    QuotedMayPublish(v, pid, d, id);
    t := Publishes(env, s, v, pid, input, id);
    PublicationLeaves(env, v, t, pid, input, id);
    OnwardAfter(s, v, t, pid, id, other);
  }

  /** One clean quotation is enough. */
  lemma QuotedMayPublish(s: State, pid: nat, d: nat, id: string)
    requires pid in s.proposals && Numbered(s, pid) && s.proposals[pid].status in {Draft, Published, InProgress} && FreeId(s, id)
    requires d in s.documents && s.documents[d] == Document(s.proposals[pid].building, Quotation, true, "")
    ensures MayPublish(s, pid, TEXTS.(quotations := [d]), id)
  {
    TextsSaid("c");
    TextsSaid("p");
    TextsSaid("a");
    hide Said, FreeId;
  }

  lemma OnwardAfter(s: State, u: State, t: State, pid: nat, id: string, other: string)
    requires Onward(s, u, pid, other) && t.events.Keys == u.events.Keys + {Integrity.Lower(id)} && Integrity.Lower(id) != Integrity.Lower(other)
    requires t.settlements == u.settlements && t.now == u.now && t.cases == u.cases
    requires pid in t.proposals && t.proposals[pid].building == u.proposals[pid].building && t.proposals[pid].caseId == u.proposals[pid].caseId
    ensures Onward(s, t, pid, other)
  {
    hide Integrity.Lower, Texts.IsBytes32;
  }

  lemma PublicationLeaves(env: Platform, s: State, t: State, pid: nat, input: VersionInput, id: string)
    requires PublishVersion(env, s, pid, input, id) == Ok(t)
    ensures pid in s.proposals && t.proposals.Keys == s.proposals.Keys && t.events.Keys == s.events.Keys + {Integrity.Lower(id)}
    ensures t.now == s.now && t.cases == s.cases && t.settlements == s.settlements
    ensures var p, q := s.proposals[pid], t.proposals[pid];
            q.status == Published && q.building == p.building && q.caseId == p.caseId && |q.versions| == |p.versions| + 1
    ensures t.documents == s.documents
  {
    PublicationCommits(env, s, pid, input, id);
    hide PublishVersion, QueueEvent, Integrity.Lower;
    var p, draft := s.proposals[pid], NewVersion(s.documents, s.proposals[pid], input, ResolveSchedule(input).value, "");
    QueueAddsOne(env, s, id, VersionEvent, VersionPayload(env, FactsOf(s, pid, p, draft), CaseOf(s, p)), PreviousHash(s, p.versions));
  }

  /** A published proposal is decided to proceed with. */
  lemma Proceeds(env: Platform, s: State, u: State, pid: nat, id: string) returns (t: State)
    requires PlatformLaws(env) && Leads(env, s, u) && Sound(env, u) && Onward(s, u, pid, id) && u.proposals[pid].status == Published
    ensures Leads(env, s, t) && Sound(env, t) && Onward(s, t, pid, id) && t.proposals[pid].status == InProgress && t.cases == u.cases
  {
    hide Sound, PlatformLaws, Leads, Run, FreeId;
    t := DecideProposal(u, pid, true).value;
    assert Attempt(env, u, DecideStep(pid, true)) == Ok(t);
    LeadsOn(env, s, u, DecideStep(pid, true), t);
    OnwardSame(s, u, t, pid, id);
  }

  /** No other proposal of the case can stand in the way of its work. */
  lemma OnlyProposal(env: Platform, s: State, pid: nat, q: nat)
    requires Sound(env, s) && pid in s.proposals && q in s.proposals && s.proposals[pid].caseId.Some?
    requires s.proposals[q].caseId == s.proposals[pid].caseId
    ensures q == pid
  {
    hide ProposalOk, SettlementOk, AuditOk, MoneyOk, EventsUnshared, EventsOwned;
  }

  /** Work on it is completed, with its case if it has one. */
  lemma WorksOn(env: Platform, s: State, u: State, pid: nat, id: string) returns (t: State)
    requires PlatformLaws(env) && Leads(env, s, u) && Sound(env, u) && Onward(s, u, pid, id)
    requires u.proposals[pid].status == InProgress && CaseOpen(u, u.proposals[pid])
    ensures Leads(env, s, t) && Sound(env, t) && Onward(s, t, pid, id) && t.proposals[pid].status == Completed
  {
    hide Sound, PlatformLaws, Leads, Run, FreeId, Settled, CaseOpen;
    if u.proposals[pid].caseId.None? {
      t := WorksAlone(env, s, u, pid, id);
    } else {
      t := WorksOnCase(env, s, u, pid, id);
    }
  }

  lemma WorksAlone(env: Platform, s: State, u: State, pid: nat, id: string) returns (t: State)
    requires PlatformLaws(env) && Leads(env, s, u) && Sound(env, u) && Onward(s, u, pid, id)
    requires u.proposals[pid].status == InProgress && u.proposals[pid].caseId.None?
    ensures Leads(env, s, t) && Sound(env, t) && Onward(s, t, pid, id) && t.proposals[pid].status == Completed
  {
    NotBlank();
    hide Sound, PlatformLaws, Leads, Run, FreeId, Texts.Blank;
    t := CompleteProposalWork(u, pid, "c", "r").value;
    assert Attempt(env, u, CompleteProposalStep(pid, "c", "r")) == Ok(t);
    LeadsOn(env, s, u, CompleteProposalStep(pid, "c", "r"), t);
    OnwardSame(s, u, t, pid, id);
  }

  lemma NotBlank()
    ensures !Texts.Blank("c") && !Texts.Blank("r")
  {
    TextsSaid("c");
    TextsSaid("r");
    SaidIsNotBlank("c");
    SaidIsNotBlank("r");
  }

  /** Work on its case starts, unless it has already. */
  lemma StartsCase(env: Platform, s: State, u: State, pid: nat, id: string) returns (t: State)
    requires PlatformLaws(env) && Leads(env, s, u) && Sound(env, u) && Onward(s, u, pid, id)
    requires u.proposals[pid].status == InProgress && u.proposals[pid].caseId.Some? && CaseOpen(u, u.proposals[pid])
    ensures Leads(env, s, t) && Sound(env, t) && Onward(s, t, pid, id) && t.proposals == u.proposals && CaseOpen(t, t.proposals[pid])
    ensures u.proposals[pid].caseId.value in t.cases && t.cases[u.proposals[pid].caseId.value].startedAt.Some?
  {
    var c := u.proposals[pid].caseId.value;
    hide Sound, PlatformLaws, Leads, Run, FreeId, Settled;
    forall q | q in u.proposals && u.proposals[q].caseId == Some(c) ensures u.proposals[q].status != Published { OnlyProposal(env, u, pid, q); }
    CaseStarts(env, u, c);
    t := Attempt(env, u, StartStep(c)).value;
    hide Attempt;
    LeadsOn(env, s, u, StartStep(c), t);
    OnwardSame(s, u, t, pid, id);
  }

  lemma CaseStarts(env: Platform, s: State, c: nat)
    requires c in s.cases && s.cases[c].active && s.cases[c].completedAt.None?
    requires forall q :: q in s.proposals && s.proposals[q].caseId == Some(c) ==> s.proposals[q].status != Published
    ensures var r := Attempt(env, s, StartStep(c));
            && r.Ok? && c in r.value.cases && r.value == s.(cases := s.cases[c := r.value.cases[c]])
            && r.value.cases[c].active && r.value.cases[c].completedAt.None? && r.value.cases[c].startedAt.Some?
  {
  }

  lemma CaseCompletes(env: Platform, s: State, c: nat, pid: nat)
    requires c in s.cases && s.cases[c].active && s.cases[c].completedAt.None? && s.cases[c].startedAt.Some?
    requires pid in s.proposals && s.proposals[pid].caseId == Some(c) && s.proposals[pid].status == InProgress
    ensures var r := Attempt(env, s, CompleteCaseStep(c, "c", "r"));
            && r.Ok? && r.value.events == s.events && r.value.settlements == s.settlements && r.value.now == s.now
            && r.value.cases.Keys == s.cases.Keys && pid in r.value.proposals
            && r.value.proposals[pid].status == Completed && r.value.proposals[pid].caseId == Some(c)
            && r.value.proposals[pid].building == s.proposals[pid].building
  {
    NotBlank();
    hide Texts.Blank;
  }

  lemma WorksOnCase(env: Platform, s: State, u: State, pid: nat, id: string) returns (t: State)
    requires PlatformLaws(env) && Leads(env, s, u) && Sound(env, u) && Onward(s, u, pid, id)
    requires u.proposals[pid].status == InProgress && u.proposals[pid].caseId.Some? && CaseOpen(u, u.proposals[pid])
    ensures Leads(env, s, t) && Sound(env, t) && Onward(s, t, pid, id) && t.proposals[pid].status == Completed
  {
    var c := u.proposals[pid].caseId.value;
    var v := StartsCase(env, s, u, pid, id);
    hide Sound, PlatformLaws, Leads, Run, FreeId, Settled, Attempt;
    CaseCompletes(env, v, c, pid);
    t := Attempt(env, v, CompleteCaseStep(c, "c", "r")).value;
    LeadsOn(env, s, v, CompleteCaseStep(c, "c", "r"), t);
    OnwardSame(s, v, t, pid, id);
  }

  const PROOF_DIGITS: string := Decimal.Padded(0, 64)

  lemma DigitsAreHash()
    ensures Hashed(PROOF_DIGITS)
  {
    assert |PROOF_DIGITS| == 64 && HexText(PROOF_DIGITS);
  }

  /** And it is paid. */
  lemma Pays(env: Platform, s: State, u: State, pid: nat, id: string) returns (t: State)
    requires PlatformLaws(env) && Leads(env, s, u) && Sound(env, u) && Onward(s, u, pid, id)
    requires u.proposals[pid].status == Completed && Calendar.Datable(u.now)
    ensures Leads(env, s, t) && Settled(t, pid)
  {
    DigitsAreHash();
    hide PROOF_DIGITS, Hashed;
    var v, d := AddsDocument(env, s, u, pid, id, Document(u.proposals[pid].building, PaymentProof, true, PROOF_DIGITS));
    assert MaySettle(v, pid, d, id);
    SoundParts(env, v);
    hide Sound, Run, Leads, Inv, EventsOwned, MaySettle, PlatformLaws, Calendar.Datable;
    SettleCondition(env, v, pid, d, id);
    t := Attempt(env, v, SettleStep(pid, d, id)).value;
    SettleAttempt(env, v, pid, d, id);
    hide Attempt;
    LeadsOn(env, s, v, SettleStep(pid, d, id), t);
    SettlementAdded(env, v, t, pid, d, id);
  }

  lemma SettlementAdded(env: Platform, s: State, t: State, pid: nat, transfer: nat, id: string)
    requires RecordSettlement(env, s, pid, transfer, id) == Ok(t)
    ensures Settled(t, pid)
  {
    SettlementCommits(env, s, pid, transfer, id);
    hide RecordSettlement, QueueEvent;
    assert t.settlements[|s.settlements|].proposal == pid;
  }

  lemma PayableIsPaid(env: Platform, s: State, pid: nat, id: string, other: string)
    requires PlatformLaws(env) && Sound(env, s) && pid in s.proposals && Numbered(s, pid) && !Settled(s, pid) && Payable(s, pid)
    requires Calendar.Datable(s.now) && FreeId(s, id) && FreeId(s, other) && Integrity.Lower(id) != Integrity.Lower(other)
    ensures exists t :: Leads(env, s, t) && Settled(t, pid)
  {
    hide Sound, PlatformLaws, Leads, Calendar.Datable, FreeId, Settled;
    LeadsNowhere(env, s);
    var u := s;
    if u.proposals[pid].status == Draft { u := PublishesDraft(env, s, u, pid, id, other); }
    if u.proposals[pid].status == Published { u := Proceeds(env, s, u, pid, other); }
    if u.proposals[pid].status == InProgress { u := WorksOn(env, s, u, pid, other); }
    var t := Pays(env, s, u, pid, other);
  }

  // ---------------------------------------------------------------- who never will be

  ghost predicate Stuck(s: State, pid: nat) { pid in s.proposals && !Payable(s, pid) && !Settled(s, pid) }

  lemma OtherSteps(env: Platform, s: State, step: Step, pid: nat)
    requires Stuck(s, pid) && CasesThere(s) && !step.PublishStep? && !step.SettleStep?
    ensures Stuck(Apply(env, s, step), pid)
  {
    hide KeyUsed, SourceKey, Settled, ProposalExpired, CaseExpired;
    assert Apply(env, s, step).settlements == s.settlements by { SettlementsUntouched(env, s, step); }
    SameSettled(s, Apply(env, s, step), pid);
  }

  lemma SettlementsUntouched(env: Platform, s: State, step: Step)
    requires !step.SettleStep?
    ensures Apply(env, s, step).settlements == s.settlements
  {
    hide CompleteLinked, CloseCases, CloseProposals, OutflowKey, QueueEvent, PublishVersion;
    if step.PublishStep? && Attempt(env, s, step).Ok? {
      PublicationLeaves(env, s, Attempt(env, s, step).value, step.pid, step.input, step.eventId);
    }
  }

  lemma SameSettled(s: State, t: State, pid: nat)
    requires t.settlements == s.settlements
    ensures Settled(t, pid) <==> Settled(s, pid)
  {
  }

  lemma PublishLeavesStuck(env: Platform, s: State, t: State, pid: nat, at: nat, input: VersionInput, id: string)
    requires Stuck(s, pid) && PublishVersion(env, s, at, input, id) == Ok(t)
    ensures Stuck(t, pid)
  {
    PublicationLeaves(env, s, t, at, input, id);
    PublicationCommits(env, s, at, input, id);
    hide PublishVersion, QueueEvent, Settled;
    SameSettled(s, t, pid);
    OthersKept(env, s, t, at, input, id, pid);
  }

  lemma OthersKept(env: Platform, s: State, t: State, at: nat, input: VersionInput, id: string, q: nat)
    requires PublishVersion(env, s, at, input, id) == Ok(t) && q in s.proposals
    ensures q in t.proposals && (q != at ==> t.proposals[q] == s.proposals[q])
    ensures at in s.proposals && s.proposals[at].status in {Draft, Published, InProgress}
  {
    PublicationCommits(env, s, at, input, id);
    hide PublishVersion, QueueEvent;
    var p, draft := s.proposals[at], NewVersion(s.documents, s.proposals[at], input, ResolveSchedule(input).value, "");
    QueueGrows(env, s, id, VersionEvent, VersionPayload(env, FactsOf(s, at, p, draft), CaseOf(s, p)), PreviousHash(s, p.versions));
  }

  lemma SettleLeavesStuck(env: Platform, s: State, t: State, pid: nat, at: nat, transfer: nat, id: string)
    requires Stuck(s, pid) && RecordSettlement(env, s, at, transfer, id) == Ok(t)
    ensures Stuck(t, pid)
  {
    SettlementCommits(env, s, at, transfer, id);
    hide RecordSettlement, QueueEvent;
    var v := s.proposals[at].versions[s.proposals[at].current.value];
    QueueGrows(env, s, id, SettlementEvent,
               SettlementPayload(SettlementFacts(|s.settlements| + 1, at, v.number, v.amount, s.documents[transfer].sha256, s.now)),
               if v.eventId in s.events then "0x" + s.events[v.eventId].payloadHash else "");
    assert at != pid;
  }

  lemma StuckStays(env: Platform, s: State, step: Step, pid: nat)
    requires Stuck(s, pid) && CasesThere(s)
    ensures Stuck(Apply(env, s, step), pid)
  {
    hide Stuck, PublishVersion, RecordSettlement;
    if step.PublishStep? {
      if Attempt(env, s, step).Ok? { PublishLeavesStuck(env, s, Attempt(env, s, step).value, pid, step.pid, step.input, step.eventId); }
    } else if step.SettleStep? {
      if Attempt(env, s, step).Ok? { SettleLeavesStuck(env, s, Attempt(env, s, step).value, pid, step.pid, step.transfer, step.eventId); }
    } else {
      OtherSteps(env, s, step, pid);
    }
  }

  lemma {:induction false} StuckForever(env: Platform, s: State, later: seq<Step>, pid: nat)
    requires Stuck(s, pid) && CasesThere(s)
    ensures Stuck(Run(env, s, later), pid) && CasesThere(Run(env, s, later))
  {
    hide Stuck, CasesThere, Apply;
    if later != [] {
      StuckForever(env, s, later[..|later| - 1], pid);
      StuckStays(env, Run(env, s, later[..|later| - 1]), later[|later| - 1], pid);
      CasesStep(env, Run(env, s, later[..|later| - 1]), later[|later| - 1]);
    }
  }

  /**
   From any reachable state an unsettled proposal can still be paid exactly if its work is completed and it was not closed since,
   or it was not stopped and its case, if it has one, is open and not completed: a decision that comes after its case was completed or
   closed, and a standalone proposal that the nightly job has closed unpaid, are never paid in any run.
   */
  lemma PayableExactly(env: Platform, steps: seq<Step>, pid: nat, id: string, other: string)
    requires PlatformLaws(env)
    requires var s := Run(env, INITIAL, steps);
             && pid in s.proposals && Numbered(s, pid) && !Settled(s, pid) && Calendar.Datable(s.now)
             && FreeId(s, id) && FreeId(s, other) && Integrity.Lower(id) != Integrity.Lower(other)
    ensures var s := Run(env, INITIAL, steps); (exists t :: Leads(env, s, t) && Settled(t, pid)) <==> Payable(s, pid)
  {
    hide Sound, PlatformLaws, FreeId, Calendar.Datable, Payable, Settled, Numbered, CasesThere, Run, Integrity.Lower;
    var s := Run(env, INITIAL, steps);
    RunsAreSound(env, steps);
    if Payable(s, pid) {
      PayableIsPaid(env, s, pid, id, other);
    } else {
      SoundParts(env, s);
      forall t | Leads(env, s, t) ensures !Settled(t, pid) {
        var later :| t == Run(env, s, later);
        StuckForever(env, s, later, pid);
      }
    }
  }

  // ---------------------------------------------------------------- the nightly closing

  /**
   In every reachable state the nightly job closes exactly the cases completed fourteen days ago or longer and still open, and exactly
   the standalone proposals completed as long ago, paid or not: when they were settled never matters.
   */
  lemma ClosesExactly(env: Platform, steps: seq<Step>)
    ensures var s := Run(env, INITIAL, steps);
            var t := Apply(env, s, CloseStep);
            && t == s.(cases := t.cases, proposals := t.proposals) && t.cases.Keys == s.cases.Keys && t.proposals.Keys == s.proposals.Keys
            && (forall c :: c in s.cases ==>
                  t.cases[c] == if s.cases[c].active && s.cases[c].completedAt.Some? && s.cases[c].completedAt.value + 1_209_600_000_000 <= s.now
                                then s.cases[c].(active := false, closedAt := Some(s.now)) else s.cases[c])
            && (forall q :: q in s.proposals ==>
                  t.proposals[q] == if s.proposals[q].status == Completed && s.proposals[q].caseId.None? && s.proposals[q].completedAt.Some?
                                       && s.proposals[q].completedAt.value + 1_209_600_000_000 <= s.now
                                    then s.proposals[q].(status := Closed, closedAt := Some(s.now)) else s.proposals[q])
  {
    DatesInOrder(env, steps);
    var s := Run(env, INITIAL, steps);
    hide Run;
    forall c | c in s.cases ensures s.cases[c].active <==> s.cases[c].closedAt.None? { assert CaseTimeline(s.cases[c], s.now); }
    forall q | q in s.proposals ensures s.proposals[q].closedAt.Some? ==> s.proposals[q].status in {NotProceeding, Closed} {
      assert ProposalTimeline(s.proposals[q], s.now);
    }
    forall q | q in s.proposals && SettlementOf(s, q).Some? ensures SettlementOf(s, q).value.settledAt <= s.now {
      var i :| 0 <= i < |s.settlements| && s.settlements[i] == SettlementOf(s, q).value;
      assert SettlementTimeline(s, s.settlements[i]);
    }
  }

  // ---------------------------------------------------------------- a second version

  const FIRST_ID: string := "0x" + Decimal.Padded(1, 64)
  const SECOND_ID: string := "0x" + Decimal.Padded(2, 64)

  lemma IsId(n: nat)
    ensures var id := "0x" + Decimal.Padded(n, 64); Integrity.Lower(id) == id && Texts.IsBytes32(id) && id[65] == Decimal.Padded(n, 64)[63]
  {
    LinkIsLowercase(Decimal.Padded(n, 64));
    var id := "0x" + Decimal.Padded(n, 64);
    assert id[..2] == "0x";
    assert forall i :: 2 <= i < 66 ==> id[i] == Decimal.Padded(n, 64)[i - 2];
  }

  lemma LastDigit(n: nat, width: nat)
    requires width > 0 && n < 10
    ensures Decimal.Padded(n, width)[width - 1] == Decimal.DigitChar(n)
  {
  }

  lemma IdsAreFree(s: State)
    requires s.events == map[] || s.events.Keys == {Integrity.Lower(FIRST_ID)}
    ensures s.events == map[] ==> FreeId(s, FIRST_ID)
    ensures FreeId(s, SECOND_ID)
  {
    hide Decimal.Padded, Integrity.Lower, Texts.IsBytes32;
    IsId(1);
    IsId(2);
    LastDigit(1, 64);
    LastDigit(2, 64);
  }

  const QUOTED := Document(1, Quotation, true, "")
  const INPUT := TEXTS.(quotations := [1])

  /** A standalone proposal with one quotation on file. */
  ghost predicate Filed(s: State, status: ProposalStatus, versions: nat, audit: seq<Audit>) {
    && 1 in s.documents && s.documents[1] == QUOTED
    && 1 in s.proposals && s.proposals[1].building == 1 && s.proposals[1].caseId.None?
    && s.proposals[1].status == status && |s.proposals[1].versions| == versions && s.audit == audit
  }

  lemma PublishesFiled(env: Platform, s: State, status: ProposalStatus, versions: nat, audit: seq<Audit>, id: string) returns (t: State)
    requires PlatformLaws(env) && Leads(env, INITIAL, s) && Sound(env, s) && Filed(s, status, versions, audit) && FreeId(s, id)
    requires status in {Draft, Published, InProgress}
    ensures Leads(env, INITIAL, t) && Sound(env, t) && Filed(t, Published, versions + 1, audit + [VersionPublished(1, versions + 1)])
    ensures t.events.Keys == s.events.Keys + {Integrity.Lower(id)}
  {
    hide Sound, Run, Leads, PlatformLaws, PublishVersion, Integrity.Lower, FreeId, Inv, MayPublish, EventsOwned, CasesThere;
    SoundParts(env, s);
    QuotedMayPublish(s, 1, 1, id);
    t := Publishes(env, INITIAL, s, 1, INPUT, id);
    PublicationLeaves(env, s, t, 1, INPUT, id);
    PublicationAudited(env, s, t, 1, INPUT, id);
  }

  lemma PublicationAudited(env: Platform, s: State, t: State, pid: nat, input: VersionInput, id: string)
    requires Inv(env, s) && PublishVersion(env, s, pid, input, id) == Ok(t)
    ensures pid in s.proposals && t.audit == s.audit + [VersionPublished(pid, |s.proposals[pid].versions| + 1)]
  {
    PublicationCommits(env, s, pid, input, id);
    ProposalStands(env, s, pid);
    hide PublishVersion, QueueEvent, Inv, ProposalOk;
    PreviousIsLink(env, s, pid, s.proposals[pid]);
  }

  lemma Files(env: Platform) returns (t: State)
    requires PlatformLaws(env)
    ensures Leads(env, INITIAL, t) && Sound(env, t) && Filed(t, Draft, 0, []) && t.events == map[]
  {
    LeadsNowhere(env, INITIAL);
    StartsSound(env);
    hide Sound, Run, Leads, PlatformLaws;
    var u := INITIAL.(documents := map[1 := QUOTED]);
    assert Attempt(env, INITIAL, AddDocumentStep(1, QUOTED)) == Ok(u);
    LeadsOn(env, INITIAL, INITIAL, AddDocumentStep(1, QUOTED), u);
    t := CreateStandaloneProposal(u, 1, 1).value;
    assert Attempt(env, u, CreateStandaloneStep(1, 1)) == Ok(t);
    LeadsOn(env, INITIAL, u, CreateStandaloneStep(1, 1), t);
  }

  lemma DecidesFiled(env: Platform, s: State, audit: seq<Audit>) returns (t: State)
    requires PlatformLaws(env) && Leads(env, INITIAL, s) && Sound(env, s) && Filed(s, Published, 1, audit)
    ensures Leads(env, INITIAL, t) && Sound(env, t) && Filed(t, InProgress, 1, audit + [Decided(1, true)]) && t.events == s.events
  {
    hide Sound, Run, Leads, PlatformLaws;
    t := DecideProposal(s, 1, true).value;
    assert Attempt(env, s, DecideStep(1, true)) == Ok(t);
    LeadsOn(env, INITIAL, s, DecideStep(1, true), t);
  }

  /** Published, decided to proceed with, and published again: two versions, the second linked to the hash of the first. */
  ghost predicate Revised(s: State) {
    && 1 in s.proposals && s.proposals[1].status == Published && |s.proposals[1].versions| == 2
    && s.proposals[1].versions[0].eventId in s.events && s.proposals[1].versions[1].eventId in s.events
    && s.events[s.proposals[1].versions[1].eventId].previousHash == "0x" + s.events[s.proposals[1].versions[0].eventId].payloadHash
    && s.audit == [VersionPublished(1, 1), Decided(1, true), VersionPublished(1, 2)]
  }

  /** A run from the empty database leads there. */
  lemma RevisedWhileInProgress(env: Platform)
    requires PlatformLaws(env)
    ensures exists steps :: Revised(Run(env, INITIAL, steps))
  {
    hide Sound, PlatformLaws, FIRST_ID, SECOND_ID, FreeId, Integrity.Lower, Run;
    var s := Files(env);
    IdsAreFree(s);
    var t := PublishesFiled(env, s, Draft, 0, [], FIRST_ID);
    var u := DecidesFiled(env, t, [] + [VersionPublished(1, 1)]);
    assert u.events.Keys == {Integrity.Lower(FIRST_ID)};
    IdsAreFree(u);
    var v := PublishesFiled(env, u, InProgress, 1, [] + [VersionPublished(1, 1)] + [Decided(1, true)], SECOND_ID);
    var steps :| v == Run(env, INITIAL, steps);
    HashChain(env, steps, 1, 1);
  }
}
