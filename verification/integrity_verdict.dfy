/**
 One Integrity observation: the document loop, the chain loop, and how their
 outcomes combine with the local re-hash into a verdict.
 */
module IntegrityVerdict {
  import opened Wrappers
  import Integrity
  import Outbox

  datatype Verdict = Verified | Mismatch | Unavailable

  /** A document to re-hash: `actual` is None when its bytes could not be read. */
  datatype Document = Document(stored: string, expected: string, actual: Option<string>)

  datatype Event = Event(payloadHash: string, status: Outbox.Status)

  /** What the registry said about one event. */
  datatype Answer = NoAnswer | NoRecord | Record(payloadHash: string)

  datatype ChainCheck = Skipped | Silent | Agrees | Disagrees

  /** Outcome of the chain loop: `ok` is None when nothing independent can be said. */
  datatype ChainOutcome = ChainOutcome(ok: Option<bool>, unavailable: bool, checks: seq<ChainCheck>)

  function Target(d: Document): string { if d.expected == "" then d.stored else d.expected }

  function DocumentVerdict(d: Document): Verdict {
    if d.actual.None? then Unavailable
    else if d.actual.value != d.stored || d.actual.value != Target(d) then Mismatch
    else Verified
  }

  /** Each bad document overwrites the verdict so far. */
  function DocumentsVerdict(docs: seq<Document>): Verdict {
    if docs == [] then Verified
    else
      var v := DocumentVerdict(docs[|docs| - 1]);
      if v == Verified then DocumentsVerdict(docs[..|docs| - 1]) else v
  }

  function Readable(docs: seq<Document>): seq<string> {
    if docs == [] then []
    else
      var last := docs[|docs| - 1];
      Readable(docs[..|docs| - 1]) + (if last.actual.Some? then [last.actual.value] else [])
  }

  /** The document loop. */
  method CheckDocuments(docs: seq<Document>) returns (verdict: Verdict, hashes: seq<string>)
    ensures verdict == DocumentsVerdict(docs)
    ensures hashes == Readable(docs)
  {
    verdict, hashes := Verified, [];
    for i := 0 to |docs|
      invariant verdict == DocumentsVerdict(docs[..i])
      invariant hashes == Readable(docs[..i])
    {
      var d := docs[i];
      assert docs[..i + 1][..i] == docs[..i];
      if d.actual.None? {
        verdict := Unavailable;
        continue;
      }
      hashes := hashes + [d.actual.value];
      if d.actual.value != d.stored || d.actual.value != Target(d) {
        verdict := Mismatch;
      }
    }
    assert docs[..|docs|] == docs;
  }

  /** An event with the answer the registry gives for it. */
  datatype Probe = Probe(event: Event, answer: Answer)

  function CheckOf(p: Probe): ChainCheck {
    if p.event.status == Outbox.Local then Skipped
    else if !p.answer.Record? then Silent
    else if Integrity.StripPrefix(p.answer.payloadHash) == Integrity.StripPrefix(p.event.payloadHash) then Agrees
    else Disagrees
  }

  /** The events that are not settled locally, in order. */
  function OnChain(ps: seq<Probe>): (r: seq<Probe>)
    ensures |r| <= |ps|
  {
    if ps == [] then []
    else
      var n := |ps| - 1;
      OnChain(ps[..n]) + (if ps[n].event.status == Outbox.Local then [] else [ps[n]])
  }

  lemma {:induction false} OnChainMembers(ps: seq<Probe>)
    ensures forall p :: p in OnChain(ps) <==> p in ps && p.event.status != Outbox.Local
  {
    if ps != [] {
      var n := |ps| - 1;
      OnChainMembers(ps[..n]);
      assert ps == ps[..n] + [ps[n]];
    }
  }

  function Skips(n: nat): (r: seq<ChainCheck>)
    ensures |r| == n && forall i :: 0 <= i < n ==> r[i] == Skipped
  {
    if n == 0 then [] else Skips(n - 1) + [Skipped]
  }

  function Checks(ps: seq<Probe>): (r: seq<ChainCheck>)
    ensures |r| == |ps| && forall i :: 0 <= i < |r| ==> r[i] == CheckOf(ps[i])
  {
    seq(|ps|, i requires 0 <= i < |ps| => CheckOf(ps[i]))
  }

  ghost predicate Has(ps: seq<Probe>, c: ChainCheck) { exists p :: p in ps && CheckOf(p) == c }

  /** LOCAL events are skipped one by one and listed first; with no client nothing else is listed. */
  ghost function ChainSpec(ps: seq<Probe>, disabled: bool, reachable: bool): ChainOutcome {
    var chain := OnChain(ps);
    var skips := Skips(|ps| - |chain|);
    if disabled then ChainOutcome(None, true, Skips(|ps|))
    else if chain == [] || !reachable then ChainOutcome(None, true, skips)
    else if Has(chain, Disagrees) then ChainOutcome(Some(false), false, skips + Checks(chain))
    else if Has(chain, Silent) then ChainOutcome(None, true, skips + Checks(chain))
    else ChainOutcome(Some(true), false, skips + Checks(chain))
  }

  /** The two chain loops. `reachable` is false when no client could be built. */
  method CheckChainRecords(ps: seq<Probe>, disabled: bool, reachable: bool) returns (outcome: ChainOutcome)
    ensures outcome == ChainSpec(ps, disabled, reachable)
  {
    if disabled {
      return ChainOutcome(None, true, Skips(|ps|));
    }
    var checks: seq<ChainCheck> := [];
    var chain: seq<Probe> := [];
    for i := 0 to |ps|
      invariant chain == OnChain(ps[..i])
      invariant checks == Skips(i - |chain|)
      invariant forall p :: p in chain ==> p.event.status != Outbox.Local
    {
      assert ps[..i + 1][..i] == ps[..i];
      if ps[i].event.status == Outbox.Local {
        checks := checks + [Skipped];
      } else {
        chain := chain + [ps[i]];
      }
    }
    assert ps[..|ps|] == ps;
    if chain == [] || !reachable {
      return ChainOutcome(None, true, checks);
    }
    var answered, anyUnavailable, anyMismatch := CheckAnswers(chain);
    checks := checks + answered;
    if anyMismatch {
      outcome := ChainOutcome(Some(false), false, checks);
    } else if anyUnavailable {
      outcome := ChainOutcome(None, true, checks);
    } else {
      outcome := ChainOutcome(Some(true), false, checks);
    }
  }

  /** The loop over the events that are on the chain. */
  method CheckAnswers(chain: seq<Probe>)
    returns (checks: seq<ChainCheck>, anyUnavailable: bool, anyMismatch: bool)
    requires forall p :: p in chain ==> p.event.status != Outbox.Local
    ensures checks == Checks(chain)
    ensures anyUnavailable <==> Has(chain, Silent)
    ensures anyMismatch <==> Has(chain, Disagrees)
  {
    checks, anyUnavailable, anyMismatch := [], false, false;
    for k := 0 to |chain|
      invariant checks == Checks(chain[..k])
      invariant anyUnavailable <==> Has(chain[..k], Silent)
      invariant anyMismatch <==> Has(chain[..k], Disagrees)
    {
      var p := chain[k];
      assert chain[..k + 1] == chain[..k] + [p];
      OneMore(chain[..k], p);
      assert p in chain;
      if !p.answer.Record? {
        anyUnavailable := true;
        checks := checks + [Silent];
        continue;
      }
      if Integrity.StripPrefix(p.answer.payloadHash) != Integrity.StripPrefix(p.event.payloadHash) {
        anyMismatch := true;
        checks := checks + [Disagrees];
      } else {
        checks := checks + [Agrees];
      }
    }
    assert chain[..|chain|] == chain;
  }

  lemma OneMore(ps: seq<Probe>, p: Probe)
    ensures Checks(ps + [p]) == Checks(ps) + [CheckOf(p)]
    ensures forall c :: Has(ps + [p], c) <==> Has(ps, c) || CheckOf(p) == c
  {
    forall c ensures Has(ps + [p], c) <==> Has(ps, c) || CheckOf(p) == c {
      if Has(ps, c) {
        var q :| q in ps && CheckOf(q) == c;
        assert q in ps + [p];
      }
      assert p in ps + [p];
    }
  }

  predicate Settled(s: Outbox.Status) { s == Outbox.Local || s == Outbox.Confirmed }

  /** Some event is on the chain and the chain answered for all of those. */
  ghost predicate ChainAvailable(ps: seq<Probe>, disabled: bool, reachable: bool) {
    && !disabled && reachable
    && (exists p :: p in ps && p.event.status != Outbox.Local)
    && (forall p :: p in ps && p.event.status != Outbox.Local ==> p.answer.Record?)
  }

  /** Two hashes are the same but for a leading 0x. */
  ghost predicate SameHash(a: string, b: string) { a == b || a == "0x" + b || b == "0x" + a }

  /** The registry has a record of an event that is not settled locally, with another hash. */
  ghost predicate Contradicted(p: Probe) {
    p.event.status != Outbox.Local && p.answer.Record? && !Integrity.SameHash(p.answer.payloadHash, p.event.payloadHash)
  }

  ghost predicate ChainDisagrees(ps: seq<Probe>, disabled: bool, reachable: bool) {
    !disabled && reachable && exists p :: p in ps && Contradicted(p)
  }

  /** The chain loops see every event that matters: silence and disagreement are found wherever they are. */
  lemma ChainSeesAll(ps: seq<Probe>)
    ensures Has(OnChain(ps), Disagrees) <==> Has(ps, Disagrees)
    ensures Has(OnChain(ps), Silent) <==> Has(ps, Silent)
    ensures OnChain(ps) != [] <==> exists p :: p in ps && p.event.status != Outbox.Local
    ensures Has(ps, Silent) <==> exists p :: p in ps && p.event.status != Outbox.Local && !p.answer.Record?
  {
    OnChainMembers(ps);
    if OnChain(ps) != [] { assert OnChain(ps)[0] in OnChain(ps); }
    if p :| p in ps && p.event.status != Outbox.Local { assert p in OnChain(ps); }
    if p :| p in ps && p.event.status != Outbox.Local && !p.answer.Record? { assert CheckOf(p) == Silent; }
  }

  lemma DisagreementIs(ps: seq<Probe>)
    ensures Has(ps, Disagrees) <==> exists p :: p in ps && Contradicted(p)
  {
    forall p: Probe | p.answer.Record? ensures CheckOf(p) == Disagrees <==> Contradicted(p) {
      Integrity.SameHashStrips(p.answer.payloadHash, p.event.payloadHash);
    }
  }

  /** The chain outcome in terms of the events: a disagreement beats silence. */
  lemma ChainSpecMeaning(ps: seq<Probe>, disabled: bool, reachable: bool)
    ensures var o := ChainSpec(ps, disabled, reachable);
            && (o.ok == Some(false) <==> ChainDisagrees(ps, disabled, reachable))
            && (o.unavailable <==> !ChainDisagrees(ps, disabled, reachable) && !ChainAvailable(ps, disabled, reachable))
  {
    ChainSeesAll(ps);
    DisagreementIs(ps);
    hide OnChain, Skips, Checks, Contradicted;
  }

  /** The registry gave a record for every event, none of them settled locally. */
  ghost predicate AllAnswered(ps: seq<Probe>) {
    forall i :: 0 <= i < |ps| ==> ps[i].event.status != Outbox.Local && ps[i].answer.Record?
  }

  predicate AllAnswers(checks: seq<ChainCheck>) {
    forall i :: 0 <= i < |checks| ==> checks[i] == Agrees || checks[i] == Disagrees
  }

  /** Every listed check is an answer exactly when the chain answered for every event. */
  lemma ConsultedMeaning(ps: seq<Probe>, disabled: bool, reachable: bool)
    ensures var o := ChainSpec(ps, disabled, reachable);
            o.checks != [] && AllAnswers(o.checks) <==> ps != [] && !disabled && reachable && AllAnswered(ps)
  {
    var o := ChainSpec(ps, disabled, reachable);
    OnChainWhole(ps);
    if disabled || OnChain(ps) == [] || !reachable || |OnChain(ps)| != |ps| {
      assert o.checks != [] ==> o.checks[0] == Skipped;
    } else {
      assert o.checks == Checks(ps);
      AnswersMatch(ps);
    }
  }

  lemma AnswersMatch(ps: seq<Probe>)
    ensures AllAnswers(Checks(ps)) <==> AllAnswered(ps)
  {
    assert forall i :: 0 <= i < |ps| ==> Checks(ps)[i] == CheckOf(ps[i]);
    if AllAnswers(Checks(ps)) {
      forall i | 0 <= i < |ps| ensures ps[i].event.status != Outbox.Local && ps[i].answer.Record? {
        assert Checks(ps)[i] != Skipped && Checks(ps)[i] != Silent;
      }
    }
  }

  lemma {:induction false} OnChainWhole(ps: seq<Probe>)
    ensures AllAnswered(ps) ==> |OnChain(ps)| == |ps|
    ensures |OnChain(ps)| == |ps| ==> OnChain(ps) == ps
  {
    if ps != [] {
      var n := |ps| - 1;
      OnChainWhole(ps[..n]);
      assert ps == ps[..n] + [ps[n]];
    }
  }

  /** Every event's local re-hash verified. */
  predicate AllVerified(locals: seq<bool>) { forall i :: 0 <= i < |locals| ==> locals[i] }

  /** The bytes hash to what the document's row says, and to what the published list says where it says something. */
  ghost predicate Clean(d: Document) {
    d.actual == Some(d.stored) && (d.expected == "" || d.actual == Some(d.expected))
  }

  ghost predicate AllClean(docs: seq<Document>) { forall i :: 0 <= i < |docs| ==> Clean(docs[i]) }

  ghost predicate AllSettled(ps: seq<Probe>) {
    forall p :: p in ps ==> p.event.status == Outbox.Local || p.event.status == Outbox.Confirmed
  }

  /** The verdict of an observation: documents first, then local checks and the chain, then whether anything independent was said. */
  ghost function Outcome(docs: seq<Document>, locals: seq<bool>, ps: seq<Probe>, disabled: bool, reachable: bool): Verdict {
    if DocumentsVerdict(docs) != Verified then DocumentsVerdict(docs)
    else if !AllVerified(locals) || ChainDisagrees(ps, disabled, reachable) then Mismatch
    else if ChainAvailable(ps, disabled, reachable) || AllSettled(ps) then Verified
    else Unavailable
  }

  /** The observation: verdict and whether the chain itself was consulted; `locals` are the local checks, event by event. */
  method Observe(docs: seq<Document>, locals: seq<bool>, ps: seq<Probe>, disabled: bool, reachable: bool)
    returns (verdict: Verdict, consulted: bool)
    ensures verdict == Outcome(docs, locals, ps, disabled, reachable)
    ensures verdict == Verified <==>
            && AllClean(docs) && AllVerified(locals) && !ChainDisagrees(ps, disabled, reachable)
            && (ChainAvailable(ps, disabled, reachable) || AllSettled(ps))
    ensures verdict == Mismatch <==>
            || DocumentsVerdict(docs) == Mismatch
            || (DocumentsVerdict(docs) == Verified && (!AllVerified(locals) || ChainDisagrees(ps, disabled, reachable)))
    ensures consulted <==> ps != [] && !disabled && reachable && AllAnswered(ps)
  {
    var docVerdict, hashes := CheckDocuments(docs);
    var chain := CheckChainRecords(ps, disabled, reachable);
    VerifiedDocuments(docs);
    ChainSpecMeaning(ps, disabled, reachable);
    ConsultedMeaning(ps, disabled, reachable);
    if docVerdict == Mismatch {
      verdict := Mismatch;
    } else if docVerdict == Unavailable {
      verdict := Unavailable;
    } else if !AllVerified(locals) || chain.ok == Some(false) {
      verdict := Mismatch;
    } else if chain.unavailable {
      var allSettled := forall p :: p in ps ==> Settled(p.event.status);
      verdict := if allSettled then Verified else Unavailable;
    } else {
      verdict := Verified;
    }
    consulted := chain.checks != [] && AllAnswers(chain.checks);
  }

  lemma VerifiedDocuments(docs: seq<Document>)
    ensures DocumentsVerdict(docs) == Verified <==> AllClean(docs)
  {
    DocumentsByColumns(docs);
  }

  /** Document i can be read, is not clean, and every later one can be read. */
  ghost predicate UnhiddenMismatch(docs: seq<Document>, i: int) {
    && 0 <= i < |docs| && docs[i].actual.Some? && !Clean(docs[i])
    && forall j :: i < j < |docs| ==> docs[j].actual.Some?
  }

  /** Document i cannot be read and every later one is clean. */
  ghost predicate LastUnreadable(docs: seq<Document>, i: int) {
    0 <= i < |docs| && docs[i].actual.None? && forall j :: i < j < |docs| ==> Clean(docs[j])
  }

  /** The last document that is not clean decides: the three verdicts in terms of the hashes alone. */
  lemma {:induction false} DocumentsByColumns(docs: seq<Document>)
    ensures DocumentsVerdict(docs) == Verified <==> AllClean(docs)
    ensures DocumentsVerdict(docs) == Unavailable <==> exists i :: LastUnreadable(docs, i)
  {
    if docs != [] {
      var n := |docs| - 1;
      DocumentsByColumns(docs[..n]);
      if i :| LastUnreadable(docs, i) && i < n { assert LastUnreadable(docs[..n], i); }
      if i :| LastUnreadable(docs[..n], i) { assert Clean(docs[n]) ==> LastUnreadable(docs, i); }
      if docs[n].actual.None? { assert LastUnreadable(docs, n); }
    }
  }

  /** So a mismatch is reported exactly when some document mismatches and no later one is unreadable. */
  lemma {:induction false} DocumentMismatchExactly(docs: seq<Document>)
    ensures DocumentsVerdict(docs) == Mismatch <==> exists i :: UnhiddenMismatch(docs, i)
  {
    if docs != [] {
      var n := |docs| - 1;
      DocumentMismatchExactly(docs[..n]);
      if i :| UnhiddenMismatch(docs, i) && i < n { assert UnhiddenMismatch(docs[..n], i); }
      if i :| UnhiddenMismatch(docs[..n], i) { assert docs[n].actual.Some? ==> UnhiddenMismatch(docs, i); }
      if docs[n].actual.Some? && !Clean(docs[n]) { assert UnhiddenMismatch(docs, n); }
    }
  }

  /** The hashes of a clean list are the stored ones, in order. */
  lemma {:induction false} CleanHashes(docs: seq<Document>)
    requires AllClean(docs)
    ensures |Readable(docs)| == |docs| && forall i :: 0 <= i < |docs| ==> Readable(docs)[i] == docs[i].stored
  {
    if docs != [] { CleanHashes(docs[..|docs| - 1]); }
  }

  /** So one bad document does not always give MISMATCH: a later unreadable one hides it. */
  lemma LaterUnreadableHidesMismatch()
    ensures var bad, unreadable := Document("a", "a", Some("b")), Document("a", "a", None);
            DocumentsVerdict([bad]) == Mismatch && DocumentsVerdict([bad, unreadable]) == Unavailable
  {
    var docs := [Document("a", "a", Some("b")), Document("a", "a", None)];
    assert docs[|docs| - 1] == Document("a", "a", None);
    DocumentMismatchExactly([docs[0]]);
    assert UnhiddenMismatch([docs[0]], 0);
  }
}
