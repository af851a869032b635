/**
 Gate enrolment: a face, the review photo that goes with it, and the durable queue that deletes
 photo blobs from storage. Blobs are known by their storage key.
 */
module Gate {
  import opened Wrappers
  import Texts

  datatype ReviewStatus = Pending | Approved | Rejected | Expired

  /** `embedded`: the row still holds a face vector. */
  datatype Enrollment = Enrollment(status: ReviewStatus, embedded: bool)

  datatype Photo = Photo(key: nat, expiresAt: int)

  /**
   What comes of one deletion: blob and row are gone, or storage refuses and the row stays, or the worker fails or raises
   before (`gone` false) or after the blob went, and the row stays too.
   */
  datatype Deletion = Removed | Refused | Raised(gone: bool)

  /**
   `enrollments` and `photos` are keyed by occupancy (one-to-one columns); `used` are the storage keys
   ever drawn, `orphans` the blobs a failed submission could not clean up, and `missing` the keys whose blob
   went while a row stood.
   */
  datatype State = State(
    now: int,
    enrollments: map<nat, Enrollment>,
    photos: map<nat, Photo>,
    deletions: seq<nat>,
    blobs: set<nat>,
    used: set<nat>,
    orphans: set<nat>,
    missing: set<nat>)

  const INITIAL := State(0, map[], map[], [], {}, {}, {}, {})

  // ---------------------------------------------------------------- transactions

  /** A deletion of a queued key: its row goes only after its blob. */
  function TryKey(s: State, key: nat, d: Deletion): State {
    if key !in s.deletions then s
    else
      match d
      case Removed => s.(blobs := s.blobs - {key}, deletions := Without(s.deletions, key))
      case Refused => s
      case Raised(gone) => if gone then s.(blobs := s.blobs - {key}, missing := s.missing + {key}) else s
  }

  function Without(keys: seq<nat>, key: nat): seq<nat> {
    if keys == [] then []
    else
      var n := |keys| - 1;
      Without(keys[..n], key) + (if keys[n] == key then [] else [keys[n]])
  }

  /** Move the review photo, if any, to the deletion queue. */
  function Queue(s: State, occupancy: nat): State {
    if occupancy !in s.photos then s
    else s.(photos := s.photos - {occupancy}, deletions := s.deletions + [s.photos[occupancy].key])
  }

  /** And try the deletion once after commit. */
  function Drop(s: State, occupancy: nat, d: Deletion): State {
    if occupancy !in s.photos then s else TryKey(Queue(s, occupancy), s.photos[occupancy].key, d)
  }

  /**
   Store the new photo, then swap it in. An exception removes the new blob again if it can, even one that the deletion
   of the old photo raises after the commit.
   */
  function Submit(s: State, occupancy: nat, key: nat, ttl: nat, committed: bool, cleaned: bool, d: Deletion): State {
    if key in s.used then s
    else
      var stored := s.(blobs := s.blobs + {key}, used := s.used + {key});
      if !committed then
        (if cleaned then stored.(blobs := stored.blobs - {key}) else stored.(orphans := s.orphans + {key}))
      else
        var t := Queue(stored, occupancy);
        var u := t.(enrollments := t.enrollments[occupancy := Enrollment(Pending, true)],
                    photos := t.photos[occupancy := Photo(key, s.now + ttl)]);
        if occupancy !in s.photos then u
        else
          var v := TryKey(u, s.photos[occupancy].key, d);
          if d.Raised? && cleaned then v.(blobs := v.blobs - {key}, missing := v.missing + {key}) else v
  }

  function Approve(s: State, occupancy: nat, d: Deletion): Option<State> {
    if occupancy !in s.enrollments || s.enrollments[occupancy].status != Pending || !s.enrollments[occupancy].embedded
       || occupancy !in s.photos
    then None
    else Some(Drop(s.(enrollments := s.enrollments[occupancy := s.enrollments[occupancy].(status := Approved)]), occupancy, d))
  }

  function Close(s: State, occupancy: nat, d: Deletion): State
    requires occupancy in s.enrollments
  {
    Drop(s.(enrollments := s.enrollments[occupancy := Enrollment(Rejected, false)]), occupancy, d)
  }

  /** A rejection needs a note that says something. */
  function Reject(s: State, occupancy: nat, note: Option<string>, d: Deletion): Option<State> {
    if note.None? || Texts.Blank(note.value) then None
    else if occupancy !in s.enrollments || s.enrollments[occupancy].status !in {Pending, Approved} then None
    else Some(Close(s, occupancy, d))
  }

  function ResidentRevoke(s: State, occupancy: nat, d: Deletion): State {
    if occupancy !in s.enrollments then s
    else
      var t := Drop(s, occupancy, d);
      t.(enrollments := t.enrollments - {occupancy})
  }

  /** Work that stops at the first exception. */
  datatype Work = Work(state: State, stopped: bool)

  /** The rows of these keys one after the other; a row that is gone counts as done. */
  function ProcessKeys(s: State, keys: seq<nat>, outcome: nat -> Deletion): Work {
    if keys == [] then Work(s, false)
    else
      var n := |keys| - 1;
      var w := ProcessKeys(s, keys[..n], outcome);
      if w.stopped || keys[n] !in w.state.deletions then w
      else Work(TryKey(w.state, keys[n], outcome(keys[n])), outcome(keys[n]).Raised?)
  }

  predicate Overdue(s: State, occupancy: nat) { occupancy in s.photos && s.photos[occupancy].expiresAt <= s.now }

  /** One expired photo: its pending enrolment expires and loses its vector. */
  function ExpireOne(s: State, occupancy: nat, outcome: nat -> Deletion): Work {
    if occupancy !in s.photos || occupancy !in s.enrollments then Work(s, false)
    else
      var e, d := s.enrollments[occupancy], outcome(s.photos[occupancy].key);
      var t := if e.status == Pending then s.(enrollments := s.enrollments[occupancy := Enrollment(Expired, false)]) else s;
      Work(Drop(t, occupancy, d), d.Raised?)
  }

  function ExpireAll(s: State, order: seq<nat>, outcome: nat -> Deletion): Work {
    if order == [] then Work(s, false)
    else
      var w := ExpireAll(s, order[..|order| - 1], outcome);
      if w.stopped then w else ExpireOne(w.state, order[|order| - 1], outcome)
  }

  /** The purge works through the expired photos in the order given, then through the whole queue. */
  function Purge(s: State, order: seq<nat>, dropping: nat -> Deletion, processing: nat -> Deletion): Work {
    var w := ExpireAll(s, order, dropping);
    if w.stopped then w else ProcessKeys(w.state, w.state.deletions, processing)
  }

  // ---------------------------------------------------------------- runs

  datatype Step =
    | Tick(elapsed: nat)
    | SubmitStep(occupancy: nat, key: nat, ttl: nat, committed: bool, cleaned: bool, d: Deletion)
    | ApproveStep(occupancy: nat, d: Deletion)
    | RejectStep(occupancy: nat, note: Option<string>, d: Deletion)
    | RevokeStep(occupancy: nat, d: Deletion)
    | ResidentRevokeStep(occupancy: nat, d: Deletion)
    | PurgeStep(order: seq<nat>, dropping: nat -> Deletion, processing: nat -> Deletion)
    | ProcessStep(outcome: nat -> Deletion)

  /** The purge reads the expired photos first, whatever order the database lists them in. */
  ghost predicate ListsOverdue(s: State, order: seq<nat>) {
    && (forall i :: 0 <= i < |order| ==> Overdue(s, order[i]))
    && (forall o :: Overdue(s, o) ==> o in order)
    && (forall i, j :: 0 <= i < j < |order| ==> order[i] != order[j])
  }

  ghost function Next(s: State, step: Step): State {
    match step
    case Tick(elapsed) => s.(now := s.now + elapsed)
    case SubmitStep(o, key, ttl, committed, cleaned, d) => Submit(s, o, key, ttl, committed, cleaned, d)
    case ApproveStep(o, d) => if Approve(s, o, d).Some? then Approve(s, o, d).value else s
    case RejectStep(o, note, d) => if Reject(s, o, note, d).Some? then Reject(s, o, note, d).value else s
    case RevokeStep(o, d) => if o in s.enrollments then Close(s, o, d) else s
    case ResidentRevokeStep(o, d) => ResidentRevoke(s, o, d)
    case PurgeStep(order, dropping, processing) => if ListsOverdue(s, order) then Purge(s, order, dropping, processing).state else s
    case ProcessStep(outcome) => ProcessKeys(s, s.deletions, outcome).state
  }

  ghost function Run(s: State, steps: seq<Step>): State {
    if steps == [] then s else Next(Run(s, steps[..|steps| - 1]), steps[|steps| - 1])
  }

  // ---------------------------------------------------------------- the invariant

  /** No key is referenced twice, by a pending photo or by a queued deletion, and no orphan at all. */
  ghost predicate PhotosApart(s: State) {
    && (forall o, p :: o in s.photos && p in s.photos && s.photos[o].key == s.photos[p].key ==> o == p)
    && (forall i, j :: 0 <= i < j < |s.deletions| ==> s.deletions[i] != s.deletions[j])
    && (forall o, i :: o in s.photos && 0 <= i < |s.deletions| ==> s.photos[o].key != s.deletions[i])
    && (forall o :: o in s.photos ==> s.photos[o].key !in s.orphans)
    && (forall i :: 0 <= i < |s.deletions| ==> s.deletions[i] !in s.orphans)
  }

  ghost predicate Referenced(s: State, key: nat) {
    (exists o :: o in s.photos && s.photos[o].key == key) || key in s.deletions
  }

  /** Blob bookkeeping: a blob is there while something refers to it, or as an orphan, unless it went before its row. */
  ghost predicate BlobsOk(s: State) {
    && PhotosApart(s)
    && (forall key :: key in s.blobs <==> (Referenced(s, key) && key !in s.missing) || key in s.orphans)
    && s.blobs <= s.used && s.missing <= s.used
  }

  ghost predicate Inv(s: State) {
    && BlobsOk(s)
    && (forall o :: o in s.photos <==> o in s.enrollments && s.enrollments[o].status == Pending)
    && (forall o :: o in s.enrollments ==> (s.enrollments[o].embedded <==> s.enrollments[o].status in {Pending, Approved}))
  }

  lemma {:induction false} WithoutAre(keys: seq<nat>, key: nat)
    requires forall i, j :: 0 <= i < j < |keys| ==> keys[i] != keys[j]
    ensures forall k :: k in Without(keys, key) <==> k in keys && k != key
    ensures forall i, j :: 0 <= i < j < |Without(keys, key)| ==> Without(keys, key)[i] != Without(keys, key)[j]
    ensures |Without(keys, key)| == if key in keys then |keys| - 1 else |keys|
  {
    if keys != [] {
      var n := |keys| - 1;
      WithoutAre(keys[..n], key);
      assert keys == keys[..n] + [keys[n]];
      assert keys[n] !in keys[..n];
      assert keys[n] !in Without(keys[..n], key);
    }
  }

  /** A blob that goes while its row stays is missing. */
  lemma BlobLost(s: State, key: nat)
    requires BlobsOk(s) && Referenced(s, key)
    ensures BlobsOk(s.(blobs := s.blobs - {key}, missing := s.missing + {key}))
  {
    var t := s.(blobs := s.blobs - {key}, missing := s.missing + {key});
    assert key !in s.orphans;
    forall k ensures k in t.blobs <==> (Referenced(t, k) && k !in t.missing) || k in t.orphans {
      assert Referenced(t, k) <==> Referenced(s, k);
    }
  }

  lemma RowDone(s: State, key: nat)
    requires BlobsOk(s) && key in s.deletions
    ensures BlobsOk(s.(blobs := s.blobs - {key}, deletions := Without(s.deletions, key)))
  {
    var t := s.(blobs := s.blobs - {key}, deletions := Without(s.deletions, key));
    WithoutAre(s.deletions, key);
    forall i | 0 <= i < |t.deletions| ensures t.deletions[i] in s.deletions { assert t.deletions[i] in t.deletions; }
    forall k ensures k in t.blobs <==> (Referenced(t, k) && k !in t.missing) || k in t.orphans {
      assert k in s.blobs <==> (Referenced(s, k) && k !in s.missing) || k in s.orphans;
    }
  }

  lemma TryKeyKeeps(s: State, key: nat, d: Deletion)
    requires BlobsOk(s)
    ensures BlobsOk(TryKey(s, key, d))
  {
    hide BlobsOk, Without;
    if key in s.deletions {
      if d.Removed? { RowDone(s, key); }
      if d == Raised(true) { BlobLost(s, key); }
    }
  }

  lemma QueueKeeps(s: State, occupancy: nat)
    requires BlobsOk(s)
    ensures BlobsOk(Queue(s, occupancy))
  {
    var t := Queue(s, occupancy);
    if occupancy in s.photos {
      var last := s.photos[occupancy].key;
      forall key ensures Referenced(t, key) <==> Referenced(s, key) {
        if key == last { assert t.deletions[|s.deletions|] == key; }
        if o :| o in s.photos && s.photos[o].key == key && o != occupancy { assert t.photos[o].key == key; }
      }
    }
  }

  lemma DropKeepsBlobs(s: State, occupancy: nat, d: Deletion)
    requires BlobsOk(s)
    ensures BlobsOk(Drop(s, occupancy, d)) && Drop(s, occupancy, d).photos == s.photos - {occupancy}
    ensures Drop(s, occupancy, d).enrollments == s.enrollments && Drop(s, occupancy, d).now == s.now
  {
    hide BlobsOk, Without;
    QueueKeeps(s, occupancy);
    if occupancy in s.photos { TryKeyKeeps(Queue(s, occupancy), s.photos[occupancy].key, d); }
  }

  lemma SubmitKeeps(s: State, o: nat, key: nat, ttl: nat, committed: bool, cleaned: bool, d: Deletion)
    requires Inv(s)
    ensures Inv(Submit(s, o, key, ttl, committed, cleaned, d))
  {
    if key !in s.used && !committed {
      assert s.blobs + {key} - {key} == s.blobs;
      StrayBlob(s, Submit(s, o, key, ttl, committed, cleaned, d), key);
    } else if key !in s.used {
      CommittedSubmitKeeps(s, o, key, ttl, cleaned, d);
    }
  }

  /** The old photo is queued and the new one stands in its place. */
  function Swapped(s: State, o: nat, photo: Photo): State {
    var t := Queue(s, o);
    t.(enrollments := t.enrollments[o := Enrollment(Pending, true)], photos := t.photos[o := photo],
       blobs := t.blobs + {photo.key}, used := t.used + {photo.key})
  }

  lemma CommittedSubmitKeeps(s: State, o: nat, key: nat, ttl: nat, cleaned: bool, d: Deletion)
    requires Inv(s) && key !in s.used
    ensures Inv(Submit(s, o, key, ttl, true, cleaned, d))
  {
    var photo := Photo(key, s.now + ttl);
    var u := Swapped(s, o, photo);
    SwappedKeeps(s, o, photo);
    SubmitSwaps(s, o, key, ttl, cleaned, d);
    hide Inv, Referenced, TryKey, Submit;
    if o in s.photos {
      RowsKept(u, s.photos[o].key, d);
      PhotoRefers(TryKey(u, s.photos[o].key, d), o);
      RowLost(TryKey(u, s.photos[o].key, d), key);
    }
  }

  lemma SubmitSwaps(s: State, o: nat, key: nat, ttl: nat, cleaned: bool, d: Deletion)
    requires key !in s.used
    ensures var u := Swapped(s, o, Photo(key, s.now + ttl));
            Submit(s, o, key, ttl, true, cleaned, d)
            == if o !in s.photos then u
               else var v := TryKey(u, s.photos[o].key, d);
                    if d.Raised? && cleaned then v.(blobs := v.blobs - {key}, missing := v.missing + {key}) else v
  {
    hide TryKey;
  }

  lemma RowsKept(s: State, key: nat, d: Deletion)
    requires Inv(s)
    ensures Inv(TryKey(s, key, d)) && TryKey(s, key, d).photos == s.photos
    ensures TryKey(s, key, d).enrollments == s.enrollments && TryKey(s, key, d).now == s.now
  {
    hide BlobsOk, Without;
    TryKeyKeeps(s, key, d);
  }

  lemma RowLost(s: State, key: nat)
    requires Inv(s) && Referenced(s, key)
    ensures Inv(s.(blobs := s.blobs - {key}, missing := s.missing + {key}))
  {
    hide BlobsOk, Referenced;
    BlobLost(s, key);
  }

  lemma PhotoRefers(s: State, o: nat)
    requires o in s.photos
    ensures Referenced(s, s.photos[o].key)
  {
  }

  lemma SwappedKeeps(s: State, o: nat, photo: Photo)
    requires Inv(s) && photo.key !in s.used
    ensures Inv(Swapped(s, o, photo)) && o in Swapped(s, o, photo).photos && Swapped(s, o, photo).photos[o] == photo
  {
    QueueKeeps(s, o);
    hide BlobsOk, Referenced, PhotosApart;
    assert BlobsOk(Queue(s, o));
    NewPhoto(Queue(s, o), Swapped(s, o, photo), o, photo);
  }

  /** A failed submission leaves nothing behind, or one orphan. */
  lemma StrayBlob(s: State, t: State, key: nat)
    requires Inv(s) && key !in s.used
    requires t == s.(used := s.used + {key}) || t == s.(blobs := s.blobs + {key}, used := s.used + {key}, orphans := s.orphans + {key})
    ensures Inv(t)
  {
    assert !Referenced(s, key) && key !in s.orphans && key !in s.missing;
    forall k ensures k in t.blobs <==> (Referenced(t, k) && k !in t.missing) || k in t.orphans {
      assert Referenced(t, k) <==> Referenced(s, k);
    }
  }

  lemma NewPhoto(s: State, t: State, o: nat, photo: Photo)
    requires BlobsOk(s) && o !in s.photos && photo.key !in s.used
    requires t == s.(photos := s.photos[o := photo], enrollments := t.enrollments, blobs := s.blobs + {photo.key}, used := s.used + {photo.key})
    ensures BlobsOk(t)
  {
    assert !Referenced(s, photo.key) && photo.key !in s.orphans && photo.key !in s.missing;
    forall k ensures k in t.blobs <==> (Referenced(t, k) && k !in t.missing) || k in t.orphans {
      if k == photo.key {
        assert o in t.photos && t.photos[o].key == k;
      } else {
        if p :| p in s.photos && s.photos[p].key == k { assert t.photos[p].key == k; }
      }
      assert k in s.blobs <==> (Referenced(s, k) && k !in s.missing) || k in s.orphans;
    }
  }

  lemma ApproveKeeps(s: State, o: nat, d: Deletion)
    requires Inv(s) && Approve(s, o, d).Some?
    ensures Inv(Approve(s, o, d).value)
  {
    DropKeepsBlobs(s.(enrollments := s.enrollments[o := s.enrollments[o].(status := Approved)]), o, d);
  }

  lemma CloseKeeps(s: State, o: nat, d: Deletion)
    requires Inv(s) && o in s.enrollments
    ensures Inv(Close(s, o, d))
  {
    DropKeepsBlobs(s.(enrollments := s.enrollments[o := Enrollment(Rejected, false)]), o, d);
  }

  lemma ResidentRevokeKeeps(s: State, o: nat, d: Deletion)
    requires Inv(s)
    ensures Inv(ResidentRevoke(s, o, d))
  {
    DropKeepsBlobs(s, o, d);
  }

  /** A photo that expires goes, and its enrolment expires without a vector. */
  lemma ExpireKeeps(s: State, o: nat, outcome: nat -> Deletion)
    requires Inv(s)
    ensures var t := ExpireOne(s, o, outcome).state;
            && Inv(t) && t.now == s.now && t.photos == s.photos - {o}
            && t.enrollments == (if o in s.photos then s.enrollments[o := Enrollment(Expired, false)] else s.enrollments)
  {
    if o in s.photos {
      var u := s.(enrollments := s.enrollments[o := Enrollment(Expired, false)]);
      assert BlobsOk(u) by { SameBlobs(s, u); }
      DropKeepsBlobs(u, o, outcome(s.photos[o].key));
    } else {
      assert s.photos == s.photos - {o};
    }
  }

  lemma SameBlobs(s: State, t: State)
    requires BlobsOk(s) && t == s.(enrollments := t.enrollments, now := t.now)
    ensures BlobsOk(t)
  {
    forall k ensures Referenced(t, k) <==> Referenced(s, k) { }
  }

  /** Work on expired photos takes a prefix of them: all, unless something raised before the last. */
  lemma {:induction false} ExpireAllKeeps(s: State, order: seq<nat>, outcome: nat -> Deletion)
    requires Inv(s)
    ensures var t := ExpireAll(s, order, outcome).state;
            && Inv(t) && t.now == s.now
            && (forall p :: p in t.photos ==> p in s.photos && t.photos[p] == s.photos[p])
            && (forall p :: p in s.photos && p !in order ==> p in t.photos)
            && (forall p :: p in s.photos && p !in t.photos ==> p in t.enrollments && t.enrollments[p] == Enrollment(Expired, false))
  {
    if order != [] {
      var n := |order| - 1;
      ExpireAllKeeps(s, order[..n], outcome);
      assert order == order[..n] + [order[n]];
      hide Inv, ExpireOne;
      ExpireKeeps(ExpireAll(s, order[..n], outcome).state, order[n], outcome);
    }
  }

  lemma {:induction false} ProcessKeeps(s: State, keys: seq<nat>, outcome: nat -> Deletion)
    requires Inv(s)
    ensures Inv(ProcessKeys(s, keys, outcome).state)
    ensures ProcessKeys(s, keys, outcome).state.photos == s.photos && ProcessKeys(s, keys, outcome).state.now == s.now
    ensures ProcessKeys(s, keys, outcome).state.enrollments == s.enrollments
  {
    if keys != [] {
      var n := |keys| - 1;
      ProcessKeeps(s, keys[..n], outcome);
      var w := ProcessKeys(s, keys[..n], outcome);
      hide Inv, TryKey;
      RowsKept(w.state, keys[n], outcome(keys[n]));
    }
  }

  lemma StepKeeps(s: State, step: Step)
    requires Inv(s)
    ensures Inv(Next(s, step))
  {
    hide Inv;
    match step {
      case Tick(elapsed) => TickKeeps(s, elapsed);
      case SubmitStep(o, key, ttl, committed, cleaned, d) => SubmitKeeps(s, o, key, ttl, committed, cleaned, d);
      case ApproveStep(o, d) => if Approve(s, o, d).Some? { ApproveKeeps(s, o, d); }
      case RejectStep(o, note, d) => if Reject(s, o, note, d).Some? { CloseKeeps(s, o, d); }
      case RevokeStep(o, d) => if o in s.enrollments { CloseKeeps(s, o, d); }
      case ResidentRevokeStep(o, d) => ResidentRevokeKeeps(s, o, d);
      case PurgeStep(order, dropping, processing) =>
        var t := ExpireAll(s, order, dropping).state;
        ExpireAllKeeps(s, order, dropping);
        ProcessKeeps(t, t.deletions, processing);
      case ProcessStep(outcome) => ProcessKeeps(s, s.deletions, outcome);
    }
  }

  lemma TickKeeps(s: State, elapsed: nat)
    requires Inv(s)
    ensures Inv(s.(now := s.now + elapsed))
  {
    SameBlobs(s, s.(now := s.now + elapsed));
  }

  lemma {:induction false} RunKeeps(steps: seq<Step>)
    ensures Inv(Run(INITIAL, steps))
  {
    if steps != [] {
      RunKeeps(steps[..|steps| - 1]);
      StepKeeps(Run(INITIAL, steps[..|steps| - 1]), steps[|steps| - 1]);
    }
  }

  // ---------------------------------------------------------------- what every run keeps

  /** An enrolment has a review photo exactly while it is pending. */
  lemma PhotoIffPending(steps: seq<Step>, o: nat)
    ensures var s := Run(INITIAL, steps); o in s.photos <==> o in s.enrollments && s.enrollments[o].status == Pending
  {
    RunKeeps(steps);
  }

  /** How many pending photos and queued deletions refer to a blob. */
  ghost function References(s: State, key: nat): nat {
    |set o | o in s.photos && s.photos[o].key == key| + multiset(s.deletions)[key]
  }

  lemma {:induction false} QueuedOnce(deletions: seq<nat>, key: nat)
    requires forall i, j :: 0 <= i < j < |deletions| ==> deletions[i] != deletions[j]
    ensures multiset(deletions)[key] == if key in deletions then 1 else 0
  {
    if deletions != [] {
      var n := |deletions| - 1;
      QueuedOnce(deletions[..n], key);
      assert deletions == deletions[..n] + [deletions[n]];
      assert deletions[n] !in deletions[..n];
    }
  }

  lemma PhotoOnce(s: State, key: nat)
    requires PhotosApart(s)
    ensures var holders := set o | o in s.photos && s.photos[o].key == key;
            |holders| == if exists o :: o in s.photos && s.photos[o].key == key then 1 else 0
  {
    var holders := set o | o in s.photos && s.photos[o].key == key;
    if o :| o in s.photos && s.photos[o].key == key { assert holders == {o}; }
  }

  /**
   Nothing is referenced twice, and a blob is stored exactly if it is referenced, by a pending photo or by a queued deletion,
   and not missing. The orphans alone, blobs of submissions whose transaction and whose clean-up both failed, are stored
   without a reference.
   */
  lemma BlobsReferencedOnce(steps: seq<Step>, key: nat)
    ensures var s := Run(INITIAL, steps);
            && References(s, key) <= 1
            && (key in s.blobs <==> (References(s, key) == 1 && key !in s.missing) || key in s.orphans)
            && (key in s.orphans ==> References(s, key) == 0)
  {
    RunKeeps(steps);
    var s := Run(INITIAL, steps);
    QueuedOnce(s.deletions, key);
    PhotoOnce(s, key);
    assert key in s.blobs <==> (Referenced(s, key) && key !in s.missing) || key in s.orphans;
  }

  ghost predicate LosesBlob(s: State, step: Step) {
    step.SubmitStep? && !step.committed && !step.cleaned && step.key !in s.used
  }

  /** There is an orphan exactly when some submission lost its blob that way. */
  lemma {:induction false} OrphansExactly(steps: seq<Step>)
    ensures Run(INITIAL, steps).orphans == {} <==> forall k :: 0 <= k < |steps| ==> !LosesBlob(Run(INITIAL, steps[..k]), steps[k])
  {
    hide Next, LosesBlob;
    if steps != [] {
      var n := |steps| - 1;
      var s := Run(INITIAL, steps[..n]);
      OrphansExactly(steps[..n]);
      OrphanStep(s, steps[n]);
      forall k | 0 <= k < n ensures steps[..n][..k] == steps[..k] && steps[..n][k] == steps[k] { }
    }
  }

  lemma OrphanStep(s: State, step: Step)
    ensures Next(s, step).orphans == s.orphans + if LosesBlob(s, step) then {step.key} else {}
  {
    if step.PurgeStep? {
      var t := ExpireAll(s, step.order, step.dropping).state;
      ExpireAllOrphans(s, step.order, step.dropping);
      ProcessOrphans(t, t.deletions, step.processing);
    }
    if step.ProcessStep? { ProcessOrphans(s, s.deletions, step.outcome); }
  }

  lemma {:induction false} ExpireAllOrphans(s: State, order: seq<nat>, outcome: nat -> Deletion)
    ensures ExpireAll(s, order, outcome).state.orphans == s.orphans
  {
    if order != [] { ExpireAllOrphans(s, order[..|order| - 1], outcome); }
  }

  lemma {:induction false} ProcessOrphans(s: State, keys: seq<nat>, outcome: nat -> Deletion)
    ensures ProcessKeys(s, keys, outcome).state.orphans == s.orphans
  {
    if keys != [] { ProcessOrphans(s, keys[..|keys| - 1], outcome); }
  }

  /** The work on these keys reaches one of them and raises after its blob went. */
  ghost predicate GoneAt(keys: seq<nat>, outcome: nat -> Deletion, key: nat) {
    exists i :: 0 <= i < |keys| && keys[i] == key && outcome(key) == Raised(true) && NoneRaised(keys[..i], outcome)
  }

  ghost predicate NoneRaised(keys: seq<nat>, outcome: nat -> Deletion) {
    forall i :: 0 <= i < |keys| ==> !outcome(keys[i]).Raised?
  }

  /** A photo dropped after the commit loses its blob and keeps its row. */
  ghost predicate GoneWithPhoto(s: State, o: nat, d: Deletion, key: nat) {
    o in s.photos && key == s.photos[o].key && d == Raised(true)
  }

  function KeysOf(s: State, order: seq<nat>): (keys: seq<nat>)
    requires forall i :: 0 <= i < |order| ==> order[i] in s.photos
    ensures |keys| == |order| && forall i :: 0 <= i < |order| ==> keys[i] == s.photos[order[i]].key
  {
    seq(|order|, i requires 0 <= i < |order| => s.photos[order[i]].key)
  }

  /**
   The step removes this blob while its row stays: a deletion raised in between, or a resubmission's deletion of the
   old photo raised after the commit and the clean-up removed the new blob.
   */
  ghost predicate StrandsRow(s: State, step: Step, key: nat) {
    match step
    case Tick(elapsed) => false
    case SubmitStep(o, added, ttl, committed, cleaned, d) =>
      added !in s.used && committed && (GoneWithPhoto(s, o, d, key) || (key == added && o in s.photos && d.Raised? && cleaned))
    case ApproveStep(o, d) => Approve(s, o, d).Some? && GoneWithPhoto(s, o, d, key)
    case RejectStep(o, note, d) => Reject(s, o, note, d).Some? && GoneWithPhoto(s, o, d, key)
    case RevokeStep(o, d) => o in s.enrollments && GoneWithPhoto(s, o, d, key)
    case ResidentRevokeStep(o, d) => o in s.enrollments && GoneWithPhoto(s, o, d, key)
    case PurgeStep(order, dropping, processing) =>
      && ListsOverdue(s, order)
      && (GoneAt(KeysOf(s, order), dropping, key)
          || (NoneRaised(KeysOf(s, order), dropping) && GoneAt(ExpireAll(s, order, dropping).state.deletions, processing, key)))
    case ProcessStep(outcome) => GoneAt(s.deletions, outcome, key)
  }

  lemma DropMisses(s: State, o: nat, d: Deletion, key: nat)
    ensures key in Drop(s, o, d).missing <==> key in s.missing || GoneWithPhoto(s, o, d, key)
  {
    hide Without;
    if o in s.photos { assert Queue(s, o).deletions[|s.deletions|] == s.photos[o].key; }
  }

  lemma SubmitMisses(s: State, o: nat, added: nat, ttl: nat, committed: bool, cleaned: bool, d: Deletion, key: nat)
    ensures key in Submit(s, o, added, ttl, committed, cleaned, d).missing
       <==> key in s.missing || StrandsRow(s, SubmitStep(o, added, ttl, committed, cleaned, d), key)
  {
    hide Without;
    if o in s.photos { assert Queue(s, o).deletions[|s.deletions|] == s.photos[o].key; }
  }

  /** One key more, in either kind of work. */
  lemma GoneAtNext(keys: seq<nat>, outcome: nat -> Deletion, key: nat)
    requires keys != []
    ensures var n := |keys| - 1;
            && (GoneAt(keys, outcome, key)
                <==> GoneAt(keys[..n], outcome, key) || (keys[n] == key && outcome(key) == Raised(true) && NoneRaised(keys[..n], outcome)))
            && (NoneRaised(keys, outcome) <==> NoneRaised(keys[..n], outcome) && !outcome(keys[n]).Raised?)
  {
    var n := |keys| - 1;
    forall i | 0 <= i < n ensures keys[..n][..i] == keys[..i] && keys[..n][i] == keys[i] { }
    if GoneAt(keys[..n], outcome, key) {
      var i :| 0 <= i < n && keys[..n][i] == key && outcome(key) == Raised(true) && NoneRaised(keys[..n][..i], outcome);
      assert keys[i] == key && NoneRaised(keys[..i], outcome);
    }
    if GoneAt(keys, outcome, key) {
      var i :| 0 <= i <= n && keys[i] == key && outcome(key) == Raised(true) && NoneRaised(keys[..i], outcome);
      if i < n { assert keys[..n][i] == key && NoneRaised(keys[..n][..i], outcome); }
    }
  }

  ghost predicate Distinct(keys: seq<nat>) { forall i, j :: 0 <= i < j < |keys| ==> keys[i] != keys[j] }

  lemma Shorter(keys: seq<nat>)
    requires keys != [] && Distinct(keys)
    ensures Distinct(keys[..|keys| - 1]) && keys[|keys| - 1] !in keys[..|keys| - 1]
    ensures forall k :: k in keys <==> k in keys[..|keys| - 1] || k == keys[|keys| - 1]
  {
    assert keys == keys[..|keys| - 1] + [keys[|keys| - 1]];
  }

  /** Rows not worked on stay. */
  lemma {:induction false} ProcessLeaves(s: State, keys: seq<nat>, outcome: nat -> Deletion)
    requires Distinct(s.deletions)
    ensures Distinct(ProcessKeys(s, keys, outcome).state.deletions)
    ensures forall k :: k in s.deletions && k !in keys ==> k in ProcessKeys(s, keys, outcome).state.deletions
  {
    if keys != [] {
      var n := |keys| - 1;
      ProcessLeaves(s, keys[..n], outcome);
      WithoutAre(ProcessKeys(s, keys[..n], outcome).state.deletions, keys[n]);
      hide Without;
      assert keys == keys[..n] + [keys[n]];
    }
  }

  lemma {:induction false} ProcessMisses(s: State, keys: seq<nat>, outcome: nat -> Deletion, key: nat)
    requires Distinct(keys) && (forall k :: k in keys ==> k in s.deletions) && Distinct(s.deletions)
    ensures var w := ProcessKeys(s, keys, outcome);
            && (w.stopped <==> !NoneRaised(keys, outcome))
            && (key in w.state.missing <==> key in s.missing || GoneAt(keys, outcome, key))
  {
    hide Distinct, GoneAt, NoneRaised, Without;
    if keys == [] {
      NothingYet(outcome, key);
    } else {
      Shorter(keys);
      ProcessMisses(s, keys[..|keys| - 1], outcome, key);
      ProcessLeaves(s, keys[..|keys| - 1], outcome);
      GoneAtNext(keys, outcome, key);
    }
  }

  lemma NothingYet(outcome: nat -> Deletion, key: nat)
    ensures NoneRaised([], outcome) && !GoneAt([], outcome, key)
  {
  }

  lemma ExpireOneMisses(s: State, o: nat, outcome: nat -> Deletion, key: nat)
    requires Inv(s) && o in s.photos
    ensures var w, d := ExpireOne(s, o, outcome), outcome(s.photos[o].key);
            && w.stopped == d.Raised?
            && (key in w.state.missing <==> key in s.missing || (key == s.photos[o].key && d == Raised(true)))
  {
    hide Drop, BlobsOk;
    DropMisses(s.(enrollments := s.enrollments[o := Enrollment(Expired, false)]), o, outcome(s.photos[o].key), key);
  }

  lemma {:induction false} ExpireMisses(s: State, order: seq<nat>, outcome: nat -> Deletion, key: nat)
    requires Inv(s) && (forall i :: 0 <= i < |order| ==> order[i] in s.photos) && Distinct(order)
    ensures var w := ExpireAll(s, order, outcome);
            && (w.stopped <==> !NoneRaised(KeysOf(s, order), outcome))
            && (key in w.state.missing <==> key in s.missing || GoneAt(KeysOf(s, order), outcome, key))
  {
    hide Inv, Distinct, GoneAt, NoneRaised, ExpireOne, KeysOf;
    if order == [] {
      assert KeysOf(s, order) == [];
      NothingYet(outcome, key);
    } else {
      var n := |order| - 1;
      var w := ExpireAll(s, order[..n], outcome);
      Shorter(order);
      ExpireMisses(s, order[..n], outcome, key);
      ExpireAllKeeps(s, order[..n], outcome);
      assert KeysOf(s, order)[..n] == KeysOf(s, order[..n]);
      GoneAtNext(KeysOf(s, order), outcome, key);
      assert order[n] in w.state.photos && w.state.photos[order[n]] == s.photos[order[n]];
      ExpireOneMisses(w.state, order[n], outcome, key);
    }
  }

  lemma PurgeMisses(s: State, order: seq<nat>, dropping: nat -> Deletion, processing: nat -> Deletion, key: nat)
    requires Inv(s) && ListsOverdue(s, order)
    ensures key in Purge(s, order, dropping, processing).state.missing
       <==> key in s.missing || StrandsRow(s, PurgeStep(order, dropping, processing), key)
  {
    assert forall i :: 0 <= i < |order| ==> Overdue(s, order[i]);
    var t := ExpireAll(s, order, dropping).state;
    ExpireMisses(s, order, dropping, key);
    ExpireAllKeeps(s, order, dropping);
    ProcessMisses(t, t.deletions, processing, key);
  }

  lemma StepMisses(s: State, step: Step, key: nat)
    requires Inv(s)
    ensures key in Next(s, step).missing <==> key in s.missing || StrandsRow(s, step, key)
  {
    hide Drop, Submit, Purge, ProcessKeys, ExpireAll, GoneAt, NoneRaised, GoneWithPhoto, References;
    match step {
      case Tick(elapsed) =>
      case SubmitStep(o, added, ttl, committed, cleaned, d) => SubmitMisses(s, o, added, ttl, committed, cleaned, d, key);
      case ApproveStep(o, d) =>
        if Approve(s, o, d).Some? {
          DropMisses(s.(enrollments := s.enrollments[o := s.enrollments[o].(status := Approved)]), o, d, key);
          SamePhoto(s, s.(enrollments := s.enrollments[o := s.enrollments[o].(status := Approved)]), o, d, key);
        }
      case RejectStep(o, note, d) => ClosingMisses(s, o, d, key);
      case RevokeStep(o, d) => ClosingMisses(s, o, d, key);
      case ResidentRevokeStep(o, d) => DropMisses(s, o, d, key);
      case PurgeStep(order, dropping, processing) => if ListsOverdue(s, order) { PurgeMisses(s, order, dropping, processing, key); }
      case ProcessStep(outcome) => ProcessMisses(s, s.deletions, outcome, key);
    }
  }

  lemma SamePhoto(s: State, t: State, o: nat, d: Deletion, key: nat)
    requires t.photos == s.photos
    ensures GoneWithPhoto(t, o, d, key) <==> GoneWithPhoto(s, o, d, key)
  {
  }

  lemma ClosingMisses(s: State, o: nat, d: Deletion, key: nat)
    requires Inv(s)
    ensures o in s.enrollments ==> (key in Close(s, o, d).missing <==> key in s.missing || GoneWithPhoto(s, o, d, key))
  {
    hide Drop;
    if o in s.enrollments { DropMisses(s.(enrollments := s.enrollments[o := Enrollment(Rejected, false)]), o, d, key); }
  }

  ghost predicate StrandedAt(steps: seq<Step>, k: nat, key: nat) {
    k < |steps| && StrandsRow(Run(INITIAL, steps[..k]), steps[k], key)
  }

  lemma EarlierStranded(init: seq<Step>, step: Step, key: nat)
    ensures (exists k: nat :: StrandedAt(init + [step], k, key))
       <==> (exists k: nat :: StrandedAt(init, k, key)) || StrandsRow(Run(INITIAL, init), step, key)
  {
    hide Run, StrandsRow;
    var steps := init + [step];
    assert steps[..|init|] == init;
    forall k: nat | k < |init| ensures StrandedAt(steps, k, key) <==> StrandedAt(init, k, key) { assert init[..k] == steps[..k]; }
    if StrandsRow(Run(INITIAL, init), step, key) { assert StrandedAt(steps, |init|, key); }
    if k: nat :| StrandedAt(init, k, key) { assert StrandedAt(steps, k, key); }
    if k: nat :| StrandedAt(steps, k, key) { assert k < |init| ==> StrandedAt(init, k, key); }
  }

  /** A key is missing exactly when some step removed its blob while its row stood. */
  lemma {:induction false} MissingExactly(steps: seq<Step>, key: nat)
    ensures key in Run(INITIAL, steps).missing <==> exists k: nat :: StrandedAt(steps, k, key)
  {
    hide Next, StrandsRow, Inv;
    if steps != [] {
      var init, last := steps[..|steps| - 1], steps[|steps| - 1];
      MissingExactly(init, key);
      RunKeeps(init);
      StepMisses(Run(INITIAL, init), last, key);
      EarlierStranded(init, last, key);
      assert init + [last] == steps;
    }
  }

  // ---------------------------------------------------------------- what a review does

  /** The photo of an occupancy is gone, and nothing else about photos has changed. */
  ghost predicate OnlyPhotoGone(s: State, t: State, o: nat) { t.photos == s.photos - {o} && t.now == s.now }

  /** In every run a face can be approved exactly while its review photo is there; it is then approved, and the photo goes. */
  lemma ApprovesExactly(steps: seq<Step>, o: nat, d: Deletion)
    ensures var s := Run(INITIAL, steps);
            && (Approve(s, o, d).Some? <==> o in s.photos)
            && (o in s.photos ==>
                  var t := Approve(s, o, d).value;
                  t.enrollments == s.enrollments[o := Enrollment(Approved, true)] && OnlyPhotoGone(s, t, o))
  {
    RunKeeps(steps);
    var s := Run(INITIAL, steps);
    hide Run, BlobsOk;
    if o in s.photos {
      DropLeaves(s.(enrollments := s.enrollments[o := s.enrollments[o].(status := Approved)]), o, d);
      hide Drop;
    }
  }

  lemma DropLeaves(s: State, o: nat, d: Deletion)
    ensures var t := Drop(s, o, d); t.enrollments == s.enrollments && t.photos == s.photos - {o} && t.now == s.now
  {
    hide Without;
    if o !in s.photos { assert s.photos == s.photos - {o}; }
  }

  /** A face can be rejected exactly if it is pending or approved and the note says something; its vector and its photo go. */
  lemma RejectsExactly(s: State, o: nat, note: Option<string>, d: Deletion)
    ensures Reject(s, o, note, d).Some? <==>
            && note.Some? && (exists i :: 0 <= i < |note.value| && !Texts.IsSpace(note.value[i]))
            && o in s.enrollments && (s.enrollments[o].status == Pending || s.enrollments[o].status == Approved)
    ensures Reject(s, o, note, d).Some? ==>
            var t := Reject(s, o, note, d).value;
            t.enrollments == s.enrollments[o := Enrollment(Rejected, false)] && OnlyPhotoGone(s, t, o)
  {
    if o in s.enrollments { DropLeaves(s.(enrollments := s.enrollments[o := Enrollment(Rejected, false)]), o, d); }
    hide Drop, Texts.IsSpace;
  }

  /**
   A committed submission leaves the enrolment pending with its vector and, in place of any earlier one, a photo under the new key that
   expires after its time; one that is not committed leaves enrolments and photos as they are. A resident's revocation removes both.
   */
  lemma SubmitsAndRevokes(s: State, o: nat, key: nat, ttl: nat, committed: bool, cleaned: bool, d: Deletion)
    requires key !in s.used
    ensures var t := Submit(s, o, key, ttl, committed, cleaned, d);
            && t.now == s.now
            && t.enrollments == (if committed then s.enrollments[o := Enrollment(Pending, true)] else s.enrollments)
            && t.photos == (if committed then s.photos[o := Photo(key, s.now + ttl)] else s.photos)
    ensures var t := ResidentRevoke(s, o, d);
            t.now == s.now && t.enrollments == s.enrollments - {o} && t.photos == (if o in s.enrollments then s.photos - {o} else s.photos)
  {
    hide Without;
    DropLeaves(s, o, d);
    if o in s.photos { assert s.photos - {o} + map[o := Photo(key, s.now + ttl)] == s.photos[o := Photo(key, s.now + ttl)]; }
  }

  /** A face that can match (approved, vector present) was approved in front of its review photo. */
  ghost predicate Matchable(s: State, o: nat) {
    o in s.enrollments && s.enrollments[o].status == Approved && s.enrollments[o].embedded
  }

  lemma BecomesMatchable(s: State, step: Step, o: nat)
    requires Matchable(Next(s, step), o) && !Matchable(s, o)
    ensures step.ApproveStep? && step.occupancy == o && o in s.photos
  {
    if step.PurgeStep? {
      var t := ExpireAll(s, step.order, step.dropping).state;
      ExpireAllApproves(s, step.order, step.dropping, o);
      ProcessLeavesRows(t, t.deletions, step.processing);
    }
    if step.ProcessStep? { ProcessLeavesRows(s, s.deletions, step.outcome); }
  }

  lemma {:induction false} ExpireAllApproves(s: State, order: seq<nat>, outcome: nat -> Deletion, o: nat)
    ensures Matchable(ExpireAll(s, order, outcome).state, o) ==> Matchable(s, o)
  {
    if order != [] { ExpireAllApproves(s, order[..|order| - 1], outcome, o); }
  }

  lemma {:induction false} ProcessLeavesRows(s: State, keys: seq<nat>, outcome: nat -> Deletion)
    ensures ProcessKeys(s, keys, outcome).state.enrollments == s.enrollments
  {
    if keys != [] { ProcessLeavesRows(s, keys[..|keys| - 1], outcome); }
  }

  lemma {:induction false} MatchableWasReviewed(steps: seq<Step>, o: nat) returns (k: nat)
    requires Matchable(Run(INITIAL, steps), o)
    ensures k < |steps| && steps[k].ApproveStep? && steps[k].occupancy == o
    ensures o in Run(INITIAL, steps[..k]).photos
  {
    var n := |steps| - 1;
    if Matchable(Run(INITIAL, steps[..n]), o) {
      k := MatchableWasReviewed(steps[..n], o);
      assert steps[..n][..k] == steps[..k];
    } else {
      BecomesMatchable(Run(INITIAL, steps[..n]), steps[n], o);
      k := n;
    }
  }

  /** The deletion of a listed photo other than the last raises. */
  predicate RaisesBeforeLast(s: State, order: seq<nat>, outcome: nat -> Deletion) {
    exists i :: 0 <= i < |order| - 1 && RaisesFor(s, order[i], outcome)
  }

  predicate RaisesFor(s: State, o: nat, outcome: nat -> Deletion) { o in s.photos && outcome(s.photos[o].key).Raised? }

  lemma {:induction false} ExpiresPrefix(s: State, order: seq<nat>, outcome: nat -> Deletion)
    requires Inv(s) && (forall i :: 0 <= i < |order| ==> order[i] in s.photos)
    requires forall i, j :: 0 <= i < j < |order| ==> order[i] != order[j]
    ensures var w := ExpireAll(s, order, outcome);
            && (w.stopped <==> exists i :: 0 <= i < |order| && RaisesFor(s, order[i], outcome))
            && ((forall i :: 0 <= i < |order| ==> order[i] !in w.state.photos) <==> !RaisesBeforeLast(s, order, outcome))
  {
    if order != [] {
      var n := |order| - 1;
      var w := ExpireAll(s, order[..n], outcome);
      ExpiresPrefix(s, order[..n], outcome);
      ExpireAllKeeps(s, order[..n], outcome);
      assert order == order[..n] + [order[n]];
      assert order[n] !in order[..n] && order[n] in w.state.photos;
      assert forall i :: 0 <= i < n ==> order[..n][i] == order[i];
      if !w.stopped { ExpireKeeps(w.state, order[n], outcome); }
    }
  }

  /**
   After a purge no photo is past its time, exactly if no deletion raised before the last of them was reached; and
   every enrolment whose photo it took has expired without a vector.
   */
  lemma PurgeLeavesNoneOverdue(steps: seq<Step>, order: seq<nat>, dropping: nat -> Deletion, processing: nat -> Deletion)
    requires ListsOverdue(Run(INITIAL, steps), order)
    ensures var s := Run(INITIAL, steps);
            var t := Next(s, PurgeStep(order, dropping, processing));
            && ((forall o :: o in t.photos ==> t.photos[o].expiresAt > t.now) <==> !RaisesBeforeLast(s, order, dropping))
            && (forall o :: o in s.photos && o !in t.photos ==> o in t.enrollments && t.enrollments[o] == Enrollment(Expired, false))
            && (forall o :: o in s.photos && !Overdue(s, o) ==> o in t.photos)
  {
    hide Run;
    RunKeeps(steps);
    var s := Run(INITIAL, steps);
    var u := ExpireAll(s, order, dropping).state;
    ExpireAllKeeps(s, order, dropping);
    ExpiresPrefix(s, order, dropping);
    ProcessKeeps(u, u.deletions, processing);
    var t := Purge(s, order, dropping, processing).state;
    hide Inv, RaisesBeforeLast, ExpireAll, ProcessKeys;
    assert t.photos == u.photos && t.now == s.now && t.enrollments == u.enrollments;
    assert forall i :: 0 <= i < |order| ==> Overdue(s, order[i]);
    forall o | o in t.photos && o !in order ensures t.photos[o].expiresAt > t.now { assert !Overdue(s, o); }
  }
}
