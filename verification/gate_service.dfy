/** The gate services as they run, over mutable tables and a blob store. */
module GateService {
  import opened Wrappers
  import opened Gate
  import Texts

  datatype Error = ReviewNotPossible | DeletionRaised

  class GateDatabase {
    var now: int
    var enrollments: map<nat, Enrollment>
    var photos: map<nat, Photo>
    var deletions: seq<nat>
    var blobs: set<nat>
    var used: set<nat>
    var orphans: set<nat>
    var missing: set<nat>

    constructor ()
      ensures View() == INITIAL
    {
      now, enrollments, photos, deletions := 0, map[], map[], [];
      blobs, used, orphans, missing := {}, {}, {}, {};
    }

    function View(): State
      reads this
    {
      State(now, enrollments, photos, deletions, blobs, used, orphans, missing)
    }

    /** Queue the deletion and drop the row. */
    method QueuePhotoDeletion(occupancy: nat) returns (key: nat)
      requires occupancy in photos
      modifies this`photos, this`deletions
      ensures View() == Queue(old(View()), occupancy) && key == old(photos[occupancy].key)
    {
      key := photos[occupancy].key;
      deletions := deletions + [key];
      photos := photos - {occupancy};
    }

    /** The row is read again, the blob goes, then the row; a storage error leaves the row to the next attempt. */
    method ProcessPhotoDeletion(key: nat, d: Deletion) returns (r: Result<bool, Error>)
      modifies this`deletions, this`blobs, this`missing
      ensures View() == TryKey(old(View()), key, d)
      ensures r.Err? <==> key in old(deletions) && d.Raised?
      ensures r.Ok? ==> (r.value <==> key !in old(deletions) || d.Removed?)
    {
      if key !in deletions { return Ok(true); }
      if d.Refused? { return Ok(false); }
      if d == Raised(false) { return Err(DeletionRaised); }
      blobs := blobs - {key};
      if d.Raised? {
        missing := missing + {key};
        return Err(DeletionRaised);
      }
      deletions := Without(deletions, key);
      return Ok(true);
    }

    /** After the commit, the deletion of a photo that was queued, if any. */
    method AfterCommit(queued: Option<nat>, d: Deletion) returns (r: Result<(), Error>)
      requires queued.Some? ==> queued.value in deletions
      modifies this`deletions, this`blobs, this`missing
      ensures View() == if queued.Some? then TryKey(old(View()), queued.value, d) else old(View())
      ensures r.Err? <==> queued.Some? && d.Raised?
      ensures r.Err? ==> r == Err(DeletionRaised)
    {
      if queued.Some? {
        var done := ProcessPhotoDeletion(queued.value, d);
        if done.Err? { return Err(DeletionRaised); }
      }
      return Ok(());
    }

    method SubmitFaceEnrollment(occupancy: nat, key: nat, ttl: nat, committed: bool, cleaned: bool, d: Deletion) returns (submitted: bool)
      requires key !in used
      modifies this
      ensures View() == Submit(old(View()), occupancy, key, ttl, committed, cleaned, d)
      ensures submitted <==> committed && !(occupancy in old(photos) && d.Raised?)
    {
      blobs := blobs + {key};
      used := used + {key};
      if !committed {
        if cleaned {
          blobs := blobs - {key};
        } else {
          orphans := orphans + {key};
        }
        return false;
      }
      var previous: Option<nat> := None;
      if occupancy in photos {
        var replaced := QueuePhotoDeletion(occupancy);
        previous := Some(replaced);
      }
      enrollments := enrollments[occupancy := Enrollment(Pending, true)];
      photos := photos[occupancy := Photo(key, now + ttl)];
      var done := AfterCommit(previous, d);
      if done.Err? && cleaned {
        blobs := blobs - {key};
        missing := missing + {key};
      }
      return done.Ok?;
    }

    /** The photo, if any, is queued, and its deletion tried after the commit. */
    method DropPhoto(occupancy: nat, d: Deletion) returns (r: Result<(), Error>)
      modifies this`photos, this`deletions, this`blobs, this`missing
      ensures View() == Drop(old(View()), occupancy, d)
      ensures r.Err? <==> occupancy in old(photos) && d.Raised?
      ensures r.Err? ==> r == Err(DeletionRaised)
    {
      var queued: Option<nat> := None;
      if occupancy in photos {
        var key := QueuePhotoDeletion(occupancy);
        queued := Some(key);
      }
      r := AfterCommit(queued, d);
    }

    method ApproveFace(occupancy: nat, d: Deletion) returns (r: Result<(), Error>)
      modifies this
      ensures r == Err(ReviewNotPossible) <==> Approve(old(View()), occupancy, d).None?
      ensures r == Err(DeletionRaised) <==> Approve(old(View()), occupancy, d).Some? && d.Raised?
      ensures View() == if r == Err(ReviewNotPossible) then old(View()) else Approve(old(View()), occupancy, d).value
    {
      if occupancy !in enrollments || enrollments[occupancy].status != Pending { return Err(ReviewNotPossible); }
      if !enrollments[occupancy].embedded { return Err(ReviewNotPossible); }
      if occupancy !in photos { return Err(ReviewNotPossible); }
      enrollments := enrollments[occupancy := enrollments[occupancy].(status := Approved)];
      r := DropPhoto(occupancy, d);
    }

    method CloseFace(occupancy: nat, d: Deletion) returns (r: Result<(), Error>)
      requires occupancy in enrollments
      modifies this
      ensures View() == Close(old(View()), occupancy, d)
      ensures r.Err? <==> occupancy in old(photos) && d.Raised?
      ensures r.Err? ==> r == Err(DeletionRaised)
    {
      enrollments := enrollments[occupancy := Enrollment(Rejected, false)];
      r := DropPhoto(occupancy, d);
    }

    method RejectFace(occupancy: nat, note: Option<string>, d: Deletion) returns (r: Result<(), Error>)
      modifies this
      ensures r == Err(ReviewNotPossible) <==> Reject(old(View()), occupancy, note, d).None?
      ensures View() == if r == Err(ReviewNotPossible) then old(View()) else Reject(old(View()), occupancy, note, d).value
    {
      var reason := if note.None? then "" else note.value;
      if Texts.Strip(reason) == "" { return Err(ReviewNotPossible); }
      if occupancy !in enrollments || enrollments[occupancy].status !in {Pending, Approved} { return Err(ReviewNotPossible); }
      r := CloseFace(occupancy, d);
    }

    method RevokeFaceEnrollment(occupancy: nat, d: Deletion) returns (r: Result<(), Error>)
      modifies this
      ensures View() == ResidentRevoke(old(View()), occupancy, d)
    {
      if occupancy !in enrollments { return Ok(()); }
      r := DropPhoto(occupancy, d);
      enrollments := enrollments - {occupancy};
    }

    /** One storage deletion per queued row; a row whose deletion fails stays, and an exception ends the work. */
    method ProcessPhotoDeletions(outcome: nat -> Deletion) returns (r: Result<nat, Error>)
      requires Distinct(deletions)
      modifies this`deletions, this`blobs, this`missing
      ensures View() == ProcessKeys(old(View()), old(deletions), outcome).state
      ensures r.Err? <==> ProcessKeys(old(View()), old(deletions), outcome).stopped
      ensures r.Ok? ==> r.value == |old(deletions)| - |deletions|
    {
      hide Distinct, TryKey, ProcessKeys, Without;
      ghost var before := View();
      NoKeys(before, outcome);
      var pending := deletions;
      var processed := 0;
      for i := 0 to |pending|
        invariant ProcessKeys(before, pending[..i], outcome) == Work(View(), false)
        invariant processed == |pending| - |deletions|
        invariant pending == before.deletions
      {
        NextKey(before, pending, i, outcome);
        var done := ProcessPhotoDeletion(pending[i], outcome(pending[i]));
        if done.Err? {
          Stays(before, pending, i + 1, outcome);
          return Err(DeletionRaised);
        }
        if done.value { processed := processed + 1; }
      }
      assert pending[..|pending|] == pending;
      return Ok(processed);
    }

    /** The hourly purge: one transaction per expired photo, then the whole queue. */
    method PurgeExpiredEnrollmentPhotos(order: seq<nat>, dropping: nat -> Deletion, processing: nat -> Deletion) returns (r: Result<nat, Error>)
      requires ListsOverdue(View(), order) && Inv(View())
      modifies this
      ensures View() == Next(old(View()), PurgeStep(order, dropping, processing))
      ensures r.Err? <==> Purge(old(View()), order, dropping, processing).stopped
      ensures r.Ok? ==> r.value == |order|
    {
      hide Inv, ListsOverdue, ExpireAll, Drop, ProcessKeys, Distinct;
      ghost var before := View();
      NoPhotos(before, dropping);
      for i := 0 to |order|
        invariant ExpireAll(before, order[..i], dropping) == Work(View(), false)
      {
        NextPhoto(before, order, i, dropping);
        var occupancy := order[i];
        if occupancy in photos {
          var d := dropping(photos[occupancy].key);
          if enrollments[occupancy].status == Pending {
            enrollments := enrollments[occupancy := Enrollment(Expired, false)];
          }
          var done := DropPhoto(occupancy, d);
          if done.Err? {
            StopsThere(before, order, i + 1, dropping);
            return Err(DeletionRaised);
          }
        }
      }
      assert order[..|order|] == order;
      ExpireAllKeeps(before, order, dropping);
      DeletionsDistinct(View());
      var done := ProcessPhotoDeletions(processing);
      return if done.Ok? then Ok(|order|) else Err(DeletionRaised);
    }
  }

  lemma NoKeys(s: State, outcome: nat -> Deletion)
    ensures forall keys: seq<nat> :: ProcessKeys(s, keys[..0], outcome) == Work(s, false)
  {
  }

  lemma NoPhotos(s: State, outcome: nat -> Deletion)
    ensures forall order: seq<nat> :: ExpireAll(s, order[..0], outcome) == Work(s, false)
  {
  }

  lemma DeletionsDistinct(s: State)
    requires Inv(s)
    ensures Distinct(s.deletions)
  {
  }

  /** The next row is still there, and what comes of it is what comes of the work so far and this row. */
  lemma NextKey(s: State, keys: seq<nat>, i: nat, outcome: nat -> Deletion)
    requires i < |keys| && keys == s.deletions && Distinct(keys) && !ProcessKeys(s, keys[..i], outcome).stopped
    ensures var t := ProcessKeys(s, keys[..i], outcome).state;
            && keys[i] in t.deletions
            && ProcessKeys(s, keys[..i + 1], outcome) == Work(TryKey(t, keys[i], outcome(keys[i])), outcome(keys[i]).Raised?)
            && |TryKey(t, keys[i], outcome(keys[i])).deletions| == |t.deletions| - (if outcome(keys[i]).Removed? then 1 else 0)
  {
    assert keys[..i + 1][..i] == keys[..i];
    ProcessLeaves(s, keys[..i], outcome);
    WithoutAre(ProcessKeys(s, keys[..i], outcome).state.deletions, keys[i]);
    hide Without;
  }

  lemma NextPhoto(s: State, order: seq<nat>, i: nat, outcome: nat -> Deletion)
    requires i < |order| && Inv(s) && !ExpireAll(s, order[..i], outcome).stopped
    ensures var t := ExpireAll(s, order[..i], outcome).state;
            && (forall o :: o in t.photos ==> o in t.enrollments)
            && ExpireAll(s, order[..i + 1], outcome) == ExpireOne(t, order[i], outcome)
  {
    assert order[..i + 1][..i] == order[..i];
    ExpireAllKeeps(s, order[..i], outcome);
    hide ExpireOne;
  }

  /** Once stopped, work leaves everything as it is. */
  lemma {:induction false} Stays(s: State, keys: seq<nat>, n: nat, outcome: nat -> Deletion)
    requires n <= |keys| && ProcessKeys(s, keys[..n], outcome).stopped
    ensures ProcessKeys(s, keys, outcome) == ProcessKeys(s, keys[..n], outcome)
  {
    if n == |keys| {
      assert keys[..n] == keys;
    } else {
      assert keys[..|keys| - 1][..n] == keys[..n];
      Stays(s, keys[..|keys| - 1], n, outcome);
    }
  }

  lemma {:induction false} StopsThere(s: State, order: seq<nat>, n: nat, outcome: nat -> Deletion)
    requires n <= |order| && ExpireAll(s, order[..n], outcome).stopped
    ensures ExpireAll(s, order, outcome) == ExpireAll(s, order[..n], outcome)
  {
    if n == |order| {
      assert order[..n] == order;
    } else {
      assert order[..|order| - 1][..n] == order[..n];
      StopsThere(s, order[..|order| - 1], n, outcome);
    }
  }
}
