/**
 Walks up the location hierarchy: triage's check, the report's path snapshot and the path label,
 on any table of rows, cyclic and dangling parents included.
 */
module Locations {
  import opened Wrappers
  import Texts

  datatype Location = Location(building: nat, parent: Option<nat>, name: string, active: bool)

  type Table = map<nat, Location>

  datatype Error = ValidationError | DoesNotExist

  // ---------------------------------------------------------------- chains to a root

  /** Each row's parent is the next one, and the last row is a root. */
  ghost predicate Chain(t: Table, path: seq<nat>) {
    && path != []
    && (forall i :: 0 <= i < |path| ==> path[i] in t)
    && (forall i :: 0 <= i < |path| - 1 ==> t[path[i]].parent == Some(path[i + 1]))
    && t[path[|path| - 1]].parent == None
  }

  ghost predicate HasChain(t: Table, id: nat) { exists path :: Chain(t, path) && path[0] == id }

  /** Two chains from one row are the same chain. */
  lemma {:induction false} ChainUnique(t: Table, p: seq<nat>, q: seq<nat>)
    requires Chain(t, p) && Chain(t, q) && p[0] == q[0]
    ensures p == q
    decreases |p|
  {
    assert |p| > 1 ==> t[p[0]].parent == Some(p[1]);
    assert |q| > 1 ==> t[q[0]].parent == Some(q[1]);
    if |p| > 1 {
      ChainSuffix(t, p, 1);
      ChainSuffix(t, q, 1);
      ChainUnique(t, p[1..], q[1..]);
      assert p == [p[0]] + p[1..] && q == [q[0]] + q[1..];
    }
  }

  lemma ChainSuffix(t: Table, p: seq<nat>, i: nat)
    requires Chain(t, p) && i < |p|
    ensures Chain(t, p[i..])
  {
    var s := p[i..];
    assert forall j :: 0 <= j < |s| ==> s[j] == p[i + j];
  }

  /** A chain to a root never meets the same row twice. */
  lemma ChainDistinct(t: Table, p: seq<nat>, i: nat, j: nat)
    requires Chain(t, p) && i < |p| && j < |p| && p[i] == p[j]
    ensures i == j
  {
    ChainSuffix(t, p, i);
    ChainSuffix(t, p, j);
    ChainUnique(t, p[i..], p[j..]);
  }

  // ---------------------------------------------------------------- partial walks

  /** The rows walked so far, each the parent of the one before, none twice. */
  ghost predicate Walk(t: Table, walked: seq<nat>) {
    && (forall i :: 0 <= i < |walked| ==> walked[i] in t)
    && (forall i :: 0 <= i < |walked| - 1 ==> t[walked[i]].parent == Some(walked[i + 1]))
    && (forall i, j :: 0 <= i < j < |walked| ==> walked[i] != walked[j])
  }

  ghost predicate NextIs(t: Table, walked: seq<nat>, next: nat) {
    Walk(t, walked) && (walked != [] ==> t[walked[|walked| - 1]].parent == Some(next))
  }

  /** Any chain from the first row starts with what was walked and goes on with the next row. */
  lemma {:induction false} ChainFollowsWalk(t: Table, walked: seq<nat>, next: nat, p: seq<nat>)
    requires NextIs(t, walked, next) && Chain(t, p)
    requires p[0] == if walked == [] then next else walked[0]
    ensures |walked| < |p| && walked == p[..|walked|] && p[|walked|] == next
    decreases |walked|
  {
    if walked == [] {
    } else {
      var n := |walked| - 1;
      ChainFollowsWalk(t, walked[..n], walked[n], p);
      assert p[n] == walked[n];
      assert walked == walked[..n] + [walked[n]];
    }
  }

  /** Meeting a row again, or a parent that is not there, means there is no chain. */
  lemma DeadEnd(t: Table, walked: seq<nat>, next: nat)
    requires NextIs(t, walked, next) && (next in walked || next !in t)
    ensures !HasChain(t, if walked == [] then next else walked[0])
  {
    var first := if walked == [] then next else walked[0];
    forall p | Chain(t, p) && p[0] == first ensures false {
      ChainFollowsWalk(t, walked, next, p);
      if next in walked {
        var i :| 0 <= i < |walked| && walked[i] == next;
        ChainDistinct(t, p, i, |walked|);
      }
    }
  }

  // ---------------------------------------------------------------- acceptance

  ghost predicate Usable(t: Table, path: seq<nat>, building: nat)
    requires Chain(t, path)
  {
    forall i :: 0 <= i < |path| ==> t[path[i]].active && t[path[i]].building == building
  }

  /** The location's ancestors reach a root, all of them active and in the building. */
  ghost predicate Acceptable(t: Table, id: nat, building: nat) {
    exists path :: Chain(t, path) && path[0] == id && Usable(t, path, building)
  }

  /** So acceptance is about the one chain there is, which both walks and the label spell out. */
  lemma AcceptedChain(t: Table, id: nat, building: nat, path: seq<nat>)
    requires Chain(t, path) && path[0] == id
    ensures Acceptable(t, id, building) <==> Usable(t, path, building)
  {
    if Acceptable(t, id, building) {
      var p :| Chain(t, p) && p[0] == id && Usable(t, p, building);
      ChainUnique(t, p, path);
    }
  }

  /** A row on the way that is inactive or elsewhere spoils every chain through it. */
  lemma Spoiled(t: Table, walked: seq<nat>, next: nat, building: nat)
    requires NextIs(t, walked, next) && next in t
    requires !t[next].active || t[next].building != building
    ensures !Acceptable(t, if walked == [] then next else walked[0], building)
  {
    var first := if walked == [] then next else walked[0];
    forall p | Chain(t, p) && p[0] == first ensures !Usable(t, p, building) {
      ChainFollowsWalk(t, walked, next, p);
    }
  }

  lemma Complete(t: Table, walked: seq<nat>, next: nat)
    requires NextIs(t, walked, next) && next in t && t[next].parent.None?
    ensures Chain(t, walked + [next])
  {
    var p := walked + [next];
    assert forall i :: 0 <= i < |walked| ==> p[i] == walked[i];
  }

  lemma WalkOn(t: Table, walked: seq<nat>, next: nat)
    requires NextIs(t, walked, next) && next in t && next !in walked && t[next].parent.Some?
    ensures NextIs(t, walked + [next], t[next].parent.value)
  {
  }

  /** Triage: walk up from the location with a growing set of rows seen. */
  method ActiveLocation(t: Table, id: nat, building: nat) returns (ok: bool)
    ensures ok <==> Acceptable(t, id, building)
  {
    if id !in t {
      DeadEnd(t, [], id);
      return false;
    }
    var current := Some(id);
    var seen: set<nat> := {};
    ghost var walked: seq<nat> := [];
    while current.Some?
      invariant seen <= t.Keys && (forall x :: x in seen <==> x in walked)
      invariant current.Some? ==> current.value in t && NextIs(t, walked, current.value)
      invariant current.Some? ==> id == if walked == [] then current.value else walked[0]
      invariant forall i :: 0 <= i < |walked| ==> walked[i] in t && t[walked[i]].active && t[walked[i]].building == building
      invariant current.None? ==> !HasChain(t, id)
      decreases t.Keys - seen, current.Some?
    {
      var here := current.value;
      if here in seen {
        DeadEnd(t, walked, here);
        return false;
      }
      if !t[here].active || t[here].building != building {
        Spoiled(t, walked, here, building);
        return false;
      }
      seen := seen + {here};
      if t[here].parent.None? {
        Complete(t, walked, here);
        assert Usable(t, walked + [here], building);
        return true;
      }
      WalkOn(t, walked, here);
      walked := walked + [here];
      current := if t[here].parent.value in t then t[here].parent else None;
      if current.None? { DeadEnd(t, walked, t[here].parent.value); }
    }
    return false;
  }

  // ---------------------------------------------------------------- path texts

  function Names(t: Table, path: seq<nat>): (r: seq<string>)
    requires forall i :: 0 <= i < |path| ==> path[i] in t
    ensures |r| == |path| && forall i :: 0 <= i < |path| ==> r[i] == t[path[i]].name
  {
    seq(|path|, i requires 0 <= i < |path| => t[path[i]].name)
  }

  function Reversed(names: seq<string>): (r: seq<string>)
    ensures |r| == |names| && forall i :: 0 <= i < |r| ==> r[i] == names[|names| - 1 - i]
  {
    seq(|names|, i requires 0 <= i < |names| => names[|names| - 1 - i])
  }

  /** Building first, then the names from the root down. */
  ghost function PathText(t: Table, path: seq<nat>, buildingName: string): string
    requires Chain(t, path)
  {
    Texts.Join(" / ", [buildingName] + Reversed(Names(t, path)))
  }

  /** The walk of a new report: the same rows accepted, and the snapshot of their names. */
  method SnapshotPath(t: Table, id: nat, building: nat, buildingName: string) returns (r: Result<string, Error>)
    ensures r.Ok? <==> Acceptable(t, id, building)
    ensures forall path :: Chain(t, path) && path[0] == id && r.Ok? ==> r.value == PathText(t, path, buildingName)
  {
    if id !in t {
      DeadEnd(t, [], id);
      return Err(ValidationError);
    }
    var here := id;
    var names: seq<string> := [];
    var seen: set<nat> := {};
    ghost var walked: seq<nat> := [];
    while true
      invariant here in t && seen <= t.Keys && (forall x :: x in seen <==> x in walked)
      invariant NextIs(t, walked, here) && id == if walked == [] then here else walked[0]
      invariant forall i :: 0 <= i < |walked| ==> walked[i] in t && t[walked[i]].active && t[walked[i]].building == building
      invariant names == Names(t, walked)
      decreases t.Keys - seen
    {
      if here in seen {
        DeadEnd(t, walked, here);
        return Err(ValidationError);
      }
      if !t[here].active || t[here].building != building {
        Spoiled(t, walked, here, building);
        return Err(ValidationError);
      }
      seen := seen + {here};
      names := names + [t[here].name];
      if t[here].parent.None? {
        Complete(t, walked, here);
        walked := walked + [here];
        break;
      }
      WalkOn(t, walked, here);
      walked := walked + [here];
      if t[here].parent.value !in t {
        DeadEnd(t, walked, t[here].parent.value);
        return Err(ValidationError);
      }
      here := t[here].parent.value;
    }
    assert Usable(t, walked, building);
    assert names == Names(t, walked);
    forall path | Chain(t, path) && path[0] == id ensures path == walked { ChainUnique(t, path, walked); }
    return Ok(Texts.Join(" / ", [buildingName] + Reversed(names)));
  }

  /** The label property: at most a hundred rounds, no check of activity or building. */
  method PathLabel(t: Table, id: nat, buildingName: string) returns (r: Result<string, Error>)
    requires id in t
    ensures r.Ok? <==> exists path :: Chain(t, path) && path[0] == id && |path| <= 99
    ensures forall path :: Chain(t, path) && path[0] == id && r.Ok? ==> r.value == PathText(t, path, buildingName)
  {
    var names: seq<string> := [];
    var current := Some(id);
    var seen: set<nat> := {};
    ghost var walked: seq<nat> := [];
    for round := 0 to 100
      invariant |walked| == round
      invariant forall x :: x in seen <==> x in walked
      invariant forall i :: 0 <= i < |walked| ==> walked[i] in t
      invariant current.Some? ==> current.value in t && NextIs(t, walked, current.value)
      invariant current.Some? ==> id == if walked == [] then current.value else walked[0]
      invariant current.None? ==> Chain(t, walked) && walked[0] == id
      invariant names == Names(t, walked)
    {
      if current.None? {
        forall path | Chain(t, path) && path[0] == id ensures path == walked { ChainUnique(t, path, walked); }
        return Ok(Texts.Join(" / ", [buildingName] + Reversed(names)));
      }
      var here := current.value;
      if here in seen {
        DeadEnd(t, walked, here);
        return Err(ValidationError);
      }
      seen := seen + {here};
      names := names + [t[here].name];
      if t[here].parent.None? {
        Complete(t, walked, here);
        current := None;
      } else {
        WalkOn(t, walked, here);
        if t[here].parent.value !in t {
          DeadEnd(t, walked + [here], t[here].parent.value);
          return Err(DoesNotExist);
        }
        current := t[here].parent;
      }
      walked := walked + [here];
      assert names == Names(t, walked);
    }
    forall path | Chain(t, path) && path[0] == id ensures |path| >= 100 {
      if current.None? { ChainUnique(t, path, walked); } else { ChainFollowsWalk(t, walked, current.value, path); }
    }
    return Err(ValidationError);
  }
}
