/**
 Python values that reach the canonical encoder, their normalisation, and the
 key order that `sort_keys` imposes.
 */
module CanonicalValues {
  import opened Wrappers

  /** A dict is the sequence of its items in insertion order. */
  datatype Value =
    | Null
    | Bool(b: bool)
    | Int(n: int)
    | Str(s: string)
    | List(items: seq<Value>)
    | Dict(members: seq<Member>)
    | Opaque(typeName: string)

  datatype Member = Member(key: Value, value: Value)

  datatype Error = TypeError | ValueError

  /** What the model needs of Unicode normalisation form C. */
  ghost predicate NfcLaws(nfc: string -> string) {
    && (forall s :: nfc(nfc(s)) == nfc(s))
    && (forall s | Ascii(s) :: nfc(s) == s)
  }

  predicate Ascii(s: string) { forall i :: 0 <= i < |s| ==> s[i] < 128 as char }

  predicate HasKey(members: seq<Member>, key: Value) {
    exists i :: 0 <= i < |members| && members[i].key == key
  }

  // ---------------------------------------------------------------- normalisation

  function Normalize(nfc: string -> string, v: Value): Result<Value, Error>
    decreases v, 1
  {
    match v
    case Str(s) => Ok(Str(nfc(s)))
    case List(items) => (
      match NormalizeItems(nfc, items)
      case Err(e) => Err(e)
      case Ok(vs) => Ok(List(vs)))
    case Dict(members) => (
      match NormalizeMembers(nfc, members, [])
      case Err(e) => Err(e)
      case Ok(ms) => Ok(Dict(ms)))
    case Opaque(_) => Err(TypeError)
    case _ => Ok(v)
  }

  function NormalizeItems(nfc: string -> string, items: seq<Value>): Result<seq<Value>, Error>
    decreases items, 0
  {
    if items == [] then Ok([])
    else
      match Normalize(nfc, items[0])
      case Err(e) => Err(e)
      case Ok(v) =>
        match NormalizeItems(nfc, items[1..])
        case Err(e) => Err(e)
        case Ok(vs) => Ok([v] + vs)
  }

  /** `done` is the dict built so far. */
  function NormalizeMembers(nfc: string -> string, members: seq<Member>, done: seq<Member>): Result<seq<Member>, Error>
    decreases members, 0
  {
    if members == [] then Ok(done)
    else if !members[0].key.Str? then Err(TypeError)
    else
      var key := Str(nfc(members[0].key.s));
      if HasKey(done, key) then Err(ValueError)
      else
        match NormalizeItem(nfc, members[0])
        case Err(e) => Err(e)
        case Ok(v) => NormalizeMembers(nfc, members[1..], done + [Member(key, v)])
  }

  function NormalizeItem(nfc: string -> string, m: Member): Result<Value, Error>
    decreases m, 2
  {
    Normalize(nfc, m.value)
  }

  /** The recursive normaliser with its dict-filling loop. */
  method NormalizeValue(nfc: string -> string, v: Value) returns (r: Result<Value, Error>)
    ensures r == Normalize(nfc, v)
    decreases v
  {
    match v {
      case Str(s) => r := Ok(Str(nfc(s)));
      case List(items) =>
        var vs := [];
        assert items[0..] == items;
        PrependAssociates([], [], NormalizeItems(nfc, items));
        for i := 0 to |items|
          invariant NormalizeItems(nfc, items)
                 == Prepend(vs, NormalizeItems(nfc, items[i..]))
        {
          var e := NormalizeValue(nfc, items[i]);
          assert items[i..][1..] == items[i + 1..];
          if e.Err? { return Err(e.error); }
          PrependAssociates(vs, [e.value], NormalizeItems(nfc, items[i + 1..]));
          vs := vs + [e.value];
        }
        assert items[|items|..] == [] && vs + [] == vs;
        r := Ok(List(vs));
      case Dict(members) =>
        var normalized := [];
        for i := 0 to |members|
          invariant NormalizeMembers(nfc, members, [])
                 == NormalizeMembers(nfc, members[i..], normalized)
        {
          assert members[i..][1..] == members[i + 1..];
          if !members[i].key.Str? { return Err(TypeError); }
          var key := Str(nfc(members[i].key.s));
          if HasKey(normalized, key) { return Err(ValueError); }
          var item := NormalizeValue(nfc, members[i].value);
          if item.Err? { return Err(item.error); }
          normalized := normalized + [Member(key, item.value)];
        }
        r := Ok(Dict(normalized));
      case Opaque(_) => r := Err(TypeError);
      case _ => r := Ok(v);
    }
  }

  ghost function Prepend(vs: seq<Value>, r: Result<seq<Value>, Error>): Result<seq<Value>, Error> {
    match r
    case Ok(ws) => Ok(vs + ws)
    case Err(e) => Err(e)
  }

  lemma PrependAssociates(vs: seq<Value>, ws: seq<Value>, r: Result<seq<Value>, Error>)
    ensures Prepend(vs, Prepend(ws, r)) == Prepend(vs + ws, r)
    ensures Prepend([], r) == r
  {
    if r.Ok? {
      assert vs + (ws + r.value) == (vs + ws) + r.value;
      assert [] + r.value == r.value;
    }
  }

  // ---------------------------------------------------------------- normal form

  ghost predicate DistinctKeys(members: seq<Member>) {
    forall i, j :: 0 <= i < j < |members| ==> members[i].key != members[j].key
  }

  /** JSON-representable: string keys, pairwise distinct in every dict. */
  ghost predicate Plain(v: Value)
    decreases v
  {
    match v
    case List(items) => forall i :: 0 <= i < |items| ==> Plain(items[i])
    case Dict(members) =>
      && DistinctKeys(members)
      && (forall i :: 0 <= i < |members| ==> members[i].key.Str? && Plain(members[i].value))
    case Opaque(_) => false
    case _ => true
  }

  /** Plain, and every string in it is already in normalisation form C. */
  ghost predicate Normal(nfc: string -> string, v: Value)
    decreases v
  {
    match v
    case Str(s) => nfc(s) == s
    case List(items) => forall i :: 0 <= i < |items| ==> Normal(nfc, items[i])
    case Dict(members) =>
      && DistinctKeys(members)
      && (forall i :: 0 <= i < |members| ==>
            members[i].key.Str? && nfc(members[i].key.s) == members[i].key.s && Normal(nfc, members[i].value))
    case Opaque(_) => false
    case _ => true
  }

  /** Exactly the inputs the normaliser accepts, written without running it. */
  ghost predicate Canonicalizable(nfc: string -> string, v: Value)
    decreases v
  {
    match v
    case List(items) => forall i :: 0 <= i < |items| ==> Canonicalizable(nfc, items[i])
    case Dict(members) =>
      && (forall i :: 0 <= i < |members| ==> members[i].key.Str? && Canonicalizable(nfc, members[i].value))
      && (forall i, j :: 0 <= i < j < |members| && members[i].key.Str? && members[j].key.Str? ==>
            nfc(members[i].key.s) != nfc(members[j].key.s))
    case Opaque(_) => false
    case _ => true
  }

  lemma {:induction false} ItemsNormalized(nfc: string -> string, items: seq<Value>)
    ensures NormalizeItems(nfc, items).Ok? <==>
            forall i :: 0 <= i < |items| ==> Normalize(nfc, items[i]).Ok?
    ensures NormalizeItems(nfc, items).Ok? ==>
            var vs := NormalizeItems(nfc, items).value;
            |vs| == |items| && forall i :: 0 <= i < |items| ==> Ok(vs[i]) == Normalize(nfc, items[i])
  {
    if items != [] {
      ItemsNormalized(nfc, items[1..]);
      assert forall i :: 0 <= i < |items| ==> i == 0 || items[i] == items[1..][i - 1];
      assert forall i :: 0 <= i < |items| - 1 ==> items[1..][i] == items[i + 1];
    }
  }

  /** The dict loop succeeds exactly when every key is a string fresh after NFC and every value normalises. */
  ghost predicate MembersAccepted(nfc: string -> string, members: seq<Member>, done: seq<Member>) {
    && (forall i :: 0 <= i < |members| ==> members[i].key.Str? && Normalize(nfc, members[i].value).Ok?)
    && (forall i :: 0 <= i < |members| && members[i].key.Str? ==> !HasKey(done, Str(nfc(members[i].key.s))))
    && (forall i, j :: 0 <= i < j < |members| && members[i].key.Str? && members[j].key.Str? ==>
          nfc(members[i].key.s) != nfc(members[j].key.s))
  }

  ghost predicate MembersResult(nfc: string -> string, members: seq<Member>, done: seq<Member>, ms: seq<Member>) {
    && |ms| == |done| + |members|
    && (forall i :: 0 <= i < |done| ==> ms[i] == done[i])
    && (forall k {:trigger ms[k]} :: |done| <= k < |ms| ==>
          var m := members[k - |done|];
          m.key.Str? && ms[k].key == Str(nfc(m.key.s)) && Ok(ms[k].value) == Normalize(nfc, m.value))
  }

  lemma {:induction false} MembersNormalized(nfc: string -> string, members: seq<Member>, done: seq<Member>)
    ensures NormalizeMembers(nfc, members, done).Ok? <==> MembersAccepted(nfc, members, done)
    ensures NormalizeMembers(nfc, members, done).Ok? ==>
            MembersResult(nfc, members, done, NormalizeMembers(nfc, members, done).value)
  {
    if members == [] || !members[0].key.Str? {
    } else {
      hide Normalize;
      var key := Str(nfc(members[0].key.s));
      var item := Normalize(nfc, members[0].value);
      var rest := members[1..];
      assert forall i :: 0 <= i < |rest| ==> rest[i] == members[i + 1];
      if !HasKey(done, key) && item.Ok? {
        var next := done + [Member(key, item.value)];
        MembersNormalized(nfc, rest, next);
        AcceptedStep(nfc, members, done, key, item.value);
        assert NormalizeMembers(nfc, members, done) == NormalizeMembers(nfc, rest, next);
        if NormalizeMembers(nfc, rest, next).Ok? { ResultStep(nfc, members, done, key, item.value, NormalizeMembers(nfc, rest, next).value); }
        hide MembersAccepted, MembersResult;
      }
    }
  }

  lemma ResultStep(nfc: string -> string, members: seq<Member>, done: seq<Member>, key: Value, v: Value, ms: seq<Member>)
    requires members != [] && members[0].key.Str? && key == Str(nfc(members[0].key.s)) && Normalize(nfc, members[0].value) == Ok(v)
    requires MembersResult(nfc, members[1..], done + [Member(key, v)], ms)
    ensures MembersResult(nfc, members, done, ms)
  {
    hide Normalize;
    var next, rest := done + [Member(key, v)], members[1..];
    assert forall i :: 0 <= i < |rest| ==> rest[i] == members[i + 1];
    assert forall i :: 0 <= i < |done| ==> next[i] == done[i];
    assert ms[|done|] == next[|done|];
  }

  lemma AcceptedStep(nfc: string -> string, members: seq<Member>, done: seq<Member>, key: Value, v: Value)
    requires members != [] && members[0].key.Str? && key == Str(nfc(members[0].key.s))
    requires Normalize(nfc, members[0].value) == Ok(v)
    requires !HasKey(done, key)
    ensures MembersAccepted(nfc, members, done)
       <==> MembersAccepted(nfc, members[1..], done + [Member(key, v)])
  {
    var rest, next := members[1..], done + [Member(key, v)];
    assert forall i :: 0 <= i < |rest| ==> rest[i] == members[i + 1];
    assert forall i :: 1 <= i < |members| ==> members[i] == rest[i - 1];
    assert next[|done|].key == key;
    forall k ensures HasKey(next, k) <==> HasKey(done, k) || k == key {
      if HasKey(done, k) {
        var i :| 0 <= i < |done| && done[i].key == k;
        assert next[i].key == k;
      }
    }
  }

  /** The normaliser rejects exactly the inputs that are not canonicalizable. */
  lemma {:induction false} NormalizeAccepts(nfc: string -> string, v: Value)
    ensures Normalize(nfc, v).Ok? <==> Canonicalizable(nfc, v)
    decreases v
  {
    match v {
      case List(items) =>
        ItemsNormalized(nfc, items);
        forall i | 0 <= i < |items| { NormalizeAccepts(nfc, items[i]); }
      case Dict(members) =>
        MembersNormalized(nfc, members, []);
        forall i | 0 <= i < |members| { NormalizeAccepts(nfc, members[i].value); }
      case _ =>
    }
  }

  /** What comes out is in normal form. */
  lemma {:induction false} NormalizeYieldsNormal(nfc: string -> string, v: Value)
    requires NfcLaws(nfc)
    requires Normalize(nfc, v).Ok?
    ensures Normal(nfc, Normalize(nfc, v).value)
    decreases v
  {
    match v {
      case List(items) =>
        ItemsNormalized(nfc, items);
        forall i | 0 <= i < |items| { NormalizeYieldsNormal(nfc, items[i]); }
      case Dict(members) =>
        MembersNormalized(nfc, members, []);
        var ms := NormalizeMembers(nfc, members, []).value;
        forall i | 0 <= i < |members|
          ensures ms[i].key.Str? && nfc(ms[i].key.s) == ms[i].key.s && Normal(nfc, ms[i].value)
        {
          NormalizeYieldsNormal(nfc, members[i].value);
        }
        assert DistinctKeys(ms);
      case _ =>
    }
  }

  /** Normal values are fixed points, so normalising twice changes nothing. */
  lemma {:induction false} NormalizeFixesNormal(nfc: string -> string, v: Value)
    requires Normal(nfc, v)
    ensures Normalize(nfc, v) == Ok(v)
    decreases v
  {
    match v {
      case List(items) =>
        forall i | 0 <= i < |items| { NormalizeFixesNormal(nfc, items[i]); }
        ItemsNormalized(nfc, items);
        assert NormalizeItems(nfc, items).value == items;
      case Dict(members) =>
        forall i | 0 <= i < |members| { NormalizeFixesNormal(nfc, members[i].value); }
        MembersNormalized(nfc, members, []);
        var ms := NormalizeMembers(nfc, members, []).value;
        assert forall i :: 0 <= i < |members| ==> ms[i] == members[i];
        assert ms == members;
      case _ =>
    }
  }

  lemma {:induction false} NormalIsPlain(nfc: string -> string, v: Value)
    requires Normal(nfc, v)
    ensures Plain(v)
    decreases v
  {
    match v {
      case List(items) => forall i | 0 <= i < |items| { NormalIsPlain(nfc, items[i]); }
      case Dict(members) => forall i | 0 <= i < |members| { NormalIsPlain(nfc, members[i].value); }
      case _ =>
    }
  }

  /** w is v with every string and every key in form C, in the same places, and nothing else. */
  ghost predicate InFormC(nfc: string -> string, v: Value, w: Value)
    decreases v
  {
    match v
    case Str(s) => w == Str(nfc(s))
    case List(items) => w.List? && |w.items| == |items| && forall i :: 0 <= i < |items| ==> InFormC(nfc, items[i], w.items[i])
    case Dict(members) =>
      && w.Dict? && |w.members| == |members|
      && (forall i :: 0 <= i < |members| ==>
            && members[i].key.Str? && w.members[i].key == Str(nfc(members[i].key.s))
            && InFormC(nfc, members[i].value, w.members[i].value))
    case Opaque(_) => false
    case _ => w == v
  }

  /** Normalisation puts strings into form C where they stand, keeps the order of dicts, and does nothing else. */
  lemma {:induction false} NormalizesInPlace(nfc: string -> string, v: Value, w: Value)
    ensures Normalize(nfc, v) == Ok(w) <==> Canonicalizable(nfc, v) && InFormC(nfc, v, w)
    decreases v
  {
    NormalizeAccepts(nfc, v);
    match v {
      case List(items) =>
        ItemsNormalized(nfc, items);
        if w.List? && |w.items| == |items| && Normalize(nfc, v).Ok? {
          forall i | 0 <= i < |items| { NormalizesInPlace(nfc, items[i], w.items[i]); }
          var vs := NormalizeItems(nfc, items).value;
          assert vs == w.items <==> forall i :: 0 <= i < |items| ==> vs[i] == w.items[i];
        }
      case Dict(members) =>
        MembersNormalized(nfc, members, []);
        if w.Dict? && |w.members| == |members| && Normalize(nfc, v).Ok? {
          forall i | 0 <= i < |members| { NormalizesInPlace(nfc, members[i].value, w.members[i].value); }
          MembersInPlace(nfc, members, NormalizeMembers(nfc, members, []).value, w.members);
        }
      case _ =>
    }
  }

  lemma MembersInPlace(nfc: string -> string, members: seq<Member>, ms: seq<Member>, ws: seq<Member>)
    requires MembersResult(nfc, members, [], ms) && |ws| == |members|
    ensures ms == ws <==> forall i :: 0 <= i < |members| ==>
              members[i].key.Str? && ws[i].key == Str(nfc(members[i].key.s)) && Normalize(nfc, members[i].value) == Ok(ws[i].value)
  {
    hide Normalize;
    forall i | 0 <= i < |members|
      ensures members[i].key.Str? && ms[i].key == Str(nfc(members[i].key.s)) && Ok(ms[i].value) == Normalize(nfc, members[i].value)
    {
      assert ms[i] == ms[i];
    }
    if forall i :: 0 <= i < |members| ==>
         members[i].key.Str? && ws[i].key == Str(nfc(members[i].key.s)) && Normalize(nfc, members[i].value) == Ok(ws[i].value)
    {
      forall i | 0 <= i < |members| ensures ms[i] == ws[i] { }
    }
  }

  /** Somewhere there is a value of no JSON type, or a key that is no string. */
  ghost predicate HasForeign(v: Value)
    decreases v
  {
    match v
    case List(items) => exists i :: 0 <= i < |items| && HasForeign(items[i])
    case Dict(members) => exists i :: 0 <= i < |members| && (!members[i].key.Str? || HasForeign(members[i].value))
    case Opaque(_) => true
    case _ => false
  }

  /** Somewhere two keys of one dict are the same in form C. */
  ghost predicate HasClash(nfc: string -> string, v: Value)
    decreases v
  {
    match v
    case List(items) => exists i :: 0 <= i < |items| && HasClash(nfc, items[i])
    case Dict(members) =>
      || (exists i :: 0 <= i < |members| && HasClash(nfc, members[i].value))
      || (exists i, j :: 0 <= i < j < |members| && members[i].key.Str? && members[j].key.Str?
                         && nfc(members[i].key.s) == nfc(members[j].key.s))
    case _ => false
  }

  /** A TypeError has a foreign value or key to blame, a ValueError two keys that collide. */
  lemma {:induction false} ErrorsAreEarned(nfc: string -> string, v: Value)
    ensures Normalize(nfc, v) == Err(TypeError) ==> HasForeign(v)
    ensures Normalize(nfc, v) == Err(ValueError) ==> HasClash(nfc, v)
    decreases v, 1
  {
    match v {
      case List(items) =>
        if Normalize(nfc, v).Err? {
          var i := ItemError(nfc, items);
          ErrorsAreEarned(nfc, items[i]);
        }
      case Dict(members) =>
        if Normalize(nfc, v).Err? {
          assert members[0..] == members;
          var i := MemberError(nfc, members, 0, []);
          ErrorsAreEarned(nfc, members[i].value);
        }
      case _ =>
    }
  }

  /** The item whose error it is. */
  lemma {:induction false} ItemError(nfc: string -> string, items: seq<Value>) returns (i: nat)
    requires NormalizeItems(nfc, items).Err?
    ensures i < |items| && Normalize(nfc, items[i]) == Err(NormalizeItems(nfc, items).error)
  {
    hide Normalize;
    if Normalize(nfc, items[0]).Err? {
      i := 0;
    } else {
      i := ItemError(nfc, items[1..]);
      i := i + 1;
    }
  }

  /** The dict so far holds the first keys, and the member at fault comes later. */
  lemma {:induction false} MemberError(nfc: string -> string, members: seq<Member>, k: nat, done: seq<Member>) returns (i: nat)
    requires k <= |members| == |members[k..]| + k && |done| == k
    requires forall j :: 0 <= j < k ==> members[j].key.Str? && done[j].key == Str(nfc(members[j].key.s))
    requires NormalizeMembers(nfc, members[k..], done).Err?
    ensures i < |members|
    ensures var e := NormalizeMembers(nfc, members[k..], done).error;
            || Normalize(nfc, members[i].value) == Err(e)
            || (e == TypeError && !members[i].key.Str?)
            || (e == ValueError && members[i].key.Str?
                && exists j :: 0 <= j < i && members[j].key.Str? && nfc(members[j].key.s) == nfc(members[i].key.s))
    decreases |members| - k
  {
    hide Normalize;
    assert members[k..][0] == members[k] && members[k..][1..] == members[k + 1..];
    i := k;
    if members[k].key.Str? {
      var key := Str(nfc(members[k].key.s));
      if HasKey(done, key) {
        var j :| 0 <= j < |done| && done[j].key == key;
        assert nfc(members[j].key.s) == nfc(members[k].key.s);
      } else if NormalizeItem(nfc, members[k]).Ok? {
        i := MemberError(nfc, members, k + 1, done + [Member(key, NormalizeItem(nfc, members[k]).value)]);
      }
    }
  }
}
