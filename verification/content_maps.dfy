/**
 Dict content as a finite map: key to key-sorted value. Comparing payloads
 field by field is comparing these maps.
 */
module ContentMaps {
  import opened Wrappers
  import opened CanonicalValues
  import opened CanonicalJson

  ghost function AsMap(ms: seq<Member>): map<string, Value> {
    if ms == [] then map[]
    else AsMap(ms[..|ms| - 1])[KeyText(ms[|ms| - 1]) := SortKeys(ms[|ms| - 1].value)]
  }

  lemma {:induction false} AsMapConcat(a: seq<Member>, b: seq<Member>)
    ensures AsMap(a + b) == AsMap(a) + AsMap(b)
  {
    if b == [] {
      assert a + b == a;
    } else {
      var c := b[..|b| - 1];
      AsMapConcat(a, c);
      assert (a + b)[..|a + b| - 1] == a + c;
    }
  }

  lemma SortValuesAppend(init: seq<Member>, last: Member, m: Member)
    ensures m in SortValues(init + [last]) <==> m in SortValues(init) || m == SortMember(last)
  {
    assert SortValues(init + [last]) == SortValues(init) + [SortMember(last)];
  }

  lemma HasKeyAppend(init: seq<Member>, last: Member, key: Value)
    ensures HasKey(init + [last], key) <==> HasKey(init, key) || last.key == key
  {
    var ms := init + [last];
    assert ms[|init|] == last;
    if i :| 0 <= i < |init| && init[i].key == key { assert ms[i].key == key; }
  }

  lemma {:induction false} AsMapMember(ms: seq<Member>, k: string, x: Value)
    requires StringKeys(ms) && DistinctKeys(ms)
    ensures (k in AsMap(ms) && AsMap(ms)[k] == x) <==> Member(Str(k), x) in SortValues(ms)
    ensures k in AsMap(ms) <==> HasKey(ms, Str(k))
  {
    if ms != [] {
      var init, last := ms[..|ms| - 1], ms[|ms| - 1];
      assert ms == init + [last];
      AsMapMember(init, k, x);
      SortValuesAppend(init, last, Member(Str(k), x));
      HasKeyAppend(init, last, Str(k));
      assert last.key == Str(KeyText(last));
      assert !HasKey(init, last.key);
    }
  }

  /** Dicts have the same content exactly when their maps agree. */
  lemma MapDecidesContent(a: seq<Member>, b: seq<Member>)
    requires Plain(Dict(a)) && Plain(Dict(b))
    ensures SameContent(Dict(a), Dict(b)) <==> AsMap(a) == AsMap(b)
  {
    SortKeysDecidesContent(Dict(a), Dict(b));
    if SortMembers(SortValues(a)) == SortMembers(SortValues(b)) { EqualSortsEqualMaps(a, b); }
    if AsMap(a) == AsMap(b) { EqualMapsEqualSorts(a, b); }
  }

  lemma EqualSortsEqualMaps(a: seq<Member>, b: seq<Member>)
    requires StringKeys(a) && DistinctKeys(a) && StringKeys(b) && DistinctKeys(b)
    requires SortMembers(SortValues(a)) == SortMembers(SortValues(b))
    ensures AsMap(a) == AsMap(b)
  {
    forall m ensures m in SortValues(a) <==> m in SortValues(b) {
      assert m in SortValues(a) <==> m in SortMembers(SortValues(a));
    }
    MapSubset(a, b);
    MapSubset(b, a);
  }

  lemma MapSubset(a: seq<Member>, b: seq<Member>)
    requires StringKeys(a) && DistinctKeys(a) && StringKeys(b) && DistinctKeys(b)
    requires forall m :: m in SortValues(a) ==> m in SortValues(b)
    ensures forall k :: k in AsMap(a) ==> k in AsMap(b) && AsMap(a)[k] == AsMap(b)[k]
  {
    forall k | k in AsMap(a) ensures k in AsMap(b) && AsMap(a)[k] == AsMap(b)[k] {
      AsMapMember(a, k, AsMap(a)[k]);
      AsMapMember(b, k, AsMap(a)[k]);
    }
  }

  lemma EqualMapsEqualSorts(a: seq<Member>, b: seq<Member>)
    requires StringKeys(a) && DistinctKeys(a) && StringKeys(b) && DistinctKeys(b)
    requires AsMap(a) == AsMap(b)
    ensures SortMembers(SortValues(a)) == SortMembers(SortValues(b))
  {
    var sa, sb := SortValues(a), SortValues(b);
    forall m ensures m in sa <==> m in sb {
      SortedMemberShape(a, m);
      SortedMemberShape(b, m);
      if m in sa || m in sb {
        AsMapMember(a, m.key.s, m.value);
        AsMapMember(b, m.key.s, m.value);
      }
    }
    SortSorted(sa);
    SortSorted(sb);
    SortedUnique(SortMembers(sa), SortMembers(sb));
  }

  lemma SortedMemberShape(ms: seq<Member>, m: Member)
    requires StringKeys(ms)
    ensures m in SortValues(ms) ==> m.key.Str?
  {
    if m in SortValues(ms) {
      var i :| 0 <= i < |ms| && SortValues(ms)[i] == m;
      assert m == SortMember(ms[i]);
    }
  }

  // ---------------------------------------------------------------- normalised members

  function NormMember(nfc: string -> string, m: Member): Member {
    Member(Str(nfc(KeyText(m))), Content(nfc, m.value))
  }

  function NormMembers(nfc: string -> string, ms: seq<Member>): (r: seq<Member>)
    ensures |r| == |ms| && forall i :: 0 <= i < |ms| ==> r[i] == NormMember(nfc, ms[i])
  {
    seq(|ms|, i requires 0 <= i < |ms| => NormMember(nfc, ms[i]))
  }

  ghost function NormMap(nfc: string -> string, ms: seq<Member>): map<string, Value> {
    AsMap(NormMembers(nfc, ms))
  }

  lemma NormMapConcat(nfc: string -> string, a: seq<Member>, b: seq<Member>)
    ensures NormMap(nfc, a + b) == NormMap(nfc, a) + NormMap(nfc, b)
  {
    assert NormMembers(nfc, a + b) == NormMembers(nfc, a) + NormMembers(nfc, b);
    AsMapConcat(NormMembers(nfc, a), NormMembers(nfc, b));
  }

  lemma ContentOfDict(nfc: string -> string, ms: seq<Member>)
    requires NfcLaws(nfc) && Canonicalizable(nfc, Dict(ms))
    ensures Content(nfc, Dict(ms)) == Dict(NormMembers(nfc, ms))
    ensures Plain(Content(nfc, Dict(ms)))
  {
    NormalizeAccepts(nfc, Dict(ms));
    NormMembersComputed(nfc, ms);
    NormalizeYieldsNormal(nfc, Dict(ms));
    NormalIsPlain(nfc, Content(nfc, Dict(ms)));
  }

  lemma NormMembersComputed(nfc: string -> string, ms: seq<Member>)
    requires NormalizeMembers(nfc, ms, []).Ok?
    ensures NormalizeMembers(nfc, ms, []).value == NormMembers(nfc, ms)
  {
    MembersNormalized(nfc, ms, []);
    var r := NormalizeMembers(nfc, ms, []).value;
    forall i | 0 <= i < |ms| ensures r[i] == NormMember(nfc, ms[i]) {
      assert Ok(r[i].value) == Normalize(nfc, ms[i].value);
    }
  }

  /** Same content of two accepted dicts, as equality of their normalised maps. */
  lemma NormMapDecides(nfc: string -> string, a: seq<Member>, b: seq<Member>)
    requires NfcLaws(nfc) && Canonicalizable(nfc, Dict(a)) && Canonicalizable(nfc, Dict(b))
    ensures SameContent(Content(nfc, Dict(a)), Content(nfc, Dict(b))) <==> NormMap(nfc, a) == NormMap(nfc, b)
  {
    ContentOfDict(nfc, a);
    ContentOfDict(nfc, b);
    MapDecidesContent(NormMembers(nfc, a), NormMembers(nfc, b));
  }

  lemma {:induction false} NormMapKeys(nfc: string -> string, ms: seq<Member>, k: string)
    ensures k in NormMap(nfc, ms) <==> exists i :: 0 <= i < |ms| && nfc(KeyText(ms[i])) == k
  {
    if ms == [] {
    } else {
      var init, last := ms[..|ms| - 1], ms[|ms| - 1];
      NormMapKeys(nfc, init, k);
      assert NormMembers(nfc, ms)[..|ms| - 1] == NormMembers(nfc, init);
      if k in NormMap(nfc, init) {
        var i :| 0 <= i < |init| && nfc(KeyText(init[i])) == k;
        assert nfc(KeyText(ms[i])) == k;
      }
      if i :| 0 <= i < |ms| && nfc(KeyText(ms[i])) == k {
        if i < |init| { assert nfc(KeyText(init[i])) == k; }
      }
      assert nfc(KeyText(last)) == k ==> nfc(KeyText(ms[|ms| - 1])) == k;
    }
  }

  // ---------------------------------------------------------------- records

  /** A dict literal with these field names, in this order. */
  function Fields(names: seq<string>, values: seq<Value>): (ms: seq<Member>)
    requires |names| == |values|
    ensures |ms| == |names| && forall i :: 0 <= i < |ms| ==> ms[i] == Member(Str(names[i]), values[i])
  {
    seq(|names|, i requires 0 <= i < |names| => Member(Str(names[i]), values[i]))
  }

  ghost predicate FieldNames(names: seq<string>) {
    && (forall i :: 0 <= i < |names| ==> Ascii(names[i]))
    && (forall i, j :: 0 <= i < j < |names| ==> names[i] != names[j])
  }

  lemma RecordAccepted(nfc: string -> string, names: seq<string>, values: seq<Value>)
    requires NfcLaws(nfc) && FieldNames(names) && |names| == |values|
    requires forall i :: 0 <= i < |values| ==> Canonicalizable(nfc, values[i])
    ensures Canonicalizable(nfc, Dict(Fields(names, values)))
  {
    var ms := Fields(names, values);
    assert forall i :: 0 <= i < |ms| ==> ms[i].key.Str? && nfc(ms[i].key.s) == names[i];
  }

  lemma {:induction false} RecordMap(nfc: string -> string, names: seq<string>, values: seq<Value>)
    requires NfcLaws(nfc) && FieldNames(names) && |names| == |values|
    ensures NormMap(nfc, Fields(names, values)) == FieldMap(nfc, names, values)
  {
    var ms := Fields(names, values);
    if names != [] {
      var n := |names| - 1;
      var init := Fields(names[..n], values[..n]);
      RecordMap(nfc, names[..n], values[..n]);
      assert ms == init + [ms[n]];
      assert NormMembers(nfc, ms)[..n] == NormMembers(nfc, init);
      assert nfc(names[n]) == names[n];
    } else {
      assert ms == [];
    }
  }

  /** Field name to normalised, key-sorted value. */
  ghost function FieldMap(nfc: string -> string, names: seq<string>, values: seq<Value>): map<string, Value>
    requires |names| == |values|
  {
    if names == [] then map[]
    else
      var n := |names| - 1;
      FieldMap(nfc, names[..n], values[..n])[names[n] := SortKeys(Content(nfc, values[n]))]
  }

  lemma {:induction false} FieldMapKeys(nfc: string -> string, names: seq<string>, values: seq<Value>)
    requires |names| == |values|
    ensures FieldMap(nfc, names, values).Keys == set n | n in names
  {
    if names != [] {
      var n := |names| - 1;
      FieldMapKeys(nfc, names[..n], values[..n]);
      assert names == names[..n] + [names[n]];
    }
  }

  lemma {:induction false} FieldMapAt(nfc: string -> string, names: seq<string>, values: seq<Value>, i: nat)
    requires FieldNames(names) && |names| == |values| && i < |names|
    ensures names[i] in FieldMap(nfc, names, values)
    ensures FieldMap(nfc, names, values)[names[i]] == SortKeys(Content(nfc, values[i]))
  {
    var n := |names| - 1;
    if i < n { FieldMapAt(nfc, names[..n], values[..n], i); }
  }

  /** Records with the same field names have the same map exactly when every field has the same content. */
  lemma RecordMapDecides(nfc: string -> string, names: seq<string>, vs: seq<Value>, ws: seq<Value>)
    requires NfcLaws(nfc) && FieldNames(names) && |names| == |vs| == |ws|
    ensures NormMap(nfc, Fields(names, vs)) == NormMap(nfc, Fields(names, ws))
       <==> forall i :: 0 <= i < |names| ==> SortKeys(Content(nfc, vs[i])) == SortKeys(Content(nfc, ws[i]))
  {
    RecordMap(nfc, names, vs);
    RecordMap(nfc, names, ws);
    var a, b := FieldMap(nfc, names, vs), FieldMap(nfc, names, ws);
    forall i | 0 <= i < |names|
      ensures names[i] in a && names[i] in b
      ensures a[names[i]] == SortKeys(Content(nfc, vs[i])) && b[names[i]] == SortKeys(Content(nfc, ws[i]))
    {
      FieldMapAt(nfc, names, vs, i);
      FieldMapAt(nfc, names, ws, i);
    }
    FieldMapKeys(nfc, names, vs);
    FieldMapKeys(nfc, names, ws);
    if a != b {
      var k :| k in a && a[k] != b[k];
      var i :| 0 <= i < |names| && names[i] == k;
    }
  }
}
