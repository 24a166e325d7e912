module ConfigMerge {
  /**
   Layered city configuration: a recursive merge of JSON objects in which null deletes a key, the override stored per
   city, and the runtime that serves the merge of the two.
   */
  import opened Util

  datatype Json = Null | Scalar(text: Id) | Arr(items: seq<Json>) | Obj(fields: map<Id, Json>)

  type Fields = map<Id, Json>

  // ---- the merge ----

  predicate Deletes(p: Json, k: Id)
    requires p.Obj?
  {
    k in p.fields && p.fields[k].Null?
  }

  /** Objects merge, anything else replaces, null deletes the key. */
  function Merge(base: Fields, patch: Json): (r: Fields)
    requires patch.Obj?
    ensures forall k :: k in r <==> (k in base || k in patch.fields) && !Deletes(patch, k)
    decreases patch
  {
    map k | k in base.Keys + patch.fields.Keys && !Deletes(patch, k) ::
      if k !in patch.fields then base[k]
      else if patch.fields[k].Obj? && k in base && base[k].Obj? then Obj(Merge(base[k].fields, patch.fields[k]))
      else patch.fields[k]
  }

  /** What the merge holds at `k`. */
  lemma MergeAt(base: Fields, patch: Json, k: Id)
    requires patch.Obj?
    ensures Get(Merge(base, patch), k) ==
            if k !in patch.fields then Get(base, k)
            else if patch.fields[k].Null? then None
            else if patch.fields[k].Obj? && k in base && base[k].Obj?
            then Some(Obj(Merge(base[k].fields, patch.fields[k])))
            else Some(patch.fields[k])
  {}

  lemma SameFields(a: Fields, b: Fields)
    requires forall k :: Get(a, k) == Get(b, k)
    ensures a == b
  {
    forall k ensures k in a <==> k in b { assert Get(a, k) == Get(b, k); }
    forall k | k in a ensures a[k] == b[k] { assert Get(a, k) == Get(b, k); }
  }

  /** No null in the object or in the objects nested in it; arrays are values. */
  ghost predicate NullFree(v: Json)
    decreases v
  {
    !v.Null? && (v.Obj? ==> forall k :: k in v.fields ==> NullFree(v.fields[k]))
  }

  /** No null in any object the patch adds where there was none. */
  ghost predicate NoFreshNull(base: Fields, patch: Json)
    requires patch.Obj?
    decreases patch
  {
    forall k :: k in patch.fields && patch.fields[k].Obj? ==>
      if k in base && base[k].Obj? then NoFreshNull(base[k].fields, patch.fields[k]) else NullFree(patch.fields[k])
  }

  // ---- applying a patch twice ----

  /** An object merged into itself is itself exactly when it holds no null. */
  lemma {:induction false} SelfMerge(p: Json)
    requires p.Obj?
    ensures Merge(p.fields, p) == p.fields <==> NullFree(p)
    decreases p
  {
    forall k | k in p.fields && p.fields[k].Obj?
      ensures Merge(p.fields[k].fields, p.fields[k]) == p.fields[k].fields <==> NullFree(p.fields[k])
    {
      SelfMerge(p.fields[k]);
    }
    forall k ensures Get(Merge(p.fields, p), k) == Get(p.fields, k) <==> (k in p.fields ==> NullFree(p.fields[k])) {
      MergeAt(p.fields, p, k);
    }
    if NullFree(p) {
      SameFields(Merge(p.fields, p), p.fields);
    }
  }

  /** A patch applied twice is a patch applied once exactly when no object it adds holds a null. */
  lemma {:induction false} Idempotent(base: Fields, p: Json)
    requires p.Obj?
    ensures Merge(Merge(base, p), p) == Merge(base, p) <==> NoFreshNull(base, p)
    decreases p
  {
    hide Merge;
    var once := Merge(base, p);
    forall k ensures Get(Merge(once, p), k) == Get(once, k) <==> FreshAt(base, p, k) {
      MergeAt(base, p, k);
      MergeAt(once, p, k);
      if k in p.fields && p.fields[k].Obj? {
        if k in base && base[k].Obj? {
          Idempotent(base[k].fields, p.fields[k]);
        } else {
          SelfMerge(p.fields[k]);
        }
      }
    }
    FreshKeys(base, p);
    if k :| !FreshAt(base, p, k) {
      assert Get(Merge(once, p), k) != Get(once, k);
    } else {
      forall k ensures Get(Merge(once, p), k) == Get(once, k) { assert FreshAt(base, p, k); }
      SameFields(Merge(once, p), once);
    }
  }

  /** `NoFreshNull` at one key. */
  ghost predicate FreshAt(base: Fields, p: Json, k: Id)
    requires p.Obj?
  {
    k in p.fields && p.fields[k].Obj? ==>
      if k in base && base[k].Obj? then NoFreshNull(base[k].fields, p.fields[k]) else NullFree(p.fields[k])
  }

  lemma FreshKeys(base: Fields, p: Json)
    requires p.Obj?
    ensures NoFreshNull(base, p) <==> forall k :: FreshAt(base, p, k)
  {
    if NoFreshNull(base, p) {
      forall k ensures FreshAt(base, p, k) {}
    } else {
      var k :| k in p.fields && p.fields[k].Obj? &&
               !if k in base && base[k].Obj? then NoFreshNull(base[k].fields, p.fields[k]) else NullFree(p.fields[k]);
      assert !FreshAt(base, p, k);
    }
  }

  // ---- RFC 7386 ----

  /** MergePatch of section 2 of RFC 7386, for a patch that is an object; `target` is what there is, if anything. */
  function MergePatch(target: Option<Json>, patch: Json): (r: Json)
    decreases patch
  {
    if !patch.Obj? then patch
    else
      var base: Fields := if target.Some? && target.value.Obj? then target.value.fields else map[];
      Obj(map k | k in base.Keys + patch.fields.Keys && !Deletes(patch, k) ::
            if k in patch.fields then MergePatch(Get(base, k), patch.fields[k]) else base[k])
  }

  lemma MergePatchAt(base: Fields, p: Json, k: Id)
    requires p.Obj?
    ensures MergePatch(Some(Obj(base)), p).Obj?
    ensures Get(MergePatch(Some(Obj(base)), p).fields, k) ==
            if k !in p.fields then Get(base, k)
            else if p.fields[k].Null? then None
            else Some(MergePatch(Get(base, k), p.fields[k]))
  {}

  lemma NoTarget(t: Option<Json>, p: Json)
    requires p.Obj? && !(t.Some? && t.value.Obj?)
    ensures MergePatch(t, p) == MergePatch(Some(Obj(map[])), p)
  {}

  /** A fresh object is added as it stands exactly when it holds no null. */
  lemma {:induction false} FreshObject(t: Option<Json>, p: Json)
    requires p.Obj? && !(t.Some? && t.value.Obj?)
    ensures MergePatch(t, p) == p <==> NullFree(p)
    decreases p
  {
    hide MergePatch;
    NoTarget(t, p);
    var r := MergePatch(Some(Obj(map[])), p);
    MergePatchAt(map[], p, Id(""));
    forall k ensures Get(r.fields, k) == Get(p.fields, k) <==> (k in p.fields ==> NullFree(p.fields[k])) {
      MergePatchAt(map[], p, k);
      if k in p.fields {
        if p.fields[k].Obj? { FreshObject(None, p.fields[k]); } else { NotAnObject(None, p.fields[k]); }
      }
    }
    if NullFree(p) {
      SameFields(r.fields, p.fields);
    }
  }

  lemma NotAnObject(t: Option<Json>, p: Json)
    requires !p.Obj?
    ensures MergePatch(t, p) == p
  {}

  /** The merge is the JSON Merge Patch of RFC 7386 exactly when no object it adds holds a null. */
  lemma {:induction false} IsMergePatch(base: Fields, p: Json)
    requires p.Obj?
    ensures MergePatch(Some(Obj(base)), p) == Obj(Merge(base, p)) <==> NoFreshNull(base, p)
    decreases p
  {
    hide MergePatch, Merge;
    var r := MergePatch(Some(Obj(base)), p);
    MergePatchAt(base, p, Id(""));
    forall k ensures Get(r.fields, k) == Get(Merge(base, p), k) <==> FreshAt(base, p, k) {
      MergePatchAt(base, p, k);
      MergeAt(base, p, k);
      if k in p.fields {
        if !p.fields[k].Obj? {
          NotAnObject(Get(base, k), p.fields[k]);
        } else if k in base && base[k].Obj? {
          IsMergePatch(base[k].fields, p.fields[k]);
        } else {
          FreshObject(Get(base, k), p.fields[k]);
        }
      }
    }
    FreshKeys(base, p);
    if k :| !FreshAt(base, p, k) {
      assert Get(r.fields, k) != Get(Merge(base, p), k);
    } else {
      forall k ensures Get(r.fields, k) == Get(Merge(base, p), k) { assert FreshAt(base, p, k); }
      SameFields(r.fields, Merge(base, p));
    }
  }

  // ---- layering ----

  /** The patch already says everything the object does: merging it on top leaves just the patch. */
  ghost predicate Absorbed(y: Fields, p: Json)
    requires p.Obj?
    decreases p
  {
    && (forall k :: k in y ==> k in p.fields)
    && (forall k :: k in y && k in p.fields && y[k].Obj? && p.fields[k].Obj? ==> Absorbed(y[k].fields, p.fields[k]))
  }

  /**
   At no path are YAML and patch objects while the override is something else, unless the patch says everything
   the YAML does there.
   */
  ghost predicate Coherent(y: Fields, o: Json, p: Json)
    requires o.Obj? && p.Obj?
    decreases p
  {
    forall k :: k in p.fields && k in o.fields && k in y && p.fields[k].Obj? && y[k].Obj? ==>
      if o.fields[k].Obj? then Coherent(y[k].fields, o.fields[k], p.fields[k]) else Absorbed(y[k].fields, p.fields[k])
  }

  /** `Coherent` at one key. */
  ghost predicate CoherentAt(y: Fields, o: Json, p: Json, k: Id)
    requires o.Obj? && p.Obj?
  {
    k in p.fields && k in o.fields && k in y && p.fields[k].Obj? && y[k].Obj? ==>
      if o.fields[k].Obj? then Coherent(y[k].fields, o.fields[k], p.fields[k]) else Absorbed(y[k].fields, p.fields[k])
  }

  lemma CoherentKeys(y: Fields, o: Json, p: Json)
    requires o.Obj? && p.Obj?
    ensures Coherent(y, o, p) <==> forall k :: CoherentAt(y, o, p, k)
  {
    if Coherent(y, o, p) {
      forall k ensures CoherentAt(y, o, p, k) {}
    } else {
      var k :| k in p.fields && k in o.fields && k in y && p.fields[k].Obj? && y[k].Obj? &&
               !if o.fields[k].Obj? then Coherent(y[k].fields, o.fields[k], p.fields[k])
                else Absorbed(y[k].fields, p.fields[k]);
      assert !CoherentAt(y, o, p, k);
    }
  }

  lemma {:induction false} AbsorbedExactly(y: Fields, p: Json)
    requires p.Obj? && NullFree(p)
    ensures Merge(y, p) == p.fields <==> Absorbed(y, p)
    decreases p
  {
    hide Merge;
    forall k
      ensures Get(Merge(y, p), k) == Get(p.fields, k) <==>
              (k in y ==> k in p.fields && (y[k].Obj? && p.fields[k].Obj? ==> Absorbed(y[k].fields, p.fields[k])))
    {
      MergeAt(y, p, k);
      if k in y && k in p.fields && y[k].Obj? && p.fields[k].Obj? {
        AbsorbedExactly(y[k].fields, p.fields[k]);
      }
    }
    if Absorbed(y, p) {
      SameFields(Merge(y, p), p.fields);
    }
  }

  /**
   Merging the patch into the override and that into the YAML is merging the patch into the merge of the two exactly
   for coherent values, none of which holds a null.
   */
  lemma {:induction false} Layering(y: Fields, o: Json, p: Json)
    requires o.Obj? && p.Obj? && NullFree(o) && NullFree(p)
    ensures Merge(y, Obj(Merge(o.fields, p))) == Merge(Merge(y, o), p) <==> Coherent(y, o, p)
    decreases p
  {
    hide Merge;
    var a, b := Merge(y, Obj(Merge(o.fields, p))), Merge(Merge(y, o), p);
    forall k ensures Get(a, k) == Get(b, k) <==> CoherentAt(y, o, p, k) {
      MergeAt(o.fields, p, k);
      MergeAt(y, Obj(Merge(o.fields, p)), k);
      MergeAt(y, o, k);
      MergeAt(Merge(y, o), p, k);
      if k in p.fields && k in o.fields && p.fields[k].Obj? {
        if o.fields[k].Obj? {
          if k in y && y[k].Obj? {
            Layering(y[k].fields, o.fields[k], p.fields[k]);
          }
        } else if k in y && y[k].Obj? {
          AbsorbedExactly(y[k].fields, p.fields[k]);
        }
      }
    }
    CoherentKeys(y, o, p);
    if k :| !CoherentAt(y, o, p, k) {
      assert Get(a, k) != Get(b, k);
    } else {
      forall k ensures Get(a, k) == Get(b, k) { assert CoherentAt(y, o, p, k); }
      SameFields(a, b);
    }
  }

  /**
   A patch that adds an object with a null: applied twice it is another one, and RFC 7386 would have dropped the null.
   */
  lemma FreshNullStays(k: Id, j: Id)
    ensures var p := Obj(map[k := Obj(map[j := Null])]);
            && Merge(Merge(map[], p), p) != Merge(map[], p)
            && MergePatch(Some(Obj(map[])), p) != Obj(Merge(map[], p))
  {
    hide Merge, MergePatch;
    var inner := Obj(map[j := Null]);
    var p := Obj(map[k := inner]);
    assert j in inner.fields && !NullFree(inner);
    assert k in p.fields && !NoFreshNull(map[], p);
    Idempotent(map[], p);
    IsMergePatch(map[], p);
  }

  /**
   An override that replaces a section by a value, and a patch that makes it an object again: what the YAML had is
   back.
   */
  lemma ValueOverrideIsForgotten(k: Id, a: Id, b: Id, v: Json)
    requires a != b && v.Scalar?
    ensures var y, o, p := map[k := Obj(map[a := v])], Obj(map[k := v]), Obj(map[k := Obj(map[b := v])]);
            NullFree(o) && NullFree(p) && Merge(y, Obj(Merge(o.fields, p))) != Merge(Merge(y, o), p)
  {
    hide Merge;
    var y, o, p := map[k := Obj(map[a := v])], Obj(map[k := v]), Obj(map[k := Obj(map[b := v])]);
    assert a in y[k].fields && !Absorbed(y[k].fields, p.fields[k]);
    assert k in p.fields && !Coherent(y, o, p);
    Layering(y, o, p);
  }

  // ---- what a null restores ----

  /** A null for a section removes its override, and the YAML value applies again, whatever the override was. */
  lemma NullRestores(y: Fields, o: Fields, p: Json, k: Id)
    requires p.Obj? && Deletes(p, k)
    ensures Get(Merge(y, Obj(Merge(o, p))), k) == Get(y, k)
  {
    MergeAt(o, p, k);
    MergeAt(y, Obj(Merge(o, p)), k);
  }

  /** What stands at a path of keys, if anything. */
  function At(f: Fields, path: seq<Id>): Option<Json>
    requires path != []
    decreases |path|
  {
    if path[0] !in f then None
    else if |path| == 1 then Some(f[path[0]])
    else if f[path[0]].Obj? then At(f[path[0]].fields, path[1..])
    else None
  }

  /** There are objects all the way down to the last key of the path. */
  predicate Reaches(f: Fields, path: seq<Id>)
    requires path != []
    decreases |path|
  {
    |path| == 1 || (path[0] in f && f[path[0]].Obj? && Reaches(f[path[0]].fields, path[1..]))
  }

  /** Merged once, a null deletes what it reaches; where it reaches nothing it is stored as a value. */
  lemma {:induction false} MergedNull(base: Fields, p: Json, path: seq<Id>)
    requires p.Obj? && path != [] && At(p.fields, path) == Some(Null)
    ensures At(Merge(base, p), path) == if Reaches(base, path) then None else Some(Null)
    decreases |path|
  {
    hide Merge;
    var k := path[0];
    MergeAt(base, p, k);
    if |path| > 1 && k in base && base[k].Obj? {
      MergedNull(base[k].fields, p.fields[k], path[1..]);
    }
  }

  /** The patch says nothing about the path: following it ends at an object without the next key. */
  predicate Silent(p: Fields, path: seq<Id>)
    requires path != []
    decreases |path|
  {
    path[0] !in p || (|path| > 1 && p[path[0]].Obj? && Silent(p[path[0]].fields, path[1..]))
  }

  predicate Value(v: Option<Json>) {
    v.Some? && !v.value.Obj? && !v.value.Null?
  }

  /**
   Where the patch is silent the base stays, a value of the patch replaces what was there, and nothing is below it.
   */
  lemma {:induction false} MergedValue(base: Fields, p: Fields, path: seq<Id>)
    requires path != []
    ensures Silent(p, path) ==> At(Merge(base, Obj(p)), path) == At(base, path)
    ensures Value(At(p, path)) ==> At(Merge(base, Obj(p)), path) == At(p, path)
    ensures forall n :: 0 < n < |path| && Value(At(p, path[..n])) ==> At(Merge(base, Obj(p)), path) == None
    decreases |path|
  {
    hide Merge;
    var k := path[0];
    MergeAt(base, Obj(p), k);
    if |path| > 1 && k in p && p[k].Obj? {
      var rest := path[1..];
      if k in base && base[k].Obj? {
        MergedValue(base[k].fields, p[k].fields, rest);
      } else {
        SilentIsAbsent(p[k].fields, rest);
        NothingBelow(p[k].fields, rest);
      }
      forall n | 0 < n < |path| && Value(At(p, path[..n])) ensures n > 1 && Value(At(p[k].fields, rest[..n - 1])) {
        assert path[..n][1..] == rest[..n - 1];
      }
    } else {
      forall n | 0 < n < |path| && Value(At(p, path[..n])) ensures k in p && Value(Some(p[k])) {}
    }
  }

  lemma {:induction false} SilentIsAbsent(p: Fields, path: seq<Id>)
    requires path != []
    ensures Silent(p, path) ==> At(p, path) == None
    decreases |path|
  {
    if |path| > 1 && path[0] in p && p[path[0]].Obj? {
      SilentIsAbsent(p[path[0]].fields, path[1..]);
    }
  }

  lemma {:induction false} NothingBelow(p: Fields, path: seq<Id>)
    requires path != []
    ensures forall n :: 0 < n < |path| && Value(At(p, path[..n])) ==> At(p, path) == None
    decreases |path|
  {
    if |path| > 1 && path[0] in p && p[path[0]].Obj? {
      NothingBelow(p[path[0]].fields, path[1..]);
      forall n | 0 < n < |path| && Value(At(p, path[..n]))
        ensures n > 1 && Value(At(p[path[0]].fields, path[1..][..n - 1]))
      {
        assert path[..n][1..] == path[1..][..n - 1];
      }
    }
  }

  lemma {:induction false} BothSilent(o: Fields, p: Fields, path: seq<Id>)
    requires path != [] && Silent(o, path) && Silent(p, path)
    ensures Silent(Merge(o, Obj(p)), path)
    decreases |path|
  {
    hide Merge;
    var k := path[0];
    MergeAt(o, Obj(p), k);
    if k in p && k in o && o[k].Obj? {
      BothSilent(o[k].fields, p[k].fields, path[1..]);
    }
  }

  /**
   A null anywhere in a patch restores the YAML value there exactly when the override holds objects down to that key,
   or the YAML does and has nothing there. Otherwise the null itself is stored: it makes the key vanish from what is
   served where the YAML has it, and is served where the YAML has no such section.
   */
  lemma {:induction false} NestedNullRestores(y: Fields, o: Fields, p: Json, path: seq<Id>)
    requires p.Obj? && path != [] && At(p.fields, path) == Some(Null)
    ensures var eff := Merge(y, Obj(Merge(o, p)));
            && (At(eff, path) == At(y, path) <==> Reaches(o, path) || (Reaches(y, path) && At(y, path).None?))
            && (!Reaches(o, path) ==> At(eff, path) == if Reaches(y, path) then None else Some(Null))
    decreases |path|
  {
    hide Merge;
    var k := path[0];
    MergeAt(o, p, k);
    MergeAt(y, Obj(Merge(o, p)), k);
    var eff := Merge(y, Obj(Merge(o, p)));
    if |path| == 1 {
      NullRestores(y, o, p, k);
      return;
    }
    assert At(p.fields, path) == At(p.fields[k].fields, path[1..]);
    assert Get(eff, k).Some? && eff[k].Obj?;
    assert At(eff, path) == At(eff[k].fields, path[1..]);
    var rest := path[1..];
    if k in o && o[k].Obj? {
      if k in y && y[k].Obj? {
        NestedNullRestores(y[k].fields, o[k].fields, p.fields[k], rest);
        assert eff[k].fields == Merge(y[k].fields, Obj(Merge(o[k].fields, p.fields[k])));
      } else {
        MergedNull(o[k].fields, p.fields[k], rest);
        assert eff[k].fields == Merge(o[k].fields, p.fields[k]);
      }
    } else if k in y && y[k].Obj? {
      MergedNull(y[k].fields, p.fields[k], rest);
      assert eff[k].fields == Merge(y[k].fields, p.fields[k]);
      assert At(eff, path) == if Reaches(y[k].fields, rest) then None else Some(Null);
      ReachesPresent(y, path);
    } else {
      assert eff[k] == p.fields[k];
    }
  }

  /** A null for one fare, in a patch of a city whose fares were never overridden: the fare is gone. */
  lemma NullVanishes(fares: Id, fare: Id, price: Json)
    ensures var y, p := map[fares := Obj(map[fare := price])], Obj(map[fares := Obj(map[fare := Null])]);
            At(y, [fares, fare]) == Some(price) && At(Merge(y, Obj(Merge(map[], p))), [fares, fare]) == None
  {
    hide Merge;
    var y, p, path := map[fares := Obj(map[fare := price])], Obj(map[fares := Obj(map[fare := Null])]), [fares, fare];
    assert path[1..] == [fare];
    assert At(p.fields, path) == At(map[fare := Null], [fare]) && At(y, path) == At(map[fare := price], [fare]);
    NestedNullRestores(y, map[], p, path);
  }

  lemma {:induction false} ReachesPresent(f: Fields, path: seq<Id>)
    requires path != []
    ensures At(f, path).Some? ==> Reaches(f, path)
    decreases |path|
  {
    if |path| > 1 && path[0] in f && f[path[0]].Obj? {
      ReachesPresent(f[path[0]].fields, path[1..]);
    }
  }

  // ---- the loop as it is written ----

  method DeepMerge(base: Fields, patch: Json) returns (out: Fields)
    requires patch.Obj?
    ensures out == Merge(base, patch)
    decreases patch
  {
    hide Merge;
    out := base;
    var todo := patch.fields.Keys;
    forall k | k !in todo ensures Get(Merge(base, patch), k) == Get(base, k) {
      MergeAt(base, patch, k);
    }
    while todo != {}
      invariant todo <= patch.fields.Keys
      invariant forall k :: Get(out, k) == if k in todo then Get(base, k) else Get(Merge(base, patch), k)
      decreases |todo|
    {
      var k :| k in todo;
      MergeAt(base, patch, k);
      assert Get(out, k) == Get(base, k);
      var v := patch.fields[k];
      ghost var was := out;
      if v.Null? {
        out := out - {k};
      } else if v.Obj? && k in out && out[k].Obj? {
        var inner := DeepMerge(out[k].fields, v);
        out := out[k := Obj(inner)];
      } else {
        out := out[k := v];
      }
      todo := todo - {k};
      forall i ensures Get(out, i) == if i in todo then Get(base, i) else Get(Merge(base, patch), i) {
        assert Get(was, i) == if i in todo || i == k then Get(base, i) else Get(Merge(base, patch), i);
      }
    }
    SameFields(out, Merge(base, patch));
  }
}
