/** JSON values, and the recursive merge used for configuration, runtime patches and the json_merge tool. */
module JsonMerge {
  import opened PyLists

  /** Lists are opaque to merging; a number stands for any scalar. */
  datatype Json = Null | Bool(b: bool) | Num(n: int) | Str(s: string) | Arr(items: seq<Json>)
    | Obj(fields: map<string, Json>)

  /** Overlay wins on every conflict; two objects merge key by key. */
  function Merge(base: Json, overlay: Json): Json {
    if base.Obj? && overlay.Obj? then
      Obj(map k | k in base.fields.Keys + overlay.fields.Keys ::
        if k !in overlay.fields then base.fields[k]
        else if k !in base.fields then overlay.fields[k]
        else Merge(base.fields[k], overlay.fields[k]))
    else overlay
  }

  // ----- the implementations

  /** `_deep_merge`: recurses whenever the key is present, whatever the values. */
  method DeepMerge(base: Json, overlay: Json) returns (merged: Json)
    ensures merged == Merge(base, overlay)
    decreases overlay
  {
    if base.Obj? && overlay.Obj? {
      var out := base.fields;
      var rest := overlay.fields.Keys;
      while rest != {}
        invariant rest <= overlay.fields.Keys
        invariant out.Keys == base.fields.Keys + (overlay.fields.Keys - rest)
        invariant forall k :: k in out ==>
          out[k] == if k in overlay.fields && k !in rest then Merge(base, overlay).fields[k] else base.fields[k]
      {
        var k :| k in rest;
        var v := overlay.fields[k];
        if k in base.fields {
          v := DeepMerge(base.fields[k], v);
        }
        out := out[k := v];
        rest := rest - {k};
      }
      return Obj(out);
    }
    return overlay;
  }

  /** `_merge_dicts`: recurses only when both values are dictionaries, and otherwise assigns. */
  method MergeDicts(base: map<string, Json>, overlay: map<string, Json>) returns (out: map<string, Json>)
    ensures Obj(out) == Merge(Obj(base), Obj(overlay))
    decreases Obj(overlay)
  {
    out := base;
    var rest := overlay.Keys;
    ghost var merged := Merge(Obj(base), Obj(overlay)).fields;
    while rest != {}
      invariant rest <= overlay.Keys
      invariant out.Keys == base.Keys + (overlay.Keys - rest)
      invariant forall k :: k in out ==> out[k] == if k in overlay && k !in rest then merged[k] else base[k]
    {
      var k :| k in rest;
      var v := overlay[k];
      assert merged[k] == if k in base then Merge(base[k], v) else v;
      if v.Obj? && k in out && out[k].Obj? {
        assert Obj(v.fields) == v && v < Obj(overlay);
        var inner := MergeDicts(out[k].fields, v.fields);
        out := out[k := Obj(inner)];
      } else {
        out := out[k := v];
      }
      rest := rest - {k};
    }
  }

  // ----- what merging means, path by path

  /** The value reached by following object keys; lists are not entered. */
  function Lookup(j: Json, path: seq<string>): Option<Json>
    decreases |path|
  {
    if path == [] then Some(j)
    else if j.Obj? && path[0] in j.fields then Lookup(j.fields[path[0]], path[1..])
    else None
  }

  /** A proper prefix of `path` leads, in `j`, to a value that is not an object. */
  ghost predicate Cuts(j: Json, path: seq<string>) {
    exists i {:trigger Lookup(j, path[..i])} ::
      0 <= i < |path| && Lookup(j, path[..i]).Some? && !Lookup(j, path[..i]).value.Obj?
  }

  lemma LookupPrefix(j: Json, path: seq<string>, i: nat)
    requires 0 < i <= |path| && j.Obj?
    ensures path[..i][0] == path[0] && path[..i][1..] == path[1..][..i - 1]
    ensures Lookup(j, path[..i]) == if path[0] in j.fields then Lookup(j.fields[path[0]], path[1..][..i - 1]) else None
  {
  }

  /** Cutting below the first key. */
  lemma CutsBelow(j: Json, path: seq<string>)
    requires path != [] && j.Obj?
    ensures Cuts(j, path) <==> path[0] in j.fields && Cuts(j.fields[path[0]], path[1..])
  {
    if Cuts(j, path) {
      var i :| 0 <= i < |path| && Lookup(j, path[..i]).Some? && !Lookup(j, path[..i]).value.Obj?;
      if i > 0 {
        LookupPrefix(j, path, i);
        assert Lookup(j.fields[path[0]], path[1..][..i - 1]).Some?;
      }
    }
    if path[0] in j.fields && Cuts(j.fields[path[0]], path[1..]) {
      var child := j.fields[path[0]];
      var i :| 0 <= i < |path[1..]| && Lookup(child, path[1..][..i]).Some? && !Lookup(child, path[1..][..i]).value.Obj?;
      LookupPrefix(j, path, i + 1);
      assert Lookup(j, path[..i + 1]).Some?;
    }
  }

  /** What is there is not cut off. */
  lemma {:induction false} NotCutWhereFound(j: Json, path: seq<string>)
    requires Lookup(j, path).Some?
    ensures !Cuts(j, path)
    decreases |path|
  {
    if path != [] {
      CutsBelow(j, path);
      NotCutWhereFound(j.fields[path[0]], path[1..]);
    }
  }

  /**
   The merge at every path: where the overlay has a value it wins, merged with the base value if there is one;
   where it has none, the base shows through, unless the overlay cuts the path off with a non-object.
   */
  ghost function MergedAt(base: Json, overlay: Json, path: seq<string>): Option<Json> {
    match (Lookup(base, path), Lookup(overlay, path))
    case (Some(u), Some(v)) => Some(Merge(u, v))
    case (None, Some(v)) => Some(v)
    case (u, None) => if Cuts(overlay, path) then None else u
  }

  lemma {:induction false} MergeAtPath(base: Json, overlay: Json, path: seq<string>)
    ensures Lookup(Merge(base, overlay), path) == MergedAt(base, overlay, path)
    decreases |path|
  {
    if path != [] {
      if !overlay.Obj? {
        assert Lookup(overlay, path[..0]).Some?;
      } else {
        CutsBelow(overlay, path);
        if base.Obj? && path[0] in base.fields && path[0] in overlay.fields {
          MergeAtPath(base.fields[path[0]], overlay.fields[path[0]], path[1..]);
        }
      }
    }
  }

  // ----- algebra

  lemma {:induction false} MergeSelf(j: Json)
    ensures Merge(j, j) == j
  {
    if j.Obj? {
      forall k | k in j.fields
        ensures Merge(j.fields[k], j.fields[k]) == j.fields[k]
      {
        MergeSelf(j.fields[k]);
      }
    }
  }

  /** Applying the same overlay again changes nothing. */
  lemma {:induction false} MergeIdempotent(a: Json, b: Json)
    ensures Merge(Merge(a, b), b) == Merge(a, b)
    decreases b
  {
    MergeSelf(b);
    if a.Obj? && b.Obj? {
      var m := Merge(a, b);
      forall k | k in b.fields
        ensures Merge(m.fields[k], b.fields[k]) == m.fields[k]
      {
        if k in a.fields {
          MergeIdempotent(a.fields[k], b.fields[k]);
        } else {
          MergeSelf(b.fields[k]);
        }
      }
      assert Merge(m, b).fields == m.fields;
    }
  }

  /** Every object of `x` has its counterpart in `z`, key for key. */
  predicate Covers(z: Json, x: Json)
    decreases x
  {
    x.Obj? && z.Obj? ==> forall k :: k in x.fields ==> k in z.fields && Covers(z.fields[k], x.fields[k])
  }

  /** An overlay replaces a base entirely exactly when it covers it. */
  lemma {:induction false} ReplacesIffCovers(x: Json, z: Json)
    ensures Merge(x, z) == z <==> Covers(z, x)
    decreases x
  {
    if x.Obj? && z.Obj? {
      forall k | k in x.fields && k in z.fields
        ensures Merge(x.fields[k], z.fields[k]) == z.fields[k] <==> Covers(z.fields[k], x.fields[k])
      {
        ReplacesIffCovers(x.fields[k], z.fields[k]);
      }
      var m := Merge(x, z).fields;
      if Covers(z, x) {
        assert m == z.fields;
      }
      if m == z.fields {
        assert m.Keys == z.fields.Keys;
      }
    }
  }

  /** The grouping of three layers matters at `path`: `a` and `c` hold objects there, and `b` something else. */
  ghost predicate GapAt(a: Json, b: Json, c: Json, path: seq<string>) {
    && Lookup(a, path).Some? && Lookup(a, path).value.Obj?
    && Lookup(b, path).Some? && !Lookup(b, path).value.Obj?
    && Lookup(c, path).Some? && Lookup(c, path).value.Obj?
  }

  /** Wherever `b` replaces an object of `a` that `c` turns back into an object, `c` mentions everything `a` had. */
  ghost predicate GapsCovered(a: Json, b: Json, c: Json) {
    forall path :: GapAt(a, b, c, path) ==> Covers(Lookup(c, path).value, Lookup(a, path).value)
  }

  lemma GapsCoveredBelow(a: Json, b: Json, c: Json)
    requires a.Obj? && b.Obj? && c.Obj?
    ensures GapsCovered(a, b, c) <==>
      forall k :: k in a.fields && k in b.fields && k in c.fields ==> GapsCovered(a.fields[k], b.fields[k], c.fields[k])
  {
    if GapsCovered(a, b, c) {
      forall k, path | k in a.fields && k in b.fields && k in c.fields
        && GapAt(a.fields[k], b.fields[k], c.fields[k], path)
        ensures Covers(Lookup(c.fields[k], path).value, Lookup(a.fields[k], path).value)
      {
        assert ([k] + path)[1..] == path;
        assert GapAt(a, b, c, [k] + path);
      }
    }
    if forall k :: k in a.fields && k in b.fields && k in c.fields ==>
      GapsCovered(a.fields[k], b.fields[k], c.fields[k]) {
      forall path | GapAt(a, b, c, path)
        ensures Covers(Lookup(c, path).value, Lookup(a, path).value)
      {
        assert path != [];
        var k := path[0];
        assert GapAt(a.fields[k], b.fields[k], c.fields[k], path[1..]);
      }
    }
  }

  lemma NoGapOutsideObjects(a: Json, b: Json, c: Json)
    requires !(a.Obj? && c.Obj?)
    ensures GapsCovered(a, b, c) && Merge(a, Merge(b, c)) == Merge(Merge(a, b), c)
  {
    if !a.Obj? && b.Obj? && c.Obj? {
      assert Merge(a, Merge(b, c)) == Merge(b, c) == Merge(Merge(a, b), c);
    }
  }

  lemma GapAtRoot(a: Json, b: Json, c: Json)
    requires a.Obj? && !b.Obj? && c.Obj?
    ensures GapsCovered(a, b, c) <==> Covers(c, a)
  {
    assert GapAt(a, b, c, []);
    assert forall path :: GapAt(a, b, c, path) ==> path == [];
  }

  /** Three layers can be merged in either grouping. */
  ghost predicate Regroups(a: Json, b: Json, c: Json) {
    Merge(a, Merge(b, c)) == Merge(Merge(a, b), c)
  }

  lemma NestedKeys(a: Json, b: Json, c: Json, k: string)
    requires a.Obj? && b.Obj? && c.Obj?
    ensures var left, right := Merge(a, Merge(b, c)).fields, Merge(Merge(a, b), c).fields;
      && (k in left <==> k in right)
      && (k in left ==>
            (left[k] == right[k] <==> k in a.fields && k in b.fields && k in c.fields ==>
             Regroups(a.fields[k], b.fields[k], c.fields[k])))
  {
  }

  lemma RegroupsByKey(a: Json, b: Json, c: Json)
    requires a.Obj? && b.Obj? && c.Obj?
    ensures Regroups(a, b, c) <==>
      forall k :: k in a.fields && k in b.fields && k in c.fields ==> Regroups(a.fields[k], b.fields[k], c.fields[k])
  {
    var left, right := Merge(a, Merge(b, c)).fields, Merge(Merge(a, b), c).fields;
    forall k
      ensures k in left <==> k in right
      ensures k in left ==>
            (left[k] == right[k] <==> k in a.fields && k in b.fields && k in c.fields ==>
             Regroups(a.fields[k], b.fields[k], c.fields[k]))
      ensures k in a.fields ==> k in left
    {
      NestedKeys(a, b, c, k);
    }
    assert left == right <==> forall k :: k in left ==> left[k] == right[k];
  }

  /** Regrouping three layers is harmless exactly when their gaps are covered. */
  lemma {:induction false} MergeAssociative(a: Json, b: Json, c: Json)
    ensures Regroups(a, b, c) <==> GapsCovered(a, b, c)
    decreases a
  {
    if !(a.Obj? && c.Obj?) {
      NoGapOutsideObjects(a, b, c);
    } else if !b.Obj? {
      ReplacesIffCovers(a, c);
      GapAtRoot(a, b, c);
    } else {
      GapsCoveredBelow(a, b, c);
      RegroupsByKey(a, b, c);
      forall k | k in a.fields && k in b.fields && k in c.fields
        ensures Regroups(a.fields[k], b.fields[k], c.fields[k]) <==> GapsCovered(a.fields[k], b.fields[k], c.fields[k])
      {
        MergeAssociative(a.fields[k], b.fields[k], c.fields[k]);
      }
    }
  }

  /** The merge is not associative in general, even on dictionaries. */
  lemma MergeNotAssociative()
    ensures !Regroups(Obj(map["k" := Obj(map["x" := Null])]), Obj(map["k" := Null]), Obj(map["k" := Obj(map[])]))
  {
    var a, b, c := Obj(map["x" := Null]), Null, Obj(map[]);
    assert "x" in Merge(a, Merge(b, c)).fields && !Regroups(a, b, c);
    var first, middle, last := Obj(map["k" := a]), Obj(map["k" := b]), Obj(map["k" := c]);
    RegroupsByKey(first, middle, last);
    assert "k" in first.fields && !Regroups(first.fields["k"], middle.fields["k"], last.fields["k"]);
  }
}
