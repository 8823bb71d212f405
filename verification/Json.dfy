/** JSON values as an algebraic datatype, and the deep merge that aggregates are built with. */
module Json {
  import opened Wrappers

  datatype Value =
    | Null
    | Bool(b: bool)
    | Number(n: real)
    | Text(s: string)
    | Array(items: seq<Value>)
    | Object(fields: map<string, Value>)

  const EMPTY_OBJECT: Value := Object(map[])

  /** The value found under `k`, with `Null` standing in for a missing entry. */
  function FieldOrNull(m: map<string, Value>, k: string): Value {
    if k in m then m[k] else Null
  }

  /** What `base` becomes when `update` is merged into it. */
  function Merge(base: Value, update: Value): Value
    decreases update
  {
    if base.Object? && update.Object? then
      Object(map k | k in base.fields.Keys + update.fields.Keys ::
        if k in update.fields then Merge(FieldOrNull(base.fields, k), update.fields[k]) else base.fields[k])
    else
      update
  }

  /** The recursive in-place merge. The fields of `update` are visited in whatever order the map yields them. */
  method DeepMerge(base: Value, update: Value) returns (merged: Value)
    ensures merged == Merge(base, update)
    decreases update
  {
    if base.Object? && update.Object? {
      var fields := base.fields;
      var left := update.fields.Keys;
      while left != {}
        invariant left <= update.fields.Keys
        invariant fields.Keys == base.fields.Keys + (update.fields.Keys - left)
        invariant forall k :: k in fields ==>
          fields[k] == if k in update.fields && k !in left
                       then Merge(FieldOrNull(base.fields, k), update.fields[k])
                       else base.fields[k]
        decreases left
      {
        var k :| k in left;
        var entry := DeepMerge(FieldOrNull(fields, k), update.fields[k]);
        fields := fields[k := entry];
        left := left - {k};
      }
      merged := Object(fields);
    } else {
      merged := update;
    }
  }

  /** Merging onto the empty object gives the update itself: rebuilding may start from `{}`. */
  lemma {:induction false} MergeOntoEmpty(v: Value)
    ensures Merge(EMPTY_OBJECT, v) == v
  {
    if v.Object? {
      forall k | k in v.fields ensures Merge(EMPTY_OBJECT, v).fields[k] == v.fields[k] {
        assert Merge(Null, v.fields[k]) == v.fields[k];
      }
      assert Merge(EMPTY_OBJECT, v).fields == v.fields;
    }
  }

  /** Merging a value into itself changes nothing, at every depth. */
  lemma {:induction false} MergeWithSelf(v: Value)
    ensures Merge(v, v) == v
    decreases v
  {
    if v.Object? {
      forall k | k in v.fields ensures Merge(v, v).fields[k] == v.fields[k] {
        MergeWithSelf(v.fields[k]);
      }
      assert Merge(v, v).fields == v.fields;
    }
  }

  /** Merging the same update a second time changes nothing, at every depth. */
  lemma {:induction false} MergeTwice(base: Value, update: Value)
    ensures Merge(Merge(base, update), update) == Merge(base, update)
    decreases update
  {
    if base.Object? && update.Object? {
      var once := Merge(base, update);
      forall k | k in once.fields ensures Merge(once, update).fields[k] == once.fields[k] {
        if k in update.fields {
          MergeTwice(FieldOrNull(base.fields, k), update.fields[k]);
        }
      }
      assert Merge(once, update).fields == once.fields;
    } else {
      MergeWithSelf(update);
    }
  }

  /** A field that the update carries decides the merged field; every other field of the base stays. */
  lemma MergeFields(base: Value, update: Value, k: string)
    requires base.Object? && update.Object?
    ensures var m := Merge(base, update);
            && m.Object?
            && (k in m.fields <==> k in base.fields || k in update.fields)
            && (k in update.fields && !update.fields[k].Object? ==> m.fields[k] == update.fields[k])
            && (k in base.fields && k !in update.fields ==> m.fields[k] == base.fields[k])
  {
  }

  // ---- What is found at a path ----

  /** The value that a path of field names leads to. */
  function At(v: Value, path: seq<string>): Option<Value> {
    if path == [] then Some(v)
    else if v.Object? && path[0] in v.fields then At(v.fields[path[0]], path[1..])
    else None
  }

  /** The update has a non-object somewhere along the path, at either end or between, and so replaces what was there. */
  ghost predicate Decides(update: Value, path: seq<string>) {
    exists n :: 0 <= n <= |path| && At(update, path[..n]).Some? && !At(update, path[..n]).value.Object?
  }

  lemma DecidesBelow(update: Value, path: seq<string>)
    requires update.Object? && path != []
    ensures Decides(update, path) <==> path[0] in update.fields && Decides(update.fields[path[0]], path[1..])
  {
    forall n | 0 < n <= |path| ensures path[..n][1..] == path[1..][..n - 1] { }
    if path[0] in update.fields && Decides(update.fields[path[0]], path[1..]) {
      var below := update.fields[path[0]];
      var n :| 0 <= n <= |path| - 1 && At(below, path[1..][..n]).Some? && !At(below, path[1..][..n]).value.Object?;
      assert At(update, path[..n + 1]) == At(below, path[1..][..n]);
    }
  }

  /**
   * The merge path by path, at every depth: where the update decides, the update is found; where it says
   * nothing, the base is found; where it has an object, so has the result, and longer paths tell its fields.
   */
  lemma {:induction false} MergedAt(base: Value, update: Value, path: seq<string>)
    ensures var found := At(Merge(base, update), path);
      if Decides(update, path) then found == At(update, path)
      else if At(update, path).None? then found == At(base, path)
      else found.Some? && found.value.Object?
    decreases |path|
  {
    if !update.Object? {
      assert At(update, path[..0]).Some?;
    } else if path == [] {
      assert path[..0] == path;
    } else {
      var k := path[0];
      DecidesBelow(update, path);
      if base.Object? && k in update.fields {
        MergedAt(FieldOrNull(base.fields, k), update.fields[k], path[1..]);
      } else if !base.Object? && At(update, path).Some? && !Decides(update, path) {
        assert path[..|path|] == path;
      }
    }
  }

  /**
   * Grouping matters when a non-object stands between two objects: it wipes out the first one when
   * merged from the left, and is itself overwritten when merged from the right.
   */
  lemma MergeDoesNotAssociate()
    ensures var a, b, c := Object(map["x" := Null]), Null, EMPTY_OBJECT;
            Merge(Merge(a, b), c) != Merge(a, Merge(b, c))
  {
    var a, c := Object(map["x" := Null]), EMPTY_OBJECT;
    MergeFields(a, c, "x");
  }
}
