/**
 * Aggregates: one row per (address, key), kept equal to the deep merge of its elements in
 * (time, item_hash) order while messages arrive late, twice, or are forgotten.
 */
module Aggregates {
  import opened Json
  import opened TimeOrder

  datatype AggKey = AggKey(address: string, key: string)

  /** A row of `aggregate_elements`; also the message it is made from. */
  datatype Element = Element(hash: Hash, owner: AggKey, content: Value, time: real)

  /** A row of `aggregates`. */
  datatype Row = Row(content: Value, time: real, lastRevision: Hash, dirty: bool)

  /** Both tables; `elements` in insertion order. */
  datatype Tables = Tables(elements: seq<Element>, aggregates: map<AggKey, Row>)

  function KeyOf(e: Element): SortKey { SortKey(e.time, e.hash) }

  function OwnedBy(k: AggKey): Element -> bool { (e: Element) => e.owner == k }

  function RowsOf(es: seq<Element>, k: AggKey): seq<Element> {
    Filter(OwnedBy(k), es)
  }

  /** `SELECT ... WHERE address = $1 AND key = $2 ORDER BY time ASC, item_hash ASC`. */
  function Ordered(es: seq<Element>, k: AggKey): seq<Element> {
    Sort(KeyOf, RowsOf(es, k))
  }

  /** Deep merge of the contents, oldest first. */
  function Fold(es: seq<Element>): Value {
    if es == [] then EMPTY_OBJECT else Merge(Fold(es[..|es| - 1]), es[|es| - 1].content)
  }

  function FoldRow(es: seq<Element>): Row
    requires es != []
  {
    var last := es[|es| - 1];
    Row(Fold(es), last.time, last.hash, false)
  }

  predicate HasHash(es: seq<Element>, h: Hash) {
    exists i :: 0 <= i < |es| && es[i].hash == h
  }

  // ---- The transitions ----

  function Rebuilt(t: Tables, k: AggKey): Tables {
    var es := Ordered(t.elements, k);
    if es == [] || k !in t.aggregates then t else t.(aggregates := t.aggregates[k := FoldRow(es)])
  }

  function WithElement(es: seq<Element>, m: Element): seq<Element> {
    if HasHash(es, m.hash) then es else es + [m]
  }

  function Processed(t: Tables, m: Element, threshold: nat): Tables {
    var es := WithElement(t.elements, m);
    var k := m.owner;
    if k !in t.aggregates then
      Tables(es, t.aggregates[k := Row(m.content, m.time, m.hash, false)])
    else
      var row := t.aggregates[k];
      if row.dirty then
        Tables(es, t.aggregates)
      else if m.time >= row.time then
        Tables(es, t.aggregates[k := Row(Merge(row.content, m.content), m.time, m.hash, false)])
      else if |RowsOf(es, k)| > threshold then
        Tables(es, t.aggregates[k := row.(dirty := true)])
      else
        Rebuilt(Tables(es, t.aggregates), k)
  }

  function NotHash(h: Hash): Element -> bool { (e: Element) => e.hash != h }

  function WithoutHash(es: seq<Element>, h: Hash): seq<Element> {
    Filter(NotHash(h), es)
  }

  /** The key of the first element stored under `h`. */
  function OwnerOf(es: seq<Element>, h: Hash): (k: AggKey)
    requires HasHash(es, h)
    ensures exists i :: 0 <= i < |es| && es[i].hash == h && es[i].owner == k
  {
    if es[0].hash == h then es[0].owner else
      assert HasHash(es[1..], h) by {
        var i :| 0 <= i < |es| && es[i].hash == h;
        assert es[1..][i - 1] == es[i];
      }
      var k := OwnerOf(es[1..], h);
      assert exists i :: 0 <= i < |es| && es[i].hash == h && es[i].owner == k by {
        var i :| 0 <= i < |es[1..]| && es[1..][i].hash == h && es[1..][i].owner == k;
        assert es[i + 1].hash == h && es[i + 1].owner == k;
      }
      k
  }

  function Forgotten(t: Tables, h: Hash): Tables {
    var rest := Tables(WithoutHash(t.elements, h), t.aggregates);
    if !HasHash(t.elements, h) then rest
    else
      var k := OwnerOf(t.elements, h);
      if RowsOf(rest.elements, k) == [] then rest.(aggregates := t.aggregates - {k})
      else Rebuilt(rest, k)
  }

  // ---- The store itself ----

  class Store {
    var elements: seq<Element>
    var aggregates: map<AggKey, Row>
    /** Element count above which a late message marks the row dirty instead of rebuilding it. */
    const dirtyThreshold: nat

    function Contents(): Tables reads this { Tables(elements, aggregates) }

    constructor (dirtyThreshold: nat)
      ensures Contents() == Tables([], map[]) && this.dirtyThreshold == dirtyThreshold
    {
      elements, aggregates := [], map[];
      this.dirtyThreshold := dirtyThreshold;
    }

    method RebuildFromElements(k: AggKey)
      modifies `aggregates
      ensures Contents() == Rebuilt(old(Contents()), k)
    {
      var es := Ordered(elements, k);
      if es == [] {
        return;
      }
      var merged, latestHash, latestTime := EMPTY_OBJECT, 0, 0.0;
      for i := 0 to |es|
        invariant aggregates == old(aggregates)
        invariant merged == Fold(es[..i])
        invariant i > 0 ==> latestHash == es[i - 1].hash && latestTime == es[i - 1].time
      {
        assert es[..i + 1][..i] == es[..i];
        merged := DeepMerge(merged, es[i].content);
        latestHash, latestTime := es[i].hash, es[i].time;
      }
      assert es[..|es|] == es;
      assert Row(merged, latestTime, latestHash, false) == FoldRow(es);
      if k in aggregates {
        aggregates := aggregates[k := Row(merged, latestTime, latestHash, false)];
      }
    }

    method Process(m: Element)
      modifies this
      ensures Contents() == Processed(old(Contents()), m, dirtyThreshold)
    {
      if !HasHash(elements, m.hash) {
        elements := elements + [m];
      }
      if m.owner !in aggregates {
        aggregates := aggregates[m.owner := Row(m.content, m.time, m.hash, false)];
        return;
      }
      var existing := aggregates[m.owner];
      if existing.dirty {
      } else if m.time >= existing.time {
        var merged := DeepMerge(existing.content, m.content);
        aggregates := aggregates[m.owner := Row(merged, m.time, m.hash, false)];
      } else if |RowsOf(elements, m.owner)| > dirtyThreshold {
        aggregates := aggregates[m.owner := existing.(dirty := true)];
      } else {
        RebuildFromElements(m.owner);
      }
    }

    method Forget(h: Hash)
      modifies this
      ensures Contents() == Forgotten(old(Contents()), h)
    {
      var known := HasHash(elements, h);
      var k := if known then OwnerOf(elements, h) else AggKey("", "");
      elements := WithoutHash(elements, h);
      if known {
        if |RowsOf(elements, k)| == 0 {
          aggregates := aggregates - {k};
        } else {
          RebuildFromElements(k);
        }
      }
    }
  }

  /**
   * The latest element that decides a path decides it in the fold, at every depth: older elements are
   * overwritten there, and later ones that do not mention the path leave it alone.
   */
  lemma {:induction false} LatestDecides(es: seq<Element>, path: seq<string>, i: nat)
    requires i < |es| && Decides(es[i].content, path)
    requires forall j :: i < j < |es| ==> !Decides(es[j].content, path) && At(es[j].content, path).None?
    ensures At(Fold(es), path) == At(es[i].content, path)
  {
    MergedAt(Fold(es[..|es| - 1]), es[|es| - 1].content, path);
    if i < |es| - 1 {
      LatestDecides(es[..|es| - 1], path, i);
    }
  }

  /** A path that no element mentions is not in the fold. */
  lemma {:induction false} NobodyDecides(es: seq<Element>, path: seq<string>)
    requires path != [] && forall j :: 0 <= j < |es| ==> !Decides(es[j].content, path) && At(es[j].content, path).None?
    ensures At(Fold(es), path).None?
  {
    if es != [] {
      MergedAt(Fold(es[..|es| - 1]), es[|es| - 1].content, path);
      NobodyDecides(es[..|es| - 1], path);
    }
  }

  // ---- What every step keeps ----

  ghost predicate DistinctHashes(es: seq<Element>) {
    forall i, j :: 0 <= i < j < |es| ==> es[i].hash != es[j].hash
  }

  ghost predicate RowIsFold(t: Tables, k: AggKey) {
    && (k in t.aggregates <==> RowsOf(t.elements, k) != [])
    && (k in t.aggregates && !t.aggregates[k].dirty && Ordered(t.elements, k) != [] ==>
          t.aggregates[k] == FoldRow(Ordered(t.elements, k)))
  }

  /** A row exists exactly for the keys that have elements, and every clean row is their fold. */
  ghost predicate Consistent(t: Tables) {
    DistinctHashes(t.elements) && forall k :: RowIsFold(t, k)
  }

  /** The item hash is a hash of the message, so a stored element under it is this very message. */
  ghost predicate ContentAddressed(es: seq<Element>, m: Element) {
    forall i :: 0 <= i < |es| && es[i].hash == m.hash ==> es[i] == m
  }

  /** `m` ties with the time of a clean row but sorts before the row's last revision. */
  predicate StaleTie(t: Tables, m: Element) {
    && m.owner in t.aggregates
    && var row := t.aggregates[m.owner];
       !row.dirty && m.time == row.time && m.hash < row.lastRevision
  }

  lemma OrderedRows(es: seq<Element>, k: AggKey)
    requires DistinctHashes(es)
    ensures Ascending(KeyOf, Ordered(es, k))
    ensures forall e :: e in Ordered(es, k) <==> e in es && e.owner == k
    ensures |Ordered(es, k)| == |RowsOf(es, k)|
  {
    FilterKeepsDistinct(KeyOf, OwnedBy(k), es);
    FilterMembers(OwnedBy(k), es);
    SortSorts(KeyOf, RowsOf(es, k));
  }

  lemma RowsOfAppend(es: seq<Element>, m: Element, k: AggKey)
    ensures RowsOf(es + [m], k) == RowsOf(es, k) + (if m.owner == k then [m] else [])
  {
    assert (es + [m])[..|es|] == es;
  }

  lemma RowsOfWithElement(es: seq<Element>, m: Element, k: AggKey)
    ensures k != m.owner ==> RowsOf(WithElement(es, m), k) == RowsOf(es, k)
    ensures !HasHash(es, m.hash) ==> Ordered(WithElement(es, m), m.owner) == Insert(KeyOf, m, Ordered(es, m.owner))
  {
    RowsOfAppend(es, m, k);
    RowsOfAppend(es, m, m.owner);
    var rows := RowsOf(es, m.owner);
    assert (rows + [m])[..|rows|] == rows;
  }

  /** The last element in order carries the latest time, and its fields are the folded row's. */
  lemma RowOfLast(es: seq<Element>, k: AggKey, e: Element)
    requires DistinctHashes(es) && e in es && e.owner == k
    ensures Ordered(es, k) != []
    ensures var row := FoldRow(Ordered(es, k)); e.time < row.time || (e.time == row.time && e.hash <= row.lastRevision)
  {
    OrderedRows(es, k);
    var o := Ordered(es, k);
    assert e in o;
    var i :| 0 <= i < |o| && o[i] == e;
    assert i == |o| - 1 || Before(KeyOf(o[i]), KeyOf(o[|o| - 1]));
  }

  lemma {:induction false} HasHashWitness(es: seq<Element>, m: Element)
    requires HasHash(es, m.hash) && ContentAddressed(es, m)
    ensures m in es
  {
    var i :| 0 <= i < |es| && es[i].hash == m.hash;
    assert es[i] == m;
  }

  /** Appending the latest element extends the fold by one merge. */
  lemma FoldRowAppend(o: seq<Element>, m: Element)
    ensures FoldRow(o + [m]) == Row(Merge(Fold(o), m.content), m.time, m.hash, false)
  {
    assert (o + [m])[..|o|] == o;
  }

  lemma DistinctWithElement(es: seq<Element>, m: Element)
    requires DistinctHashes(es)
    ensures DistinctHashes(WithElement(es, m))
  {
  }

  /** Keys other than the message's own are untouched. */
  lemma ProcessOtherKey(t: Tables, m: Element, threshold: nat, k: AggKey)
    requires k != m.owner
    ensures var u := Processed(t, m, threshold);
            && RowsOf(u.elements, k) == RowsOf(t.elements, k)
            && (k in u.aggregates <==> k in t.aggregates)
            && (k in t.aggregates ==> u.aggregates[k] == t.aggregates[k])
  {
    RowsOfWithElement(t.elements, m, k);
  }

  /** Merging the row's own last revision in again gives the same row. */
  lemma RemergeLast(o: seq<Element>)
    requires o != []
    ensures Merge(Fold(o), o[|o| - 1].content) == Fold(o)
  {
    MergeTwice(Fold(o[..|o| - 1]), o[|o| - 1].content);
  }

  /** Elements of a new key: their fold is the message itself. */
  lemma FirstElement(t: Tables, m: Element)
    requires Consistent(t) && ContentAddressed(t.elements, m) && m.owner !in t.aggregates
    ensures Ordered(WithElement(t.elements, m), m.owner) == [m]
    ensures FoldRow([m]) == Row(m.content, m.time, m.hash, false)
  {
    var k := m.owner;
    assert RowIsFold(t, k);
    OrderedRows(t.elements, k);
    RowsOfWithElement(t.elements, m, k);
    assert m in t.elements <==> m in Ordered(t.elements, k);
    if HasHash(t.elements, m.hash) { HasHashWitness(t.elements, m); }
    FoldRowAppend([], m);
    MergeOntoEmpty(m.content);
    assert [] + [m] == [m];
  }

  /** The merge path: the newer message extends the fold, or is the last revision once more. */
  lemma NewestElement(t: Tables, m: Element)
    requires Consistent(t) && ContentAddressed(t.elements, m) && !StaleTie(t, m)
    requires m.owner in t.aggregates && !t.aggregates[m.owner].dirty && m.time >= t.aggregates[m.owner].time
    ensures Ordered(WithElement(t.elements, m), m.owner) != []
    ensures FoldRow(Ordered(WithElement(t.elements, m), m.owner))
         == Row(Merge(t.aggregates[m.owner].content, m.content), m.time, m.hash, false)
  {
    var k := m.owner;
    var o := Ordered(t.elements, k);
    assert RowIsFold(t, k);
    OrderedRows(t.elements, k);
    if HasHash(t.elements, m.hash) {
      HasHashWitness(t.elements, m);
      RowOfLast(t.elements, k, m);
      var last := o[|o| - 1];
      assert last in o;
      SameHash(t.elements, last, m);
      RemergeLast(o);
    } else {
      RowsOfWithElement(t.elements, m, k);
      forall i | 0 <= i < |o| ensures !Before(KeyOf(m), KeyOf(o[i])) {
        assert o[i] in o;
        RowOfLast(t.elements, k, o[i]);
      }
      InsertLast(KeyOf, m, o);
      FoldRowAppend(o, m);
    }
  }

  lemma SameHash(es: seq<Element>, a: Element, b: Element)
    requires DistinctHashes(es) && a in es && b in es && a.hash == b.hash
    ensures a == b
  {
  }

  /** A rebuild makes the row the fold, dirty or not. */
  lemma RebuildFolds(t: Tables, k: AggKey)
    requires DistinctHashes(t.elements)
    requires k in t.aggregates <==> RowsOf(t.elements, k) != []
    ensures RowIsFold(Rebuilt(t, k), k)
    ensures k in Rebuilt(t, k).aggregates <==> k in t.aggregates
    ensures k in t.aggregates ==>
      Ordered(t.elements, k) != [] && Rebuilt(t, k).aggregates[k] == FoldRow(Ordered(t.elements, k))
  {
    OrderedRows(t.elements, k);
  }

  /** What processing leaves under the message's own key, when it is not a stale tie. */
  lemma ProcessOwnKey(t: Tables, m: Element, threshold: nat)
    requires Consistent(t) && ContentAddressed(t.elements, m) && !StaleTie(t, m)
    ensures RowIsFold(Processed(t, m, threshold), m.owner)
  {
    var k := m.owner;
    var es := WithElement(t.elements, m);
    assert RowIsFold(t, k);
    DistinctWithElement(t.elements, m);
    StoredRows(t.elements, m);
    if k !in t.aggregates {
      FirstElement(t, m);
    } else if t.aggregates[k].dirty {
    } else if m.time >= t.aggregates[k].time {
      NewestElement(t, m);
    } else if |RowsOf(es, k)| <= threshold {
      RebuildFolds(Tables(es, t.aggregates), k);
    }
  }

  lemma StoredRows(es: seq<Element>, m: Element)
    requires ContentAddressed(es, m)
    ensures RowsOf(WithElement(es, m), m.owner) != []
  {
    if HasHash(es, m.hash) { HasHashWitness(es, m); }
    FilterMembers(OwnedBy(m.owner), WithElement(es, m));
    assert m in RowsOf(WithElement(es, m), m.owner);
  }

  /** A stale tie leaves the row naming the wrong last revision. */
  lemma StaleTieBreaks(t: Tables, m: Element, threshold: nat)
    requires Consistent(t) && ContentAddressed(t.elements, m) && StaleTie(t, m)
    ensures !RowIsFold(Processed(t, m, threshold), m.owner)
  {
    var k := m.owner;
    assert RowIsFold(t, k);
    OrderedRows(t.elements, k);
    var o := Ordered(t.elements, k);
    var last := o[|o| - 1];
    assert last in o;
    var es := WithElement(t.elements, m);
    DistinctWithElement(t.elements, m);
    RowOfLast(es, k, last);
  }

  /**
   * One delivered message keeps every row consistent exactly when it is not a stale tie: the
   * merge path goes by arrival, the rebuild by hash.
   */
  lemma ProcessKeepsConsistentIff(t: Tables, m: Element, threshold: nat)
    requires Consistent(t) && ContentAddressed(t.elements, m)
    ensures Consistent(Processed(t, m, threshold)) <==> !StaleTie(t, m)
  {
    var u := Processed(t, m, threshold);
    DistinctWithElement(t.elements, m);
    if StaleTie(t, m) {
      StaleTieBreaks(t, m, threshold);
    } else {
      forall k ensures RowIsFold(u, k) {
        assert RowIsFold(t, k);
        if k == m.owner { ProcessOwnKey(t, m, threshold); } else { ProcessOtherKey(t, m, threshold, k); }
      }
    }
  }

  // ---- Redelivery ----

  /** `m` belongs under a clean row, is not its newest element, and the key has too many elements to rebuild. */
  predicate LateAndLarge(t: Tables, m: Element, threshold: nat) {
    && m.owner in t.aggregates
    && var row := t.aggregates[m.owner];
       !row.dirty && m.time < row.time && |RowsOf(t.elements, m.owner)| > threshold
  }

  /**
   * Delivering a stored message again changes nothing exactly when it neither lands late under a
   * large clean row, which it marks dirty, nor is a stale tie.
   */
  lemma RedeliveryIsNoOpIff(t: Tables, m: Element, threshold: nat)
    requires Consistent(t) && m in t.elements
    ensures Processed(t, m, threshold) == t <==> !LateAndLarge(t, m, threshold) && !StaleTie(t, m)
  {
    var k := m.owner;
    var o := Ordered(t.elements, k);
    assert RowIsFold(t, k);
    OrderedRows(t.elements, k);
    RowOfLast(t.elements, k, m);
    assert WithElement(t.elements, m) == t.elements;
    if StaleTie(t, m) {
      assert Processed(t, m, threshold).aggregates[k].lastRevision == m.hash;
    } else if k in t.aggregates && !t.aggregates[k].dirty && m.time >= t.aggregates[k].time {
      forall i | 0 <= i < |t.elements| && t.elements[i].hash == m.hash ensures t.elements[i] == m {
        SameHash(t.elements, t.elements[i], m);
      }
      NewestElement(t, m);
    }
  }

  // ---- Forgetting ----

  lemma WithoutHashRows(es: seq<Element>, h: Hash, k: AggKey)
    requires forall i :: 0 <= i < |es| && es[i].owner == k ==> es[i].hash != h
    ensures RowsOf(WithoutHash(es, h), k) == RowsOf(es, k)
  {
    if es != [] {
      var init := es[..|es| - 1];
      WithoutHashRows(init, h, k);
      RowsOfAppend(init, es[|es| - 1], k);
      assert es == init + [es[|es| - 1]];
      if es[|es| - 1].hash != h {
        RowsOfAppend(WithoutHash(init, h), es[|es| - 1], k);
      } else {
        assert WithoutHash(es, h) == WithoutHash(init, h);
      }
    }
  }

  lemma {:induction false} WithoutHashDistinct(es: seq<Element>, h: Hash)
    requires DistinctHashes(es)
    ensures DistinctHashes(WithoutHash(es, h))
    ensures !HasHash(WithoutHash(es, h), h)
    ensures forall e :: e in WithoutHash(es, h) <==> e in es && e.hash != h
  {
    FilterMembers(NotHash(h), es);
    forall i | 0 <= i < |WithoutHash(es, h)| ensures WithoutHash(es, h)[i].hash != h {
      assert WithoutHash(es, h)[i] in WithoutHash(es, h);
    }
    if es != [] {
      var init, last := es[..|es| - 1], es[|es| - 1];
      WithoutHashDistinct(init, h);
      forall i | 0 <= i < |WithoutHash(init, h)| ensures WithoutHash(init, h)[i].hash != last.hash {
        assert WithoutHash(init, h)[i] in WithoutHash(init, h);
        var j :| 0 <= j < |init| && init[j] == WithoutHash(init, h)[i];
        assert es[j].hash != last.hash;
      }
    }
  }

  /** The key that the forgotten element belonged to: its row goes with its last element, or is rebuilt. */
  lemma ForgetOwnKey(t: Tables, h: Hash)
    requires Consistent(t) && HasHash(t.elements, h)
    ensures RowIsFold(Forgotten(t, h), OwnerOf(t.elements, h))
  {
    var k := OwnerOf(t.elements, h);
    var rest := Tables(WithoutHash(t.elements, h), t.aggregates);
    OwnerHasRows(t, h);
    WithoutHashDistinct(t.elements, h);
    if RowsOf(rest.elements, k) == [] {
      assert Forgotten(t, h).aggregates == t.aggregates - {k};
    } else {
      assert Forgotten(t, h) == Rebuilt(rest, k);
      RebuildFolds(rest, k);
    }
  }

  lemma OwnerHasRows(t: Tables, h: Hash)
    requires Consistent(t) && HasHash(t.elements, h)
    ensures OwnerOf(t.elements, h) in t.aggregates
  {
    var k := OwnerOf(t.elements, h);
    var i :| 0 <= i < |t.elements| && t.elements[i].hash == h && t.elements[i].owner == k;
    var e := t.elements[i];
    FilterMembers(OwnedBy(k), t.elements);
    assert e in t.elements && e in RowsOf(t.elements, k);
    assert RowIsFold(t, k);
  }

  lemma ForgetOtherKey(t: Tables, h: Hash, k: AggKey)
    requires Consistent(t)
    requires HasHash(t.elements, h) ==> k != OwnerOf(t.elements, h)
    ensures RowIsFold(Forgotten(t, h), k)
  {
    assert RowIsFold(t, k);
    forall i | 0 <= i < |t.elements| && t.elements[i].owner == k ensures t.elements[i].hash != h {
      if t.elements[i].hash == h {
        assert HasHash(t.elements, h);
        var j :| 0 <= j < |t.elements| && t.elements[j].hash == h && t.elements[j].owner == OwnerOf(t.elements, h);
        SameHash(t.elements, t.elements[i], t.elements[j]);
      }
    }
    WithoutHashRows(t.elements, h, k);
  }

  /** Forgetting any hash, known or not, under a clean or dirty row, leaves every row consistent. */
  lemma ForgetKeepsConsistent(t: Tables, h: Hash)
    requires Consistent(t)
    ensures Consistent(Forgotten(t, h))
  {
    WithoutHashDistinct(t.elements, h);
    forall k ensures RowIsFold(Forgotten(t, h), k) {
      if HasHash(t.elements, h) && k == OwnerOf(t.elements, h) { ForgetOwnKey(t, h); } else { ForgetOtherKey(t, h, k); }
    }
  }

  lemma RefreshKeepsConsistent(t: Tables, k: AggKey)
    requires Consistent(t)
    ensures Consistent(Rebuilt(t, k))
  {
    forall k' ensures RowIsFold(Rebuilt(t, k), k') {
      assert RowIsFold(t, k');
      if k' == k { RebuildFolds(t, k); }
    }
  }
}
