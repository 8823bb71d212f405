/** Whole runs of deliveries, forgets and lazy refreshes over the aggregate tables. */
module AggregateRuns {
  import opened Wrappers
  import opened Json
  import opened TimeOrder
  import opened Aggregates

  datatype Op = Deliver(m: Element) | Forget(hash: Hash) | Refresh(key: AggKey)

  const NO_TABLES: Tables := Tables([], map[])

  function Step(t: Tables, op: Op, threshold: nat): Tables {
    match op
    case Deliver(m) => Processed(t, m, threshold)
    case Forget(h) => Forgotten(t, h)
    case Refresh(k) => Rebuilt(t, k)
  }

  function Run(ops: seq<Op>, threshold: nat): Tables {
    if ops == [] then NO_TABLES else Step(Run(ops[..|ops| - 1], threshold), ops[|ops| - 1], threshold)
  }

  /** The element table goes its own way, whatever the rows say. */
  function ElementsAfter(es: seq<Element>, op: Op): seq<Element> {
    match op
    case Deliver(m) => WithElement(es, m)
    case Forget(h) => WithoutHash(es, h)
    case Refresh(_) => es
  }

  lemma StepElements(t: Tables, op: Op, threshold: nat)
    ensures Step(t, op, threshold).elements == ElementsAfter(t.elements, op)
  {
  }

  /** Hashes identify messages, and no two messages for one key carry the same time. */
  ghost predicate DistinctTimes(ops: seq<Op>) {
    forall a, b | Deliver(a) in ops && Deliver(b) in ops ::
      (a.hash == b.hash ==> a == b) && (a.owner == b.owner && a.time == b.time ==> a == b)
  }

  lemma OneMoreElement(es: seq<Element>, op: Op)
    ensures forall e :: e in ElementsAfter(es, op) ==> e in es || op == Deliver(e)
    ensures |ElementsAfter(es, op)| <= |es| + 1
  {
    if op.Forget? { FilterMembers(NotHash(op.hash), es); }
  }

  lemma {:induction false} StoredWereDelivered(ops: seq<Op>, threshold: nat)
    ensures forall e :: e in Run(ops, threshold).elements ==> Deliver(e) in ops
    ensures |Run(ops, threshold).elements| <= |ops|
  {
    if ops != [] {
      var init, op := ops[..|ops| - 1], ops[|ops| - 1];
      StoredWereDelivered(init, threshold);
      StepElements(Run(init, threshold), op, threshold);
      OneMoreElement(Run(init, threshold).elements, op);
      assert ops == init + [op];
    }
  }

  /** With distinct times no delivery is a stale tie. */
  lemma NoStaleTie(t: Tables, ops: seq<Op>, m: Element)
    requires Consistent(t) && DistinctTimes(ops) && Deliver(m) in ops
    requires forall e :: e in t.elements ==> Deliver(e) in ops
    ensures ContentAddressed(t.elements, m) && !StaleTie(t, m)
  {
    forall i | 0 <= i < |t.elements| && t.elements[i].hash == m.hash ensures t.elements[i] == m {
      assert t.elements[i] in t.elements;
    }
    if m.owner in t.aggregates && !t.aggregates[m.owner].dirty {
      var e := LastRevision(t, m.owner);
      assert Deliver(e) in ops;
    }
  }

  /** The element that a clean row names as its last revision. */
  lemma LastRevision(t: Tables, k: AggKey) returns (e: Element)
    requires Consistent(t) && k in t.aggregates && !t.aggregates[k].dirty
    ensures e in t.elements && e.owner == k
    ensures e.hash == t.aggregates[k].lastRevision && e.time == t.aggregates[k].time
  {
    assert RowIsFold(t, k);
    OrderedRows(t.elements, k);
    var o := Ordered(t.elements, k);
    e := o[|o| - 1];
    assert e in o;
  }

  /**
   * After any run, a row exists exactly for the keys with elements, and every clean row's content,
   * time and last revision are those of the fold over the remaining elements.
   */
  lemma {:induction false} RunIsConsistent(ops: seq<Op>, threshold: nat)
    requires DistinctTimes(ops)
    ensures Consistent(Run(ops, threshold))
  {
    if ops == [] {
      forall k ensures RowIsFold(NO_TABLES, k) { }
    } else {
      var init, op := ops[..|ops| - 1], ops[|ops| - 1];
      assert ops == init + [op];
      RunIsConsistent(init, threshold);
      var t := Run(init, threshold);
      match op {
        case Deliver(m) =>
          StoredWereDelivered(init, threshold);
          NoStaleTie(t, ops, m);
          ProcessKeepsConsistentIff(t, m, threshold);
        case Forget(h) => ForgetKeepsConsistent(t, h);
        case Refresh(k) => RefreshKeepsConsistent(t, k);
      }
    }
  }

  // ---- What a reader sees ----

  /** The row served for `k`: a dirty row is rebuilt before it is returned. */
  function Served(t: Tables, k: AggKey): Option<Row> {
    if k !in t.aggregates then None
    else Some((if t.aggregates[k].dirty then Rebuilt(t, k) else t).aggregates[k])
  }

  /** Served rows are the fold of the stored elements: nothing else about the history shows. */
  lemma ServedIsFold(t: Tables, k: AggKey)
    requires Consistent(t)
    ensures var o := Ordered(t.elements, k); Served(t, k) == if o == [] then None else Some(FoldRow(o))
  {
    assert RowIsFold(t, k);
    OrderedRows(t.elements, k);
    RebuildFolds(t, k);
  }

  lemma SameElementsSameRows(t: Tables, u: Tables, k: AggKey)
    requires Consistent(t) && Consistent(u)
    requires forall e :: e in t.elements <==> e in u.elements
    ensures Served(t, k) == Served(u, k)
  {
    ServedIsFold(t, k);
    ServedIsFold(u, k);
    OrderedRows(t.elements, k);
    OrderedRows(u.elements, k);
    AscendingIsUnique(KeyOf, Ordered(t.elements, k), Ordered(u.elements, k));
  }

  // ---- Forgetting undoes delivery ----

  /** The run without any delivery of `h`. */
  function Erase(ops: seq<Op>, h: Hash): seq<Op> {
    if ops == [] then []
    else
      var op := ops[|ops| - 1];
      Erase(ops[..|ops| - 1], h) + (if op.Deliver? && op.m.hash == h then [] else [op])
  }

  lemma {:induction false} EraseMembers(ops: seq<Op>, h: Hash)
    ensures forall op :: op in Erase(ops, h) ==> op in ops
  {
    if ops != [] {
      EraseMembers(ops[..|ops| - 1], h);
    }
  }

  lemma HasHashWithout(es: seq<Element>, h: Hash, g: Hash)
    requires g != h
    ensures HasHash(WithoutHash(es, h), g) <==> HasHash(es, g)
  {
    FilterMembers(NotHash(h), es);
    if HasHash(es, g) {
      var i :| 0 <= i < |es| && es[i].hash == g;
      assert es[i] in WithoutHash(es, h);
    }
    if HasHash(WithoutHash(es, h), g) {
      var i :| 0 <= i < |WithoutHash(es, h)| && WithoutHash(es, h)[i].hash == g;
      assert WithoutHash(es, h)[i] in es;
    }
  }

  lemma {:induction false} WithoutHashCommutes(es: seq<Element>, g: Hash, h: Hash)
    ensures WithoutHash(WithoutHash(es, g), h) == WithoutHash(WithoutHash(es, h), g)
  {
    if es != [] {
      var init, last := es[..|es| - 1], [es[|es| - 1]];
      WithoutHashCommutes(init, g, h);
      FilterAppend(NotHash(h), WithoutHash(init, g), if last[0].hash != g then last else []);
      FilterAppend(NotHash(g), WithoutHash(init, h), if last[0].hash != h then last else []);
    }
  }

  lemma WithElementWithout(es: seq<Element>, m: Element, h: Hash)
    ensures WithoutHash(WithElement(es, m), h)
         == if m.hash == h then WithoutHash(es, h) else WithElement(WithoutHash(es, h), m)
  {
    FilterAppend(NotHash(h), es, [m]);
    assert Filter(NotHash(h), [m]) == if m.hash == h then [] else [m];
    if m.hash != h { HasHashWithout(es, h, m.hash); }
  }

  /** Apart from `h`, both runs store the same elements in the same order. */
  lemma {:induction false} EraseElements(ops: seq<Op>, h: Hash, threshold: nat)
    ensures WithoutHash(Run(ops, threshold).elements, h) == WithoutHash(Run(Erase(ops, h), threshold).elements, h)
  {
    if ops != [] {
      var init, op := ops[..|ops| - 1], ops[|ops| - 1];
      EraseElements(init, h, threshold);
      var es, fs := Run(init, threshold).elements, Run(Erase(init, h), threshold).elements;
      StepElements(Run(init, threshold), op, threshold);
      StepElements(Run(Erase(init, h), threshold), op, threshold);
      assert Run(ops, threshold).elements == ElementsAfter(es, op);
      if op.Deliver? && op.m.hash == h {
        WithElementWithout(es, op.m, h);
        assert Erase(ops, h) == Erase(init, h);
      } else {
        assert Erase(ops, h)[..|Erase(ops, h)| - 1] == Erase(init, h);
        assert Run(Erase(ops, h), threshold).elements == ElementsAfter(fs, op);
        if op.Deliver? {
          WithElementWithout(es, op.m, h);
          WithElementWithout(fs, op.m, h);
        } else if op.Forget? {
          WithoutHashCommutes(es, op.hash, h);
          WithoutHashCommutes(fs, op.hash, h);
        }
      }
    }
  }

  lemma {:induction false} EraseStoresNone(ops: seq<Op>, h: Hash, threshold: nat)
    ensures forall e :: e in Run(Erase(ops, h), threshold).elements ==> e.hash != h
  {
    StoredWereDelivered(Erase(ops, h), threshold);
    EraseDelivers(ops, h);
  }

  lemma {:induction false} EraseDelivers(ops: seq<Op>, h: Hash)
    ensures forall op :: op in Erase(ops, h) && op.Deliver? ==> op.m.hash != h
  {
    if ops != [] {
      EraseDelivers(ops[..|ops| - 1], h);
    }
  }

  /** A forgotten message leaves every served row as if it had never been delivered. */
  lemma ForgottenLeavesNoTrace(ops: seq<Op>, h: Hash, threshold: nat, k: AggKey)
    requires DistinctTimes(ops)
    ensures Served(Run(ops + [Forget(h)], threshold), k) == Served(Run(Erase(ops, h), threshold), k)
  {
    EraseMembers(ops, h);
    RunIsConsistent(ops + [Forget(h)], threshold);
    RunIsConsistent(Erase(ops, h), threshold);
    ForgetErases(ops, h, threshold);
    SameElementsSameRows(Run(ops + [Forget(h)], threshold), Run(Erase(ops, h), threshold), k);
  }

  lemma ForgetErases(ops: seq<Op>, h: Hash, threshold: nat)
    ensures forall e :: e in Run(ops + [Forget(h)], threshold).elements <==> e in Run(Erase(ops, h), threshold).elements
  {
    assert (ops + [Forget(h)])[..|ops|] == ops;
    StepElements(Run(ops, threshold), Forget(h), threshold);
    EraseElements(ops, h, threshold);
    FilterMembers(NotHash(h), Run(Erase(ops, h), threshold).elements);
    EraseStoresNone(ops, h, threshold);
  }

  // ---- Order of arrival ----

  function Deliveries(ms: seq<Element>): (ops: seq<Op>)
    ensures |ops| == |ms| && forall i :: 0 <= i < |ms| ==> ops[i] == Deliver(ms[i])
  {
    seq(|ms|, i requires 0 <= i < |ms| => Deliver(ms[i]))
  }

  lemma {:induction false} DeliveredAreStored(ms: seq<Element>, threshold: nat)
    requires DistinctTimes(Deliveries(ms))
    ensures forall e :: e in Run(Deliveries(ms), threshold).elements <==> e in ms
  {
    if ms != [] {
      var init, last := ms[..|ms| - 1], ms[|ms| - 1];
      var es := Run(Deliveries(init), threshold).elements;
      assert ms == init + [last];
      assert Deliveries(ms)[..|ms| - 1] == Deliveries(init);
      DistinctPrefix(ms);
      DeliveredAreStored(init, threshold);
      StepElements(Run(Deliveries(init), threshold), Deliver(last), threshold);
      assert Run(Deliveries(ms), threshold).elements == WithElement(es, last);
      DeliveredOnce(ms, es);
      WithElementMembers(es, last);
    }
  }

  lemma DistinctPrefix(ms: seq<Element>)
    requires ms != [] && DistinctTimes(Deliveries(ms))
    ensures DistinctTimes(Deliveries(ms[..|ms| - 1]))
  {
    var ops, init := Deliveries(ms), Deliveries(ms[..|ms| - 1]);
    assert ops[..|ms| - 1] == init;
    assert forall op :: op in init ==> op in ops;
  }

  /** Among delivered messages a hash stands for one message. */
  lemma DeliveredOnce(ms: seq<Element>, es: seq<Element>)
    requires ms != [] && DistinctTimes(Deliveries(ms)) && forall e :: e in es ==> e in ms
    ensures ContentAddressed(es, ms[|ms| - 1])
  {
    var ops, last := Deliveries(ms), ms[|ms| - 1];
    assert ops[|ms| - 1] == Deliver(last) && Deliver(last) in ops;
    forall i | 0 <= i < |es| && es[i].hash == last.hash ensures es[i] == last {
      assert es[i] in ms;
      var j :| 0 <= j < |ms| && ms[j] == es[i];
      assert ops[j] == Deliver(es[i]) && Deliver(es[i]) in ops;
    }
  }

  lemma WithElementMembers(es: seq<Element>, m: Element)
    requires ContentAddressed(es, m)
    ensures forall e :: e in WithElement(es, m) <==> e in es || e == m
  {
    if HasHash(es, m.hash) { HasHashWitness(es, m); }
  }

  /** Two deliveries of the same messages, in any orders and with any repetitions, serve the same rows. */
  lemma OrderDoesNotMatter(ms: seq<Element>, ns: seq<Element>, threshold: nat, k: AggKey)
    requires DistinctTimes(Deliveries(ms))
    requires forall e :: e in ms <==> e in ns
    ensures Served(Run(Deliveries(ms), threshold), k) == Served(Run(Deliveries(ns), threshold), k)
  {
    forall a | Deliver(a) in Deliveries(ns) ensures Deliver(a) in Deliveries(ms) {
      assert a in ms;
    }
    RunIsConsistent(Deliveries(ms), threshold);
    RunIsConsistent(Deliveries(ns), threshold);
    DeliveredAreStored(ms, threshold);
    DeliveredAreStored(ns, threshold);
    SameElementsSameRows(Run(Deliveries(ms), threshold), Run(Deliveries(ns), threshold), k);
  }

  ghost predicate AllClean(t: Tables) {
    forall k :: k in t.aggregates ==> !t.aggregates[k].dirty
  }

  /** A step stays clean unless it finds more elements under its key than the threshold. */
  lemma StepStaysClean(t: Tables, op: Op, threshold: nat)
    requires AllClean(t)
    requires op.Deliver? ==> |RowsOf(WithElement(t.elements, op.m), op.m.owner)| <= threshold
    ensures AllClean(Step(t, op, threshold))
  {
    match op
    case Deliver(m) =>
      forall k | k in Processed(t, m, threshold).aggregates ensures !Processed(t, m, threshold).aggregates[k].dirty { }
    case Forget(h) =>
      forall k | k in Forgotten(t, h).aggregates ensures !Forgotten(t, h).aggregates[k].dirty { }
    case Refresh(k) =>
  }

  /** While a run is no longer than the threshold the dirty path is never taken. */
  lemma {:induction false} ShortRunStaysClean(ops: seq<Op>, threshold: nat)
    requires |ops| <= threshold
    ensures AllClean(Run(ops, threshold))
  {
    if ops != [] {
      var init, op := ops[..|ops| - 1], ops[|ops| - 1];
      ShortRunStaysClean(init, threshold);
      StoredWereDelivered(init, threshold);
      if op.Deliver? {
        FilterMembers(OwnedBy(op.m.owner), WithElement(Run(init, threshold).elements, op.m));
      }
      StepStaysClean(Run(init, threshold), op, threshold);
    }
  }

  /** Without the dirty path no refresh is needed: the tables themselves agree. */
  lemma OrderDoesNotMatterWhenClean(ms: seq<Element>, ns: seq<Element>, threshold: nat)
    requires DistinctTimes(Deliveries(ms))
    requires forall e :: e in ms <==> e in ns
    requires AllClean(Run(Deliveries(ms), threshold)) && AllClean(Run(Deliveries(ns), threshold))
    ensures Run(Deliveries(ms), threshold).aggregates == Run(Deliveries(ns), threshold).aggregates
  {
    var t, u := Run(Deliveries(ms), threshold), Run(Deliveries(ns), threshold);
    forall k
      ensures k in t.aggregates <==> k in u.aggregates
      ensures k in t.aggregates && k in u.aggregates ==> t.aggregates[k] == u.aggregates[k]
    {
      OrderDoesNotMatter(ms, ns, threshold, k);
    }
  }

  // ---- A redelivery that is not a no-op ----

  function InOrder(k: AggKey, n: nat): seq<Element> {
    seq(n, i => Element(i, k, EMPTY_OBJECT, i as real))
  }

  function AfterInOrder(k: AggKey, n: nat): Tables
    requires n > 0
  {
    Tables(InOrder(k, n), map[k := Row(EMPTY_OBJECT, (n - 1) as real, n - 1, false)])
  }

  lemma OneMoreInOrder(k: AggKey, n: nat, threshold: nat)
    requires n > 0
    ensures Processed(AfterInOrder(k, n), Element(n, k, EMPTY_OBJECT, n as real), threshold) == AfterInOrder(k, n + 1)
  {
    var m := Element(n, k, EMPTY_OBJECT, n as real);
    assert !HasHash(InOrder(k, n), n);
    assert InOrder(k, n) + [m] == InOrder(k, n + 1);
    MergeWithSelf(EMPTY_OBJECT);
    assert AfterInOrder(k, n).aggregates[k := Row(EMPTY_OBJECT, n as real, n, false)] ==
      AfterInOrder(k, n + 1).aggregates;
  }

  lemma {:induction false} InOrderRun(k: AggKey, n: nat, threshold: nat)
    requires n > 0
    ensures Run(Deliveries(InOrder(k, n)), threshold) == AfterInOrder(k, n)
  {
    var ops := Deliveries(InOrder(k, n));
    assert ops[..n - 1] == Deliveries(InOrder(k, n - 1));
    assert ops[n - 1] == Deliver(Element(n - 1, k, EMPTY_OBJECT, (n - 1) as real));
    if n > 1 {
      InOrderRun(k, n - 1, threshold);
      OneMoreInOrder(k, n - 1, threshold);
    } else {
      assert Run(ops[..0], threshold) == NO_TABLES;
      assert [] + [Element(0, k, EMPTY_OBJECT, 0.0)] == InOrder(k, 1);
    }
  }

  lemma {:induction false} InOrderRows(k: AggKey, n: nat)
    ensures RowsOf(InOrder(k, n), k) == InOrder(k, n)
  {
    if n > 0 {
      assert InOrder(k, n)[..n - 1] == InOrder(k, n - 1);
      InOrderRows(k, n - 1);
    }
  }

  /** For every threshold there is a run after which redelivering the first message dirties its row. */
  lemma RedeliveryCanDirty(k: AggKey, threshold: nat)
    ensures var ms := InOrder(k, threshold + 2);
            var t := Run(Deliveries(ms), threshold);
            k in t.aggregates && !t.aggregates[k].dirty &&
            Processed(t, ms[0], threshold) == t.(aggregates := t.aggregates[k := t.aggregates[k].(dirty := true)])
  {
    var n := threshold + 2;
    InOrderRun(k, n, threshold);
    InOrderRows(k, n);
    assert InOrder(k, n)[0].hash == 0;
    assert HasHash(InOrder(k, n), 0);
  }
  // ---- A stale tie ----

  /** Two messages of one time that disagree about one field; the one with the larger hash comes first. */
  function TiedMessages(k: AggKey): seq<Element> {
    [Element(2, k, Object(map["x" := Text("two")]), 0.0), Element(1, k, Object(map["x" := Text("one")]), 0.0)]
  }

  /** Stale ties are reachable, and the clean row that one leaves differs from the fold in its content too. */
  lemma StaleTieIsReachable(k: AggKey, threshold: nat)
    ensures var ms := TiedMessages(k);
      var before, after := Run(Deliveries(ms[..1]), threshold), Run(Deliveries(ms), threshold);
      && Consistent(before) && StaleTie(before, ms[1]) && !Consistent(after)
      && k in after.aggregates && !after.aggregates[k].dirty
      && after.aggregates[k].content == ms[1].content && Fold(Ordered(after.elements, k)) == ms[0].content
  {
    var ms := TiedMessages(k);
    var a, b := ms[0], ms[1];
    var before := Tables([a], map[k := Row(a.content, 0.0, 2, false)]);
    TiedRuns(k, a, b, threshold);
    assert ms == [a, b] && ms[..1] == [a];
    assert Deliveries([a]) == [Deliver(a)];
    RunIsConsistent([Deliver(a)], threshold);
    ProcessKeepsConsistentIff(before, b, threshold);
    assert Merge(a.content, b.content) == b.content && Merge(b.content, a.content) == a.content;
    TiedFold(k, a, b);
  }

  lemma TiedRuns(k: AggKey, a: Element, b: Element, threshold: nat)
    requires a.owner == b.owner == k && a.time == b.time && a.hash != b.hash
    ensures Run(Deliveries([a]), threshold) == Tables([a], map[k := Row(a.content, a.time, a.hash, false)])
    ensures Run(Deliveries([a, b]), threshold)
      == Tables([a, b], map[k := Row(Merge(a.content, b.content), b.time, b.hash, false)])
  {
    assert Deliveries([a])[..0] == [] && Deliveries([a, b])[..1] == Deliveries([a]);
    assert [] + [a] == [a] && [a] + [b] == [a, b];
    assert Run(Deliveries([a]), threshold) == Processed(NO_TABLES, a, threshold);
    assert !HasHash([a], b.hash);
  }

  lemma TiedFold(k: AggKey, a: Element, b: Element)
    requires a.owner == b.owner == k && Before(KeyOf(b), KeyOf(a))
    ensures Fold(Ordered([a, b], k)) == Merge(b.content, a.content)
  {
    RowsOfAppend([], a, k);
    RowsOfAppend([a], b, k);
    assert [] + [a] == [a] && [a] + [b] == [a, b];
    assert RowsOf([a, b], k) == [a, b] && [a, b][..1] == [a] && [a][..0] == [];
    assert Sort(KeyOf, [a]) == [a];
    assert Sort(KeyOf, [a, b]) == [b, a];
    assert [b, a][..1] == [b] && [b][..0] == [];
    assert Fold([b]) == Merge(EMPTY_OBJECT, b.content);
    MergeOntoEmpty(b.content);
  }
}
