/**
 * Security aggregates are handled in groups, one per content address: sequentially inside a group,
 * with the statements of different groups interleaving freely.
 */
module SecurityGroups {
  import opened Json
  import opened TimeOrder
  import opened Aggregates

  function SecurityKey(address: string): AggKey { AggKey(address, "security") }

  /** The next SQL statement of the handler, with what earlier statements of the same call read. */
  datatype Statement =
    | InsertElement
    | InsertRow
    | SelectRow
    | UpdateMerged(merged: Value)
    | CountElements
    | MarkDirty
    | SelectElements
    | UpdateFolded(folded: Row)

  /** A group: the messages still to handle, and how far the handler is with the first of them. */
  datatype Group = Group(todo: seq<Element>, next: Statement)

  function Update(t: Tables, k: AggKey, row: Row): Tables {
    if k in t.aggregates then t.(aggregates := t.aggregates[k := row]) else t
  }

  /** One statement of the group's current handler call. */
  function Exec(t: Tables, g: Group, threshold: nat): (Tables, Group) {
    if g.todo == [] then (t, g)
    else
      var m := g.todo[0];
      var k := m.owner;
      var done := Group(g.todo[1..], InsertElement);
      match g.next
      case InsertElement => (t.(elements := WithElement(t.elements, m)), g.(next := InsertRow))
      case InsertRow =>
        if k in t.aggregates then (t, g.(next := SelectRow))
        else (t.(aggregates := t.aggregates[k := Row(m.content, m.time, m.hash, false)]), done)
      case SelectRow =>
        if k !in t.aggregates || t.aggregates[k].dirty then (t, done)
        else if m.time >= t.aggregates[k].time then
          (t, g.(next := UpdateMerged(Merge(t.aggregates[k].content, m.content))))
        else (t, g.(next := CountElements))
      case UpdateMerged(merged) => (Update(t, k, Row(merged, m.time, m.hash, false)), done)
      case CountElements => (t, g.(next := if |RowsOf(t.elements, k)| > threshold then MarkDirty else SelectElements))
      case MarkDirty => (if k in t.aggregates then Update(t, k, t.aggregates[k].(dirty := true)) else t, done)
      case SelectElements =>
        var es := Ordered(t.elements, k);
        (t, if es == [] then done else g.(next := UpdateFolded(FoldRow(es))))
      case UpdateFolded(row) => (Update(t, k, row), done)
  }

  datatype World = World(tables: Tables, groups: map<string, Group>)

  /** The group of `a` executes its next statement. */
  function Turn(w: World, a: string, threshold: nat): World {
    if a !in w.groups then w
    else
      var (t, g) := Exec(w.tables, w.groups[a], threshold);
      World(t, w.groups[a := g])
  }

  /** The statements of all groups, interleaved as `schedule` says. */
  function Interleaved(w: World, schedule: seq<string>, threshold: nat): World {
    if schedule == [] then w
    else Turn(Interleaved(w, schedule[..|schedule| - 1], threshold), schedule[|schedule| - 1], threshold)
  }

  /** One group running alone for `n` statements. */
  function Alone(t: Tables, g: Group, n: nat, threshold: nat): (Tables, Group)
    decreases n
  {
    if n == 0 then (t, g)
    else
      var (u, h) := Exec(t, g, threshold);
      Alone(u, h, n - 1, threshold)
  }

  function Turns(schedule: seq<string>, a: string): nat {
    if schedule == [] then 0
    else Turns(schedule[..|schedule| - 1], a) + (if schedule[|schedule| - 1] == a then 1 else 0)
  }

  // ---- Locality: a group sees and changes the rows of its own key only ----

  /** The part of both tables that belongs to `k`. */
  function Slice(t: Tables, k: AggKey): Tables {
    Tables(RowsOf(t.elements, k), map j | j in t.aggregates && j == k :: t.aggregates[j])
  }

  /** An item hash determines its message, hence the message's owner; `owner` is that assignment. */
  ghost predicate Attributed(es: seq<Element>, owner: Hash -> AggKey) {
    forall i :: 0 <= i < |es| ==> es[i].owner == owner(es[i].hash)
  }

  ghost predicate GroupOf(g: Group, a: string, owner: Hash -> AggKey) {
    Attributed(g.todo, owner) && forall i :: 0 <= i < |g.todo| ==> g.todo[i].owner == SecurityKey(a)
  }

  ghost predicate WellFormed(w: World, owner: Hash -> AggKey) {
    Attributed(w.tables.elements, owner) && forall a :: a in w.groups ==> GroupOf(w.groups[a], a, owner)
  }

  lemma {:induction false} RowsOfTwice(es: seq<Element>, k: AggKey)
    ensures RowsOf(RowsOf(es, k), k) == RowsOf(es, k)
  {
    if es != [] {
      RowsOfTwice(es[..|es| - 1], k);
      if es[|es| - 1].owner == k {
        RowsOfAppend(RowsOf(es[..|es| - 1], k), es[|es| - 1], k);
      } else {
        assert RowsOf(es, k) == RowsOf(es[..|es| - 1], k);
      }
    }
  }

  lemma HasHashInSlice(es: seq<Element>, m: Element, owner: Hash -> AggKey)
    requires Attributed(es, owner) && m.owner == owner(m.hash)
    ensures HasHash(RowsOf(es, m.owner), m.hash) <==> HasHash(es, m.hash)
  {
    var rows := RowsOf(es, m.owner);
    FilterMembers(OwnedBy(m.owner), es);
    if HasHash(es, m.hash) {
      var i :| 0 <= i < |es| && es[i].hash == m.hash;
      assert es[i] in rows;
    }
    if HasHash(rows, m.hash) {
      var i :| 0 <= i < |rows| && rows[i].hash == m.hash;
      assert rows[i] in es;
    }
  }

  lemma SliceWithElement(es: seq<Element>, m: Element, k: AggKey, owner: Hash -> AggKey)
    requires Attributed(es, owner) && m.owner == owner(m.hash)
    ensures RowsOf(WithElement(es, m), k) == if k == m.owner then WithElement(RowsOf(es, k), m) else RowsOf(es, k)
  {
    RowsOfAppend(es, m, k);
    HasHashInSlice(es, m, owner);
  }

  lemma SliceUpdate(t: Tables, k: AggKey, row: Row)
    ensures Slice(Update(t, k, row), k) == Update(Slice(t, k), k, row)
    ensures k in t.aggregates ==> Slice(t, k).aggregates[k] == t.aggregates[k]
    ensures k !in t.aggregates ==>
      Slice(t.(aggregates := t.aggregates[k := row]), k).aggregates == Slice(t, k).aggregates[k := row]
  {
    assert Slice(Update(t, k, row), k).aggregates == Update(Slice(t, k), k, row).aggregates;
  }

  /** A statement on its own slice does what it does on the whole tables. */
  lemma ExecOnSlice(t: Tables, g: Group, a: string, owner: Hash -> AggKey, threshold: nat)
    requires Attributed(t.elements, owner) && GroupOf(g, a, owner)
    ensures Exec(Slice(t, SecurityKey(a)), g, threshold)
         == (Slice(Exec(t, g, threshold).0, SecurityKey(a)), Exec(t, g, threshold).1)
  {
    if g.todo != [] {
      var k, m := SecurityKey(a), g.todo[0];
      assert m.owner == k;
      match g.next
      case InsertElement => SliceWithElement(t.elements, m, k, owner);
      case InsertRow => SliceUpdate(t, k, Row(m.content, m.time, m.hash, false));
      case SelectRow => SliceUpdate(t, k, Row(m.content, m.time, m.hash, false));
      case UpdateMerged(merged) => SliceUpdate(t, k, Row(merged, m.time, m.hash, false));
      case CountElements => RowsOfTwice(t.elements, k);
      case MarkDirty => if k in t.aggregates { SliceUpdate(t, k, t.aggregates[k].(dirty := true)); }
      case SelectElements => RowsOfTwice(t.elements, k);
      case UpdateFolded(row) => SliceUpdate(t, k, row);
    }
  }

  /** A statement leaves every other slice as it was. */
  lemma ExecOtherSlice(t: Tables, g: Group, a: string, owner: Hash -> AggKey, threshold: nat, k: AggKey)
    requires Attributed(t.elements, owner) && GroupOf(g, a, owner) && k != SecurityKey(a)
    ensures Slice(Exec(t, g, threshold).0, k) == Slice(t, k)
  {
    if g.todo != [] {
      SliceWithElement(t.elements, g.todo[0], k, owner);
    }
  }

  lemma ExecKeepsForm(t: Tables, g: Group, a: string, owner: Hash -> AggKey, threshold: nat)
    requires Attributed(t.elements, owner) && GroupOf(g, a, owner)
    ensures Attributed(Exec(t, g, threshold).0.elements, owner) && GroupOf(Exec(t, g, threshold).1, a, owner)
  {
  }

  lemma {:induction false} InterleavedKeepsForm(w: World, schedule: seq<string>, owner: Hash -> AggKey, threshold: nat)
    requires WellFormed(w, owner)
    ensures WellFormed(Interleaved(w, schedule, threshold), owner)
    ensures Interleaved(w, schedule, threshold).groups.Keys == w.groups.Keys
  {
    if schedule != [] {
      InterleavedKeepsForm(w, schedule[..|schedule| - 1], owner, threshold);
      var v, a := Interleaved(w, schedule[..|schedule| - 1], threshold), schedule[|schedule| - 1];
      if a in v.groups { ExecKeepsForm(v.tables, v.groups[a], a, owner, threshold); }
    }
  }

  lemma {:induction false} AloneAppend(t: Tables, g: Group, n: nat, m: nat, threshold: nat)
    ensures Alone(t, g, n + m, threshold) ==
      Alone(Alone(t, g, n, threshold).0, Alone(t, g, n, threshold).1, m, threshold)
    decreases n
  {
    if n > 0 {
      var (u, h) := Exec(t, g, threshold);
      AloneAppend(u, h, n - 1, m, threshold);
    }
  }

  lemma AloneOneMore(t: Tables, g: Group, n: nat, threshold: nat)
    ensures Alone(t, g, n + 1, threshold) == Exec(Alone(t, g, n, threshold).0, Alone(t, g, n, threshold).1, threshold)
  {
    AloneAppend(t, g, n, 1, threshold);
  }

  /** One turn of any group, seen from the slice of `a`. */
  lemma TurnOnSlice(w: World, b: string, a: string, owner: Hash -> AggKey, threshold: nat)
    requires WellFormed(w, owner) && a in w.groups
    ensures var k, v := SecurityKey(a), Turn(w, b, threshold);
            && a in v.groups
            && (Slice(v.tables, k), v.groups[a])
                 == if a == b then Exec(Slice(w.tables, k), w.groups[a], threshold)
                   else (Slice(w.tables, k), w.groups[a])
  {
    if b in w.groups {
      ExecOnSlice(w.tables, w.groups[b], b, owner, threshold);
      if b != a { ExecOtherSlice(w.tables, w.groups[b], b, owner, threshold, SecurityKey(a)); }
    }
  }

  /** Whatever the schedule, each group's slice and progress are those of the group running alone. */
  lemma {:induction false} EachGroupRunsAlone(w: World, schedule: seq<string>, a: string, owner: Hash -> AggKey,
      threshold: nat)
    requires WellFormed(w, owner) && a in w.groups
    ensures a in Interleaved(w, schedule, threshold).groups
    ensures (Slice(Interleaved(w, schedule, threshold).tables, SecurityKey(a)),
             Interleaved(w, schedule, threshold).groups[a])
         == Alone(Slice(w.tables, SecurityKey(a)), w.groups[a], Turns(schedule, a), threshold)
  {
    if schedule != [] {
      var init, b := schedule[..|schedule| - 1], schedule[|schedule| - 1];
      EachGroupRunsAlone(w, init, a, owner, threshold);
      InterleavedKeepsForm(w, init, owner, threshold);
      TurnOnSlice(Interleaved(w, init, threshold), b, a, owner, threshold);
      AloneOneMore(Slice(w.tables, SecurityKey(a)), w.groups[a], Turns(init, a), threshold);
    }
  }

  /** Rows of no group stay as they were. */
  lemma {:induction false} OtherRowsStay(w: World, schedule: seq<string>, k: AggKey, owner: Hash -> AggKey,
      threshold: nat)
    requires WellFormed(w, owner) && forall a :: a in w.groups ==> k != SecurityKey(a)
    ensures Slice(Interleaved(w, schedule, threshold).tables, k) == Slice(w.tables, k)
  {
    if schedule != [] {
      var init, b := schedule[..|schedule| - 1], schedule[|schedule| - 1];
      OtherRowsStay(w, init, k, owner, threshold);
      InterleavedKeepsForm(w, init, owner, threshold);
      var v := Interleaved(w, init, threshold);
      if b in v.groups { ExecOtherSlice(v.tables, v.groups[b], b, owner, threshold, k); }
    }
  }

  // ---- Any complete schedule ends like any other ----

  ghost predicate Complete(w: World) {
    forall a :: a in w.groups ==> w.groups[a].todo == []
  }

  lemma {:induction false} FinishedStays(t: Tables, g: Group, n: nat, more: nat, threshold: nat)
    requires Alone(t, g, n, threshold).1.todo == []
    ensures Alone(t, g, n + more, threshold) == Alone(t, g, n, threshold)
  {
    if more > 0 {
      FinishedStays(t, g, n, more - 1, threshold);
      AloneOneMore(t, g, n + more - 1, threshold);
    }
  }

  lemma SlicesDetermine(t: Tables, u: Tables)
    requires forall k :: Slice(t, k) == Slice(u, k)
    ensures t.aggregates == u.aggregates
    ensures forall k :: RowsOf(t.elements, k) == RowsOf(u.elements, k)
  {
    forall k
      ensures k in t.aggregates <==> k in u.aggregates
      ensures k in t.aggregates && k in u.aggregates ==> t.aggregates[k] == u.aggregates[k]
    {
      assert Slice(t, k) == Slice(u, k);
      assert k in t.aggregates <==> k in Slice(t, k).aggregates;
      assert k in u.aggregates <==> k in Slice(u, k).aggregates;
      if k in t.aggregates { assert Slice(t, k).aggregates[k] == t.aggregates[k]; }
    }
    forall k ensures RowsOf(t.elements, k) == RowsOf(u.elements, k) {
      assert Slice(t, k).elements == Slice(u, k).elements;
    }
  }

  /** All complete interleavings end in the same aggregates and the same elements under every key. */
  lemma CompleteSchedulesAgree(w: World, s: seq<string>, r: seq<string>, owner: Hash -> AggKey, threshold: nat)
    requires WellFormed(w, owner)
    requires Complete(Interleaved(w, s, threshold)) && Complete(Interleaved(w, r, threshold))
    ensures Interleaved(w, s, threshold).tables.aggregates == Interleaved(w, r, threshold).tables.aggregates
    ensures forall k ::
      RowsOf(Interleaved(w, s, threshold).tables.elements, k) == RowsOf(Interleaved(w, r, threshold).tables.elements, k)
  {
    var v, x := Interleaved(w, s, threshold), Interleaved(w, r, threshold);
    forall k ensures Slice(v.tables, k) == Slice(x.tables, k) {
      if a :| a in w.groups && k == SecurityKey(a) {
        EachGroupRunsAlone(w, s, a, owner, threshold);
        EachGroupRunsAlone(w, r, a, owner, threshold);
        var n, m := Turns(s, a), Turns(r, a);
        if n <= m {
          FinishedStays(Slice(w.tables, k), w.groups[a], n, m - n, threshold);
        } else {
          FinishedStays(Slice(w.tables, k), w.groups[a], m, n - m, threshold);
        }
      } else {
        OtherRowsStay(w, s, k, owner, threshold);
        OtherRowsStay(w, r, k, owner, threshold);
      }
    }
    SlicesDetermine(v.tables, x.tables);
  }

  // ---- One group after another, one message after another ----

  function ProcessAll(t: Tables, ms: seq<Element>, threshold: nat): Tables
    decreases |ms|
  {
    if ms == [] then t else ProcessAll(Processed(t, ms[0], threshold), ms[1..], threshold)
  }

  function ProcessGroups(t: Tables, groups: map<string, Group>, order: seq<string>, threshold: nat): Tables
    requires forall i :: 0 <= i < |order| ==> order[i] in groups
    decreases |order|
  {
    if order == [] then t
    else ProcessGroups(ProcessAll(t, groups[order[0]].todo, threshold), groups, order[1..], threshold)
  }

  /** How many statements the handler needs for `m`. */
  function StatementCount(t: Tables, m: Element, threshold: nat): nat {
    if m.owner !in t.aggregates then 2
    else if t.aggregates[m.owner].dirty then 3
    else if m.time >= t.aggregates[m.owner].time then 4
    else
      var es := WithElement(t.elements, m);
      if |RowsOf(es, m.owner)| <= threshold && Ordered(es, m.owner) != [] then 6 else 5
  }

  /** The first two statements: the element is stored, and a new key gets its row. */
  lemma FirstStatements(t: Tables, ms: seq<Element>, threshold: nat)
    requires ms != []
    ensures var u := Tables(WithElement(t.elements, ms[0]), t.aggregates);
            Alone(t, Group(ms, InsertElement), 2, threshold)
              == if ms[0].owner in t.aggregates then (u, Group(ms, SelectRow))
                 else (Processed(t, ms[0], threshold), Group(ms[1..], InsertElement))
  {
    var stored := t.(elements := WithElement(t.elements, ms[0]));
    assert Alone(t, Group(ms, InsertElement), 2, threshold) == Alone(stored, Group(ms, InsertRow), 1, threshold);
  }

  /** The rest of the call under a row that is already there. */
  lemma RestOfCall(t: Tables, ms: seq<Element>, threshold: nat)
    requires ms != [] && ms[0].owner in t.aggregates
    ensures var u := Tables(WithElement(t.elements, ms[0]), t.aggregates);
            Alone(u, Group(ms, SelectRow), StatementCount(t, ms[0], threshold) - 2, threshold)
              == (Processed(t, ms[0], threshold), Group(ms[1..], InsertElement))
  {
    var m := ms[0];
    var u := Tables(WithElement(t.elements, m), t.aggregates);
    var row := t.aggregates[m.owner];
    if row.dirty {
    } else if m.time >= row.time {
      assert Alone(u, Group(ms, SelectRow), 2, threshold)
          == Alone(u, Group(ms, UpdateMerged(Merge(row.content, m.content))), 1, threshold);
    } else {
      assert Alone(u, Group(ms, SelectRow), StatementCount(t, m, threshold) - 2, threshold)
          == Alone(u, Group(ms, CountElements), StatementCount(t, m, threshold) - 3, threshold);
      LateCall(t, ms, threshold);
    }
  }

  /** The late branch: count, then mark dirty or rebuild. */
  lemma LateCall(t: Tables, ms: seq<Element>, threshold: nat)
    requires ms != [] && ms[0].owner in t.aggregates
    requires !t.aggregates[ms[0].owner].dirty && ms[0].time < t.aggregates[ms[0].owner].time
    ensures var u := Tables(WithElement(t.elements, ms[0]), t.aggregates);
            Alone(u, Group(ms, CountElements), StatementCount(t, ms[0], threshold) - 3, threshold)
              == (Processed(t, ms[0], threshold), Group(ms[1..], InsertElement))
  {
    var k := ms[0].owner;
    var u := Tables(WithElement(t.elements, ms[0]), t.aggregates);
    if |RowsOf(u.elements, k)| > threshold {
      assert Alone(u, Group(ms, CountElements), 2, threshold) == Alone(u, Group(ms, MarkDirty), 1, threshold);
    } else if Ordered(u.elements, k) == [] {
      assert Alone(u, Group(ms, CountElements), 2, threshold) == Alone(u, Group(ms, SelectElements), 1, threshold);
    } else {
      assert Alone(u, Group(ms, CountElements), 3, threshold) == Alone(u, Group(ms, SelectElements), 2, threshold);
      assert Alone(u, Group(ms, SelectElements), 2, threshold)
          == Alone(u, Group(ms, UpdateFolded(FoldRow(Ordered(u.elements, k)))), 1, threshold);
    }
  }

  /** The statements of one uninterrupted handler call add up to processing its message. */
  lemma StatementsAreProcess(t: Tables, ms: seq<Element>, threshold: nat)
    requires ms != []
    ensures Alone(t, Group(ms, InsertElement), StatementCount(t, ms[0], threshold), threshold)
         == (Processed(t, ms[0], threshold), Group(ms[1..], InsertElement))
  {
    FirstStatements(t, ms, threshold);
    if ms[0].owner in t.aggregates {
      AloneAppend(t, Group(ms, InsertElement), 2, StatementCount(t, ms[0], threshold) - 2, threshold);
      RestOfCall(t, ms, threshold);
    }
  }

  function GroupStatements(t: Tables, ms: seq<Element>, threshold: nat): nat
    decreases |ms|
  {
    if ms == [] then 0
    else StatementCount(t, ms[0], threshold) + GroupStatements(Processed(t, ms[0], threshold), ms[1..], threshold)
  }

  /** A whole group without interruption processes its messages one after another. */
  lemma {:induction false} GroupIsProcessAll(t: Tables, ms: seq<Element>, threshold: nat)
    ensures Alone(t, Group(ms, InsertElement), GroupStatements(t, ms, threshold), threshold)
         == (ProcessAll(t, ms, threshold), Group([], InsertElement))
    decreases |ms|
  {
    if ms != [] {
      var u, n := Processed(t, ms[0], threshold), StatementCount(t, ms[0], threshold);
      StatementsAreProcess(t, ms, threshold);
      AloneAppend(t, Group(ms, InsertElement), n, GroupStatements(u, ms[1..], threshold), threshold);
      GroupIsProcessAll(u, ms[1..], threshold);
    }
  }

  // ---- The sequential schedule ----

  function Repeat(a: string, n: nat): (s: seq<string>)
    ensures |s| == n
  {
    seq(n, _ => a)
  }

  lemma {:induction false} RepeatIsAlone(w: World, a: string, n: nat, threshold: nat)
    requires a in w.groups
    ensures Interleaved(w, Repeat(a, n), threshold)
         == World(Alone(w.tables, w.groups[a], n, threshold).0,
                  w.groups[a := Alone(w.tables, w.groups[a], n, threshold).1])
  {
    if n == 0 {
      assert w.groups[a := w.groups[a]] == w.groups;
    } else {
      assert Repeat(a, n)[..n - 1] == Repeat(a, n - 1);
      RepeatIsAlone(w, a, n - 1, threshold);
      AloneOneMore(w.tables, w.groups[a], n - 1, threshold);
    }
  }

  lemma {:induction false} InterleavedAppend(w: World, s: seq<string>, r: seq<string>, threshold: nat)
    ensures Interleaved(w, s + r, threshold) == Interleaved(Interleaved(w, s, threshold), r, threshold)
  {
    if r == [] {
      assert s + r == s;
    } else {
      assert (s + r)[..|s + r| - 1] == s + r[..|r| - 1];
      InterleavedAppend(w, s, r[..|r| - 1], threshold);
    }
  }

  ghost predicate NoRepeats(order: seq<string>) {
    forall i, j :: 0 <= i < j < |order| ==> order[i] != order[j]
  }

  /** Running the groups of `order` one after another is itself a schedule. */
  lemma {:induction false} SequentialSchedule(w: World, order: seq<string>, threshold: nat) returns (s: seq<string>)
    requires NoRepeats(order)
    requires forall i :: 0 <= i < |order| ==> order[i] in w.groups && w.groups[order[i]].next == InsertElement
    ensures Interleaved(w, s, threshold).tables == ProcessGroups(w.tables, w.groups, order, threshold)
    ensures Interleaved(w, s, threshold).groups.Keys == w.groups.Keys
    ensures forall a :: a in w.groups ==>
      Interleaved(w, s, threshold).groups[a] == if a in order then Group([], InsertElement) else w.groups[a]
    decreases |order|
  {
    if order == [] {
      s := [];
    } else {
      var a := order[0];
      var ms := w.groups[a].todo;
      var n := GroupStatements(w.tables, ms, threshold);
      assert w.groups[a] == Group(ms, InsertElement);
      RepeatIsAlone(w, a, n, threshold);
      GroupIsProcessAll(w.tables, ms, threshold);
      var v := World(ProcessAll(w.tables, ms, threshold), w.groups[a := Group([], InsertElement)]);
      var r := SequentialSchedule(v, order[1..], threshold);
      s := Repeat(a, n) + r;
      InterleavedAppend(w, Repeat(a, n), r, threshold);
      SameGroups(v.tables, v.groups, w.groups, order[1..], threshold);
      assert order == [a] + order[1..];
    }
  }

  lemma {:induction false} SameGroups(t: Tables, g: map<string, Group>, h: map<string, Group>, order: seq<string>,
      threshold: nat)
    requires forall i :: 0 <= i < |order| ==> order[i] in g && order[i] in h && g[order[i]] == h[order[i]]
    ensures ProcessGroups(t, g, order, threshold) == ProcessGroups(t, h, order, threshold)
    decreases |order|
  {
    if order != [] {
      SameGroups(ProcessAll(t, g[order[0]].todo, threshold), g, h, order[1..], threshold);
    }
  }

  /**
   * Every complete statement-level interleaving of the groups leaves the aggregates, and the
   * elements under every key, that processing the groups one after another leaves.
   */
  lemma InterleavingIsSequential(w: World, schedule: seq<string>, order: seq<string>, owner: Hash -> AggKey,
      threshold: nat)
    requires WellFormed(w, owner) && forall a :: a in w.groups ==> w.groups[a].next == InsertElement
    requires Complete(Interleaved(w, schedule, threshold))
    requires NoRepeats(order) && forall a :: a in order <==> a in w.groups
    ensures forall i :: 0 <= i < |order| ==> order[i] in w.groups
    ensures var t := Interleaved(w, schedule, threshold).tables;
            var u := ProcessGroups(w.tables, w.groups, order, threshold);
            t.aggregates == u.aggregates && forall k :: RowsOf(t.elements, k) == RowsOf(u.elements, k)
  {
    assert forall i :: 0 <= i < |order| ==> order[i] in order;
    var s := SequentialSchedule(w, order, threshold);
    CompleteSchedulesAgree(w, schedule, s, owner, threshold);
  }
}
