/**
 * The `message_counts` table: five group-bys over the messages, sharing one key space, kept up to
 * date by a row trigger and rebuilt from scratch by the backfill.
 */
module MessageCounts {
  import opened Wrappers

  type Hash = string

  datatype Message = Message(kind: string, status: string, sender: string, owner: Option<string>)

  datatype CountKey = CountKey(kind: string, status: string, sender: string, owner: string)

  type Counts = map<CountKey, int>

  const DIMENSIONS: nat := 5

  /** The key that message `m` contributes to dimension `d`. */
  function KeyAt(m: Message, d: nat): CountKey
    requires d < DIMENSIONS
  {
    match d
    case 0 => CountKey(m.kind, m.status, m.sender, if m.owner.Some? then m.owner.value else "")
    case 1 => CountKey(m.kind, m.status, "", "")
    case 2 => CountKey("", m.status, m.sender, "")
    case 3 => CountKey("", "", m.sender, "")
    case _ => CountKey(m.kind, "", "", "")
  }

  function KeysOf(m: Message): set<CountKey> {
    set d | 0 <= d < DIMENSIONS :: KeyAt(m, d)
  }

  function CountOf(counts: Counts, k: CountKey): int {
    if k in counts then counts[k] else 0
  }

  // ---- The trigger ----

  /** `UPDATE ... SET count = count - 1 WHERE key IN (...)`: every matching row once. */
  function Decremented(counts: Counts, m: Message): Counts {
    map k | k in counts :: if k in KeysOf(m) then counts[k] - 1 else counts[k]
  }

  /** `INSERT ... VALUES (five rows) ON CONFLICT DO UPDATE SET count = count + 1`, the rows from `d` on. */
  function IncrementedFrom(counts: Counts, m: Message, d: nat): Counts
    requires d <= DIMENSIONS
    decreases DIMENSIONS - d
  {
    if d == DIMENSIONS then counts
    else IncrementedFrom(counts[KeyAt(m, d) := CountOf(counts, KeyAt(m, d)) + 1], m, d + 1)
  }

  /** One command may not touch the same row twice: the database refuses the upsert then. */
  predicate FiveKeys(m: Message) {
    forall d, e :: 0 <= d < e < DIMENSIONS ==> KeyAt(m, d) != KeyAt(m, e)
  }

  /** Row changes, switching the trigger, and truncate-and-rebuild. */
  datatype Change = Put(hash: Hash, m: Message) | Remove(hash: Hash) | SetTrigger(on: bool) | RebuildCounts

  datatype Tables = Tables(messages: map<Hash, Message>, counts: Counts, triggerOn: bool)

  const NO_TABLES: Tables := Tables(map[], map[], true)

  function Changed(t: Tables, c: Change): Tables {
    match c
    case Put(h, m) =>
      if !t.triggerOn then t.(messages := t.messages[h := m])
      else if !FiveKeys(m) then t
      else
        var lowered := if h in t.messages then Decremented(t.counts, t.messages[h]) else t.counts;
        t.(messages := t.messages[h := m], counts := IncrementedFrom(lowered, m, 0))
    case Remove(h) =>
      if h !in t.messages then t
      else
        t.(messages := t.messages - {h},
           counts := if t.triggerOn then Decremented(t.counts, t.messages[h]) else t.counts)
    case SetTrigger(on) => t.(triggerOn := on)
    case RebuildCounts => t.(counts := if SeparateDimensions(t.messages) then Grouped(t.messages) else map[])
  }

  function Run(t: Tables, changes: seq<Change>): Tables {
    if changes == [] then t else Changed(Run(t, changes[..|changes| - 1]), changes[|changes| - 1])
  }

  /** Filling the denormalised columns: the rows that get other keys, with the trigger off. */
  function Puts(edits: seq<(Hash, Message)>): seq<Change> {
    if edits == [] then [] else Puts(edits[..|edits| - 1]) + [Put(edits[|edits| - 1].0, edits[|edits| - 1].1)]
  }

  /** The whole backfill; when a batch fails there is no rebuild, but the trigger comes back on. */
  function DenormChanges(edits: seq<(Hash, Message)>, failed: bool): seq<Change> {
    [SetTrigger(false)] + Puts(edits) + (if failed then [] else [RebuildCounts]) + [SetTrigger(true)]
  }

  class CountedMessages {
    var messages: map<Hash, Message>
    var counts: Counts
    var triggerOn: bool

    function Contents(): Tables reads this { Tables(messages, counts, triggerOn) }

    constructor ()
      ensures Contents() == NO_TABLES
    {
      messages, counts, triggerOn := map[], map[], true;
    }

    /**
     * Inserts or overwrites one row; the trigger sees OLD when there was one. A refused trigger undoes the
     * statement.
     */
    method Upsert(h: Hash, m: Message) returns (ok: bool)
      modifies this
      ensures ok <==> !old(triggerOn) || FiveKeys(m)
      ensures Contents() == Changed(old(Contents()), Put(h, m))
    {
      ok := !triggerOn || FiveKeys(m);
      if ok {
        if triggerOn {
          if h in messages {
            counts := Decremented(counts, messages[h]);
          }
          counts := IncrementedFrom(counts, m, 0);
        }
        messages := messages[h := m];
      }
    }

    method Delete(h: Hash)
      modifies this
      ensures Contents() == Changed(old(Contents()), Remove(h))
    {
      if h in messages {
        if triggerOn { counts := Decremented(counts, messages[h]); }
        messages := messages - {h};
      }
    }

    /** The last phase of the backfill. */
    method Rebuild() returns (ok: bool)
      modifies `counts
      ensures ok <==> SeparateDimensions(messages)
      ensures Contents() == Changed(old(Contents()), RebuildCounts)
      ensures Agree(messages, counts) <==> ok
    {
      counts := map[];
      ok := SeparateDimensions(messages);
      if ok { counts := Grouped(messages); }
      RebuildAgreesIff(messages);
    }

    /**
     * The backfill as a whole: trigger off, row updates, rebuild, trigger on again whatever happened.
     * `failed` says that an update after `edits` failed, in which case the rebuild is skipped.
     */
    method BackfillDenorm(edits: seq<(Hash, Message)>, failed: bool)
      modifies this
      ensures Contents() == Run(old(Contents()), DenormChanges(edits, failed))
      ensures triggerOn
      ensures !failed ==> (Agree(messages, counts) <==> SeparateDimensions(messages))
    {
      ghost var t := Contents();
      triggerOn := false;
      for i := 0 to |edits|
        invariant !triggerOn && Contents() == Run(t.(triggerOn := false), Puts(edits[..i]))
      {
        assert edits[..i + 1][..i] == edits[..i];
        PutsNext(edits, i, t.(triggerOn := false));
        messages := messages[edits[i].0 := edits[i].1];
      }
      assert edits[..|edits|] == edits;
      if !failed {
        var _ := Rebuild();
      }
      triggerOn := true;
      DenormRuns(t, edits, failed);
    }
  }

  // ---- What the counts mean ----

  function Carriers(messages: map<Hash, Message>, k: CountKey): set<Hash> {
    set h | h in messages && k in KeysOf(messages[h])
  }

  /** Every count, an absent row counting zero, is the number of messages carrying the key. */
  ghost predicate Agree(messages: map<Hash, Message>, counts: Counts) {
    forall k :: CountOf(counts, k) == |Carriers(messages, k)|
  }

  function OwnerOrEmpty(m: Message): string { if m.owner.Some? then m.owner.value else "" }

  /**
   * What right counts say: one row for each type, status, sender and owner together, one for each type
   * and status, status and sender, sender, and type, counting the messages that have these.
   */
  lemma CountsMean(messages: map<Hash, Message>, counts: Counts, kind: string, status: string, sender: string,
      owner: string)
    requires Agree(messages, counts) && kind != "" && status != "" && sender != ""
    ensures CountOf(counts, CountKey(kind, status, sender, owner)) == |set h | h in messages && messages[h].kind == kind
      && messages[h].status == status && messages[h].sender == sender && OwnerOrEmpty(messages[h]) == owner|
    ensures CountOf(counts, CountKey(kind, status, "", ""))
      == |set h | h in messages && messages[h].kind == kind && messages[h].status == status|
    ensures CountOf(counts, CountKey("", status, sender, ""))
      == |set h | h in messages && messages[h].status == status && messages[h].sender == sender|
    ensures CountOf(counts, CountKey("", "", sender, "")) == |set h | h in messages && messages[h].sender == sender|
    ensures CountOf(counts, CountKey(kind, "", "", "")) == |set h | h in messages && messages[h].kind == kind|
  {
    CarriersMean(messages, kind, status, sender, owner);
  }

  lemma CarriersMean(messages: map<Hash, Message>, kind: string, status: string, sender: string, owner: string)
    requires kind != "" && status != "" && sender != ""
    ensures Carriers(messages, CountKey(kind, status, sender, owner)) == set h | h in messages &&
      messages[h].kind == kind && messages[h].status == status && messages[h].sender == sender &&
      OwnerOrEmpty(messages[h]) == owner
    ensures Carriers(messages, CountKey(kind, status, "", ""))
      == set h | h in messages && messages[h].kind == kind && messages[h].status == status
    ensures Carriers(messages, CountKey("", status, sender, ""))
      == set h | h in messages && messages[h].status == status && messages[h].sender == sender
    ensures Carriers(messages, CountKey("", "", sender, "")) == set h | h in messages && messages[h].sender == sender
    ensures Carriers(messages, CountKey(kind, "", "", "")) == set h | h in messages && messages[h].kind == kind
  {
    forall h | h in messages
      ensures var m := messages[h];
        KeysOf(m) == {KeyAt(m, 0), KeyAt(m, 1), KeyAt(m, 2), KeyAt(m, 3), KeyAt(m, 4)}
    {
    }
  }

  lemma CarriersWithout(messages: map<Hash, Message>, h: Hash, k: CountKey)
    requires h in messages
    ensures |Carriers(messages - {h}, k)| == |Carriers(messages, k)| - (if k in KeysOf(messages[h]) then 1 else 0)
  {
    if k in KeysOf(messages[h]) {
      assert Carriers(messages - {h}, k) == Carriers(messages, k) - {h};
    } else {
      assert Carriers(messages - {h}, k) == Carriers(messages, k);
    }
  }

  lemma CarriersWith(messages: map<Hash, Message>, h: Hash, m: Message, k: CountKey)
    requires h !in messages
    ensures |Carriers(messages[h := m], k)| == |Carriers(messages, k)| + (if k in KeysOf(m) then 1 else 0)
  {
    if k in KeysOf(m) {
      assert Carriers(messages[h := m], k) == Carriers(messages, k) + {h};
    } else {
      assert Carriers(messages[h := m], k) == Carriers(messages, k);
    }
  }

  /** With five different keys the upsert raises each of their counts by one, and no other. */
  lemma {:induction false} IncrementRaises(counts: Counts, m: Message, d: nat, k: CountKey)
    requires d <= DIMENSIONS && FiveKeys(m)
    ensures CountOf(IncrementedFrom(counts, m, d), k)
         == CountOf(counts, k) + (if exists e :: d <= e < DIMENSIONS && KeyAt(m, e) == k then 1 else 0)
    decreases DIMENSIONS - d
  {
    if d < DIMENSIONS {
      IncrementRaises(counts[KeyAt(m, d) := CountOf(counts, KeyAt(m, d)) + 1], m, d + 1, k);
    }
  }

  /** The decrement undoes a message's share: a key carried by a stored message always has its row. */
  lemma DeleteAgrees(messages: map<Hash, Message>, counts: Counts, h: Hash)
    requires Agree(messages, counts) && h in messages
    ensures Agree(messages - {h}, Decremented(counts, messages[h]))
  {
    var after := Decremented(counts, messages[h]);
    forall k ensures CountOf(after, k) == |Carriers(messages - {h}, k)| {
      CarriersWithout(messages, h, k);
      if k in KeysOf(messages[h]) {
        assert h in Carriers(messages, k);
        assert CountOf(counts, k) == |Carriers(messages, k)|;
        assert k in counts;
      }
    }
  }

  lemma InsertAgrees(messages: map<Hash, Message>, counts: Counts, h: Hash, m: Message)
    requires Agree(messages, counts) && h !in messages && FiveKeys(m)
    ensures Agree(messages[h := m], IncrementedFrom(counts, m, 0))
  {
    forall k ensures CountOf(IncrementedFrom(counts, m, 0), k) == |Carriers(messages[h := m], k)| {
      CarriersWith(messages, h, m, k);
      IncrementRaises(counts, m, 0, k);
      assert CountOf(counts, k) == |Carriers(messages, k)|;
    }
  }

  /** Insert and update alike: OLD's and NEW's keys may overlap in any way. */
  lemma UpsertAgrees(messages: map<Hash, Message>, counts: Counts, h: Hash, m: Message)
    requires Agree(messages, counts) && FiveKeys(m)
    ensures var lowered := if h in messages then Decremented(counts, messages[h]) else counts;
      Agree(messages[h := m], IncrementedFrom(lowered, m, 0))
  {
    if h in messages {
      DeleteAgrees(messages, counts, h);
      InsertAgrees(messages - {h}, Decremented(counts, messages[h]), h, m);
      assert (messages - {h})[h := m] == messages[h := m];
    } else {
      InsertAgrees(messages, counts, h, m);
    }
  }

  // ---- The rebuild ----

  function GroupCarriers(messages: map<Hash, Message>, d: nat, k: CountKey): set<Hash>
    requires d < DIMENSIONS
  {
    set h | h in messages && KeyAt(messages[h], d) == k
  }

  /** `SELECT ..., COUNT(*) FROM messages GROUP BY ...` for one dimension. */
  function GroupBy(messages: map<Hash, Message>, d: nat): Counts
    requires d < DIMENSIONS
  {
    map k | k in set h | h in messages :: KeyAt(messages[h], d) :: |GroupCarriers(messages, d, k)|
  }

  /** `UNION ALL` of the five groupings, inserted into the emptied table. */
  function Grouped(messages: map<Hash, Message>): Counts {
    GroupBy(messages, 0) + GroupBy(messages, 1) + GroupBy(messages, 2) + GroupBy(messages, 3) + GroupBy(messages, 4)
  }

  /** No key comes out of two groupings; otherwise the one insert touches a row twice and is refused. */
  predicate SeparateDimensions(messages: map<Hash, Message>) {
    forall g, h, d, e :: g in messages && h in messages && 0 <= d < DIMENSIONS && 0 <= e < DIMENSIONS && d != e ==>
      KeyAt(messages[g], d) != KeyAt(messages[h], e)
  }

  lemma GroupByKeys(messages: map<Hash, Message>, d: nat, k: CountKey)
    requires d < DIMENSIONS
    ensures k in GroupBy(messages, d) <==> exists h :: h in messages && KeyAt(messages[h], d) == k
    ensures k in GroupBy(messages, d) ==> GroupBy(messages, d)[k] == |GroupCarriers(messages, d, k)| >= 1
  {
    if k in GroupBy(messages, d) {
      var h :| h in messages && KeyAt(messages[h], d) == k;
      assert h in GroupCarriers(messages, d, k);
    }
  }

  /** A key of dimension `d` alone: its carriers are its group. */
  lemma CarriersAreGroup(messages: map<Hash, Message>, d: nat, k: CountKey)
    requires SeparateDimensions(messages) && d < DIMENSIONS && k in GroupBy(messages, d)
    ensures Carriers(messages, k) == GroupCarriers(messages, d, k)
    ensures forall e :: 0 <= e < DIMENSIONS && e != d ==> k !in GroupBy(messages, e)
  {
    GroupByKeys(messages, d, k);
    var g :| g in messages && KeyAt(messages[g], d) == k;
    forall e | 0 <= e < DIMENSIONS && e != d ensures k !in GroupBy(messages, e) {
      GroupByKeys(messages, e, k);
      assert forall h :: h in messages ==> KeyAt(messages[g], d) != KeyAt(messages[h], e);
    }
    forall h | h in Carriers(messages, k) ensures KeyAt(messages[h], d) == k {
      var e :| 0 <= e < DIMENSIONS && KeyAt(messages[h], e) == k;
    }
    forall h | h in GroupCarriers(messages, d, k) ensures h in Carriers(messages, k) {
      assert k in KeysOf(messages[h]);
    }
  }

  lemma UnionOfFive(a: Counts, b: Counts, c: Counts, d: Counts, e: Counts, k: CountKey)
    ensures k in a + b + c + d + e <==> k in a || k in b || k in c || k in d || k in e
    ensures k in a && k !in b && k !in c && k !in d && k !in e ==> (a + b + c + d + e)[k] == a[k]
    ensures k in b && k !in c && k !in d && k !in e ==> (a + b + c + d + e)[k] == b[k]
    ensures k in c && k !in d && k !in e ==> (a + b + c + d + e)[k] == c[k]
    ensures k in d && k !in e ==> (a + b + c + d + e)[k] == d[k]
    ensures k in e ==> (a + b + c + d + e)[k] == e[k]
  {
  }

  ghost predicate OnlyIn(messages: map<Hash, Message>, d: nat, k: CountKey)
    requires d < DIMENSIONS
  {
    k in GroupBy(messages, d) && forall e :: 0 <= e < DIMENSIONS && e != d ==> k !in GroupBy(messages, e)
  }

  lemma GroupedAt(messages: map<Hash, Message>, k: CountKey)
    ensures k in Grouped(messages) <==> exists d :: 0 <= d < DIMENSIONS && k in GroupBy(messages, d)
    ensures forall d :: 0 <= d < DIMENSIONS && OnlyIn(messages, d, k) ==>
      Grouped(messages)[k] == GroupBy(messages, d)[k]
  {
    UnionOfFive(GroupBy(messages, 0), GroupBy(messages, 1), GroupBy(messages, 2),
                GroupBy(messages, 3), GroupBy(messages, 4), k);
  }

  lemma NoCarriers(messages: map<Hash, Message>, k: CountKey)
    requires forall d :: 0 <= d < DIMENSIONS ==> k !in GroupBy(messages, d)
    ensures Carriers(messages, k) == {}
  {
    forall h | h in messages ensures k !in KeysOf(messages[h]) {
      forall d | 0 <= d < DIMENSIONS ensures KeyAt(messages[h], d) != k { GroupByKeys(messages, d, k); }
    }
  }

  lemma GroupedCounts(messages: map<Hash, Message>, k: CountKey)
    requires SeparateDimensions(messages)
    ensures CountOf(Grouped(messages), k) == |Carriers(messages, k)|
    ensures k in Grouped(messages) ==> Grouped(messages)[k] >= 1
  {
    GroupedAt(messages, k);
    if d :| 0 <= d < DIMENSIONS && k in GroupBy(messages, d) {
      CarriersAreGroup(messages, d, k);
      GroupByKeys(messages, d, k);
      assert OnlyIn(messages, d, k);
    } else {
      NoCarriers(messages, k);
    }
  }

  /** After truncate-and-rebuild the counts are right exactly when no key comes out of two groupings. */
  lemma RebuildAgreesIff(messages: map<Hash, Message>)
    ensures Agree(messages, if SeparateDimensions(messages) then Grouped(messages) else map[])
      <==> SeparateDimensions(messages)
  {
    if SeparateDimensions(messages) {
      forall k ensures CountOf(Grouped(messages), k) == |Carriers(messages, k)| { GroupedCounts(messages, k); }
    } else {
      var h :| h in messages;
      var k := KeyAt(messages[h], 0);
      assert h in Carriers(messages, k);
      assert CountOf(map[], k) != |Carriers(messages, k)|;
    }
  }

  /** The maintained table and the rebuilt one differ by zero rows only, and the rebuilt one has none. */
  lemma RebuildEqualsMaintained(messages: map<Hash, Message>, counts: Counts, k: CountKey)
    requires Agree(messages, counts) && SeparateDimensions(messages)
    ensures CountOf(counts, k) == CountOf(Grouped(messages), k)
    ensures k in Grouped(messages) <==> k in counts && counts[k] != 0
  {
    GroupedCounts(messages, k);
    assert CountOf(counts, k) == |Carriers(messages, k)|;
  }

  // ---- Which messages the five key shapes are made for ----

  /** The trigger accepts a message exactly when enough of its fields are non-empty. */
  lemma FiveKeysIff(m: Message)
    ensures var owner := if m.owner.Some? then m.owner.value else "";
            FiveKeys(m) <==>
              && m.status != "" && !(m.sender == "" && owner == "")
              && !(m.kind == "" && owner == "") && !(m.kind == "" && m.sender == "")
  {
    var owner := if m.owner.Some? then m.owner.value else "";
    if FiveKeys(m) {
      assert KeyAt(m, 1) != KeyAt(m, 4);
      assert KeyAt(m, 0) != KeyAt(m, 1);
      assert KeyAt(m, 0) != KeyAt(m, 2);
      assert KeyAt(m, 1) != KeyAt(m, 2);
    }
  }

  /** With non-empty type, status and sender everywhere, all five shapes are disjoint, whoever the owner. */
  lemma NonEmptyFieldsSeparate(messages: map<Hash, Message>)
    requires forall h :: h in messages ==>
      messages[h].kind != "" && messages[h].status != "" && messages[h].sender != ""
    ensures SeparateDimensions(messages)
    ensures forall h :: h in messages ==> FiveKeys(messages[h])
  {
  }

  // ---- Runs ----

  lemma PutsNext(edits: seq<(Hash, Message)>, i: nat, t: Tables)
    requires i < |edits|
    ensures Run(t, Puts(edits[..i + 1])) == Changed(Run(t, Puts(edits[..i])), Put(edits[i].0, edits[i].1))
  {
    assert edits[..i + 1][..i] == edits[..i];
    RunOneMore(t, Puts(edits[..i]), Put(edits[i].0, edits[i].1));
  }

  lemma RunOneMore(t: Tables, changes: seq<Change>, c: Change)
    ensures Run(t, changes + [c]) == Changed(Run(t, changes), c)
  {
    assert (changes + [c])[..|changes|] == changes;
  }

  lemma {:induction false} RunAppend(t: Tables, a: seq<Change>, b: seq<Change>)
    ensures Run(t, a + b) == Run(Run(t, a), b)
  {
    if b == [] {
      assert a + b == a;
    } else {
      assert (a + b)[..|a + b| - 1] == a + b[..|b| - 1];
      RunAppend(t, a, b[..|b| - 1]);
    }
  }

  lemma DenormRuns(t: Tables, edits: seq<(Hash, Message)>, failed: bool)
    ensures var edited := Run(t.(triggerOn := false), Puts(edits));
      Run(t, DenormChanges(edits, failed))
        == (if failed then edited else Changed(edited, RebuildCounts)).(triggerOn := true)
  {
    var head := [SetTrigger(false)] + Puts(edits);
    RunOneMore(t, [], SetTrigger(false));
    assert [] + [SetTrigger(false)] == [SetTrigger(false)];
    RunAppend(t, [SetTrigger(false)], Puts(edits));
    if failed {
      assert DenormChanges(edits, failed) == head + [SetTrigger(true)];
      RunOneMore(t, head, SetTrigger(true));
    } else {
      assert DenormChanges(edits, failed) == head + [RebuildCounts] + [SetTrigger(true)];
      RunOneMore(t, head, RebuildCounts);
      RunOneMore(t, head + [RebuildCounts], SetTrigger(true));
    }
  }

  /** The changes that the counts do not follow: keys edited behind the trigger's back, and a refused rebuild. */
  predicate Derails(t: Tables, c: Change) {
    match c
    case Put(h, m) => !t.triggerOn && !(h in t.messages && KeysOf(t.messages[h]) == KeysOf(m))
    case Remove(h) => !t.triggerOn && h in t.messages
    case SetTrigger(_) => false
    case RebuildCounts => !SeparateDimensions(t.messages)
  }

  lemma QuietRemove(t: Tables, h: Hash)
    requires Agree(t.messages, t.counts) && h in t.messages
    ensures !Agree(t.messages - {h}, t.counts)
  {
    var k := KeyAt(t.messages[h], 0);
    assert k in KeysOf(t.messages[h]);
    CarriersWithout(t.messages, h, k);
    assert CountOf(t.counts, k) == |Carriers(t.messages, k)|;
  }

  lemma QuietPut(t: Tables, h: Hash, m: Message)
    requires Agree(t.messages, t.counts)
    ensures Agree(t.messages[h := m], t.counts) <==> h in t.messages && KeysOf(t.messages[h]) == KeysOf(m)
  {
    forall k ensures |Carriers(t.messages[h := m], k)| == |Carriers(t.messages, k)|
      + (if k in KeysOf(m) then 1 else 0) - (if h in t.messages && k in KeysOf(t.messages[h]) then 1 else 0)
    {
      OverwrittenCarriers(t.messages, h, m, k);
    }
    assert forall k :: CountOf(t.counts, k) == |Carriers(t.messages, k)|;
    if !(h in t.messages && KeysOf(t.messages[h]) == KeysOf(m)) {
      var before := if h in t.messages then KeysOf(t.messages[h]) else {};
      assert KeyAt(m, 0) in KeysOf(m);
      var k :| (k in before) != (k in KeysOf(m));
      assert CountOf(t.counts, k) != |Carriers(t.messages[h := m], k)|;
    }
  }

  lemma OverwrittenCarriers(messages: map<Hash, Message>, h: Hash, m: Message, k: CountKey)
    ensures |Carriers(messages[h := m], k)| == |Carriers(messages, k)|
      + (if k in KeysOf(m) then 1 else 0) - (if h in messages && k in KeysOf(messages[h]) then 1 else 0)
  {
    if h in messages {
      CarriersWithout(messages, h, k);
      CarriersWith(messages - {h}, h, m, k);
      assert (messages - {h})[h := m] == messages[h := m];
    } else {
      CarriersWith(messages, h, m, k);
    }
  }

  /** One change from right counts leaves right counts exactly when it does not derail them. */
  lemma ChangeKeepsAgreeIff(t: Tables, c: Change)
    requires Agree(t.messages, t.counts)
    ensures Agree(Changed(t, c).messages, Changed(t, c).counts) <==> !Derails(t, c)
  {
    match c
    case Put(h, m) =>
      if !t.triggerOn { QuietPut(t, h, m); }
      else if FiveKeys(m) { UpsertAgrees(t.messages, t.counts, h, m); }
    case Remove(h) =>
      if h in t.messages {
        if t.triggerOn { DeleteAgrees(t.messages, t.counts, h); } else { QuietRemove(t, h); }
      }
    case SetTrigger(_) =>
    case RebuildCounts => RebuildAgreesIff(t.messages);
  }

  ghost predicate NeverDerails(t: Tables, changes: seq<Change>) {
    forall i :: 0 <= i < |changes| ==> !Derails(Run(t, changes[..i]), changes[i])
  }

  lemma {:induction false} CountsKeepAgreeing(t: Tables, changes: seq<Change>)
    requires Agree(t.messages, t.counts) && NeverDerails(t, changes)
    ensures Agree(Run(t, changes).messages, Run(t, changes).counts)
  {
    if changes != [] {
      var init := changes[..|changes| - 1];
      forall i | 0 <= i < |init| ensures !Derails(Run(t, init[..i]), init[i]) {
        assert changes[..i] == init[..i] && changes[i] == init[i];
      }
      CountsKeepAgreeing(t, init);
      ChangeKeepsAgreeIff(Run(t, init), changes[|changes| - 1]);
    }
  }

  lemma {:induction false} TriggerStaysOn(t: Tables, changes: seq<Change>)
    requires t.triggerOn && forall i :: 0 <= i < |changes| ==> changes[i].Put? || changes[i].Remove?
    ensures Run(t, changes).triggerOn && NeverDerails(t, changes)
  {
    if changes != [] {
      var init := changes[..|changes| - 1];
      TriggerStaysOn(t, init);
      forall i | 0 <= i < |changes| ensures !Derails(Run(t, changes[..i]), changes[i]) {
        if i < |init| { assert changes[..i] == init[..i] && changes[i] == init[i]; }
      }
    }
  }

  /** After any inserts, updates and deletes every count is the number of carrying messages, so never negative. */
  lemma CountsAlwaysAgree(changes: seq<Change>)
    requires forall i :: 0 <= i < |changes| ==> changes[i].Put? || changes[i].Remove?
    ensures Agree(Run(NO_TABLES, changes).messages, Run(NO_TABLES, changes).counts)
    ensures forall k :: CountOf(Run(NO_TABLES, changes).counts, k) >= 0
  {
    forall k ensures CountOf(map[], k) == |Carriers(map[], k)| { assert Carriers(map[], k) == {}; }
    TriggerStaysOn(NO_TABLES, changes);
    CountsKeepAgreeing(NO_TABLES, changes);
    assert forall k :: CountOf(Run(NO_TABLES, changes).counts, k) == |Carriers(Run(NO_TABLES, changes).messages, k)|;
  }

  lemma RebuiltRun(t: Tables, before: seq<Change>)
    requires SeparateDimensions(Run(t, before).messages)
    ensures var u := Run(t, before + [RebuildCounts]); Agree(u.messages, u.counts)
  {
    RunOneMore(t, before, RebuildCounts);
    RebuildAgreesIff(Run(t, before).messages);
  }

  /**
   * Whatever happened before, trigger on or off, a rebuild that is not refused makes the counts right
   * for the rest of the run, up to the next change that derails them.
   */
  lemma RebuildRestores(t: Tables, before: seq<Change>, after: seq<Change>)
    requires SeparateDimensions(Run(t, before).messages)
    requires NeverDerails(Run(t, before + [RebuildCounts]), after)
    ensures var u := Run(t, before + [RebuildCounts] + after); Agree(u.messages, u.counts)
  {
    RebuiltRun(t, before);
    RunAppend(t, before + [RebuildCounts], after);
    CountsKeepAgreeing(Run(t, before + [RebuildCounts]), after);
  }
}
