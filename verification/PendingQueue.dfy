/** The queue of pending messages: batches, retries with capped backoff, deferral and rejection. */
module PendingQueue {
  import opened Wrappers
  import opened TimeOrder

  const MAX_RETRIES: nat := 10
  const BASE_RETRY_DELAY: nat := 60
  const MAX_RETRY_DELAY: nat := 3600
  const DEFER_DELAY: nat := 30
  const BATCH_SIZE: nat := 5000
  const BLACKLISTED_ADDRESSES: set<string> := {"0x51A58800b26AA1451aaA803d1746687cB88E0501"}

  /** A row of `pending_messages`; `security` is the content address of a security aggregate. */
  datatype Pending = Pending(sender: string, security: Option<string>, reception: int, retries: nat, nextAttempt: int)

  /** What handling one message comes to; `Failed` is an error or a timeout. */
  datatype Outcome = Processed | Rejected | Retry | Failed | Deferred

  /**
   * Besides the queue: the messages stored, those of them that were stored before they were queued, the
   * rejections recorded, and the hashes that have a row in a derived table (posts, aggregate elements,
   * programs, instances).
   */
  datatype Queue = Queue(pending: map<Hash, Pending>, stored: set<Hash>, kept: set<Hash>, rejected: set<Hash>,
                         derived: set<Hash>)

  const NO_ROWS: Queue := Queue(map[], {}, {}, {}, {})

  /**
   * One run of the batch job: the rows it fetched and everything it learned from outside. `pinned` are
   * the hashes with a row in `file_pins`, which are those of files as well as of messages; `wrote` says
   * whether a handler left rows under the message's hash, whatever came of the message after that.
   */
  datatype Batch = Batch(hashes: seq<Hash>, now: int, later: int, duplicates: set<Hash>, pinned: set<Hash>,
                         forgotten: set<Hash>, outcome: Hash -> Outcome, wrote: Hash -> bool)

  predicate Due(p: Pending, now: int) { p.nextAttempt <= now && p.retries < MAX_RETRIES }

  /**
   * The fetched rows: due ones, earliest received first, up to the batch size. A fetched row counts as
   * a duplicate exactly when its hash has a derived row or a file pin.
   */
  ghost predicate Fetched(q: Queue, b: Batch) {
    && b.now <= b.later
    && (forall h :: h in b.hashes ==> (h in b.duplicates <==> h in q.derived || h in b.pinned))
    && |b.hashes| <= BATCH_SIZE
    && (forall i :: 0 <= i < |b.hashes| ==> b.hashes[i] in q.pending && Due(q.pending[b.hashes[i]], b.now))
    && (forall i, j :: 0 <= i < j < |b.hashes| ==>
          b.hashes[i] != b.hashes[j] && q.pending[b.hashes[i]].reception <= q.pending[b.hashes[j]].reception)
    && (forall h :: h in q.pending && Due(q.pending[h], b.now) && h !in b.hashes ==>
          |b.hashes| == BATCH_SIZE && q.pending[b.hashes[BATCH_SIZE - 1]].reception <= q.pending[h].reception)
  }

  // ---- Classification ----

  datatype Route = Duplicate | Forgotten | Blacklisted | Security(address: string) | Parallel

  function RouteOf(p: Pending, h: Hash, b: Batch): Route {
    if h in b.duplicates then Duplicate
    else if h in b.forgotten then Forgotten
    else if p.sender in BLACKLISTED_ADDRESSES then Blacklisted
    else if p.security.Some? then Security(p.security.value)
    else Parallel
  }

  predicate Handled(r: Route) { r.Security? || r.Parallel? }

  /** The parts of a batch: what to delete at once, security aggregates by content address, and the rest. */
  datatype Split = Split(toDelete: set<Hash>, groups: map<string, seq<Hash>>, parallel: seq<Hash>)

  function GroupOf(s: Split, a: string): seq<Hash> {
    if a in s.groups then s.groups[a] else []
  }

  function Sorted(s: Split, h: Hash, r: Route): Split {
    match r
    case Security(a) => s.(groups := s.groups[a := GroupOf(s, a) + [h]])
    case Parallel => s.(parallel := s.parallel + [h])
    case _ => s.(toDelete := s.toDelete + {h})
  }

  function Classified(pending: map<Hash, Pending>, b: Batch, hs: seq<Hash>): Split
    requires forall i :: 0 <= i < |hs| ==> hs[i] in pending
  {
    if hs == [] then Split({}, map[], [])
    else
      var h := hs[|hs| - 1];
      Sorted(Classified(pending, b, hs[..|hs| - 1]), h, RouteOf(pending[h], h, b))
  }

  /** The rows of `hs` on route `r`, in the order of `hs`. */
  function OnRoute(pending: map<Hash, Pending>, b: Batch, r: Route): Hash -> bool {
    (h: Hash) => h in pending && RouteOf(pending[h], h, b) == r
  }

  /**
   * Classification partitions the batch: every row is either deleted at once or handled on exactly
   * one route, and the rows of a route keep their order.
   */
  lemma {:induction false} ClassifiedIsPartition(pending: map<Hash, Pending>, b: Batch, hs: seq<Hash>)
    requires forall i :: 0 <= i < |hs| ==> hs[i] in pending
    ensures var s := Classified(pending, b, hs);
            && (forall h :: h in s.toDelete <==> h in hs && !Handled(RouteOf(pending[h], h, b)))
            && s.parallel == Filter(OnRoute(pending, b, Parallel), hs)
            && (forall a :: GroupOf(s, a) == Filter(OnRoute(pending, b, Security(a)), hs))
            && (forall a :: a in s.groups <==> GroupOf(s, a) != [])
  {
    if hs != [] {
      var init, h := hs[..|hs| - 1], hs[|hs| - 1];
      ClassifiedIsPartition(pending, b, init);
      assert hs == init + [h];
      var s, r := Classified(pending, b, init), RouteOf(pending[h], h, b);
      forall a
        ensures GroupOf(Sorted(s, h, r), a) == Filter(OnRoute(pending, b, Security(a)), hs)
        ensures a in Sorted(s, h, r).groups <==> GroupOf(Sorted(s, h, r), a) != []
      {
        SortedGroup(s, h, r, a);
        assert GroupOf(s, a) == Filter(OnRoute(pending, b, Security(a)), init);
        assert a in s.groups <==> GroupOf(s, a) != [];
      }
    }
  }

  lemma ClassifiedAtOnce(pending: map<Hash, Pending>, b: Batch)
    requires forall i :: 0 <= i < |b.hashes| ==> b.hashes[i] in pending
    ensures AtOnce(pending, b, Classified(pending, b, b.hashes).toDelete)
  {
    ClassifiedIsPartition(pending, b, b.hashes);
  }

  /** A row joins its own group, at the end, and no other. */
  lemma SortedGroup(s: Split, h: Hash, r: Route, a: string)
    ensures GroupOf(Sorted(s, h, r), a) == GroupOf(s, a) + (if r == Security(a) then [h] else [])
    ensures a in Sorted(s, h, r).groups <==> a in s.groups || r == Security(a)
  {
  }

  // ---- What the routes mean ----

  /** Neither known already, nor forgotten, nor from a blacklisted address. */
  predicate Live(q: Queue, b: Batch, h: Hash)
    requires h in q.pending
  {
    h !in q.derived && h !in b.pinned && h !in b.forgotten && q.pending[h].sender !in BLACKLISTED_ADDRESSES
  }

  /** A fetched row goes to a handler exactly if it is live, and is dropped for one of three reasons otherwise. */
  lemma HandledIff(q: Queue, b: Batch, h: Hash)
    requires Fetched(q, b) && h in b.hashes
    ensures h in q.pending
    ensures HandledIn(q, b, h) <==> Live(q, b, h)
    ensures PinnedOutIn(q, b, h) <==> h !in q.derived && h in b.pinned
    ensures TurnedAwayIn(q, b, h)
      <==> h !in q.derived && h !in b.pinned && (h in b.forgotten || q.pending[h].sender in BLACKLISTED_ADDRESSES)
  {
  }

  /**
   * The live rows: security aggregates of address `a` are the group `a`, the others are `parallel`, each
   * row once and in batch order.
   */
  lemma GroupsMean(q: Queue, b: Batch, a: string)
    requires Fetched(q, b)
    ensures var s := Classified(q.pending, b, b.hashes);
      && (forall h :: h in GroupOf(s, a) <==> h in b.hashes && Live(q, b, h) && q.pending[h].security == Some(a))
      && (forall h :: h in s.parallel <==> h in b.hashes && Live(q, b, h) && q.pending[h].security == None)
      && InBatchOrder(b.hashes, GroupOf(s, a)) && InBatchOrder(b.hashes, s.parallel)
  {
    ClassifiedIsPartition(q.pending, b, b.hashes);
    OnRouteInOrder(q.pending, b, Security(a));
    OnRouteInOrder(q.pending, b, Parallel);
    forall h | h in b.hashes
      ensures HandledIn(q, b, h) <==> Live(q, b, h)
      ensures OnRoute(q.pending, b, Security(a))(h) <==> Live(q, b, h) && q.pending[h].security == Some(a)
      ensures OnRoute(q.pending, b, Parallel)(h) <==> Live(q, b, h) && q.pending[h].security == None
    {
      HandledIff(q, b, h);
    }
  }

  ghost predicate Distinct(hs: seq<Hash>) {
    forall i, j :: 0 <= i < j < |hs| ==> hs[i] != hs[j]
  }

  ghost predicate InBatchOrder(hs: seq<Hash>, part: seq<Hash>) {
    Distinct(part) && KeepsOrder(hs, part)
  }

  lemma OnRouteInOrder(pending: map<Hash, Pending>, b: Batch, r: Route)
    requires Distinct(b.hashes)
    ensures InBatchOrder(b.hashes, Filter(OnRoute(pending, b, r), b.hashes))
    ensures forall h :: h in Filter(OnRoute(pending, b, r), b.hashes) <==> h in b.hashes && OnRoute(pending, b, r)(h)
  {
    FilterKeepsOrder(OnRoute(pending, b, r), b.hashes);
    FilterMembers(OnRoute(pending, b, r), b.hashes);
    var part := Filter(OnRoute(pending, b, r), b.hashes);
    forall k, l | 0 <= k < l < |part| ensures part[k] != part[l] {
      assert Earlier(b.hashes, part[k], part[l]);
    }
  }

  ghost predicate SameSecurity(pending: map<Hash, Pending>, g: Hash, h: Hash) {
    g in pending && h in pending && pending[g].security.Some? && pending[g].security == pending[h].security
  }

  /** Every row has one turn, and security aggregates of one address have theirs in batch order. */
  ghost predicate TakesTurns(pending: map<Hash, Pending>, b: Batch, order: seq<Hash>) {
    && Distinct(order)
    && forall i, j :: 0 <= i < j < |order| && SameSecurity(pending, order[i], order[j]) ==>
         Earlier(b.hashes, order[i], order[j])
  }

  lemma TurnsJoin(pending: map<Hash, Pending>, b: Batch, order: seq<Hash>, a: string)
    requires Distinct(b.hashes) && TakesTurns(pending, b, order)
    requires forall h :: h in order ==>
      h in pending && Handled(RouteOf(pending[h], h, b)) && RouteOf(pending[h], h, b) != Security(a)
    ensures TakesTurns(pending, b, order + Filter(OnRoute(pending, b, Security(a)), b.hashes))
  {
    var group := Filter(OnRoute(pending, b, Security(a)), b.hashes);
    OnRouteInOrder(pending, b, Security(a));
    var all := order + group;
    forall j | 0 <= j < |group| ensures all[|order| + j] == group[j] && OnRoute(pending, b, Security(a))(group[j]) {
      assert group[j] in group;
    }
    forall i | 0 <= i < |order| ensures all[i] == order[i] && order[i] in order { }
  }

  /**
   * What one batch does to any message, by what happened to it: rows that were not fetched stay, rows
   * that are not live go without a trace, and live ones follow the outcome of their handler.
   */
  lemma BatchMeans(q: Queue, b: Batch, h: Hash)
    requires Fetched(q, b)
    ensures var r, handled := AfterBatch(q, b), h in b.hashes && h in q.pending && Live(q, b, h);
      var refused := handled && FinallyRefused(q.pending[h], b.outcome(h));
      var processed := handled && b.outcome(h).Processed?;
      && r.kept == q.kept
      && (h in r.stored <==> h in q.stored || processed)
      && (h in r.derived <==> h in q.derived || (handled && b.wrote(h)))
      && (h in r.rejected <==> h in q.rejected || refused)
      && (h in r.pending <==> h in q.pending && (h in b.hashes ==> handled && !processed && !refused))
      && (h in r.pending ==> r.pending[h] == RowAfter(q.pending[h], b, h))
  {
    if h in b.hashes { HandledIff(q, b, h); }
  }

  /** What a row that stays looks like: put off by half a minute, or with one more failure. */
  function RowAfter(p: Pending, b: Batch, h: Hash): Pending {
    if h !in b.hashes then p
    else if b.outcome(h).Deferred? then p.(nextAttempt := b.later + 30)
    else p.(retries := p.retries + 1, nextAttempt := b.later + Backoff(p.retries))
  }

  /** Rejected by its handler, or failing with nine failures behind it. */
  predicate FinallyRefused(p: Pending, o: Outcome) {
    match o
    case Rejected => true
    case Retry => p.retries >= 9
    case Failed => p.retries >= 9
    case Processed => false
    case Deferred => false
  }

  // ---- Backoff ----

  function Pow2(n: nat): nat { if n == 0 then 1 else 2 * Pow2(n - 1) }

  function Backoff(retries: nat): nat {
    var delay := BASE_RETRY_DELAY * Pow2(retries);
    if delay <= MAX_RETRY_DELAY then delay else MAX_RETRY_DELAY
  }

  function TotalBackoff(n: nat): nat { if n == 0 then 0 else TotalBackoff(n - 1) + Backoff(n - 1) }

  lemma {:induction false} BackoffGrows(n: nat)
    ensures BASE_RETRY_DELAY <= Backoff(n) <= Backoff(n + 1) <= MAX_RETRY_DELAY
  {
    if n > 0 { BackoffGrows(n - 1); }
  }

  /** One minute, doubled with each failure up to 1920 seconds, and an hour from then on. */
  lemma BackoffTable(n: nat)
    ensures Backoff(n) == if n == 0 then 60 else if n == 1 then 120 else if n == 2 then 240 else if n == 3 then 480
                          else if n == 4 then 960 else if n == 5 then 1920 else 3600
  {
    if n >= 6 {
      Pow2Grows(n);
    }
  }

  lemma {:induction false} Pow2Grows(n: nat)
    requires n >= 6
    ensures Pow2(n) >= 64
  {
    if n > 6 { Pow2Grows(n - 1); }
  }

  /** Nine backoffs, from one minute up to one hour, last 14580 seconds together. */
  lemma NineBackoffs()
    ensures TotalBackoff(9) == 14580
  {
    assert Pow2(3) == 8 && Pow2(6) == 64 && Pow2(8) == 256;
    assert TotalBackoff(3) == 420 && TotalBackoff(6) == 3780;
  }

  // ---- One batch ----

  /** What becomes of a fetched row: gone, or kept with these fields. */
  function Fate(p: Pending, h: Hash, b: Batch): Option<Pending> {
    if !Handled(RouteOf(p, h, b)) then None
    else
      match b.outcome(h)
      case Processed => None
      case Rejected => None
      case Deferred => Some(p.(nextAttempt := b.later + DEFER_DELAY))
      case _ => if p.retries + 1 >= MAX_RETRIES then None
                else Some(Retried(p, p.retries, b.later))
  }

  predicate IsStored(p: Pending, h: Hash, b: Batch) {
    Handled(RouteOf(p, h, b)) && b.outcome(h).Processed?
  }

  predicate IsRejected(p: Pending, h: Hash, b: Batch) {
    Handled(RouteOf(p, h, b)) && Refused(p, b.outcome(h))
  }

  function AfterBatch(q: Queue, b: Batch): Queue {
    Queue(map h | h in q.pending && (h in b.hashes ==> Fate(q.pending[h], h, b).Some?) ::
            (if h in b.hashes then Fate(q.pending[h], h, b).value else q.pending[h]),
          q.stored + (set h | h in q.pending && h in b.hashes && IsStored(q.pending[h], h, b)),
          q.kept,
          q.rejected + (set h | h in q.pending && h in b.hashes && IsRejected(q.pending[h], h, b)),
          q.derived + (set h | h in HandledRows(q.pending, b) && b.wrote(h)))
  }

  predicate Waiting(r: Route, left: set<string>) { r.Security? && r.address in left }

  /** The rows that go to a handler. */
  function HandledRows(pending: map<Hash, Pending>, b: Batch): set<Hash> {
    set h | h in pending && h in b.hashes && Handled(RouteOf(pending[h], h, b))
  }

  /** The handler refused the message, or it failed for the last time. */
  predicate Refused(p: Pending, o: Outcome) {
    o.Rejected? || ((o.Retry? || o.Failed?) && p.retries + 1 >= MAX_RETRIES)
  }

  function WithDeferred(pending: map<Hash, Pending>, b: Batch, done: seq<Hash>): map<Hash, Pending> {
    map h | h in pending ::
      if h in done && b.outcome(h).Deferred? then pending[h].(nextAttempt := b.later + DEFER_DELAY) else pending[h]
  }

  /** A row put back for another attempt, after `retries` earlier failures. */
  function Retried(p: Pending, retries: nat, later: int): Pending {
    p.(retries := retries + 1, nextAttempt := later + Backoff(retries))
  }

  function Collected(fetched: map<Hash, Pending>, pending: map<Hash, Pending>, b: Batch, done: seq<Hash>)
      : map<Hash, Pending>
    requires pending.Keys == fetched.Keys
  {
    map h | h in pending && !(h in done && Refused(fetched[h], b.outcome(h))) ::
      if h in done && (b.outcome(h).Retry? || b.outcome(h).Failed?)
      then Retried(pending[h], fetched[h].retries, b.later) else pending[h]
  }

  lemma CollectedNext(fetched: map<Hash, Pending>, pending: map<Hash, Pending>, b: Batch, done: seq<Hash>, h: Hash)
    requires pending.Keys == fetched.Keys && h in fetched
    ensures var c, d := Collected(fetched, pending, b, done), Collected(fetched, pending, b, done + [h]);
      if Refused(fetched[h], b.outcome(h)) then d == c - {h}
      else h in c && d == if b.outcome(h).Retry? || b.outcome(h).Failed?
                          then c[h := Retried(c[h], fetched[h].retries, b.later)] else c
  {
    var c, d := Collected(fetched, pending, b, done), Collected(fetched, pending, b, done + [h]);
    assert forall g :: g in done + [h] <==> g in done || g == h;
    if Refused(fetched[h], b.outcome(h)) {
      assert d == c - {h};
    } else if b.outcome(h).Retry? || b.outcome(h).Failed? {
      assert d == c[h := Retried(c[h], fetched[h].retries, b.later)];
    } else {
      assert d == c;
    }
  }

  /** Those of `hs` that satisfy `p`. */
  function Picked(hs: seq<Hash>, p: Hash -> bool): set<Hash> {
    set h | h in hs && p(h)
  }

  lemma PickedNext(hs: seq<Hash>, p: Hash -> bool, h: Hash)
    ensures Picked(hs + [h], p) == Picked(hs, p) + (if p(h) then {h} else {})
  {
  }

  function ProcessedIn(b: Batch): Hash -> bool { (h: Hash) => b.outcome(h).Processed? }

  function RefusedIn(pending: map<Hash, Pending>, b: Batch): Hash -> bool {
    (h: Hash) => h in pending && Refused(pending[h], b.outcome(h))
  }

  lemma WithDeferredNext(pending: map<Hash, Pending>, b: Batch, done: seq<Hash>, h: Hash)
    requires h in pending
    ensures var c := WithDeferred(pending, b, done);
      WithDeferred(pending, b, done + [h])
        == if b.outcome(h).Deferred? then c[h := c[h].(nextAttempt := b.later + DEFER_DELAY)] else c
  {
    assert forall g :: g in done + [h] <==> g in done || g == h;
    var c := WithDeferred(pending, b, done);
    var d := if b.outcome(h).Deferred? then c[h := pending[h].(nextAttempt := b.later + DEFER_DELAY)] else c;
    assert WithDeferred(pending, b, done + [h]).Keys == d.Keys;
    assert WithDeferred(pending, b, done + [h]) == d;
  }

  /** `order` lists exactly the rows that go to a handler. */
  ghost predicate Ordering(pending: map<Hash, Pending>, b: Batch, order: seq<Hash>) {
    forall h :: h in order <==> h in HandledRows(pending, b)
  }

  /** Those deleted at once are the fetched rows that go to no handler. */
  ghost predicate AtOnce(pending: map<Hash, Pending>, b: Batch, atOnce: set<Hash>) {
    forall h :: h in atOnce <==> h in b.hashes && h in pending && !Handled(RouteOf(pending[h], h, b))
  }

  /** The phases together leave every fetched row as its route and outcome call for. */
  lemma PendingAddsUp(q: Queue, b: Batch, order: seq<Hash>, atOnce: set<Hash>)
    requires Ordering(q.pending, b, order) && AtOnce(q.pending, b, atOnce)
    ensures var rows := Collected(q.pending, WithDeferred(q.pending, b, order), b, order);
            var toDelete := atOnce + Picked(order, ProcessedIn(b));
            AfterBatch(q, b).pending == map h | h in rows && h !in toDelete :: rows[h]
  {
    var rows := Collected(q.pending, WithDeferred(q.pending, b, order), b, order);
    var toDelete := atOnce + Picked(order, ProcessedIn(b));
    forall h | h in q.pending
      ensures h in AfterBatch(q, b).pending <==> h in rows && h !in toDelete
      ensures h in rows && h !in toDelete ==> AfterBatch(q, b).pending[h] == rows[h]
    {
      assert h in order <==> h in b.hashes && Handled(RouteOf(q.pending[h], h, b));
    }
  }

  lemma SetsAddUp(q: Queue, b: Batch, order: seq<Hash>)
    requires Ordering(q.pending, b, order)
    ensures AfterBatch(q, b).stored == q.stored + Picked(order, ProcessedIn(b))
    ensures AfterBatch(q, b).kept == q.kept
    ensures AfterBatch(q, b).rejected == q.rejected + Picked(order, RefusedIn(q.pending, b))
    ensures AfterBatch(q, b).derived == q.derived + Picked(order, b.wrote)
  {
    forall h
      ensures h in Picked(order, ProcessedIn(b)) <==> h in q.pending && h in b.hashes && IsStored(q.pending[h], h, b)
      ensures h in Picked(order, RefusedIn(q.pending, b))
        <==> h in q.pending && h in b.hashes && IsRejected(q.pending[h], h, b)
      ensures h in Picked(order, b.wrote) <==> h in HandledRows(q.pending, b) && b.wrote(h)
    {
      assert h in order <==> h in HandledRows(q.pending, b);
    }
  }

  lemma BatchAddsUp(q: Queue, b: Batch, order: seq<Hash>, atOnce: set<Hash>)
    requires Ordering(q.pending, b, order) && AtOnce(q.pending, b, atOnce)
    ensures var rows := Collected(q.pending, WithDeferred(q.pending, b, order), b, order);
            var toDelete := atOnce + Picked(order, ProcessedIn(b));
            AfterBatch(q, b) == Queue(map h | h in rows && h !in toDelete :: rows[h],
                                      q.stored + Picked(order, ProcessedIn(b)), q.kept,
                                      q.rejected + Picked(order, RefusedIn(q.pending, b)),
                                      q.derived + Picked(order, b.wrote))
  {
    PendingAddsUp(q, b, order, atOnce);
    SetsAddUp(q, b, order);
  }

  function Enqueued(q: Queue, h: Hash, p: Pending): Queue {
    if h in q.pending then q else q.(pending := q.pending[h := p])
  }

  /** Stored first, then queued. */
  function StoredAndEnqueued(q: Queue, h: Hash, p: Pending): Queue {
    Enqueued(q.(stored := q.stored + {h}, kept := q.kept + {h}), h, p)
  }

  /** A stored message whose content has come in is queued, or its row starts afresh. */
  function Requeued(q: Queue, h: Hash, sender: string, security: Option<string>, now: int): Queue {
    if h !in q.stored then q
    else
      var reception := if h in q.pending then q.pending[h].reception else now;
      q.(pending := q.pending[h := Pending(sender, security, reception, 0, now)])
  }

  lemma GroupsCover(pending: map<Hash, Pending>, b: Batch, split: Split)
    requires forall i :: 0 <= i < |b.hashes| ==> b.hashes[i] in pending
    requires split == Classified(pending, b, b.hashes)
    ensures forall h :: h in HandledRows(pending, b) && RouteOf(pending[h], h, b).Security? ==>
      RouteOf(pending[h], h, b).address in split.groups
  {
    ClassifiedIsPartition(pending, b, b.hashes);
    forall h | h in HandledRows(pending, b) && RouteOf(pending[h], h, b).Security?
      ensures RouteOf(pending[h], h, b).address in split.groups
    {
      var a := RouteOf(pending[h], h, b).address;
      FilterMembers(OnRoute(pending, b, Security(a)), b.hashes);
      assert h in GroupOf(split, a);
    }
  }

  class MessageProcessor {
    var pending: map<Hash, Pending>
    var stored: set<Hash>
    /** Which of the stored messages came in through chain sync, stored before they were queued. */
    var kept: set<Hash>
    var rejected: set<Hash>
    var derived: set<Hash>

    function Contents(): Queue reads this { Queue(pending, stored, kept, rejected, derived) }

    constructor ()
      ensures Contents() == NO_ROWS
    {
      pending, stored, kept, rejected, derived := map[], {}, {}, {}, {};
    }

    /** A new message is queued unless it already is. */
    method Enqueue(h: Hash, sender: string, security: Option<string>, now: int)
      modifies `pending
      ensures Contents() == Enqueued(old(Contents()), h, Pending(sender, security, now, 0, now))
      ensures h in pending && forall g :: g in old(pending) ==> g in pending && pending[g] == old(pending)[g]
    {
      if h !in pending {
        pending := pending[h := Pending(sender, security, now, 0, now)];
      }
    }

    /** What chain sync does with a message: into `messages` first, then into the queue. */
    method StoreAndEnqueue(h: Hash, sender: string, security: Option<string>, block: int)
      modifies `pending, `stored, `kept
      ensures Contents() == StoredAndEnqueued(old(Contents()), h, Pending(sender, security, block, 0, block))
    {
      stored, kept := stored + {h}, kept + {h};
      if h !in pending {
        pending := pending[h := Pending(sender, security, block, 0, block)];
      }
    }

    /** What the content fetcher does once it has the content of a stored message. */
    method Requeue(h: Hash, sender: string, security: Option<string>, now: int)
      modifies `pending
      ensures Contents() == Requeued(old(Contents()), h, sender, security, now)
      ensures h !in stored ==> pending == old(pending)
      ensures h in stored ==> h in pending && pending[h].retries == 0 && pending[h].nextAttempt == now
      ensures h in stored && h in old(pending) ==> pending[h].reception == old(pending)[h].reception
      ensures pending - {h} == old(pending) - {h}
    {
      if h in stored {
        if h in pending {
          pending := pending[h := Pending(sender, security, pending[h].reception, 0, now)];
        } else {
          pending := pending[h := Pending(sender, security, now, 0, now)];
        }
      }
    }

    /** Handles what was fetched; `order` is the order in which the handlers had their turns. */
    method ProcessBatch(b: Batch) returns (order: seq<Hash>)
      requires Fetched(Contents(), b)
      modifies this
      ensures Contents() == AfterBatch(old(Contents()), b)
      ensures forall h :: h in order <==> HandledIn(old(Contents()), b, h)
      ensures TakesTurns(old(pending), b, order)
    {
      ghost var q := Contents();
      var fetched := pending;
      var split := Classify(b);
      ClassifiedAtOnce(pending, b);
      order := HandlingOrder(b, split);
      RunHandlers(b, order);
      var toDelete := CollectResults(fetched, b, order, split.toDelete);
      pending := map h | h in pending && h !in toDelete :: pending[h];
      BatchAddsUp(q, b, order, split.toDelete);
    }

    /** Sorts the fetched rows by what has to be done with them. */
    method Classify(b: Batch) returns (split: Split)
      requires forall i :: 0 <= i < |b.hashes| ==> b.hashes[i] in pending
      ensures split == Classified(pending, b, b.hashes)
    {
      split := Split({}, map[], []);
      for i := 0 to |b.hashes|
        invariant split == Classified(pending, b, b.hashes[..i])
      {
        assert b.hashes[..i + 1][..i] == b.hashes[..i];
        split := Sorted(split, b.hashes[i], RouteOf(pending[b.hashes[i]], b.hashes[i], b));
      }
      assert b.hashes[..|b.hashes|] == b.hashes;
    }

    /** Plain messages first, then the groups in whatever order they finish, each group in its own order. */
    method HandlingOrder(b: Batch, split: Split) returns (order: seq<Hash>)
      requires forall i :: 0 <= i < |b.hashes| ==> b.hashes[i] in pending
      requires split == Classified(pending, b, b.hashes) && Distinct(b.hashes)
      ensures forall h :: h in order <==> h in HandledRows(pending, b)
      ensures TakesTurns(pending, b, order)
      ensures forall i :: 0 <= i < |order| ==> order[i] in pending
    {
      ClassifiedIsPartition(pending, b, b.hashes);
      OnRouteInOrder(pending, b, Parallel);
      GroupsCover(pending, b, split);
      order := split.parallel;
      var left := split.groups.Keys;
      while left != {}
        invariant left <= split.groups.Keys && TakesTurns(pending, b, order)
        invariant forall h :: h in order <==> h in HandledRows(pending, b) && !Waiting(RouteOf(pending[h], h, b), left)
        decreases left
      {
        var a :| a in left;
        FilterMembers(OnRoute(pending, b, Security(a)), b.hashes);
        assert GroupOf(split, a) == Filter(OnRoute(pending, b, Security(a)), b.hashes);
        TurnsJoin(pending, b, order, a);
        order := order + split.groups[a];
        left := left - {a};
      }
      assert forall i :: 0 <= i < |order| ==> order[i] in order;
    }

    /** Each handled message is stored when processed, or has its next attempt pushed forward when deferred. */
    method RunHandlers(b: Batch, order: seq<Hash>)
      requires forall i :: 0 <= i < |order| ==> order[i] in pending
      modifies `pending, `stored, `derived
      ensures pending == WithDeferred(old(pending), b, order)
      ensures stored == old(stored) + Picked(order, ProcessedIn(b))
      ensures derived == old(derived) + Picked(order, b.wrote)
    {
      assert WithDeferred(pending, b, []) == pending;
      for i := 0 to |order|
        invariant pending == WithDeferred(old(pending), b, order[..i])
        invariant stored == old(stored) + Picked(order[..i], ProcessedIn(b))
        invariant derived == old(derived) + Picked(order[..i], b.wrote)
      {
        assert order[..i + 1] == order[..i] + [order[i]];
        WithDeferredNext(old(pending), b, order[..i], order[i]);
        PickedNext(order[..i], ProcessedIn(b), order[i]);
        PickedNext(order[..i], b.wrote, order[i]);
        RunHandler(b, order[i]);
      }
      assert order[..|order|] == order;
    }

    /** One message: its handler may leave rows, then it is stored, deferred, or neither. */
    method RunHandler(b: Batch, h: Hash)
      requires h in pending
      modifies `pending, `stored, `derived
      ensures pending == if b.outcome(h).Deferred?
                         then old(pending)[h := old(pending)[h].(nextAttempt := b.later + DEFER_DELAY)]
                         else old(pending)
      ensures stored == old(stored) + (if b.outcome(h).Processed? then {h} else {})
      ensures derived == old(derived) + (if b.wrote(h) then {h} else {})
    {
      if b.wrote(h) { derived := derived + {h}; }
      match b.outcome(h) {
        case Processed => stored := stored + {h};
        case Deferred => pending := pending[h := pending[h].(nextAttempt := b.later + DEFER_DELAY)];
        case _ =>
      }
    }

    /** Rejections and retries are written per message; processed messages are left for the final delete. */
    method CollectResults(fetched: map<Hash, Pending>, b: Batch, order: seq<Hash>, atOnce: set<Hash>)
        returns (toDelete: set<Hash>)
      requires pending.Keys == fetched.Keys && forall i :: 0 <= i < |order| ==> order[i] in fetched
      modifies `pending, `rejected
      ensures pending == Collected(fetched, old(pending), b, order)
      ensures rejected == old(rejected) + Picked(order, RefusedIn(fetched, b))
      ensures toDelete == atOnce + Picked(order, ProcessedIn(b))
    {
      toDelete := atOnce;
      assert Collected(fetched, pending, b, []) == pending;
      for i := 0 to |order|
        invariant pending == Collected(fetched, old(pending), b, order[..i])
        invariant rejected == old(rejected) + Picked(order[..i], RefusedIn(fetched, b))
        invariant toDelete == atOnce + Picked(order[..i], ProcessedIn(b))
      {
        assert order[..i + 1] == order[..i] + [order[i]];
        CollectedNext(fetched, old(pending), b, order[..i], order[i]);
        PickedNext(order[..i], ProcessedIn(b), order[i]);
        PickedNext(order[..i], RefusedIn(fetched, b), order[i]);
        var done := CollectResult(fetched[order[i]], b, order[i]);
        if done { toDelete := toDelete + {order[i]}; }
      }
      assert order[..|order|] == order;
    }

    /** One result: `row` is the message as it was fetched. */
    method CollectResult(row: Pending, b: Batch, h: Hash) returns (done: bool)
      requires Refused(row, b.outcome(h)) || h in pending
      modifies `pending, `rejected
      ensures done <==> b.outcome(h).Processed?
      ensures rejected == old(rejected) + (if Refused(row, b.outcome(h)) then {h} else {})
      ensures pending == if Refused(row, b.outcome(h)) then old(pending) - {h}
                         else if b.outcome(h).Retry? || b.outcome(h).Failed?
                         then old(pending)[h := Retried(old(pending)[h], row.retries, b.later)]
                         else old(pending)
    {
      done := false;
      match b.outcome(h) {
        case Processed => done := true;
        case Rejected => rejected, pending := rejected + {h}, pending - {h};
        case Deferred =>
        case _ =>
          if row.retries + 1 >= MAX_RETRIES {
            rejected, pending := rejected + {h}, pending - {h};
          } else {
            pending := pending[h := Retried(pending[h], row.retries, b.later)];
          }
      }
    }
  }

  // ---- Runs ----

  /** What happens to the queue and to the tables beside it. */
  datatype Event =
    | Arrive(hash: Hash, sender: string, security: Option<string>, now: int)
    | ArriveStored(hash: Hash, sender: string, security: Option<string>, block: int)
    | ContentFetched(hash: Hash, sender: string, security: Option<string>, now: int)
    | Backfill(hashes: set<Hash>)  // derived rows made from stored messages
    | Erase(hashes: set<Hash>)     // derived rows deleted by forgetting
    | RunBatch(batch: Batch)

  function Step(q: Queue, e: Event): Queue {
    match e
    case Arrive(h, sender, security, now) => Enqueued(q, h, Pending(sender, security, now, 0, now))
    case ArriveStored(h, sender, security, block) => StoredAndEnqueued(q, h, Pending(sender, security, block, 0, block))
    case ContentFetched(h, sender, security, now) => Requeued(q, h, sender, security, now)
    case Backfill(hs) => q.(derived := q.derived + hs * q.stored)
    case Erase(hs) => q.(derived := q.derived - hs)
    case RunBatch(b) => AfterBatch(q, b)
  }

  function Run(q: Queue, events: seq<Event>): Queue {
    if events == [] then q else Step(Run(q, events[..|events| - 1]), events[|events| - 1])
  }

  /** Every batch fetched rows from the queue as it was then. */
  ghost predicate Possible(q: Queue, events: seq<Event>) {
    forall i :: 0 <= i < |events| && events[i].RunBatch? ==> Fetched(Run(q, events[..i]), events[i].batch)
  }

  lemma PossiblePrefix(q: Queue, events: seq<Event>)
    requires events != [] && Possible(q, events)
    ensures Possible(q, events[..|events| - 1])
    ensures events[|events| - 1].RunBatch? ==> Fetched(Run(q, events[..|events| - 1]), events[|events| - 1].batch)
  {
    var init := events[..|events| - 1];
    forall i | 0 <= i < |init| && init[i].RunBatch? ensures Fetched(Run(q, init[..i]), init[i].batch) {
      assert events[..i] == init[..i] && events[i] == init[i];
    }
  }

  ghost predicate RetriesBelowMax(q: Queue) {
    forall h :: h in q.pending ==> q.pending[h].retries < MAX_RETRIES
  }

  /** No queued row ever reaches the retry limit: it is rejected instead. */
  lemma {:induction false} RetriesStayBelowMax(q: Queue, events: seq<Event>)
    requires RetriesBelowMax(q)
    ensures RetriesBelowMax(Run(q, events))
  {
    if events != [] {
      RetriesStayBelowMax(q, events[..|events| - 1]);
    }
  }

  // ---- What becomes of every message ----

  /** The batch fetched `h` and gave it to its handler. */
  predicate HandledIn(q: Queue, b: Batch, h: Hash) { h in HandledRows(q.pending, b) }

  /** The batch fetched `h` and dropped it as forgotten or for its sender. */
  predicate TurnedAwayIn(q: Queue, b: Batch, h: Hash) {
    h in q.pending && h in b.hashes
      && (RouteOf(q.pending[h], h, b).Forgotten? || RouteOf(q.pending[h], h, b).Blacklisted?)
  }

  /** The handler left rows under `h`, but the message did not come to be stored. */
  predicate SplitIn(q: Queue, b: Batch, h: Hash) { HandledIn(q, b, h) && b.wrote(h) && !b.outcome(h).Processed? }

  /** The batch fetched `h` and dropped it for a pin alone. */
  predicate PinnedOutIn(q: Queue, b: Batch, h: Hash) {
    h in q.pending && h in b.hashes && RouteOf(q.pending[h], h, b).Duplicate? && h !in q.derived
  }

  /** Some batch of the run did `p` to a message. */
  ghost predicate Ever(q: Queue, events: seq<Event>, p: (Queue, Batch) -> bool) {
    exists i :: 0 <= i < |events| && events[i].RunBatch? && p(Run(q, events[..i]), events[i].batch)
  }

  lemma EverOneMore(q: Queue, events: seq<Event>, p: (Queue, Batch) -> bool)
    requires events != []
    ensures var init, e := events[..|events| - 1], events[|events| - 1];
      Ever(q, events, p) <==> Ever(q, init, p) || (e.RunBatch? && p(Run(q, init), e.batch))
  {
    var init := events[..|events| - 1];
    assert forall i :: 0 <= i < |init| ==> events[..i] == init[..i] && events[i] == init[i];
    if Ever(q, init, p) {
      var i :| 0 <= i < |init| && init[i].RunBatch? && p(Run(q, init[..i]), init[i].batch);
      assert p(Run(q, events[..i]), events[i].batch);
    }
  }

  function TurnedAwayOf(h: Hash): (Queue, Batch) -> bool { (q, b) => TurnedAwayIn(q, b, h) }

  function SplitOf(h: Hash): (Queue, Batch) -> bool { (q, b) => SplitIn(q, b, h) }

  function PinnedOutOf(h: Hash): (Queue, Batch) -> bool { (q, b) => PinnedOutIn(q, b, h) }

  ghost predicate TurnedAway(q: Queue, events: seq<Event>, h: Hash) { Ever(q, events, TurnedAwayOf(h)) }

  ghost predicate SplitFailure(q: Queue, events: seq<Event>, h: Hash) { Ever(q, events, SplitOf(h)) }

  ghost predicate PinnedOut(q: Queue, events: seq<Event>, h: Hash) { Ever(q, events, PinnedOutOf(h)) }

  function ProcessedOf(h: Hash): (Queue, Batch) -> bool {
    (q, b) => HandledIn(q, b, h) && b.outcome(h).Processed?
  }

  ghost predicate ArrivedStored(events: seq<Event>, h: Hash) {
    exists i :: 0 <= i < |events| && events[i].ArriveStored? && events[i].hash == h
  }

  /** Over any run, whatever its duplicates were: stored are the messages that chain sync or a handling stored. */
  lemma {:induction false} StoredIff(q: Queue, events: seq<Event>, h: Hash)
    ensures h in Run(q, events).stored
       <==> h in q.stored || ArrivedStored(events, h) || Ever(q, events, ProcessedOf(h))
  {
    if events != [] {
      var init, e := events[..|events| - 1], events[|events| - 1];
      StoredIff(q, init, h);
      EverOneMore(q, events, ProcessedOf(h));
      ArrivedOneMore(events, h);
      StoredNext(Run(q, init), e, h);
    }
  }

  lemma StoredNext(q: Queue, e: Event, h: Hash)
    ensures h in Step(q, e).stored
       <==> h in q.stored || (e.ArriveStored? && e.hash == h) || (e.RunBatch? && ProcessedOf(h)(q, e.batch))
  {
    if e.RunBatch? {
      var b := e.batch;
      assert h in AfterBatch(q, b).stored <==> h in q.stored || (HandledIn(q, b, h) && b.outcome(h).Processed?);
    }
  }

  lemma ArrivedOneMore(events: seq<Event>, h: Hash)
    requires events != []
    ensures var e := events[|events| - 1];
      ArrivedStored(events, h) <==> ArrivedStored(events[..|events| - 1], h) || (e.ArriveStored? && e.hash == h)
  {
    var init := events[..|events| - 1];
    assert forall i :: 0 <= i < |init| ==> init[i] == events[i];
    if ArrivedStored(init, h) {
      var i :| 0 <= i < |init| && init[i].ArriveStored? && init[i].hash == h;
      assert events[i].ArriveStored? && events[i].hash == h;
    }
  }

  /**
   * `keyed` holds for the kinds of message whose handler writes a row under the message's own hash:
   * only those leave rows, and those that end up processed always do.
   */
  ghost predicate HonestEvent(e: Event, keyed: Hash -> bool) {
    forall h :: e.RunBatch? && h in e.batch.hashes ==>
      (e.batch.wrote(h) ==> keyed(h)) && (e.batch.outcome(h).Processed? && keyed(h) ==> e.batch.wrote(h))
  }

  ghost predicate Honest(events: seq<Event>, keyed: Hash -> bool) {
    forall i :: 0 <= i < |events| ==> HonestEvent(events[i], keyed)
  }

  /** No derived row of `h` is deleted. */
  ghost predicate Unerased(events: seq<Event>, h: Hash) {
    forall i :: 0 <= i < |events| && events[i].Erase? ==> h !in events[i].hashes
  }

  /**
   * How a run may begin: messages stored first are stored, and derived rows belong to stored messages
   * and, for messages that were not stored first, the other way round.
   */
  ghost predicate InStep(q: Queue, keyed: Hash -> bool) {
    && q.kept <= q.stored && q.derived <= q.stored
    && forall h :: h in q.stored && h !in q.kept && keyed(h) ==> h in q.derived
  }

  /** A derived row without a stored message comes from a handling that came apart. */
  predicate Traced(q: Queue, h: Hash, split: bool) {
    h in q.derived && h !in q.stored ==> split
  }

  lemma {:induction false} RunTraced(q: Queue, events: seq<Event>, h: Hash)
    requires q.derived <= q.stored
    ensures Traced(Run(q, events), h, SplitFailure(q, events, h))
  {
    if events != [] {
      var init, e := events[..|events| - 1], events[|events| - 1];
      RunTraced(q, init, h);
      EverOneMore(q, events, SplitOf(h));
      TracedNext(Run(q, init), e, h, SplitFailure(q, init, h));
    }
  }

  lemma TracedNext(q: Queue, e: Event, h: Hash, split: bool)
    requires Traced(q, h, split)
    ensures Traced(Step(q, e), h, split || (e.RunBatch? && SplitIn(q, e.batch, h)))
  {
  }

  /** How `h` stands after a run that began in step and deleted no derived row of it. */
  ghost predicate Standing(q: Queue, keyed: Hash -> bool, h: Hash, split: bool) {
    && (split ==> h in q.derived && keyed(h))
    && (h in q.kept ==> h in q.stored)
    && (h !in q.kept && h in q.stored && keyed(h) ==> h in q.derived)
    && (h !in q.kept && h in q.derived ==> (h in q.stored <==> !split))
  }

  lemma StandingBatch(q: Queue, b: Batch, keyed: Hash -> bool, h: Hash, split: bool)
    requires Fetched(q, b) && Standing(q, keyed, h, split) && HonestEvent(RunBatch(b), keyed)
    ensures Standing(AfterBatch(q, b), keyed, h, split || SplitIn(q, b, h))
  {
    var r := AfterBatch(q, b);
    assert h in b.hashes ==> (b.wrote(h) ==> keyed(h)) && (b.outcome(h).Processed? && keyed(h) ==> b.wrote(h));
    assert h in r.derived <==> h in q.derived || (HandledIn(q, b, h) && b.wrote(h));
    assert h in r.stored <==> h in q.stored || (HandledIn(q, b, h) && b.outcome(h).Processed?);
    assert HandledIn(q, b, h) ==> h !in q.derived;
  }

  lemma StandingNext(q: Queue, e: Event, keyed: Hash -> bool, h: Hash, split: bool)
    requires Standing(q, keyed, h, split) && HonestEvent(e, keyed)
    requires (e.RunBatch? ==> Fetched(q, e.batch)) && (e.Erase? ==> h !in e.hashes)
    ensures Standing(Step(q, e), keyed, h, split || (e.RunBatch? && SplitIn(q, e.batch, h)))
  {
    if e.RunBatch? { StandingBatch(q, e.batch, keyed, h, split); }
  }

  lemma {:induction false} RunStanding(q: Queue, events: seq<Event>, keyed: Hash -> bool, h: Hash)
    requires InStep(q, keyed) && Possible(q, events) && Honest(events, keyed) && Unerased(events, h)
    ensures Standing(Run(q, events), keyed, h, SplitFailure(q, events, h))
  {
    if events != [] {
      var init, e := events[..|events| - 1], events[|events| - 1];
      PossiblePrefix(q, events);
      RunStanding(q, init, keyed, h);
      EverOneMore(q, events, SplitOf(h));
      StandingNext(Run(q, init), e, keyed, h, SplitFailure(q, init, h));
    }
  }

  /**
   * A message with rows of its own kind that is about to be dropped as a duplicate has been stored
   * exactly when chain sync stored it beforehand, or when its derived rows are there and no handling
   * of it came apart after writing them. Otherwise the drop loses it.
   */
  lemma DuplicateIsStoredIff(q: Queue, events: seq<Event>, keyed: Hash -> bool, b: Batch, h: Hash)
    requires InStep(q, keyed) && Possible(q, events) && Honest(events, keyed) && Unerased(events, h) && keyed(h)
    requires Fetched(Run(q, events), b) && h in b.hashes && RouteOf(Run(q, events).pending[h], h, b).Duplicate?
    ensures var r := Run(q, events);
      h in r.stored <==> h in r.kept || (h in r.derived && !SplitFailure(q, events, h))
  {
    RunStanding(q, events, keyed, h);
  }

  /**
   * A handling that came apart does lose its message, unless it was stored before: whichever batch next
   * fetches it drops it, and it is neither queued, nor stored, nor recorded as rejected.
   */
  lemma SplitLosesMessage(q: Queue, b: Batch, next: Batch, h: Hash)
    requires h !in q.stored && h !in q.rejected
    requires Fetched(q, b) && SplitIn(q, b, h) && (b.outcome(h).Failed? || b.outcome(h).Retry?)
    requires q.pending[h].retries + 1 < MAX_RETRIES
    requires Fetched(AfterBatch(q, b), next) && h in next.hashes
    ensures var r := AfterBatch(AfterBatch(q, b), next); h !in r.pending && h !in r.stored && h !in r.rejected
  {
    assert h in AfterBatch(q, b).derived;
  }

  /** So does a pin on the hash, without any handling at all. */
  lemma PinLosesMessage(q: Queue, b: Batch, h: Hash)
    requires Fetched(q, b) && h in b.hashes && h in b.pinned && h !in q.stored && h !in q.rejected
    ensures var r := AfterBatch(q, b); h !in r.pending && h !in r.stored && h !in r.rejected
  {
  }

  /** A message queued under a hash that was uploaded and pinned before. */
  function PinnedUpload(h: Hash): seq<Event> {
    [Arrive(h, "", None, 0), RunBatch(Batch([h], 0, 0, {h}, {h}, {}, _ => Processed, _ => true))]
  }

  /** From the empty tables: the message is gone although no handler saw it and nobody turned it away. */
  lemma PinnedUploadIsLost(h: Hash)
    ensures var events, r := PinnedUpload(h), Run(NO_ROWS, PinnedUpload(h));
      && Possible(NO_ROWS, events) && PinnedOut(NO_ROWS, events, h)
      && !TurnedAway(NO_ROWS, events, h) && !SplitFailure(NO_ROWS, events, h)
      && h !in r.pending && h !in r.stored && h !in r.rejected
  {
    var events := PinnedUpload(h);
    OneBatch(NO_ROWS, events[0], events[1].batch, TurnedAwayOf(h));
    OneBatch(NO_ROWS, events[0], events[1].batch, SplitOf(h));
    OneBatch(NO_ROWS, events[0], events[1].batch, PinnedOutOf(h));
    assert events == [events[0], RunBatch(events[1].batch)];
    PinLosesMessage(Step(NO_ROWS, events[0]), events[1].batch, h);
  }

  /** A run of one event and one batch. */
  lemma OneBatch(q: Queue, e: Event, b: Batch, p: (Queue, Batch) -> bool)
    requires !e.RunBatch?
    ensures var events := [e, RunBatch(b)];
      && Run(q, events) == AfterBatch(Step(q, e), b)
      && (Possible(q, events) <==> Fetched(Step(q, e), b))
      && (Ever(q, events, p) <==> p(Step(q, e), b))
  {
    var events := [e, RunBatch(b)];
    assert events[..1] == [e] && [e][..0] == [] && events[..0] == [];
    assert Run(q, [e]) == Step(q, e);
    EverOneMore(q, events, p);
    EverOneMore(q, [e], p);
    if Possible(q, events) { assert events[1].RunBatch?; }
  }

  /**
   * Where a known message can be: queued, stored, recorded as rejected, turned away, come apart, or
   * dropped for a pin.
   */
  predicate Accounted(q: Queue, h: Hash, turned: bool, split: bool, pinned: bool) {
    h in q.pending || h in q.stored || h in q.rejected || turned || split || pinned
  }

  predicate ArrivesIn(e: Event, h: Hash) { (e.Arrive? || e.ArriveStored?) && e.hash == h }

  lemma AccountedNext(q: Queue, e: Event, h: Hash, turned: bool, split: bool, pinned: bool)
    requires e.RunBatch? ==> Fetched(q, e.batch)
    requires Accounted(q, h, turned, split, pinned) || ArrivesIn(e, h)
    requires Traced(q, h, split)
    ensures Accounted(Step(q, e), h, turned || (e.RunBatch? && TurnedAwayIn(q, e.batch, h)), split,
                      pinned || (e.RunBatch? && PinnedOutIn(q, e.batch, h)))
  {
  }

  /** Every message that arrives in the run, or was queued before. */
  ghost predicate Known(q: Queue, events: seq<Event>, h: Hash) {
    h in q.pending || exists i :: 0 <= i < |events| && ArrivesIn(events[i], h)
  }

  lemma KnownOneMore(q: Queue, events: seq<Event>, h: Hash)
    requires events != [] && Known(q, events, h)
    ensures Known(q, events[..|events| - 1], h) || ArrivesIn(events[|events| - 1], h)
  {
    var init := events[..|events| - 1];
    assert forall i :: 0 <= i < |init| ==> init[i] == events[i];
  }

  /**
   * Over any run, a message that was queued is still queued, is stored, is recorded as rejected, was
   * turned away as forgotten or for its sender, came apart in a handler, or was dropped for a pin that
   * has nothing to do with its handling.
   */
  lemma {:induction false} NothingElseIsLost(q: Queue, events: seq<Event>, h: Hash)
    requires q.derived <= q.stored && Possible(q, events) && Known(q, events, h)
    ensures Accounted(Run(q, events), h, TurnedAway(q, events, h), SplitFailure(q, events, h), PinnedOut(q, events, h))
  {
    if events != [] {
      var init, e := events[..|events| - 1], events[|events| - 1];
      PossiblePrefix(q, events);
      EverOneMore(q, events, SplitOf(h));
      EverOneMore(q, events, TurnedAwayOf(h));
      EverOneMore(q, events, PinnedOutOf(h));
      KnownOneMore(q, events, h);
      if Known(q, init, h) { NothingElseIsLost(q, init, h); }
      RunTraced(q, init, h);
      AccountedNext(Run(q, init), e, h, TurnedAway(q, init, h), SplitFailure(q, init, h), PinnedOut(q, init, h));
    }
  }

  // ---- A message that keeps failing ----

  /** How many batches handled `h`. */
  function Attempts(events: seq<Event>, h: Hash): nat {
    if events == [] then 0
    else Attempts(events[..|events| - 1], h) + (if InBatch(events[|events| - 1], h) then 1 else 0)
  }

  predicate InBatch(e: Event, h: Hash) { e.RunBatch? && h in e.batch.hashes }

  /**
   * If `h` is in the batch it fails before leaving any rows, and nothing else makes the batch drop it;
   * its row is not started afresh, and it gets no row or pin from elsewhere.
   */
  predicate FailsIn(e: Event, h: Hash) {
    match e
    case RunBatch(b) =>
      h in b.hashes ==>
        (b.outcome(h).Retry? || b.outcome(h).Failed?) && !b.wrote(h) && h !in b.forgotten && h !in b.pinned
    case Backfill(hs) => h !in hs
    case Erase(_) => true
    case _ => e.hash != h
  }

  /** Throughout the run; arriving again while it is queued makes no difference. */
  ghost predicate AlwaysFails(events: seq<Event>, h: Hash) {
    forall i :: 0 <= i < |events| ==>
      FailsIn(events[i], h) || (ArrivesIn(events[i], h) && Attempts(events[..i], h) < MAX_RETRIES)
  }

  lemma AlwaysFailsPrefix(events: seq<Event>, h: Hash)
    requires events != [] && AlwaysFails(events, h)
    ensures var init, e := events[..|events| - 1], events[|events| - 1];
      AlwaysFails(init, h) && (FailsIn(e, h) || (ArrivesIn(e, h) && Attempts(init, h) < MAX_RETRIES))
  {
    var init := events[..|events| - 1];
    assert forall i :: 0 <= i < |init| ==> init[i] == events[i] && init[..i] == events[..i];
  }

  /** When the batch with the first attempt ran. */
  function FirstAttempt(events: seq<Event>, h: Hash): int
    requires Attempts(events, h) > 0
  {
    var init := events[..|events| - 1];
    if Attempts(init, h) > 0 then FirstAttempt(init, h) else events[|events| - 1].batch.now
  }

  function FirstOrZero(events: seq<Event>, h: Hash): int {
    if Attempts(events, h) > 0 then FirstAttempt(events, h) else 0
  }

  /** Where `n` failed attempts leave a message that was first attempted at `first`. */
  ghost predicate AfterFailures(q: Queue, h: Hash, n: nat, first: int) {
    && n <= MAX_RETRIES && h !in q.derived
    && (n < MAX_RETRIES ==>
          h in q.pending && q.pending[h].retries == n && q.pending[h].sender !in BLACKLISTED_ADDRESSES)
    && (0 < n < MAX_RETRIES ==> q.pending[h].nextAttempt >= first + TotalBackoff(n))
    && (n == MAX_RETRIES ==> h !in q.pending && h in q.rejected)
  }

  /**
   * A message failing every attempt keeps its place through nine failures, each pushing the next
   * attempt further out, and is rejected by the tenth.
   */
  lemma {:induction false} FailingMessage(q: Queue, events: seq<Event>, h: Hash)
    requires h in q.pending && q.pending[h].retries == 0 && q.pending[h].sender !in BLACKLISTED_ADDRESSES
    requires h !in q.derived
    requires Possible(q, events) && AlwaysFails(events, h)
    ensures AfterFailures(Run(q, events), h, Attempts(events, h), FirstOrZero(events, h))
  {
    if events != [] {
      var init, e := events[..|events| - 1], events[|events| - 1];
      PossiblePrefix(q, events);
      AlwaysFailsPrefix(events, h);
      FailingMessage(q, init, h);
      FailureNext(Run(q, init), e, h, Attempts(init, h), FirstOrZero(init, h));
      FirstOneMore(events, h);
    }
  }

  lemma FirstOneMore(events: seq<Event>, h: Hash)
    requires events != []
    ensures var init, e := events[..|events| - 1], events[|events| - 1];
      && Attempts(events, h) == Attempts(init, h) + (if InBatch(e, h) then 1 else 0)
      && FirstOrZero(events, h)
         == if InBatch(e, h) && Attempts(init, h) == 0 then e.batch.now else FirstOrZero(init, h)
  {
  }

  /** One event in the life of a failing message, which is its first attempt when there was none before. */
  lemma FailureNext(q: Queue, e: Event, h: Hash, n: nat, first: int)
    requires AfterFailures(q, h, n, first) && (e.RunBatch? ==> Fetched(q, e.batch))
    requires FailsIn(e, h) || (ArrivesIn(e, h) && n < MAX_RETRIES)
    ensures AfterFailures(Step(q, e), h, n + (if InBatch(e, h) then 1 else 0),
                          if InBatch(e, h) && n == 0 then e.batch.now else first)
  {
    if InBatch(e, h) {
      OneFailure(q, e.batch, h, n, if n > 0 then first else e.batch.now);
    }
  }

  lemma OneFailure(q: Queue, b: Batch, h: Hash, n: nat, first: int)
    requires Fetched(q, b) && h in b.hashes && (b.outcome(h).Retry? || b.outcome(h).Failed?)
    requires !b.wrote(h) && h !in b.forgotten && h !in b.pinned
    requires AfterFailures(q, h, n, first) && (n == 0 ==> first == b.now)
    ensures n < MAX_RETRIES && b.now >= first + TotalBackoff(n)
    ensures AfterFailures(AfterBatch(q, b), h, n + 1, first)
  {
    var i :| 0 <= i < |b.hashes| && b.hashes[i] == h;
    assert Due(q.pending[h], b.now);
  }

  /** The last failure of `h` in the run. */
  function LastAttempt(events: seq<Event>, h: Hash): int
    requires Attempts(events, h) > 0
  {
    if InBatch(events[|events| - 1], h) then events[|events| - 1].batch.now else LastAttempt(events[..|events| - 1], h)
  }

  /** Rejection comes with exactly the tenth failure, no earlier than 14580 seconds after the first. */
  lemma {:induction false} RejectedOnTenthFailure(q: Queue, events: seq<Event>, h: Hash)
    requires h in q.pending && q.pending[h].retries == 0 && q.pending[h].sender !in BLACKLISTED_ADDRESSES
    requires h !in q.derived && h !in q.rejected && Possible(q, events) && AlwaysFails(events, h)
    ensures h in Run(q, events).rejected <==> Attempts(events, h) == 10
    ensures h in Run(q, events).pending <==> Attempts(events, h) < 10
    ensures Attempts(events, h) == 10 ==> LastAttempt(events, h) >= FirstAttempt(events, h) + 14580
  {
    FailingMessage(q, events, h);
    if events != [] {
      var init, e := events[..|events| - 1], events[|events| - 1];
      PossiblePrefix(q, events);
      AlwaysFailsPrefix(events, h);
      RejectedOnTenthFailure(q, init, h);
      FailingMessage(q, init, h);
      if InBatch(e, h) {
        var n := Attempts(init, h);
        OneFailure(Run(q, init), e.batch, h, n, if n > 0 then FirstAttempt(init, h) else e.batch.now);
        NineBackoffs();
      }
    }
  }
}
