/**
 * The posts backfill: each batch inserts the first missing rows after the cursor, but the cursor
 * moves over the first rows of any kind.
 */
module PostsBackfill {
  import opened TimeOrder

  /** A POST message with content; `Fields` says which of the required fields the content has. */
  datatype Content = Empty | Fields(hasAddress: bool, hasType: bool)

  datatype PostMessage = PostMessage(hash: Hash, time: real, content: Content)

  predicate WellFormed(m: PostMessage) { m.content == Fields(true, true) }

  function TimedAfter(last: real): PostMessage -> bool { (m: PostMessage) => m.time > last }

  function Missing(posts: set<Hash>): PostMessage -> bool { (m: PostMessage) => !m.content.Empty? && m.hash !in posts }

  /** `rows` is the table in the order of `time`. */
  function After(rows: seq<PostMessage>, last: real): seq<PostMessage> { Filter(TimedAfter(last), rows) }

  function Take(s: seq<PostMessage>, limit: nat): seq<PostMessage> {
    if |s| <= limit then s else s[..limit]
  }

  /** The inserting statement: of the first missing rows after the cursor, the well-formed ones. */
  function Inserted(rows: seq<PostMessage>, posts: set<Hash>, last: real, limit: nat): set<Hash> {
    set m | m in Take(Filter(Missing(posts), After(rows, last)), limit) && WellFormed(m) :: m.hash
  }

  lemma {:induction false} FewerAfter(rows: seq<PostMessage>, lo: real, hi: real)
    requires lo <= hi
    ensures |After(rows, hi)| <= |After(rows, lo)|
    ensures (exists m :: m in rows && lo < m.time <= hi) ==> |After(rows, hi)| < |After(rows, lo)|
  {
    if rows != [] {
      FewerAfter(rows[..|rows| - 1], lo, hi);
      assert rows == rows[..|rows| - 1] + [rows[|rows| - 1]];
    }
  }

  /** The cursor moves strictly forward. */
  lemma CursorMoves(rows: seq<PostMessage>, last: real, limit: nat)
    requires Take(After(rows, last), limit) != []
    ensures var batch := Take(After(rows, last), limit);
            var next := batch[|batch| - 1].time;
            next > last && |After(rows, next)| < |After(rows, last)|
  {
    var batch := Take(After(rows, last), limit);
    var m := batch[|batch| - 1];
    FilterMembers(TimedAfter(last), rows);
    assert m in After(rows, last);
    FewerAfter(rows, last, m.time);
  }

  /** The whole loop, from a given cursor. */
  function Backfilled(rows: seq<PostMessage>, posts: set<Hash>, last: real, limit: nat): set<Hash>
    decreases |After(rows, last)|
  {
    var more := posts + Inserted(rows, posts, last, limit);
    var batch := Take(After(rows, last), limit);
    if |batch| == 0 || |batch| < limit then more
    else
      CursorMoves(rows, last, limit);
      Backfilled(rows, more, batch[|batch| - 1].time, limit)
  }

  /** How many batches the loop takes. */
  function Batches(rows: seq<PostMessage>, last: real, limit: nat): nat
    decreases |After(rows, last)|
  {
    var batch := Take(After(rows, last), limit);
    if |batch| == 0 || |batch| < limit then 1
    else
      CursorMoves(rows, last, limit);
      1 + Batches(rows, batch[|batch| - 1].time, limit)
  }

  ghost predicate NoneFails(failing: iset<nat>, batches: nat) {
    forall n :: 1 <= n <= batches ==> n !in failing
  }

  lemma NoneFailsNext(failing: iset<nat>, n: nat, total: nat)
    requires NoneFails(failing, n) && n < total
    ensures if n + 1 in failing then !NoneFails(failing, total) else NoneFails(failing, n + 1)
  {
  }

  class PostsTable {
    var posts: set<Hash>

    constructor (posts: set<Hash>)
      ensures this.posts == posts
    {
      this.posts := posts;
    }

    /** `failing` are the batches that hit a database error, unreadable content included; then the job gives up. */
    method BackfillPosts(rows: seq<PostMessage>, limit: nat, failing: iset<nat>) returns (ok: bool)
      modifies this
      ensures ok <==> NoneFails(failing, Batches(rows, 0.0, limit))
      ensures ok ==> posts == Backfilled(rows, old(posts), 0.0, limit)
      ensures old(posts) <= posts <= Backfilled(rows, old(posts), 0.0, limit)
    {
      ghost var all, total := Backfilled(rows, posts, 0.0, limit), Batches(rows, 0.0, limit);
      BackfillKeeps(rows, posts, 0.0, limit);
      var last, batchNum: nat := 0.0, 0;
      while true
        invariant old(posts) <= posts <= all && NoneFails(failing, batchNum)
        invariant all == Backfilled(rows, posts, last, limit) && total == batchNum + Batches(rows, last, limit)
        decreases |After(rows, last)|
      {
        BackfillNext(rows, posts, last, limit, all, total, batchNum);
        NoneFailsNext(failing, batchNum, total);
        batchNum := batchNum + 1;
        if batchNum in failing { return false; }
        var full, next := InsertBatch(rows, last, limit);
        if !full { break; }
        last := next;
      }
      ok := true;
    }

    /** The two statements of a batch: the insert, and the query that moves the cursor. */
    method InsertBatch(rows: seq<PostMessage>, last: real, limit: nat) returns (full: bool, next: real)
      modifies this
      ensures posts == old(posts) + Inserted(rows, old(posts), last, limit)
      ensures full <==> IsFull(rows, last, limit)
      ensures full ==> next == EndOfBatch(rows, last, limit)
    {
      posts := posts + Inserted(rows, posts, last, limit);
      var batch := Take(After(rows, last), limit);
      if |batch| == 0 { return false, last; }
      next := batch[|batch| - 1].time;
      full := !(|batch| < limit);
    }
  }

  predicate IsFull(rows: seq<PostMessage>, last: real, limit: nat) {
    var batch := Take(After(rows, last), limit);
    |batch| > 0 && |batch| >= limit
  }

  function EndOfBatch(rows: seq<PostMessage>, last: real, limit: nat): real
    requires IsFull(rows, last, limit)
  {
    var batch := Take(After(rows, last), limit);
    batch[|batch| - 1].time
  }

  /** One batch of the loop, and what is left after it. */
  lemma BackfillNext(rows: seq<PostMessage>, posts: set<Hash>, last: real, limit: nat, all: set<Hash>, total: nat,
      n: nat)
    requires all == Backfilled(rows, posts, last, limit) && total == n + Batches(rows, last, limit)
    ensures n < total && posts + Inserted(rows, posts, last, limit) <= all
    ensures var more := posts + Inserted(rows, posts, last, limit);
      if !IsFull(rows, last, limit) then all == more && total == n + 1
      else
        var next := EndOfBatch(rows, last, limit);
        && all == Backfilled(rows, more, next, limit) && total == n + 1 + Batches(rows, next, limit)
        && |After(rows, next)| < |After(rows, last)|
  {
    if IsFull(rows, last, limit) {
      CursorMoves(rows, last, limit);
      BackfillKeeps(rows, posts + Inserted(rows, posts, last, limit), EndOfBatch(rows, last, limit), limit);
    }
  }

  lemma {:induction false} BackfillKeeps(rows: seq<PostMessage>, posts: set<Hash>, last: real, limit: nat)
    ensures posts <= Backfilled(rows, posts, last, limit) && Batches(rows, last, limit) >= 1
    decreases |After(rows, last)|
  {
    var batch := Take(After(rows, last), limit);
    if |batch| > 0 && |batch| >= limit {
      CursorMoves(rows, last, limit);
      BackfillKeeps(rows, posts + Inserted(rows, posts, last, limit), batch[|batch| - 1].time, limit);
    }
  }

  // ---- What the batches miss ----

  ghost predicate InTimeOrder(rows: seq<PostMessage>) {
    forall i, j :: 0 <= i < j < |rows| ==> rows[i].time <= rows[j].time
  }

  ghost predicate DistinctHashes(rows: seq<PostMessage>) {
    forall i, j :: 0 <= i < j < |rows| ==> rows[i].hash != rows[j].hash
  }

  /** Where the `i`-th row lands among the filtered ones: never further back. */
  lemma FilteredPlace<T(!new)>(p: T -> bool, s: seq<T>, i: nat)
    requires i < |s| && p(s[i])
    ensures var j := |Filter(p, s[..i])|; j <= i && j < |Filter(p, s)| && Filter(p, s)[j] == s[i]
  {
    assert s == s[..i] + ([s[i]] + s[i + 1..]);
    FilterAppend(p, s[..i], [s[i]] + s[i + 1..]);
    FilterAppend(p, [s[i]], s[i + 1..]);
    assert Filter(p, [s[i]]) == [s[i]] by { assert [s[i]][..0] == []; }
    FilterMembers(p, s[..i]);
  }

  /** Where the `i`-th filtered row came from: never further front. */
  lemma {:induction false} PlaceBefore<T(!new)>(p: T -> bool, s: seq<T>, i: nat) returns (k: nat)
    requires i < |Filter(p, s)|
    ensures i <= k < |s| && s[k] == Filter(p, s)[i]
  {
    var init := s[..|s| - 1];
    if i < |Filter(p, init)| {
      k := PlaceBefore(p, init, i);
    } else {
      FilterMembers(p, init);
      k := |s| - 1;
    }
  }

  lemma {:induction false} FilterAll<T(!new)>(p: T -> bool, s: seq<T>)
    requires forall x :: x in s ==> p(x)
    ensures Filter(p, s) == s
  {
    if s != [] {
      var init, last := s[..|s| - 1], s[|s| - 1];
      assert s == init + [last] && last in s;
      FilterAll(p, init);
    }
  }

  lemma {:induction false} FilterKeepsOrder(p: PostMessage -> bool, rows: seq<PostMessage>)
    requires InTimeOrder(rows)
    ensures InTimeOrder(Filter(p, rows))
  {
    if rows != [] {
      var init, m := rows[..|rows| - 1], rows[|rows| - 1];
      FilterKeepsOrder(p, init);
      FilterMembers(p, init);
      forall i | 0 <= i < |Filter(p, init)| ensures Filter(p, init)[i].time <= m.time {
        assert Filter(p, init)[i] in Filter(p, init);
        var j :| 0 <= j < |init| && init[j] == Filter(p, init)[i];
        assert rows[j].time <= m.time;
      }
    }
  }

  function HashKey(m: PostMessage): SortKey { SortKey(0.0, m.hash) }

  lemma FilterKeepsHashes(p: PostMessage -> bool, rows: seq<PostMessage>)
    requires DistinctHashes(rows)
    ensures DistinctHashes(Filter(p, rows))
  {
    assert DistinctKeys(HashKey, rows);
    FilterKeepsDistinct(HashKey, p, rows);
    var s := Filter(p, rows);
    forall i, j | 0 <= i < j < |s| ensures s[i].hash != s[j].hash { assert HashKey(s[i]) != HashKey(s[j]); }
  }

  lemma HashIdentifies(rows: seq<PostMessage>, m: PostMessage, n: PostMessage)
    requires DistinctHashes(rows) && m in rows && n in rows && m.hash == n.hash
    ensures m == n
  {
  }

  /** The missing rows after the cursor, in the order the inserting statement takes them. */
  function Waiting(rows: seq<PostMessage>, posts: set<Hash>, last: real): seq<PostMessage> {
    Filter(Missing(posts), After(rows, last))
  }

  /** Where a full batch moves the cursor. */
  function NextCursor(rows: seq<PostMessage>, last: real, limit: nat): real
    requires 0 < limit <= |After(rows, last)|
  {
    After(rows, last)[limit - 1].time
  }

  lemma NextCursorMoves(rows: seq<PostMessage>, last: real, limit: nat)
    requires 0 < limit <= |After(rows, last)|
    ensures var batch := Take(After(rows, last), limit);
      |batch| == limit && batch[|batch| - 1].time == NextCursor(rows, last, limit)
    ensures NextCursor(rows, last, limit) > last && |After(rows, NextCursor(rows, last, limit))| < |After(rows, last)|
  {
    CursorMoves(rows, last, limit);
  }

  /**
   * A well-formed message at the very time the cursor moves to comes too late among the missing rows to
   * be inserted.
   */
  ghost predicate TieCut(rows: seq<PostMessage>, posts: set<Hash>, last: real, limit: nat)
    requires 0 < limit <= |After(rows, last)|
  {
    var waiting := Waiting(rows, posts, last);
    exists i :: limit <= i < |waiting| && WellFormed(waiting[i]) && waiting[i].time == NextCursor(rows, last, limit)
  }

  /** No batch of the loop cuts a tie. */
  ghost predicate NoTieCut(rows: seq<PostMessage>, posts: set<Hash>, last: real, limit: nat)
    requires limit > 0
    decreases |After(rows, last)|
  {
    |After(rows, last)| < limit ||
    (NextCursorMoves(rows, last, limit);
     !TieCut(rows, posts, last, limit)
     && NoTieCut(rows, posts + Inserted(rows, posts, last, limit), NextCursor(rows, last, limit), limit))
  }

  /** A missing row that the cursor passes is inserted, unless the batch cuts a tie. */
  lemma BatchIsInserted(rows: seq<PostMessage>, posts: set<Hash>, last: real, limit: nat, m: PostMessage)
    requires InTimeOrder(rows) && limit > 0 && m in rows && m.time > last && WellFormed(m)
    requires |After(rows, last)| >= limit ==>
      m.time <= NextCursor(rows, last, limit) && !TieCut(rows, posts, last, limit)
    ensures m.hash in posts || m.hash in Inserted(rows, posts, last, limit)
  {
    if m.hash !in posts {
      var j := WaitingPlace(rows, posts, last, limit, m);
      assert Take(Waiting(rows, posts, last), limit)[j] == m;
    }
  }

  lemma WaitingPlace(rows: seq<PostMessage>, posts: set<Hash>, last: real, limit: nat, m: PostMessage) returns (j: nat)
    requires InTimeOrder(rows) && limit > 0 && m in rows && m.time > last && WellFormed(m) && m.hash !in posts
    requires |After(rows, last)| >= limit ==>
      m.time <= NextCursor(rows, last, limit) && !TieCut(rows, posts, last, limit)
    ensures j < limit && j < |Waiting(rows, posts, last)| && Waiting(rows, posts, last)[j] == m
  {
    var after, waiting := After(rows, last), Waiting(rows, posts, last);
    FilterMembers(TimedAfter(last), rows);
    assert m in after;
    var i :| 0 <= i < |after| && after[i] == m;
    FilteredPlace(Missing(posts), after, i);
    j := |Filter(Missing(posts), after[..i])|;
    FilterKeepsOrder(TimedAfter(last), rows);
    assert i >= limit ==> NextCursor(rows, last, limit) <= m.time;
    assert WellFormed(waiting[j]) && waiting[j].time == m.time;
  }

  /** The rows that have to get a post. */
  function Expected(rows: seq<PostMessage>, last: real): set<Hash> {
    set m | m in rows && WellFormed(m) && m.time > last :: m.hash
  }

  lemma InsertedIsExpected(rows: seq<PostMessage>, posts: set<Hash>, last: real, limit: nat)
    ensures Inserted(rows, posts, last, limit) <= Expected(rows, last)
  {
    FilterMembers(TimedAfter(last), rows);
    FilterMembers(Missing(posts), After(rows, last));
    var waiting := Waiting(rows, posts, last);
    forall m | m in Take(waiting, limit) ensures m in waiting { }
  }

  /** The loop posts nothing it should not. */
  lemma {:induction false} BackfillsNoMore(rows: seq<PostMessage>, posts: set<Hash>, last: real, limit: nat)
    requires limit > 0
    ensures posts <= Backfilled(rows, posts, last, limit) <= posts + Expected(rows, last)
    decreases |After(rows, last)|
  {
    InsertedIsExpected(rows, posts, last, limit);
    if |After(rows, last)| >= limit {
      NextCursorMoves(rows, last, limit);
      BackfillsNoMore(rows, posts + Inserted(rows, posts, last, limit), NextCursor(rows, last, limit), limit);
    }
  }

  /**
   * While no batch cuts a tie, the loop posts exactly the well-formed messages after the cursor,
   * whatever is missing where.
   */
  lemma {:induction false} BackfillsEverything(rows: seq<PostMessage>, posts: set<Hash>, last: real, limit: nat)
    requires InTimeOrder(rows) && limit > 0 && NoTieCut(rows, posts, last, limit)
    ensures Backfilled(rows, posts, last, limit) == posts + Expected(rows, last)
    decreases |After(rows, last)|
  {
    BackfillsNoMore(rows, posts, last, limit);
    var more := posts + Inserted(rows, posts, last, limit);
    if |After(rows, last)| >= limit {
      NextCursorMoves(rows, last, limit);
      BackfillsEverything(rows, more, NextCursor(rows, last, limit), limit);
    }
    forall m | m in rows && WellFormed(m) && m.time > last ensures m.hash in Backfilled(rows, posts, last, limit) {
      if |After(rows, last)| < limit || m.time <= NextCursor(rows, last, limit) {
        BatchIsInserted(rows, posts, last, limit, m);
      }
    }
  }

  /** What has a post after the job, when no batch cuts a tie, said of the messages themselves. */
  lemma PostedIff(rows: seq<PostMessage>, posts: set<Hash>, limit: nat, h: Hash)
    requires InTimeOrder(rows) && limit > 0 && NoTieCut(rows, posts, 0.0, limit)
    ensures h in Backfilled(rows, posts, 0.0, limit)
      <==> h in posts || exists m :: m in rows && m.hash == h && m.content == Fields(true, true) && m.time > 0.0
  {
    BackfillsEverything(rows, posts, 0.0, limit);
  }

  /** The row on the far side of a cut is never posted: the cursor is past it. */
  lemma TieIsLost(rows: seq<PostMessage>, posts: set<Hash>, last: real, limit: nat, i: nat)
    requires DistinctHashes(rows) && 0 < limit <= |After(rows, last)|
    requires limit <= i < |Waiting(rows, posts, last)|
    requires Waiting(rows, posts, last)[i].time <= NextCursor(rows, last, limit)
    ensures Waiting(rows, posts, last)[i].hash !in Backfilled(rows, posts, last, limit)
  {
    var waiting, next := Waiting(rows, posts, last), NextCursor(rows, last, limit);
    var m, inserted := waiting[i], Inserted(rows, posts, last, limit);
    FilterKeepsHashes(TimedAfter(last), rows);
    FilterKeepsHashes(Missing(posts), After(rows, last));
    FilterMembers(TimedAfter(last), rows);
    FilterMembers(Missing(posts), After(rows, last));
    assert m in waiting && m in rows && m.hash !in posts;
    assert forall n :: n in Take(waiting, limit) ==> n.hash != m.hash;
    assert m.hash !in inserted;
    forall n | n in rows && n.time > next ensures n.hash != m.hash {
      if n.hash == m.hash { HashIdentifies(rows, m, n); }
    }
    NextCursorMoves(rows, last, limit);
    BackfillsNoMore(rows, posts + inserted, next, limit);
  }

  /** Exactly when the loop posts all it should: when no batch cuts a tie. */
  lemma {:induction false} LosesNothingIff(rows: seq<PostMessage>, posts: set<Hash>, last: real, limit: nat)
    requires InTimeOrder(rows) && DistinctHashes(rows) && limit > 0
    ensures Expected(rows, last) <= Backfilled(rows, posts, last, limit) <==> NoTieCut(rows, posts, last, limit)
    decreases |After(rows, last)|
  {
    if NoTieCut(rows, posts, last, limit) {
      BackfillsEverything(rows, posts, last, limit);
    } else if TieCut(rows, posts, last, limit) {
      var waiting := Waiting(rows, posts, last);
      var i :| limit <= i < |waiting| && WellFormed(waiting[i]) && waiting[i].time == NextCursor(rows, last, limit);
      TieIsLost(rows, posts, last, limit, i);
      FilterMembers(TimedAfter(last), rows);
      FilterMembers(Missing(posts), After(rows, last));
      assert waiting[i] in waiting && waiting[i].hash in Expected(rows, last);
    } else {
      var next := NextCursor(rows, last, limit);
      NextCursorMoves(rows, last, limit);
      LosesNothingIff(rows, posts + Inserted(rows, posts, last, limit), next, limit);
      assert Expected(rows, next) <= Expected(rows, last);
    }
  }

  /**
   * The job, starting from cursor zero, leaves every well-formed message with a post exactly when no
   * batch cuts a tie and no message that lacks a post has a time of zero or less.
   */
  lemma CompleteIff(rows: seq<PostMessage>, posts: set<Hash>, limit: nat)
    requires InTimeOrder(rows) && DistinctHashes(rows) && limit > 0
    ensures (forall m :: m in rows && WellFormed(m) ==> m.hash in Backfilled(rows, posts, 0.0, limit))
       <==> (NoTieCut(rows, posts, 0.0, limit)
             && forall m :: m in rows && WellFormed(m) && m.hash !in posts ==> m.time > 0.0)
  {
    LosesNothingIff(rows, posts, 0.0, limit);
    BackfillsNoMore(rows, posts, 0.0, limit);
    forall m | m in rows && m.hash in Expected(rows, 0.0) ensures m.time > 0.0 {
      var n :| n in rows && WellFormed(n) && n.time > 0.0 && n.hash == m.hash;
      HashIdentifies(rows, m, n);
    }
  }

  // ---- Ties, whatever is missing ----

  /** Wherever a full batch ends, no well-formed message with the time of its last row stands behind it. */
  ghost predicate Uncut(rows: seq<PostMessage>, last: real, limit: nat)
    requires limit > 0
    decreases |After(rows, last)|
  {
    var after := After(rows, last);
    |after| < limit ||
    (NextCursorMoves(rows, last, limit);
     (forall i :: limit <= i < |after| && after[i].time == after[limit - 1].time ==> !WellFormed(after[i]))
     && Uncut(rows, NextCursor(rows, last, limit), limit))
  }

  lemma {:induction false} UncutSuffices(rows: seq<PostMessage>, posts: set<Hash>, last: real, limit: nat)
    requires limit > 0 && Uncut(rows, last, limit)
    ensures NoTieCut(rows, posts, last, limit)
    decreases |After(rows, last)|
  {
    var after, waiting := After(rows, last), Waiting(rows, posts, last);
    if |after| >= limit {
      NextCursorMoves(rows, last, limit);
      forall i | limit <= i < |waiting| && waiting[i].time == NextCursor(rows, last, limit)
        ensures !WellFormed(waiting[i])
      {
        var k := PlaceBefore(Missing(posts), after, i);
      }
      UncutSuffices(rows, posts + Inserted(rows, posts, last, limit), NextCursor(rows, last, limit), limit);
    }
  }

  ghost predicate NoneEmpty(rows: seq<PostMessage>) {
    forall m :: m in rows ==> !m.content.Empty?
  }

  /** When nothing after the cursor has a post yet, both statements of a batch see the same rows. */
  lemma {:induction false} UncutIsNeeded(rows: seq<PostMessage>, posts: set<Hash>, last: real, limit: nat)
    requires InTimeOrder(rows) && DistinctHashes(rows) && NoneEmpty(rows) && limit > 0
    requires forall m :: m in rows && m.time > last ==> m.hash !in posts
    requires NoTieCut(rows, posts, last, limit)
    ensures Uncut(rows, last, limit)
    decreases |After(rows, last)|
  {
    var after := After(rows, last);
    if |after| >= limit {
      var next := NextCursor(rows, last, limit);
      FilterMembers(TimedAfter(last), rows);
      FilterAll(Missing(posts), after);
      NextCursorMoves(rows, last, limit);
      BatchBelowCursor(rows, posts, last, limit);
      UncutIsNeeded(rows, posts + Inserted(rows, posts, last, limit), next, limit);
    }
  }

  lemma BatchBelowCursor(rows: seq<PostMessage>, posts: set<Hash>, last: real, limit: nat)
    requires InTimeOrder(rows) && DistinctHashes(rows) && 0 < limit <= |After(rows, last)|
    requires Waiting(rows, posts, last) == After(rows, last)
    ensures forall m :: m in rows && m.time > NextCursor(rows, last, limit) ==>
      m.hash !in Inserted(rows, posts, last, limit)
  {
    var next := NextCursor(rows, last, limit);
    forall m | m in rows && m.time > next ensures m.hash !in Inserted(rows, posts, last, limit) {
      if m.hash in Inserted(rows, posts, last, limit) {
        var n :| n in Take(After(rows, last), limit) && n.hash == m.hash;
        InBatch(rows, last, limit, n);
        HashIdentifies(rows, m, n);
      }
    }
  }

  lemma InBatch(rows: seq<PostMessage>, last: real, limit: nat, n: PostMessage)
    requires InTimeOrder(rows) && 0 < limit <= |After(rows, last)| && n in Take(After(rows, last), limit)
    ensures n in rows && n.time <= NextCursor(rows, last, limit)
  {
    var after := After(rows, last);
    FilterKeepsOrder(TimedAfter(last), rows);
    FilterMembers(TimedAfter(last), rows);
    var i :| 0 <= i < limit && after[i] == n;
    assert n in after;
  }

  /** Whatever is missing, the job loses nothing after time zero: exactly when no batch end cuts a tie of the table. */
  lemma UncutIff(rows: seq<PostMessage>, limit: nat)
    requires InTimeOrder(rows) && DistinctHashes(rows) && NoneEmpty(rows) && limit > 0
    ensures (forall posts :: Expected(rows, 0.0) <= Backfilled(rows, posts, 0.0, limit)) <==> Uncut(rows, 0.0, limit)
  {
    if Uncut(rows, 0.0, limit) {
      forall posts ensures Expected(rows, 0.0) <= Backfilled(rows, posts, 0.0, limit) {
        UncutSuffices(rows, posts, 0.0, limit);
        LosesNothingIff(rows, posts, 0.0, limit);
      }
    } else {
      LosesNothingIff(rows, {}, 0.0, limit);
      if NoTieCut(rows, {}, 0.0, limit) { UncutIsNeeded(rows, {}, 0.0, limit); }
      assert !(Expected(rows, 0.0) <= Backfilled(rows, {}, 0.0, limit));
    }
  }

  ghost predicate DistinctTimes(rows: seq<PostMessage>) {
    forall i, j :: 0 <= i < j < |rows| ==> rows[i].time < rows[j].time
  }

  /** Distinct times leave nothing to cut. */
  lemma {:induction false} DistinctTimesAreUncut(rows: seq<PostMessage>, last: real, limit: nat)
    requires DistinctTimes(rows) && limit > 0
    ensures Uncut(rows, last, limit)
    decreases |After(rows, last)|
  {
    if |After(rows, last)| >= limit {
      NextCursorMoves(rows, last, limit);
      AfterKeepsTimes(rows, last);
      DistinctTimesAreUncut(rows, NextCursor(rows, last, limit), limit);
    }
  }

  lemma {:induction false} AfterKeepsTimes(rows: seq<PostMessage>, last: real)
    requires DistinctTimes(rows)
    ensures DistinctTimes(After(rows, last))
  {
    if rows != [] {
      var init, m := rows[..|rows| - 1], rows[|rows| - 1];
      AfterKeepsTimes(init, last);
      FilterMembers(TimedAfter(last), init);
      forall i | 0 <= i < |After(init, last)| ensures After(init, last)[i].time < m.time {
        assert After(init, last)[i] in After(init, last);
        var j :| 0 <= j < |init| && init[j] == After(init, last)[i];
        assert rows[j].time < m.time;
      }
    }
  }

  function SameTime(n: nat): seq<PostMessage> {
    seq(n, i => PostMessage(i, 1.0, Fields(true, true)))
  }

  /** For every batch size, one message more than a batch at the same time is enough for one to be skipped. */
  lemma EqualTimesAreSkipped(limit: nat)
    requires limit > 0
    ensures limit !in Backfilled(SameTime(limit + 1), {}, 0.0, limit)
    ensures limit in Expected(SameTime(limit + 1), 0.0) && !Uncut(SameTime(limit + 1), 0.0, limit)
  {
    var rows := SameTime(limit + 1);
    FilterAll(TimedAfter(0.0), rows);
    FilterAll(Missing({}), rows);
    assert Waiting(rows, {}, 0.0)[limit] == rows[limit] && rows[limit] in rows;
    TieIsLost(rows, {}, 0.0, limit, limit);
  }
}
