/** Round-robin failover over several RPC providers, and block indexing with an adaptive batch size on top of it. */
module EthIndexer {
  import opened Wrappers
  import opened RpcSync

  const MAX_BLOCKS_PER_BATCH: nat := 100

  datatype ChainError = Rpc | RateLimited | InvalidRange

  datatype Result<T> = Ok(value: T) | Err(error: ChainError)

  // ---- Providers ----

  class MultiRpcProvider {
    const count: nat
    var currentIndex: nat
    var failureCounts: seq<nat>
    /** Requests sent so far, and whether the n-th one succeeds: any behaviour of the network. */
    var requests: nat
    const succeeds: nat -> bool

    ghost predicate Valid() reads this {
      count > 0 && currentIndex < count && |failureCounts| == count
    }

    /** The latest requests, one to each provider, all failed. */
    ghost predicate LastRoundFailed() reads this {
      count <= requests && forall r :: requests - count <= r < requests ==> !succeeds(r)
    }

    constructor (backups: nat, succeeds: nat -> bool)
      ensures Valid() && count == backups + 1 && currentIndex == 0 && requests == 0 && this.succeeds == succeeds
      ensures failureCounts == seq(count, _ => 0)
    {
      count, currentIndex, requests := backups + 1, 0, 0;
      failureCounts := seq(backups + 1, _ => 0);
      this.succeeds := succeeds;
    }

    method MarkFailed()
      requires Valid()
      modifies `currentIndex, `failureCounts
      ensures Valid() && currentIndex == if old(currentIndex) + 1 == count then 0 else old(currentIndex) + 1
      ensures failureCounts == old(failureCounts)[old(currentIndex) := old(failureCounts)[old(currentIndex)] + 1]
    {
      failureCounts := failureCounts[currentIndex := failureCounts[currentIndex] + 1];
      if count > 1 {
        WrapOnce(currentIndex + 1, count);
        currentIndex := (currentIndex + 1) % count;
      }
    }

    method MarkSuccess()
      requires Valid()
      modifies `failureCounts
      ensures Valid() && failureCounts == old(failureCounts)[currentIndex := 0]
    {
      failureCounts := failureCounts[currentIndex := 0];
    }

    /** One request to the current provider. */
    method Send() returns (answer: bool)
      modifies `requests
      ensures requests == old(requests) + 1 && answer == succeeds(old(requests))
    {
      answer := succeeds(requests);
      requests := requests + 1;
    }

    /**
     * Tries provider after provider, starting with the current one. Failure means that every provider
     * was tried exactly once, and leaves the current provider where it was.
     */
    method ExecuteWithRetry() returns (ok: bool, attempts: nat)
      requires Valid()
      modifies this
      ensures Valid() && 0 < attempts <= count && requests == old(requests) + attempts
      ensures forall r :: old(requests) <= r < requests - 1 ==> !succeeds(r)
      ensures ok <==> succeeds(requests - 1)
      ensures !ok ==> attempts == count && currentIndex == old(currentIndex)
      ensures ok ==> currentIndex == InTurn(old(currentIndex), attempts - 1, count) && failureCounts[currentIndex] == 0
      ensures forall p :: 0 <= p < count && !(ok && p == currentIndex) ==>
        failureCounts[p] == old(failureCounts)[p] + (if Turn(old(currentIndex), p, count) < attempts then 1 else 0)
    {
      attempts := 0;
      while attempts < count
        invariant Valid() && attempts <= count && requests == old(requests) + attempts
        invariant currentIndex == InTurn(old(currentIndex), attempts, count)
        invariant forall r :: old(requests) <= r < requests ==> !succeeds(r)
        invariant FailedOnce(old(failureCounts), failureCounts, old(currentIndex), attempts)
      {
        ghost var before := failureCounts;
        var answer := Send();
        attempts := attempts + 1;
        if answer {
          MarkSuccess();
          OnlyInTurn(old(currentIndex), attempts - 1, count);
          return true, attempts;
        }
        MarkFailed();
        FailedNext(old(failureCounts), before, old(currentIndex), attempts - 1);
      }
      ok := false;
    }
  }

  /** The provider current after `i` switches from `start`. */
  function InTurn(start: nat, i: nat, count: nat): (p: nat)
    requires start < count && i <= count
    ensures p < count
  {
    if start + i < count then start + i else start + i - count
  }

  /** After how many switches from `start` it is provider `p`'s turn. */
  function Turn(start: nat, p: nat, count: nat): (i: nat)
    requires start < count && p < count
    ensures i < count && InTurn(start, i, count) == p
  {
    if p >= start then p - start else p + count - start
  }

  /** In one round each provider has exactly one turn: none is tried twice, none is left out. */
  lemma OnlyInTurn(start: nat, i: nat, count: nat)
    requires start < count && i < count
    ensures forall p :: 0 <= p < count ==> (Turn(start, p, count) == i <==> InTurn(start, i, count) == p)
  {
  }

  /** The first `n` providers in turn have one failure more. */
  ghost predicate FailedOnce(before: seq<nat>, after: seq<nat>, start: nat, n: nat) {
    && |before| == |after| && start < |before|
    && forall p :: 0 <= p < |before| ==> after[p] == before[p] + (if Turn(start, p, |before|) < n then 1 else 0)
  }

  lemma FailedNext(before: seq<nat>, after: seq<nat>, start: nat, n: nat)
    requires FailedOnce(before, after, start, n) && n < |before|
    ensures var p := InTurn(start, n, |before|); FailedOnce(before, after[p := after[p] + 1], start, n + 1)
  {
    OnlyInTurn(start, n, |before|);
  }

  lemma WrapOnce(x: nat, count: nat)
    requires 0 < count && x < 2 * count
    ensures x % count == if x < count then x else x - count
  {
    if x >= count {
      assert x == count + (x - count);
      assert x / count == 1;
    }
  }

  // ---- Indexing ----

  /** The block ranges asked for. */
  type Ranges = seq<(nat, int)>

  /** `ranges` run from `start` up to but not including `stop`, without gap or overlap. */
  predicate Consecutive(ranges: Ranges, start: nat, stop: nat) {
    if ranges == [] then start == stop
    else
      var (lo, hi) := ranges[|ranges| - 1];
      lo <= hi + 1 == stop && Consecutive(ranges[..|ranges| - 1], start, lo)
  }

  lemma ConsecutiveAppend(ranges: Ranges, start: nat, lo: nat, hi: int)
    requires Consecutive(ranges, start, lo) && lo <= hi + 1
    ensures Consecutive(ranges + [(lo, hi)], start, hi + 1)
  {
    assert (ranges + [(lo, hi)])[..|ranges|] == ranges;
  }

  predicate AtMost(ranges: Ranges, blocks: nat) {
    forall i :: 0 <= i < |ranges| ==> ranges[i].1 - ranges[i].0 + 1 <= blocks
  }

  function Grown(batch: nat): nat {
    if batch + 10 <= MAX_BLOCKS_PER_BATCH then batch + 10 else MAX_BLOCKS_PER_BATCH
  }

  function Shrunk(batch: nat): nat {
    if batch / 2 >= 10 then batch / 2 else 10
  }

  /**
   * Where a batch ends: `from + batch_size - 1`, capped. Subtracted in unsigned arithmetic, an empty
   * batch at block zero wraps round to the largest number, so that the cap takes over.
   */
  function BatchEnd(current: nat, batch: nat, end: nat): int {
    if current + batch == 0 then end
    else if current + batch - 1 <= end then current + batch - 1 else end
  }

  /** The configuration and start for which the first batch is everything. */
  predicate WrapsAround(start: nat, batch: nat) { start == 0 && batch == 0 }

  /** The ranges so far are small, unless the first batch wrapped round and took everything. */
  ghost predicate Sized(ranges: Ranges, start: nat, end: nat, current: nat, batch: nat, configured: nat) {
    if WrapsAround(start, configured) then
      if ranges == [] then current == 0 && batch == 0 else current == end + 1 && ranges == [(0, end)]
    else current + batch > 0 && AtMost(ranges, MAX_BLOCKS_PER_BATCH)
  }

  lemma SizedSoFar(ranges: Ranges, start: nat, end: nat, current: nat, batch: nat, configured: nat)
    requires Sized(ranges, start, end, current, batch, configured)
    ensures AtMost(ranges, MAX_BLOCKS_PER_BATCH)
      <==> !(current > end && WrapsAround(start, configured) && end >= MAX_BLOCKS_PER_BATCH)
  {
    assert WrapsAround(start, configured) && ranges != [] ==> ranges[0] == (0, end);
  }

  lemma SizedNext(ranges: Ranges, start: nat, end: nat, current: nat, batch: nat, configured: nat)
    requires Sized(ranges, start, end, current, batch, configured) && current <= end && batch <= MAX_BLOCKS_PER_BATCH
    ensures var last := BatchEnd(current, batch, end);
      last + 1 >= current && Sized(ranges + [(current, last)], start, end, last + 1, Grown(batch), configured)
  {
  }

  /** What indexing has done when it stands at block `current`. */
  ghost predicate Progress(c: Chain, ranges: Ranges, start: nat, end: nat, current: nat, batch: nat, configured: nat,
      events: seq<SyncEvent>) {
    && start <= current <= end + 1 && batch <= MAX_BLOCKS_PER_BATCH
    && Sized(ranges, start, end, current, batch, configured)
    && Consecutive(ranges, start, current)
    && events == EventsBelow(c, start, current)
  }

  lemma ProgressNext(c: Chain, ranges: Ranges, start: nat, end: nat, current: nat, batch: nat, configured: nat,
      events: seq<SyncEvent>, all: seq<SyncEvent>)
    requires Progress(c, ranges, start, end, current, batch, configured, events) && current <= end
    requires all == EventsBelow(c, start, BatchEnd(current, batch, end) + 1)
    ensures var last := BatchEnd(current, batch, end);
      && current <= last + 1
      && Progress(c, ranges + [(current, last)], start, end, last + 1, Grown(batch), configured, all)
  {
    SizedNext(ranges, start, end, current, batch, configured);
    ConsecutiveAppend(ranges, start, current, BatchEnd(current, batch, end));
  }

  lemma ProgressEnds(c: Chain, ranges: Ranges, start: nat, end: nat, current: nat, batch: nat, configured: nat,
      events: seq<SyncEvent>)
    requires Progress(c, ranges, start, end, current, batch, configured, events)
    ensures AtMost(ranges, MAX_BLOCKS_PER_BATCH)
      <==> !(current > end && WrapsAround(start, configured) && end >= MAX_BLOCKS_PER_BATCH)
    ensures if current > end then Consecutive(ranges, start, end + 1) && events == EventsBelow(c, start, end + 1)
            else exists stop: nat :: start <= stop <= end && Consecutive(ranges, start, stop)
  {
    SizedSoFar(ranges, start, end, current, batch, configured);
  }

  // ---- How the batch size adapts ----

  /** One batch tried: the blocks asked for, the size in force, and whether it went through. */
  datatype Try = Try(lo: nat, hi: int, size: nat, ok: bool)

  /** The ranges that went through. */
  function Through(tries: seq<Try>): Ranges {
    if tries == [] then []
    else
      var t := tries[|tries| - 1];
      Through(tries[..|tries| - 1]) + (if t.ok then [(t.lo, t.hi)] else [])
  }

  /** A batch begins behind the last one that went through. */
  function NextStart(tries: seq<Try>, start: nat): int {
    if tries == [] then start
    else
      var t := tries[|tries| - 1];
      if t.ok then t.hi + 1 else t.lo
  }

  /** The size after these tries: ten more after a success, up to 100; half after a failure, down to 10. */
  function NextSize(tries: seq<Try>, configured: nat): nat {
    if tries == [] then configured
    else
      var t := tries[|tries| - 1];
      if t.ok then (if t.size >= 90 then 100 else t.size + 10)
      else if t.size < 20 then 10 else t.size / 2
  }

  /** Each batch is as large as the size in force says, up to the end, or everything when an empty one wraps round. */
  ghost predicate Adapting(tries: seq<Try>, start: nat, end: nat, configured: nat) {
    forall k :: 0 <= k < |tries| ==>
      && tries[k].size == NextSize(tries[..k], configured)
      && tries[k].lo == NextStart(tries[..k], start)
      && tries[k].hi == if tries[k].lo + tries[k].size == 0 || tries[k].lo + tries[k].size > end then end
                        else tries[k].lo + tries[k].size - 1
  }

  /** The last try failed with a minimal batch. */
  predicate GaveUp(tries: seq<Try>) {
    tries != [] && !tries[|tries| - 1].ok && tries[|tries| - 1].size <= 10
  }

  lemma AdaptingNext(tries: seq<Try>, start: nat, end: nat, configured: nat, t: Try)
    requires Adapting(tries, start, end, configured)
    requires t.size == NextSize(tries, configured) && t.lo == NextStart(tries, start) && t.lo <= end
    requires t.hi == BatchEnd(t.lo, t.size, end)
    ensures Adapting(tries + [t], start, end, configured) && (tries + [t])[|tries|] == t
    ensures Through(tries + [t]) == Through(tries) + (if t.ok then [(t.lo, t.hi)] else [])
  {
    var more := tries + [t];
    assert more[..|tries|] == tries;
    forall k | 0 <= k < |tries| ensures more[..k] == tries[..k] && more[k] == tries[k] { }
  }

  /** The tries so far, the size in force, the ranges that went through, and where it stands. */
  ghost predicate Trying(tries: seq<Try>, start: nat, end: nat, configured: nat, size: nat, ranges: Ranges,
      current: nat) {
    && Adapting(tries, start, end, configured) && NextSize(tries, configured) == size
    && NextStart(tries, start) == current && Through(tries) == ranges
  }

  lemma TryingSucceeds(tries: seq<Try>, start: nat, end: nat, configured: nat, size: nat, ranges: Ranges, current: nat)
    requires Trying(tries, start, end, configured, size, ranges, current)
    requires size <= MAX_BLOCKS_PER_BATCH && current <= end && current <= BatchEnd(current, size, end) + 1
    ensures var last := BatchEnd(current, size, end);
      Trying(tries + [Try(current, last, size, true)], start, end, configured, Grown(size), ranges + [(current, last)],
             last + 1)
  {
    AdaptingNext(tries, start, end, configured, Try(current, BatchEnd(current, size, end), size, true));
  }

  lemma TryingFails(tries: seq<Try>, start: nat, end: nat, configured: nat, size: nat, ranges: Ranges, current: nat)
    requires Trying(tries, start, end, configured, size, ranges, current) && current <= end
    ensures var more := tries + [Try(current, BatchEnd(current, size, end), size, false)];
      Trying(more, start, end, configured, Shrunk(size), ranges, current) && (size <= 10 ==> GaveUp(more))
  {
    AdaptingNext(tries, start, end, configured, Try(current, BatchEnd(current, size, end), size, false));
  }

  /** Five failures in a row are enough to give up, whatever the size was before them. */
  lemma FiveFailures(tries: seq<Try>, start: nat, end: nat, configured: nat, k: nat)
    requires Adapting(tries, start, end, configured) && k + 5 <= |tries| && tries[k].size <= 100
    requires forall i :: k <= i < k + 5 ==> !tries[i].ok
    ensures tries[k + 4].size <= 10 && GaveUp(tries[..k + 5])
  {
    forall i | k <= i < k + 4 ensures tries[i + 1].size == if tries[i].size < 20 then 10 else tries[i].size / 2 {
      assert tries[..i + 1][i] == tries[i];
    }
    assert tries[k + 1].size <= 50;
    assert tries[k + 2].size <= 25;
    assert tries[k + 3].size <= 12;
  }

  class EthereumIndexer {
    const provider: MultiRpcProvider
    const batchSize: nat
    const chain: Chain

    constructor (provider: MultiRpcProvider, configured: nat, chain: Chain)
      ensures this.provider == provider && this.chain == chain
      ensures batchSize == if configured <= MAX_BLOCKS_PER_BATCH then configured else MAX_BLOCKS_PER_BATCH
    {
      this.provider, this.chain := provider, chain;
      batchSize := if configured <= MAX_BLOCKS_PER_BATCH then configured else MAX_BLOCKS_PER_BATCH;
    }

    /** The logs of a range from some provider; running out of providers is the only way to fail. */
    method FetchLogs(lo: nat, hi: int) returns (r: Result<seq<Log>>)
      requires provider.Valid() && lo <= hi + 1
      modifies provider
      ensures provider.Valid()
      ensures r.Ok? ==> r.value == LogsIn(chain, lo, hi)
      ensures r.Err? ==> r.error == Rpc && provider.currentIndex == old(provider.currentIndex)
      ensures r.Err? ==> provider.LastRoundFailed()
    {
      var ok, _ := provider.ExecuteWithRetry();
      r := if ok then Ok(LogsIn(chain, lo, hi)) else Err(Rpc);
    }

    /** Appends what the logs parse to, in order. */
    method ParseLogs(logs: seq<Log>, before: seq<SyncEvent>) returns (all: seq<SyncEvent>)
      ensures all == before + Decoded(chain, logs)
    {
      all := before;
      for i := 0 to |logs|
        invariant all == before + Decoded(chain, logs[..i])
      {
        assert logs[..i + 1][..i] == logs[..i];
        match chain.decode(logs[i]) {
          case Some(e) => all := all + [e];
          case None =>
        }
      }
      assert logs[..|logs|] == logs;
    }

    /**
     * Batch after batch, growing on success and shrinking on failure. It ends whatever the providers
     * do: with everything in `start..end` indexed, or with an error once even a minimal batch failed.
     */
    method IndexBlocksAdaptive(start: nat, end: nat)
        returns (r: Result<seq<SyncEvent>>, ranges: Ranges, tries: seq<Try>)
      requires provider.Valid() && start <= end && batchSize <= MAX_BLOCKS_PER_BATCH
      modifies provider
      ensures provider.Valid()
      ensures AtMost(ranges, MAX_BLOCKS_PER_BATCH)
        <==> !(r.Ok? && WrapsAround(start, batchSize) && end >= MAX_BLOCKS_PER_BATCH)
      ensures r.Ok? ==> Consecutive(ranges, start, end + 1) && r.value == EventsBelow(chain, start, end + 1)
      ensures r.Err? ==> r.error == Rpc
      ensures r.Err? ==> exists stop: nat :: start <= stop <= end && Consecutive(ranges, start, stop)
      ensures Adapting(tries, start, end, batchSize) && Through(tries) == ranges
      ensures r.Err? ==> GaveUp(tries) && provider.LastRoundFailed()
    {
      var batch: nat := batchSize;
      var current := start;
      var events: seq<SyncEvent> := [];
      ranges, tries := [], [];
      while current <= end
        invariant provider.Valid()
        invariant Trying(tries, start, end, batchSize, batch, ranges, current)
        invariant Progress(chain, ranges, start, end, current, batch, batchSize, events)
        decreases end + 1 - current, if batch == 0 then MAX_BLOCKS_PER_BATCH + 1 else batch
      {
        var ok, through, next, all := IndexBatch(ranges, start, end, current, batch, events);
        if ok {
          TryingSucceeds(tries, start, end, batchSize, batch, ranges, current);
        } else {
          TryingFails(tries, start, end, batchSize, batch, ranges, current);
        }
        tries := tries + [Try(current, BatchEnd(current, batch, end), batch, ok)];
        if !ok && batch <= 10 {
          ProgressEnds(chain, ranges, start, end, current, batch, batchSize, events);
          return Err(Rpc), ranges, tries;
        }
        batch := if ok then Grown(batch) else Shrunk(batch);
        current, events, ranges := next, all, through;
      }
      ProgressEnds(chain, ranges, start, end, current, batch, batchSize, events);
      r := Ok(events);
    }

    /** One batch: its range and events on success, everything as it was on failure. */
    method IndexBatch(ranges: Ranges, ghost start: nat, end: nat, current: nat, batch: nat, events: seq<SyncEvent>)
        returns (ok: bool, through: Ranges, next: nat, all: seq<SyncEvent>)
      requires provider.Valid() && current <= end
      requires Progress(chain, ranges, start, end, current, batch, batchSize, events)
      modifies provider
      ensures provider.Valid()
      ensures next == if ok then BatchEnd(current, batch, end) + 1 else current
      ensures current <= BatchEnd(current, batch, end) + 1
      ensures through == if ok then ranges + [(current, BatchEnd(current, batch, end))] else ranges
      ensures ok && 0 < batch ==> current < next
      ensures ok || batch > 10 ==>
        Progress(chain, through, start, end, next, if ok then Grown(batch) else Shrunk(batch), batchSize, all)
      ensures !ok ==> provider.LastRoundFailed()
    {
      var last := BatchEnd(current, batch, end);
      assert Progress(chain, ranges, start, end, current, batch, batchSize, events);
      var indexed := IndexRange(start, current, last, events);
      match indexed {
        case Ok(found) =>
          ProgressNext(chain, ranges, start, end, current, batch, batchSize, events, found);
          return true, ranges + [(current, last)], last + 1, found;
        case Err(e) =>
          assert !e.RateLimited?;  // fetching never reports a rate limit, so waiting for one is never needed
          return false, ranges, current, events;
      }
    }

    /** Fetches and parses one range, on top of the events found below it. */
    method IndexRange(ghost start: nat, lo: nat, hi: int, before: seq<SyncEvent>) returns (r: Result<seq<SyncEvent>>)
      requires provider.Valid() && start <= lo <= hi + 1 && before == EventsBelow(chain, start, lo)
      modifies provider
      ensures provider.Valid()
      ensures r.Ok? ==> r.value == EventsBelow(chain, start, hi + 1)
      ensures r.Err? ==> r.error == Rpc && provider.currentIndex == old(provider.currentIndex)
      ensures r.Err? ==> provider.LastRoundFailed()
    {
      var fetched := FetchLogs(lo, hi);
      if fetched.Err? { return Err(fetched.error); }
      var all := ParseLogs(fetched.value, before);
      ScanExtends(chain, start, lo, hi);
      r := Ok(all);
    }

    /** Small ranges in one request, larger ones adaptively. */
    method IndexBlocks(start: nat, end: nat) returns (r: Result<seq<SyncEvent>>, ranges: Ranges)
      requires provider.Valid() && batchSize <= MAX_BLOCKS_PER_BATCH
      modifies provider
      ensures provider.Valid()
      ensures start > end <==> r == Err(InvalidRange)
      ensures r.Ok? ==> Consecutive(ranges, start, end + 1) && r.value == EventsBelow(chain, start, end + 1)
      ensures r.Err? && start <= end ==> r.error == Rpc && provider.LastRoundFailed()
      ensures AtMost(ranges, MAX_BLOCKS_PER_BATCH) <==>
        !(r.Ok? && ((batchSize == MAX_BLOCKS_PER_BATCH && end - start == MAX_BLOCKS_PER_BATCH) ||
                    (WrapsAround(start, batchSize) && end >= MAX_BLOCKS_PER_BATCH)))
    {
      ranges := [];
      if start > end { return Err(InvalidRange), []; }
      if end - start > batchSize {
        var indexed, blocks, _ := IndexBlocksAdaptive(start, end);
        return indexed, blocks;
      }
      r := IndexRange(start, start, end, []);
      if r.Ok? {
        ConsecutiveAppend([], start, start, end);
        ranges := [] + [(start, end)];
      }
    }
  }
}
