/**
 * Scanning the chain for sync events: adaptive block ranges against an unreliable RPC, and the
 * stored block cursor that the scan cycles share.
 */
module RpcSync {
  import opened Wrappers

  /** How one `eth_getLogs` request ends. */
  datatype Response = Success | TooManyLogs | RpcError

  const MIN_RANGE: nat := 100
  const EVENT_LIMIT: nat := 10000

  datatype Log = Log(topics: seq<string>, data: string)

  datatype SyncEvent = SyncEvent(timestamp: nat, addr: string, message: string, block: nat, txHash: string)

  /** The logs of every block, fixed for ever, and the decoder, which filters logs out by returning `None`. */
  datatype Chain = Chain(logs: nat -> seq<Log>, decode: Log -> Option<SyncEvent>)

  function Decoded(c: Chain, logs: seq<Log>): seq<SyncEvent> {
    Kept(c.decode, logs)
  }

  /** The logs of the blocks `lo` to `hi`, as the RPC returns them. */
  function LogsIn(c: Chain, lo: nat, hi: int): seq<Log>
    requires lo <= hi + 1
    decreases hi + 1 - lo
  {
    if lo > hi then [] else c.logs(lo) + LogsIn(c, lo + 1, hi)
  }

  /** The events of the blocks below `end`, from `lo` on, block by block: what a complete scan finds. */
  function EventsBelow(c: Chain, lo: nat, end: nat): seq<SyncEvent> {
    if end <= lo then [] else EventsBelow(c, lo, end - 1) + Decoded(c, c.logs(end - 1))
  }

  lemma {:induction false} EventsSplit(c: Chain, lo: nat, mid: nat, end: nat)
    requires lo <= mid <= end
    ensures EventsBelow(c, lo, end) == EventsBelow(c, lo, mid) + EventsBelow(c, mid, end)
  {
    if end > mid { EventsSplit(c, lo, mid, end - 1); }
  }

  lemma OneBlock(c: Chain, lo: nat)
    ensures EventsBelow(c, lo, lo + 1) == Decoded(c, c.logs(lo))
  {
    assert EventsBelow(c, lo, lo) == [];
  }

  lemma {:induction false} RangeIsBlocks(c: Chain, lo: nat, hi: int)
    requires lo <= hi + 1
    ensures Decoded(c, LogsIn(c, lo, hi)) == EventsBelow(c, lo, hi + 1)
    decreases hi + 1 - lo
  {
    if lo <= hi {
      RangeIsBlocks(c, lo + 1, hi);
      KeptAppend(c.decode, c.logs(lo), LogsIn(c, lo + 1, hi));
      EventsSplit(c, lo, lo + 1, hi + 1);
      OneBlock(c, lo);
    }
  }

  lemma ScanExtends(c: Chain, start: nat, current: nat, end: int)
    requires start <= current <= end + 1
    ensures EventsBelow(c, start, current) + Decoded(c, LogsIn(c, current, end)) == EventsBelow(c, start, end + 1)
  {
    RangeIsBlocks(c, current, end);
    EventsSplit(c, start, current, end + 1);
  }

  // ---- One event per decodable log ----

  /** Where a log stands on the chain. */
  datatype Place = Place(block: nat, index: nat)

  predicate Precedes(p: Place, q: Place) {
    p.block < q.block || (p.block == q.block && p.index < q.index)
  }

  predicate OnChain(c: Chain, p: Place) { p.index < |c.logs(p.block)| }

  /**
   * The events are those of the logs of blocks `lo` up to but not including `end`: the k-th is what the
   * log at `places[k]` decodes to, in chain order, and every log that decodes has its place.
   */
  ghost predicate EventsAt(c: Chain, lo: nat, end: nat, events: seq<SyncEvent>, places: seq<Place>) {
    && |places| == |events|
    && (forall k :: 0 <= k < |places| ==>
          lo <= places[k].block < end && OnChain(c, places[k])
          && c.decode(c.logs(places[k].block)[places[k].index]) == Some(events[k]))
    && (forall j, k :: 0 <= j < k < |places| ==> Precedes(places[j], places[k]))
    && (forall p: Place {:trigger p in places} ::
          lo <= p.block < end && OnChain(c, p) && c.decode(c.logs(p.block)[p.index]).Some? ==> p in places)
  }

  /** One event for each log of the blocks that decodes, in chain order, and no other. */
  ghost predicate EachOnce(c: Chain, lo: nat, end: nat, events: seq<SyncEvent>) {
    exists places: seq<Place> :: EventsAt(c, lo, end, events, places)
  }

  function InBlock(block: nat, at: seq<nat>): seq<Place> {
    seq(|at|, k requires 0 <= k < |at| => Place(block, at[k]))
  }

  lemma {:induction false} EventsPlaced(c: Chain, lo: nat, end: nat) returns (places: seq<Place>)
    ensures EventsAt(c, lo, end, EventsBelow(c, lo, end), places)
  {
    if end <= lo {
      places := [];
    } else {
      var before := EventsPlaced(c, lo, end - 1);
      var at := KeptPicksOut(c.decode, c.logs(end - 1));
      places := before + InBlock(end - 1, at);
      PlacedNext(c, lo, end, before, at);
    }
  }

  lemma PlacedNext(c: Chain, lo: nat, end: nat, before: seq<Place>, at: seq<nat>)
    requires lo < end && EventsAt(c, lo, end - 1, EventsBelow(c, lo, end - 1), before)
    requires PicksOut(c.decode, c.logs(end - 1), at, Decoded(c, c.logs(end - 1)))
    ensures EventsAt(c, lo, end, EventsBelow(c, lo, end), before + InBlock(end - 1, at))
  {
    BlockPlaces(c, end - 1, at);
    JoinPlaces(c, lo, end, EventsBelow(c, lo, end - 1), before, Decoded(c, c.logs(end - 1)), InBlock(end - 1, at));
  }

  lemma BlockPlaces(c: Chain, block: nat, at: seq<nat>)
    requires PicksOut(c.decode, c.logs(block), at, Decoded(c, c.logs(block)))
    ensures EventsAt(c, block, block + 1, Decoded(c, c.logs(block)), InBlock(block, at))
  {
    var here := InBlock(block, at);
    forall p: Place | block <= p.block < block + 1 && OnChain(c, p) && c.decode(c.logs(p.block)[p.index]).Some?
      ensures p in here
    {
      var k :| 0 <= k < |at| && at[k] == p.index;
      assert here[k] == p;
    }
  }

  lemma JoinPlaces(c: Chain, lo: nat, end: nat, before: seq<SyncEvent>, ps: seq<Place>, here: seq<SyncEvent>,
      qs: seq<Place>)
    requires lo < end && EventsAt(c, lo, end - 1, before, ps) && EventsAt(c, end - 1, end, here, qs)
    ensures EventsAt(c, lo, end, before + here, ps + qs)
  {
    var places, events := ps + qs, before + here;
    forall k | 0 <= k < |places|
      ensures lo <= places[k].block < end && OnChain(c, places[k])
      ensures c.decode(c.logs(places[k].block)[places[k].index]) == Some(events[k])
    {
      assert places[k] == if k < |ps| then ps[k] else qs[k - |ps|];
    }
    forall j, k | 0 <= j < k < |places| ensures Precedes(places[j], places[k]) {
      assert places[j] == if j < |ps| then ps[j] else qs[j - |ps|];
      assert places[k] == if k < |ps| then ps[k] else qs[k - |ps|];
    }
    forall p: Place | lo <= p.block < end && OnChain(c, p) && c.decode(c.logs(p.block)[p.index]).Some?
      ensures p in places
    {
      assert p in ps || p in qs;
    }
  }

  lemma EventsEachOnce(c: Chain, lo: nat, end: nat)
    ensures EachOnce(c, lo, end, EventsBelow(c, lo, end))
  {
    var places := EventsPlaced(c, lo, end);
  }

  function Successes(responses: seq<Response>): nat {
    if responses == [] then 0
    else Successes(responses[..|responses| - 1]) + (if responses[|responses| - 1].Success? then 1 else 0)
  }

  lemma SuccessesNext(responses: seq<Response>, k: nat)
    requires k < |responses|
    ensures Successes(responses[..k + 1]) == Successes(responses[..k]) + (if responses[k].Success? then 1 else 0)
  {
    assert responses[..k + 1][..k] == responses[..k];
  }

  /**
   * What a returning fetch promises: the events of `[start..last]`, up to the head or past the event limit.
   */
  ghost predicate FetchResult(c: Chain, start: nat, latest: nat, events: seq<SyncEvent>, last: nat) {
    if start > latest then events == [] && last == latest
    else
      && start <= last <= latest
      && events == EventsBelow(c, start, last + 1)
      && (last < latest ==> |events| > EVENT_LIMIT)
  }

  class RpcSyncClient {
    /** Configured range, clamped to 1000..200000. */
    const maxBlockRange: nat

    constructor (batchSize: nat)
      ensures maxBlockRange == if batchSize < 1000 then 1000 else if batchSize > 200000 then 200000 else batchSize
    {
      maxBlockRange := if batchSize < 1000 then 1000 else if batchSize > 200000 then 200000 else batchSize;
    }

    /** Appends the events that decode; filtered and undecodable logs are skipped. */
    method DecodeInto(c: Chain, logs: seq<Log>, events: seq<SyncEvent>) returns (all: seq<SyncEvent>)
      ensures all == events + Decoded(c, logs)
    {
      all := events;
      for i := 0 to |logs|
        invariant all == events + Decoded(c, logs[..i])
      {
        assert logs[..i + 1][..i] == logs[..i];
        match c.decode(logs[i]) {
          case Some(e) => all := all + [e];
          case None =>
        }
      }
      assert logs[..|logs|] == logs;
    }

    /** What one response changes: events and position on success, the range in any case. */
    method TakeResponse(c: Chain, ghost start: nat, ghost latest: nat, r: Request, response: Response,
        events: seq<SyncEvent>, last: nat) returns (allEvents: seq<SyncEvent>, lastBlock: nat, current: nat, range: nat)
      requires Scanned(c, start, latest, r.lo, last, events) && r.lo <= latest
      requires MIN_RANGE <= r.range <= maxBlockRange && r.hi == RangeEnd(r.lo, r.range, latest)
      ensures Scanned(c, start, latest, current, lastBlock, allEvents)
      ensures (current, range) == After(r, response.Success?, maxBlockRange)
      ensures !response.Success? ==> allEvents == events && lastBlock == last
      ensures response.Success? ==> lastBlock == r.hi
    {
      allEvents, lastBlock, current, range := events, last, r.lo, r.range;
      match response {
        case Success =>
          allEvents := DecodeInto(c, LogsIn(c, r.lo, r.hi), allEvents);
          ScanExtends(c, start, r.lo, r.hi);
          lastBlock := r.hi;
          current := r.hi + 1;
          if range < maxBlockRange {
            range := if range * 2 <= maxBlockRange then range * 2 else maxBlockRange;
          }
        case TooManyLogs =>
          range := if range / 2 >= MIN_RANGE then range / 2 else MIN_RANGE;
          if range < MIN_RANGE {
            assert false;  // no chunk is ever skipped
          }
        case RpcError =>
          range := if range / 2 >= MIN_RANGE then range / 2 else MIN_RANGE;
      }
    }

    /**
     * The events from `start` to the head, or to where they are too many. `responses` is how the requests
     * end, in turn; when it runs out the call is still waiting and there is no result. `asked` is what
     * was asked for.
     */
    method FetchSyncEvents(c: Chain, start: nat, latest: nat, responses: seq<Response>)
        returns (result: Option<(seq<SyncEvent>, nat)>, asked: seq<Request>)
      requires maxBlockRange >= 1000
      ensures result.Some? ==> FetchResult(c, start, latest, result.value.0, result.value.1)
      ensures result.Some? ==> EachOnce(c, start, result.value.1 + 1, result.value.0)
      ensures result.None? ==> start <= latest && MIN_RANGE * Successes(responses) <= latest - start
      ensures Adaptive(asked, responses, start, latest, maxBlockRange)
      ensures result.None? ==> |asked| == |responses|
    {
      if start > latest {
        EventsEachOnce(c, start, latest + 1);
        return Some(([], latest)), [];
      }
      result, asked := AskInTurn(c, start, latest, responses);
      if result.Some? {
        EventsEachOnce(c, start, result.value.1 + 1);
      }
    }

    /** Asks for one range after another. */
    method AskInTurn(c: Chain, start: nat, latest: nat, responses: seq<Response>)
        returns (result: Option<(seq<SyncEvent>, nat)>, asked: seq<Request>)
      requires maxBlockRange >= 1000 && start <= latest
      ensures result.Some? ==> FetchResult(c, start, latest, result.value.0, result.value.1)
      ensures result.None? ==> MIN_RANGE * Successes(responses) <= latest - start && |asked| == |responses|
      ensures Adaptive(asked, responses, start, latest, maxBlockRange)
    {
      var blockRange: nat, currentStart: nat, lastBlock: nat := maxBlockRange, start, start;
      var allEvents: seq<SyncEvent> := [];
      asked := [];
      while currentStart <= latest
        invariant |asked| <= |responses| && MIN_RANGE <= blockRange <= maxBlockRange
        invariant Scanned(c, start, latest, currentStart, lastBlock, allEvents)
        invariant Asking(asked, responses, start, latest, maxBlockRange, currentStart, blockRange)
        invariant |allEvents| <= EVENT_LIMIT
        decreases |responses| - |asked|
      {
        if |asked| == |responses| {
          Waiting(asked, responses, start, latest, maxBlockRange, currentStart, blockRange);
          return None, asked;
        }
        var r := Request(currentStart, RangeEnd(currentStart, blockRange, latest), blockRange);
        AskingNext(asked, responses, start, latest, maxBlockRange, r);
        allEvents, lastBlock, currentStart, blockRange :=
          TakeResponse(c, start, latest, r, responses[|asked|], allEvents, lastBlock);
        asked := asked + [r];
        if |allEvents| > EVENT_LIMIT {
          break;
        }
      }
      ScanDone(c, start, latest, currentStart, lastBlock, allEvents);
      result := Some((allEvents, lastBlock));
    }
  }

  /** What a scan has when it stands at block `current`. */
  ghost predicate Scanned(c: Chain, start: nat, latest: nat, current: nat, last: nat, events: seq<SyncEvent>) {
    && start <= current <= latest + 1 && events == EventsBelow(c, start, current)
    && (current == start || last + 1 == current)
  }

  lemma ScanDone(c: Chain, start: nat, latest: nat, current: nat, last: nat, events: seq<SyncEvent>)
    requires Scanned(c, start, latest, current, last, events) && start <= latest
    requires current > latest || |events| > EVENT_LIMIT
    ensures FetchResult(c, start, latest, events, last)
  {
  }

  /** What it has asked for, what it asks next, and how far it got: a hundred blocks for each success at least. */
  ghost predicate Asking(asked: seq<Request>, responses: seq<Response>, start: nat, latest: nat, maxRange: nat,
      current: nat, range: nat) {
    && Adaptive(asked, responses, start, latest, maxRange)
    && NextRequest(asked, responses, start, maxRange) == (current, range)
    && (current <= latest ==> MIN_RANGE * Successes(responses[..|asked|]) <= current - start)
  }

  lemma Waiting(asked: seq<Request>, responses: seq<Response>, start: nat, latest: nat, maxRange: nat,
      current: nat, range: nat)
    requires Asking(asked, responses, start, latest, maxRange, current, range)
    requires |asked| == |responses| && start <= current <= latest
    ensures MIN_RANGE * Successes(responses) <= latest - start
  {
    assert responses[..|asked|] == responses;
  }

  lemma AskingNext(asked: seq<Request>, responses: seq<Response>, start: nat, latest: nat, maxRange: nat, r: Request)
    requires Asking(asked, responses, start, latest, maxRange, r.lo, r.range) && |asked| < |responses|
    requires start <= r.lo <= latest && MIN_RANGE <= r.range <= maxRange && r.hi == RangeEnd(r.lo, r.range, latest)
    ensures var (current, range) := After(r, responses[|asked|].Success?, maxRange);
      Asking(asked + [r], responses, start, latest, maxRange, current, range)
  {
    AdaptiveNext(asked, responses, start, latest, maxRange, r);
    SuccessesNext(responses, |asked|);
  }

  // ---- How the ranges adapt ----

  /** One request: the blocks asked for, and the range in force. */
  datatype Request = Request(lo: nat, hi: nat, range: nat)

  /** A range ends at the head at the latest. */
  function RangeEnd(lo: nat, range: nat, latest: nat): nat
    requires lo <= latest && range > 0
  {
    if latest - lo < range then latest else lo + range - 1
  }

  /** After a request: doubled and past it on success, halved and where it was on failure. */
  function After(r: Request, ok: bool, maxRange: nat): (nat, nat) {
    if ok then (r.hi + 1, if 2 * r.range <= maxRange then 2 * r.range else maxRange)
    else (r.lo, if r.range >= 200 then r.range / 2 else 100)
  }

  /** What is asked for next: from where, and with which range. */
  function NextRequest(asked: seq<Request>, responses: seq<Response>, start: nat, maxRange: nat): (nat, nat)
    requires |asked| <= |responses|
  {
    if asked == [] then (start, maxRange)
    else After(asked[|asked| - 1], responses[|asked| - 1].Success?, maxRange)
  }

  /** Each request goes on where the last success ended, with a range doubled by it or halved by a failure. */
  ghost predicate Adaptive(asked: seq<Request>, responses: seq<Response>, start: nat, latest: nat, maxRange: nat) {
    && |asked| <= |responses|
    && forall k :: 0 <= k < |asked| ==>
         && (asked[k].lo, asked[k].range) == NextRequest(asked[..k], responses, start, maxRange)
         && asked[k].lo <= latest && asked[k].range > 0
         && asked[k].hi == RangeEnd(asked[k].lo, asked[k].range, latest)
  }

  lemma AdaptiveNext(asked: seq<Request>, responses: seq<Response>, start: nat, latest: nat, maxRange: nat, r: Request)
    requires Adaptive(asked, responses, start, latest, maxRange) && |asked| < |responses|
    requires (r.lo, r.range) == NextRequest(asked, responses, start, maxRange)
    requires r.lo <= latest && r.range > 0 && r.hi == RangeEnd(r.lo, r.range, latest)
    ensures Adaptive(asked + [r], responses, start, latest, maxRange)
    ensures (asked + [r])[|asked|] == r
  {
    var more := asked + [r];
    forall k | 0 <= k < |more|
      ensures (more[k].lo, more[k].range) == NextRequest(more[..k], responses, start, maxRange)
    {
      assert more[..k] == asked[..k];
      assert k == |asked| ==> asked[..k] == asked;
    }
  }

  function Half(range: nat): nat { if range / 2 >= 100 then range / 2 else 100 }

  function Halved(range: nat, failures: nat): nat {
    if failures == 0 then range else Half(Halved(range, failures - 1))
  }

  /** Failures in a row leave the start alone and halve the range; eleven reach the smallest from any range. */
  lemma FailuresHalve(asked: seq<Request>, responses: seq<Response>, start: nat, latest: nat, maxRange: nat, k: nat,
      m: nat)
    requires Adaptive(asked, responses, start, latest, maxRange) && k <= m < |asked|
    requires forall i :: k <= i < m ==> !responses[i].Success?
    ensures asked[m].lo == asked[k].lo && asked[m].range == Halved(asked[k].range, m - k)
  {
    forall i | k <= i < m ensures HalvedAt(asked, i) {
      FailureHalves(asked, responses, start, latest, maxRange, i);
    }
    HalvedInARow(asked, k, m);
  }

  predicate HalvedAt(asked: seq<Request>, i: nat)
    requires i + 1 < |asked|
  {
    asked[i + 1].lo == asked[i].lo && asked[i + 1].range == Half(asked[i].range)
  }

  lemma {:induction false} HalvedInARow(asked: seq<Request>, k: nat, m: nat)
    requires k <= m < |asked| && forall i :: k <= i < m ==> HalvedAt(asked, i)
    ensures asked[m].lo == asked[k].lo && asked[m].range == Halved(asked[k].range, m - k)
  {
    if k < m {
      HalvedInARow(asked, k, m - 1);
      assert HalvedAt(asked, m - 1);
    }
  }

  lemma FailureHalves(asked: seq<Request>, responses: seq<Response>, start: nat, latest: nat, maxRange: nat, k: nat)
    requires Adaptive(asked, responses, start, latest, maxRange) && k + 1 < |asked| && !responses[k].Success?
    ensures asked[k + 1].lo == asked[k].lo
    ensures asked[k + 1].range == Half(asked[k].range)
  {
    assert asked[..k + 1][k] == asked[k];
  }

  lemma ElevenHalvings(range: nat)
    requires range <= 200000
    ensures Halved(range, 11) == 100
  {
    assert Halved(range, 1) <= 100000;
    assert Halved(range, 2) <= 50000;
    assert Halved(range, 3) <= 25000;
    assert Halved(range, 4) <= 12500;
    assert Halved(range, 5) <= 6250;
    assert Halved(range, 6) <= 3125;
    assert Halved(range, 7) <= 1562;
    assert Halved(range, 8) <= 781;
    assert Halved(range, 9) <= 390;
    assert Halved(range, 10) <= 195;
  }

  // ---- Cycles over the stored cursor ----

  /** Everything outside that one cycle meets. */
  datatype Outside = Outside(head: Option<nat>, responses: seq<Response>, handOffOk: bool)

  class ChainSync {
    /** `chain_sync_state.last_block`, absent before the first write. */
    var lastBlock: Option<nat>
    const chain: Chain

    constructor (chain: Chain)
      ensures this.chain == chain && lastBlock == None
    {
      this.chain, lastBlock := chain, None;
    }

    function Cursor(): nat reads this { if lastBlock.Some? then lastBlock.value else 0 }

    /** One cycle: `ok` when it completed, `handed` the events it passed on. */
    method Cycle(client: RpcSyncClient, o: Outside, hasCid: SyncEvent -> bool)
        returns (ok: bool, handed: seq<SyncEvent>)
      requires client.maxBlockRange >= 1000
      modifies this
      ensures CycleOutcome(chain, old(Cursor()), Cursor(), o.head, ok, handed)
      ensures EachOnce(chain, old(Cursor()) + 1, Cursor() + 1, handed)
      ensures ok && (exists i :: 0 <= i < |handed| && hasCid(handed[i])) ==> o.handOffOk
      ensures !ok ==> o.head.None? || !o.handOffOk || MIN_RANGE * Successes(o.responses) < o.head.value - Cursor()
    {
      var startBlock := Cursor() + 1;
      EventsEachOnce(chain, startBlock, startBlock);
      assert EventsBelow(chain, startBlock, startBlock) == [];
      if o.head.None? {
        return false, [];
      }
      var fetched, _ := client.FetchSyncEvents(chain, startBlock, o.head.value, o.responses);
      if fetched.None? {
        return false, [];
      }
      var (events, endBlock) := fetched.value;
      if events == [] {
        return true, [];
      }
      if forall i :: 0 <= i < |events| ==> !hasCid(events[i]) {
        lastBlock := Some(endBlock);
        return true, events;
      }
      if !o.handOffOk {
        return false, [];
      }
      lastBlock := Some(endBlock);
      return true, events;
    }
  }

  /**
   * A completed cycle hands on everything between the old and the new cursor. It leaves the cursor only
   * if there was nothing up to the head, and moves it to the head or past the event limit otherwise. A
   * failed cycle hands on nothing and leaves the cursor.
   */
  ghost predicate CycleOutcome(c: Chain, before: nat, after: nat, head: Option<nat>, ok: bool, handed: seq<SyncEvent>) {
    if ok then
      && head.Some? && before <= after
      && handed == EventsBelow(c, before + 1, after + 1)
      && (if after == before then EventsBelow(c, before + 1, head.value + 1) == []
          else handed != [] && after <= head.value && (after < head.value ==> |handed| > EVENT_LIMIT))
    else
      after == before && handed == []
  }

  datatype CycleRecord = CycleRecord(before: nat, after: nat, head: Option<nat>, ok: bool, handed: seq<SyncEvent>)

  ghost predicate Trace(c: Chain, t: seq<CycleRecord>) {
    && (forall i :: 0 <= i < |t| ==> CycleOutcome(c, t[i].before, t[i].after, t[i].head, t[i].ok, t[i].handed))
    && (forall i :: 0 <= i < |t| - 1 ==> t[i].after == t[i + 1].before)
  }

  function HandedOn(t: seq<CycleRecord>): seq<SyncEvent> {
    if t == [] then [] else HandedOn(t[..|t| - 1]) + t[|t| - 1].handed
  }

  /** Each cycle adds the events between its cursors, and the next one takes up its cursor. */
  ghost predicate Linked(c: Chain, t: seq<CycleRecord>) {
    && (forall i :: 0 <= i < |t| ==>
          t[i].before <= t[i].after && t[i].handed == EventsBelow(c, t[i].before + 1, t[i].after + 1))
    && (forall i :: 0 <= i < |t| - 1 ==> t[i].after == t[i + 1].before)
  }

  lemma TraceLinked(c: Chain, t: seq<CycleRecord>)
    requires Trace(c, t)
    ensures Linked(c, t)
  {
    forall i | 0 <= i < |t|
      ensures t[i].before <= t[i].after && t[i].handed == EventsBelow(c, t[i].before + 1, t[i].after + 1)
    {
      assert CycleOutcome(c, t[i].before, t[i].after, t[i].head, t[i].ok, t[i].handed);
    }
  }

  lemma {:induction false} HandedOnIsScan(c: Chain, t: seq<CycleRecord>)
    requires Linked(c, t) && t != []
    ensures t[0].before <= t[|t| - 1].after
    ensures HandedOn(t) == EventsBelow(c, t[0].before + 1, t[|t| - 1].after + 1)
  {
    var init, last := t[..|t| - 1], t[|t| - 1];
    LastCycle(c, t);
    if |t| > 1 {
      HandedOnIsScan(c, init);
      assert init[0] == t[0] && init[|init| - 1].after == last.before;
      JoinScans(c, t[0].before + 1, last.before + 1, last.after + 1, HandedOn(init), last.handed);
    }
  }

  lemma JoinScans(c: Chain, lo: nat, mid: nat, end: nat, a: seq<SyncEvent>, b: seq<SyncEvent>)
    requires lo <= mid <= end && a == EventsBelow(c, lo, mid) && b == EventsBelow(c, mid, end)
    ensures a + b == EventsBelow(c, lo, end)
  {
    EventsSplit(c, lo, mid, end);
  }

  /**
   * Over any sequence of cycles, failed ones included, each event below the final cursor is handed on
   * exactly once, in chain order: one for each log that decodes.
   */
  lemma EachEventOnce(c: Chain, t: seq<CycleRecord>)
    requires Trace(c, t) && t != []
    ensures t[0].before <= t[|t| - 1].after
    ensures EachOnce(c, t[0].before + 1, t[|t| - 1].after + 1, HandedOn(t))
  {
    TraceLinked(c, t);
    HandedOnIsScan(c, t);
    EventsEachOnce(c, t[0].before + 1, t[|t| - 1].after + 1);
  }

  /** The last cycle of a trace adds the events between its cursors, and the rest is a trace up to it. */
  lemma LastCycle(c: Chain, t: seq<CycleRecord>)
    requires Linked(c, t) && t != []
    ensures var init, last := t[..|t| - 1], t[|t| - 1];
      && HandedOn(t) == HandedOn(init) + last.handed
      && last.handed == EventsBelow(c, last.before + 1, last.after + 1)
      && last.before <= last.after
      && Linked(c, init)
      && (if init == [] then HandedOn(init) == [] else init[0] == t[0] && init[|init| - 1].after == last.before)
  {
    var init, last := t[..|t| - 1], t[|t| - 1];
    forall i | 0 <= i < |init| - 1 ensures init[i].after == init[i + 1].before {
      assert t[i].after == t[i + 1].before;
    }
  }
}
