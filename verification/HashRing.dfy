/**
 * The consistent hash ring. Each node sits at several positions of a 64-bit circle, and a content
 * hash belongs to the first few distinct nodes met clockwise from it.
 */
module HashRing {

  const CIRCLE: nat := 0x1_0000_0000_0000_0000

  type Position = p: nat | p < CIRCLE

  datatype Peer = Peer(nodeId: string, httpAddress: string)

  /** Places virtual node `i` of a node on the circle. */
  type VnodeHash = (string, nat) -> Position

  /** Steps clockwise from `p` to `q`. */
  function Clockwise(p: Position, q: Position): nat {
    if q >= p then q - p else q + CIRCLE - p
  }

  // ---- Which nodes should be responsible: the nearest ones ----

  /** Clockwise distance from `p` to the nearest of the first `v` virtual nodes of `id`. */
  function Distance(hash: VnodeHash, v: nat, id: string, p: Position): (d: nat)
    requires v > 0
    ensures forall i :: 0 <= i < v ==> d <= Clockwise(p, hash(id, i))
    ensures exists i :: 0 <= i < v && d == Clockwise(p, hash(id, i))
  {
    var last := Clockwise(p, hash(id, v - 1));
    if v == 1 then last
    else
      var d := Distance(hash, v - 1, id, p);
      if d <= last then d else last
  }

  /** `r` lists nodes of `ids` by increasing distance and leaves out none that is nearer than a listed one. */
  ghost predicate NearestFirst(r: seq<string>, ids: set<string>, distance: string -> nat) {
    && (forall i :: 0 <= i < |r| ==> r[i] in ids)
    && (forall i, j :: 0 <= i < j < |r| ==> distance(r[i]) < distance(r[j]))
    && (forall i, n :: 0 <= i < |r| && n in ids && n !in r ==> distance(r[i]) < distance(n))
  }

  /** The `count` nearest nodes, or all of them when there are fewer. */
  ghost predicate Nearest(r: seq<string>, ids: set<string>, distance: string -> nat, count: nat) {
    NearestFirst(r, ids, distance) && |r| == if |ids| <= count then |ids| else count
  }

  /** Virtual nodes of different nodes never share a position. */
  ghost predicate CollisionFree(hash: VnodeHash, v: nat, ids: set<string>) {
    forall n, m, i, j :: n in ids && m in ids && 0 <= i < v && 0 <= j < v && hash(n, i) == hash(m, j) ==> n == m
  }

  // ---- The ring ----

  function Positions(hash: VnodeHash, v: nat, id: string): set<Position> {
    set i | 0 <= i < v :: hash(id, i)
  }

  /** The ring holds exactly the positions of the nodes in `ids`, each mapped to its node. */
  ghost predicate RingOf(ring: map<Position, string>, ids: set<string>, hash: VnodeHash, v: nat) {
    && (forall q :: q in ring ==> ring[q] in ids && q in Positions(hash, v, ring[q]))
    && (forall n, i :: n in ids && 0 <= i < v ==> hash(n, i) in ring && ring[hash(n, i)] == n)
  }

  function WithNode(ring: map<Position, string>, hash: VnodeHash, v: nat, id: string): map<Position, string> {
    ring + map q | q in Positions(hash, v, id) :: id
  }

  function WithoutNode(ring: map<Position, string>, hash: VnodeHash, v: nat, id: string): map<Position, string> {
    ring - Positions(hash, v, id)
  }

  /** The keys in ascending order, as the tree map iterates over them. */
  ghost predicate IsAscending(s: seq<Position>, keys: set<Position>) {
    && (forall q :: q in s <==> q in keys)
    && (forall i, j :: 0 <= i < j < |s| ==> s[i] < s[j])
  }

  ghost predicate IsLeast(q: Position, keys: set<Position>) {
    q in keys && forall x :: x in keys ==> q <= x
  }

  lemma {:induction false} HasLeast(keys: set<Position>) returns (least: Position)
    requires keys != {}
    ensures IsLeast(least, keys)
  {
    least :| least in keys;
    assert forall x :: x in keys ==> x == least || x in keys - {least};
    if keys - {least} != {} {
      var other := HasLeast(keys - {least});
      if other < least { least := other; }
    }
  }

  function Ascending(keys: set<Position>): (s: seq<Position>)
    ensures IsAscending(s, keys)
  {
    if keys == {} then []
    else
      assert exists q :: IsLeast(q, keys) by { var q := HasLeast(keys); }
      var q :| q in keys && forall x :: x in keys ==> q <= x;
      [q] + Ascending(keys - {q})
  }

  // ---- The ring as an object ----

  /** The state of a ring: positions, nodes, and how virtual nodes are placed. */
  datatype Circle = Circle(ring: map<Position, string>, nodes: map<string, Peer>, hash: VnodeHash, vnodes: nat)

  function Added(c: Circle, peer: Peer): Circle {
    c.(nodes := c.nodes[peer.nodeId := peer], ring := WithNode(c.ring, c.hash, c.vnodes, peer.nodeId))
  }

  function Removed(c: Circle, id: string): Circle {
    c.(nodes := c.nodes - {id}, ring := WithoutNode(c.ring, c.hash, c.vnodes, id))
  }

  /** The ring matches the node table, and the node table is keyed by node id. */
  ghost predicate ValidRing(c: Circle) {
    && RingOf(c.ring, c.nodes.Keys, c.hash, c.vnodes)
    && forall id :: id in c.nodes ==> c.nodes[id].nodeId == id
  }

  lemma AddKeepsValid(c: Circle, peer: Peer)
    requires ValidRing(c) && CollisionFree(c.hash, c.vnodes, c.nodes.Keys + {peer.nodeId})
    ensures ValidRing(Added(c, peer))
  {
    assert Added(c, peer).nodes.Keys == c.nodes.Keys + {peer.nodeId};
  }

  lemma RemoveKeepsValid(c: Circle, id: string)
    requires ValidRing(c) && CollisionFree(c.hash, c.vnodes, c.nodes.Keys + {id})
    ensures ValidRing(Removed(c, id))
  {
    assert Removed(c, id).nodes.Keys == c.nodes.Keys - {id};
  }

  lemma OneMorePosition(hash: VnodeHash, i: nat, id: string)
    ensures Positions(hash, i + 1, id) == Positions(hash, i, id) + {hash(id, i)}
  {
  }

  lemma OneMoreVnode(ring: map<Position, string>, hash: VnodeHash, i: nat, id: string)
    ensures WithNode(ring, hash, i, id)[hash(id, i) := id] == WithNode(ring, hash, i + 1, id)
  {
    OneMorePosition(hash, i, id);
    AllTo(ring, Positions(hash, i, id), hash(id, i), id);
  }

  lemma AllTo(ring: map<Position, string>, ps: set<Position>, q: Position, id: string)
    ensures (ring + map p | p in ps :: id)[q := id] == ring + map p | p in ps + {q} :: id
  {
  }

  lemma OneVnodeLess(ring: map<Position, string>, hash: VnodeHash, i: nat, id: string)
    ensures WithoutNode(ring, hash, i, id) - {hash(id, i)} == WithoutNode(ring, hash, i + 1, id)
  {
    OneMorePosition(hash, i, id);
    assert ring - Positions(hash, i, id) - {hash(id, i)} == ring - (Positions(hash, i, id) + {hash(id, i)});
  }

  class ContentRing {
    var ring: map<Position, string>
    var nodes: map<string, Peer>
    const vnodesPerNode: nat
    const replicationFactor: nat
    const hash: VnodeHash

    function Now(): Circle reads this { Circle(ring, nodes, hash, vnodesPerNode) }

    constructor (replicationFactor: nat, vnodesPerNode: nat, hash: VnodeHash)
      ensures Now() == Circle(map[], map[], hash, vnodesPerNode)
      ensures this.replicationFactor == replicationFactor
    {
      ring, nodes := map[], map[];
      this.replicationFactor, this.vnodesPerNode, this.hash := replicationFactor, vnodesPerNode, hash;
    }

    method AddNode(id: string, address: string)
      modifies this
      ensures Now() == Added(old(Now()), Peer(id, address))
    {
      nodes := nodes[id := Peer(id, address)];
      assert Positions(hash, 0, id) == {};
      for i := 0 to vnodesPerNode
        invariant nodes == old(nodes)[id := Peer(id, address)]
        invariant ring == WithNode(old(ring), hash, i, id)
      {
        ring := ring[hash(id, i) := id];
        OneMoreVnode(old(ring), hash, i, id);
      }
    }

    method RemoveNode(id: string)
      modifies this
      ensures Now() == Removed(old(Now()), id)
    {
      nodes := nodes - {id};
      assert Positions(hash, 0, id) == {};
      for i := 0 to vnodesPerNode
        invariant nodes == old(nodes) - {id}
        invariant ring == WithoutNode(old(ring), hash, i, id)
      {
        ring := ring - {hash(id, i)};
        OneVnodeLess(old(ring), hash, i, id);
      }
    }

    /** Clockwise from `position` to the top of the ring, then on from its bottom. */
    method GetResponsibleNodes(position: Position) returns (result: seq<Peer>)
      ensures result == Found(Now(), position, replicationFactor)
    {
      result := [];
      if |ring| == 0 {
        return;
      }
      var seen: set<string> := {};
      var ahead, behind := Ahead(Now(), position), Behind(Now(), position);
      for i := 0 to |ahead|
        invariant Scan(nodes, replicationFactor, Owners(ring, ahead), [], {})
               == Scan(nodes, replicationFactor, Owners(ring, ahead[i..]), result, seen)
      {
        var id := ring[ahead[i]];
        ScanNext(nodes, ring, replicationFactor, ahead, i, result, seen);
        if id !in seen {
          seen := seen + {id};
          if id in nodes { result := result + [nodes[id]]; }
        }
        if |result| >= replicationFactor { return; }
      }
      ghost var result0, seen0 := result, seen;
      for i := 0 to |behind|
        invariant Scan(nodes, replicationFactor, Owners(ring, ahead), [], {}) == (result0, seen0, false)
        invariant Scan(nodes, replicationFactor, Owners(ring, behind), result0, seen0)
               == Scan(nodes, replicationFactor, Owners(ring, behind[i..]), result, seen)
      {
        var id := ring[behind[i]];
        ScanNext(nodes, ring, replicationFactor, behind, i, result, seen);
        if id !in seen {
          seen := seen + {id};
          if id in nodes { result := result + [nodes[id]]; }
        }
        if |result| >= replicationFactor { return; }
      }
    }
  }

  // ---- What the walk computes ----

  function Ahead(c: Circle, p: Position): (s: seq<Position>)
    ensures forall i :: 0 <= i < |s| ==> s[i] in c.ring
  {
    var s := Ascending(set q | q in c.ring && q >= p);
    assert forall i :: 0 <= i < |s| ==> s[i] in s;
    s
  }

  function Behind(c: Circle, p: Position): (s: seq<Position>)
    ensures forall i :: 0 <= i < |s| ==> s[i] in c.ring
  {
    var s := Ascending(set q | q in c.ring && q < p);
    assert forall i :: 0 <= i < |s| ==> s[i] in s;
    s
  }

  function Listing(nodes: map<string, Peer>, id: string, result: seq<Peer>, seen: set<string>): seq<Peer> {
    if id !in seen && id in nodes then result + [nodes[id]] else result
  }

  /** Who sits at the given positions. */
  function Owners(ring: map<Position, string>, positions: seq<Position>): (ids: seq<string>)
    requires forall i :: 0 <= i < |positions| ==> positions[i] in ring
    ensures |ids| == |positions| && forall i :: 0 <= i < |ids| ==> ids[i] == ring[positions[i]]
  {
    seq(|positions|, i requires 0 <= i < |positions| => ring[positions[i]])
  }

  /** Lists the `owners` met, each once, until there are `factor` of them. */
  function Scan(nodes: map<string, Peer>, factor: nat, owners: seq<string>, result: seq<Peer>, seen: set<string>)
      : (seq<Peer>, set<string>, bool)
    decreases |owners|
  {
    if owners == [] then (result, seen, false)
    else
      var longer := Listing(nodes, owners[0], result, seen);
      if |longer| >= factor then (longer, seen + {owners[0]}, true)
      else Scan(nodes, factor, owners[1..], longer, seen + {owners[0]})
  }

  lemma ScanNext(nodes: map<string, Peer>, ring: map<Position, string>, factor: nat, range: seq<Position>, i: nat,
      result: seq<Peer>, seen: set<string>)
    requires i < |range| && forall j :: 0 <= j < |range| ==> range[j] in ring
    ensures var id := ring[range[i]];
            var longer := Listing(nodes, id, result, seen);
            Scan(nodes, factor, Owners(ring, range[i..]), result, seen)
              == if |longer| >= factor then (longer, seen + {id}, true)
                 else Scan(nodes, factor, Owners(ring, range[i + 1..]), longer, seen + {id})
    ensures ring[range[i]] in seen ==> seen + {ring[range[i]]} == seen
  {
    assert Owners(ring, range[i..])[1..] == Owners(ring, range[i + 1..]);
  }

  function Found(c: Circle, p: Position, factor: nat): seq<Peer> {
    if |c.ring| == 0 then []
    else
      var (result, seen, full) := Scan(c.nodes, factor, Owners(c.ring, Ahead(c, p)), [], {});
      if full then result else Scan(c.nodes, factor, Owners(c.ring, Behind(c, p)), result, seen).0
  }

  function NodeIds(peers: seq<Peer>): (ids: seq<string>)
    ensures |ids| == |peers| && forall i :: 0 <= i < |peers| ==> ids[i] == peers[i].nodeId
  {
    seq(|peers|, i requires 0 <= i < |peers| => peers[i].nodeId)
  }

  function AtLeastOne(n: nat): nat { if n == 0 then 1 else n }

  function DistanceFrom(hash: VnodeHash, v: nat, p: Position): string -> nat
    requires v > 0
  {
    (id: string) => Distance(hash, v, id, p)
  }

  /** The records of the `count` nearest nodes; without virtual nodes nobody is on the circle. */
  ghost predicate Responsible(result: seq<Peer>, c: Circle, p: Position, count: nat) {
    && (forall i :: 0 <= i < |result| ==> result[i].nodeId in c.nodes && result[i] == c.nodes[result[i].nodeId])
    && if c.vnodes == 0 then result == []
       else Nearest(NodeIds(result), c.nodes.Keys, DistanceFrom(c.hash, c.vnodes, p), count)
  }

  // ---- Why the walk finds the nearest nodes ----

  /** All positions, by increasing clockwise distance from `p`. */
  ghost predicate ClockwiseTour(tour: seq<Position>, keys: set<Position>, p: Position) {
    && (forall q :: q in tour <==> q in keys)
    && (forall i, j :: 0 <= i < j < |tour| ==> Clockwise(p, tour[i]) < Clockwise(p, tour[j]))
  }

  lemma TourIsClockwise(keys: set<Position>, p: Position, ahead: seq<Position>, behind: seq<Position>)
    requires IsAscending(ahead, set q | q in keys && q >= p) && IsAscending(behind, set q | q in keys && q < p)
    ensures ClockwiseTour(ahead + behind, keys, p)
  {
    var tour := ahead + behind;
    forall i, j | 0 <= i < j < |tour| ensures Clockwise(p, tour[i]) < Clockwise(p, tour[j]) {
      assert if i < |ahead| then tour[i] in ahead else tour[i] in behind;
      assert if j < |ahead| then tour[j] in ahead else tour[j] in behind;
    }
  }

  lemma NearestIsOnRing(c: Circle, p: Position, n: string)
    requires c.vnodes > 0 && ValidRing(c) && n in c.nodes
    ensures var q := NearestOf(c.hash, c.vnodes, n, p); q in c.ring && c.ring[q] == n
  {
    var i :| 0 <= i < c.vnodes && NearestOf(c.hash, c.vnodes, n, p) == c.hash(n, i);
  }

  lemma OwnPosition(c: Circle, p: Position, q: Position)
    requires ValidRing(c) && q in c.ring
    ensures c.vnodes > 0 && c.ring[q] in c.nodes
    ensures Clockwise(p, NearestOf(c.hash, c.vnodes, c.ring[q], p)) <= Clockwise(p, q)
  {
    var i :| 0 <= i < c.vnodes && q == c.hash(c.ring[q], i);
  }

  lemma EmptyRing(c: Circle, p: Position, count: nat)
    requires ValidRing(c) && |c.ring| == 0
    ensures Responsible([], c, p, count)
  {
    if c.vnodes > 0 {
      if n :| n in c.nodes.Keys { NodeIsOnRing(c, n); }
    }
  }

  lemma NodeIsOnRing(c: Circle, n: string)
    requires ValidRing(c) && c.vnodes > 0 && n in c.nodes
    ensures |c.ring| > 0
  {
    assert c.hash(n, 0) in c.ring;
  }

  function NearestOf(hash: VnodeHash, v: nat, id: string, p: Position): (q: Position)
    requires v > 0
    ensures Clockwise(p, q) == Distance(hash, v, id, p)
    ensures exists i :: 0 <= i < v && q == hash(id, i)
  {
    var last := hash(id, v - 1);
    if v == 1 then last
    else
      var q := NearestOf(hash, v - 1, id, p);
      if Clockwise(p, q) <= Clockwise(p, last) then q else last
  }

  /**
   * One way round the circle: who is met, after how many steps, how far each node is, and where on
   * the way it is nearest.
   */
  datatype Course = Course(owners: seq<string>, steps: seq<nat>, dist: map<string, nat>, at: map<string, nat>)

  ghost predicate ValidCourse(w: Course, nodes: map<string, Peer>) {
    && |w.owners| == |w.steps|
    && w.dist.Keys == w.at.Keys == nodes.Keys
    && (forall i, j :: 0 <= i < j < |w.steps| ==> w.steps[i] < w.steps[j])
    && (forall i :: 0 <= i < |w.owners| ==> w.owners[i] in w.dist && w.dist[w.owners[i]] <= w.steps[i])
    && (forall n :: n in w.at ==> w.at[n] < |w.owners| && w.owners[w.at[n]] == n && w.steps[w.at[n]] == w.dist[n])
    && (forall n :: n in nodes ==> nodes[n].nodeId == n)
  }

  /** The walk has met exactly the nodes on the first `i` places, and lists their records nearest first. */
  ghost predicate MetSoFar(w: Course, nodes: map<string, Peer>, i: nat, result: seq<Peer>, seen: set<string>) {
    && (forall j :: 0 <= j < |result| ==> result[j].nodeId in nodes && result[j] == nodes[result[j].nodeId])
    && (forall n :: n in seen <==> n in NodeIds(result))
    && (forall n :: n in w.at ==> (n in seen <==> w.at[n] < i))
    && (forall j, k :: 0 <= j < k < |result| && result[j].nodeId in w.at && result[k].nodeId in w.at ==>
          w.at[result[j].nodeId] < w.at[result[k].nodeId])
  }

  /** One step: the owner of place `i` is known, or is nearest right here and comes next in the listing. */
  lemma MeetNext(w: Course, nodes: map<string, Peer>, i: nat, result: seq<Peer>, seen: set<string>)
    requires ValidCourse(w, nodes) && i < |w.owners| && MetSoFar(w, nodes, i, result, seen)
    ensures MetSoFar(w, nodes, i + 1, Listing(nodes, w.owners[i], result, seen), seen + {w.owners[i]})
  {
    FirstMeeting(w, nodes, i);
    if w.owners[i] in seen {
      assert seen + {w.owners[i]} == seen;
    } else {
      MeetNew(w, nodes, i, result, seen);
    }
  }

  lemma MeetNew(w: Course, nodes: map<string, Peer>, i: nat, result: seq<Peer>, seen: set<string>)
    requires ValidCourse(w, nodes) && i < |w.owners| && MetSoFar(w, nodes, i, result, seen) && w.owners[i] !in seen
    ensures MetSoFar(w, nodes, i + 1, Listing(nodes, w.owners[i], result, seen), seen + {w.owners[i]})
  {
    MeetInOrder(w, nodes, i, result, seen);
    MeetSeen(w, nodes, i, result, seen);
  }

  lemma MeetSeen(w: Course, nodes: map<string, Peer>, i: nat, result: seq<Peer>, seen: set<string>)
    requires ValidCourse(w, nodes) && i < |w.owners| && MetSoFar(w, nodes, i, result, seen) && w.owners[i] !in seen
    ensures w.owners[i] in nodes && nodes[w.owners[i]].nodeId == w.owners[i]
    ensures forall n :: n in seen + {w.owners[i]} <==> n in NodeIds(result + [nodes[w.owners[i]]])
    ensures forall n :: n in w.at ==> (n in seen + {w.owners[i]} <==> w.at[n] < i + 1)
  {
    FirstMeeting(w, nodes, i);
    assert NodeIds(result + [nodes[w.owners[i]]]) == NodeIds(result) + [w.owners[i]];
  }

  /** Whoever is met at place `i` comes after all those met before. */
  lemma MeetInOrder(w: Course, nodes: map<string, Peer>, i: nat, result: seq<Peer>, seen: set<string>)
    requires ValidCourse(w, nodes) && i < |w.owners| && MetSoFar(w, nodes, i, result, seen) && w.owners[i] !in seen
    ensures w.owners[i] in nodes
    ensures var longer := result + [nodes[w.owners[i]]];
      forall j, k :: 0 <= j < k < |longer| && longer[j].nodeId in w.at && longer[k].nodeId in w.at ==>
        w.at[longer[j].nodeId] < w.at[longer[k].nodeId]
  {
    FirstMeeting(w, nodes, i);
    forall j | 0 <= j < |result| && result[j].nodeId in w.at ensures w.at[result[j].nodeId] < i {
      assert NodeIds(result)[j] in NodeIds(result) && NodeIds(result)[j] in seen;
    }
    assert w.at[w.owners[i]] == i;
  }

  /**
   * The owner of place `i` is nearest here or earlier; every other node whose place is below `i + 1` has
   * it below `i`.
   */
  lemma FirstMeeting(w: Course, nodes: map<string, Peer>, i: nat)
    requires ValidCourse(w, nodes) && i < |w.owners|
    ensures w.owners[i] in w.at && w.at[w.owners[i]] <= i
    ensures forall m :: m in w.at && m != w.owners[i] ==> w.at[m] != i
  {
    forall k | i < k < |w.steps| ensures w.steps[i] < w.steps[k] { }
  }

  /** `result` is a finished listing: the `count` nodes met first, or all of them. */
  ghost predicate Listed(w: Course, nodes: map<string, Peer>, result: seq<Peer>, count: nat) {
    && (forall j :: 0 <= j < |result| ==> result[j].nodeId in nodes && result[j] == nodes[result[j].nodeId])
    && |result| == (if |nodes| <= count then |nodes| else count)
    && exists i, seen :: MetSoFar(w, nodes, i, result, seen)
  }

  lemma {:induction false} DistinctCount(r: seq<string>, ids: set<string>)
    requires forall i :: 0 <= i < |r| ==> r[i] in ids
    requires forall i, j :: 0 <= i < j < |r| ==> r[i] != r[j]
    ensures |r| <= |ids|
    ensures (forall n :: n in ids ==> n in r) <==> |r| == |ids|
  {
    if r != [] {
      var init, last := r[..|r| - 1], r[|r| - 1];
      DistinctCount(init, ids - {last});
      assert r == init + [last];
      assert ids == (ids - {last}) + {last};
    }
  }

  lemma MetCount(w: Course, nodes: map<string, Peer>, i: nat, result: seq<Peer>, seen: set<string>)
    requires ValidCourse(w, nodes) && MetSoFar(w, nodes, i, result, seen)
    ensures |result| <= |nodes|
    ensures i >= |w.owners| ==> |result| == |nodes|
  {
    var r := NodeIds(result);
    forall j, k | 0 <= j < k < |r| ensures r[j] != r[k] {
      assert r[j] == result[j].nodeId && r[k] == result[k].nodeId;
    }
    DistinctCount(r, nodes.Keys);
    assert |nodes.Keys| == |nodes|;
  }

  /** A listing that has just reached the factor is finished; it is not empty even for factor zero. */
  lemma FullListing(w: Course, nodes: map<string, Peer>, i: nat, factor: nat, result: seq<Peer>, seen: set<string>)
    requires ValidCourse(w, nodes) && MetSoFar(w, nodes, i, result, seen) && 0 < i <= |w.owners|
    requires factor <= |result| <= AtLeastOne(factor) && seen != {}
    ensures Listed(w, nodes, result, AtLeastOne(factor))
  {
    MetCount(w, nodes, i, result, seen);
    var n :| n in seen;
    assert n in NodeIds(result);
  }

  /** How a scan up to place `hi` may end: with a finished listing, or with everybody met before `hi`. */
  ghost predicate ScanOutcome(w: Course, nodes: map<string, Peer>, hi: nat, factor: nat,
      scan: (seq<Peer>, set<string>, bool)) {
    if scan.2 then Listed(w, nodes, scan.0, AtLeastOne(factor))
    else MetSoFar(w, nodes, hi, scan.0, scan.1) && (|scan.0| == 0 || |scan.0| < factor)
  }

  /** Scanning on from place `lo` finishes the listing, or meets everybody before place `hi`. */
  lemma {:induction false} ScanLists(w: Course, nodes: map<string, Peer>, lo: nat, hi: nat, factor: nat,
      result: seq<Peer>, seen: set<string>)
    requires ValidCourse(w, nodes) && lo <= hi <= |w.owners|
    requires MetSoFar(w, nodes, lo, result, seen) && (|result| == 0 || |result| < factor)
    ensures ScanOutcome(w, nodes, hi, factor, Scan(nodes, factor, w.owners[lo..hi], result, seen))
    decreases hi - lo
  {
    if lo < hi {
      var longer := Listing(nodes, w.owners[lo], result, seen);
      if |longer| >= factor {
        ScanStops(w, nodes, lo, hi, factor, result, seen);
      } else {
        MeetNext(w, nodes, lo, result, seen);
        ScanFirst(nodes, factor, w.owners, lo, hi, result, seen);
        ScanLists(w, nodes, lo + 1, hi, factor, longer, seen + {w.owners[lo]});
      }
    } else {
      assert w.owners[lo..hi] == [];
    }
  }

  lemma ScanStops(w: Course, nodes: map<string, Peer>, lo: nat, hi: nat, factor: nat, result: seq<Peer>,
      seen: set<string>)
    requires ValidCourse(w, nodes) && lo < hi <= |w.owners|
    requires MetSoFar(w, nodes, lo, result, seen) && (|result| == 0 || |result| < factor)
    requires |Listing(nodes, w.owners[lo], result, seen)| >= factor
    ensures ScanOutcome(w, nodes, hi, factor, Scan(nodes, factor, w.owners[lo..hi], result, seen))
  {
    ListingIsFull(w, nodes, lo, factor, result, seen);
    ScanFirst(nodes, factor, w.owners, lo, hi, result, seen);
  }

  lemma ListingIsFull(w: Course, nodes: map<string, Peer>, lo: nat, factor: nat, result: seq<Peer>, seen: set<string>)
    requires ValidCourse(w, nodes) && lo < |w.owners|
    requires MetSoFar(w, nodes, lo, result, seen) && (|result| == 0 || |result| < factor)
    requires |Listing(nodes, w.owners[lo], result, seen)| >= factor
    ensures Listed(w, nodes, Listing(nodes, w.owners[lo], result, seen), AtLeastOne(factor))
  {
    MeetNext(w, nodes, lo, result, seen);
    FullListing(w, nodes, lo + 1, factor, Listing(nodes, w.owners[lo], result, seen), seen + {w.owners[lo]});
  }

  lemma ScanFirst(nodes: map<string, Peer>, factor: nat, owners: seq<string>, lo: nat, hi: nat, result: seq<Peer>,
      seen: set<string>)
    requires lo < hi <= |owners|
    ensures var longer := Listing(nodes, owners[lo], result, seen);
      Scan(nodes, factor, owners[lo..hi], result, seen)
        == if |longer| >= factor then (longer, seen + {owners[lo]}, true)
           else Scan(nodes, factor, owners[lo + 1..hi], longer, seen + {owners[lo]})
  {
    assert owners[lo..hi][1..] == owners[lo + 1..hi];
  }

  /** Both ranges together finish the listing. */
  lemma TwoRanges(w: Course, nodes: map<string, Peer>, mid: nat, factor: nat)
    requires ValidCourse(w, nodes) && mid <= |w.owners|
    ensures var (r, s, full) := Scan(nodes, factor, w.owners[..mid], [], {});
            (full ==> Listed(w, nodes, r, AtLeastOne(factor)))
            && (!full ==> Listed(w, nodes, Scan(nodes, factor, w.owners[mid..], r, s).0, AtLeastOne(factor)))
  {
    assert w.owners[0..mid] == w.owners[..mid];
    ScanLists(w, nodes, 0, mid, factor, [], {});
    var (r, s, full) := Scan(nodes, factor, w.owners[..mid], [], {});
    if !full { LastRange(w, nodes, mid, factor, r, s); }
  }

  lemma LastRange(w: Course, nodes: map<string, Peer>, mid: nat, factor: nat, result: seq<Peer>, seen: set<string>)
    requires ValidCourse(w, nodes) && mid <= |w.owners|
    requires MetSoFar(w, nodes, mid, result, seen) && (|result| == 0 || |result| < factor)
    ensures Listed(w, nodes, Scan(nodes, factor, w.owners[mid..], result, seen).0, AtLeastOne(factor))
  {
    assert w.owners[mid..|w.owners|] == w.owners[mid..];
    ScanLists(w, nodes, mid, |w.owners|, factor, result, seen);
    AllMet(w, nodes, factor, Scan(nodes, factor, w.owners[mid..], result, seen));
  }

  /** Once the whole way is scanned the listing is finished, full or not. */
  lemma AllMet(w: Course, nodes: map<string, Peer>, factor: nat, scan: (seq<Peer>, set<string>, bool))
    requires ValidCourse(w, nodes) && ScanOutcome(w, nodes, |w.owners|, factor, scan)
    ensures Listed(w, nodes, scan.0, AtLeastOne(factor))
  {
    if !scan.2 { MetCount(w, nodes, |w.owners|, scan.0, scan.1); }
  }

  // ---- The way round a real ring ----

  lemma TourOf(c: Circle, p: Position)
    ensures ClockwiseTour(Ahead(c, p) + Behind(c, p), c.ring.Keys, p)
    ensures forall q :: q in Ahead(c, p) + Behind(c, p) ==> q in c.ring
  {
    TourIsClockwise(c.ring.Keys, p, Ahead(c, p), Behind(c, p));
  }

  /** The place of `q` on the tour. */
  function PlaceOf(tour: seq<Position>, q: Position): (i: nat)
    requires q in tour
    ensures i < |tour| && tour[i] == q
  {
    if tour[0] == q then 0 else 1 + PlaceOf(tour[1..], q)
  }

  /** Where on the tour node `n` is nearest. */
  lemma NearestPlace(c: Circle, p: Position, tour: seq<Position>, n: string) returns (i: nat)
    requires c.vnodes > 0 && ValidRing(c) && ClockwiseTour(tour, c.ring.Keys, p) && n in c.nodes
    ensures i < |tour| && tour[i] in c.ring && c.ring[tour[i]] == n
    ensures Clockwise(p, tour[i]) == DistanceFrom(c.hash, c.vnodes, p)(n)
  {
    NearestIsOnRing(c, p, n);
    i := PlaceOf(tour, NearestOf(c.hash, c.vnodes, n, p));
  }

  ghost predicate IsNearestPlace(c: Circle, p: Position, tour: seq<Position>, n: string, i: nat)
    requires c.vnodes > 0
  {
    && i < |tour| && tour[i] in c.ring && c.ring[tour[i]] == n
    && Clockwise(p, tour[i]) == DistanceFrom(c.hash, c.vnodes, p)(n)
  }

  /** The tour of a valid ring is a course with the true distances. */
  lemma CourseOf(c: Circle, p: Position, tour: seq<Position>) returns (w: Course)
    requires c.vnodes > 0 && ValidRing(c) && ClockwiseTour(tour, c.ring.Keys, p)
    requires forall i :: 0 <= i < |tour| ==> tour[i] in c.ring
    ensures w.owners == Owners(c.ring, tour) && ValidCourse(w, c.nodes)
    ensures forall n :: n in c.nodes ==> w.dist[n] == DistanceFrom(c.hash, c.vnodes, p)(n)
  {
    var at := NearestPlaces(c, p, tour);
    OwnersAreNear(c, p, tour);
    w := MakeCourse(c.ring, c.nodes, p, tour, DistanceFrom(c.hash, c.vnodes, p), at);
  }

  lemma NearestPlaces(c: Circle, p: Position, tour: seq<Position>) returns (at: map<string, nat>)
    requires c.vnodes > 0 && ValidRing(c) && ClockwiseTour(tour, c.ring.Keys, p)
    ensures at.Keys == c.nodes.Keys && forall n :: n in at ==> IsNearestPlace(c, p, tour, n, at[n])
  {
    var ok := (n: string, i: nat) => IsNearestPlace(c, p, tour, n, i);
    forall n | n in c.nodes.Keys ensures exists i: nat :: ok(n, i) {
      var i := NearestPlace(c, p, tour, n);
      assert ok(n, i);
    }
    at := PickFor(c.nodes.Keys, ok);
    assert forall n :: n in at ==> ok(n, at[n]);
  }

  lemma PickFor(keys: set<string>, ok: (string, nat) -> bool) returns (at: map<string, nat>)
    requires forall n :: n in keys ==> exists i: nat :: ok(n, i)
    ensures at.Keys == keys && forall n :: n in at ==> ok(n, at[n])
  {
    at := map n | n in keys :: var i: nat :| ok(n, i); i;
  }

  lemma OwnersAreNear(c: Circle, p: Position, tour: seq<Position>)
    requires c.vnodes > 0 && ValidRing(c) && forall i :: 0 <= i < |tour| ==> tour[i] in c.ring
    ensures forall i :: 0 <= i < |tour| ==>
      c.ring[tour[i]] in c.nodes && DistanceFrom(c.hash, c.vnodes, p)(c.ring[tour[i]]) <= Clockwise(p, tour[i])
  {
    forall i | 0 <= i < |tour|
      ensures c.ring[tour[i]] in c.nodes && DistanceFrom(c.hash, c.vnodes, p)(c.ring[tour[i]]) <= Clockwise(p, tour[i])
    {
      OwnPosition(c, p, tour[i]);
    }
  }

  lemma MakeCourse(ring: map<Position, string>, nodes: map<string, Peer>, p: Position, tour: seq<Position>,
      distance: string -> nat, at: map<string, nat>)
      returns (w: Course)
    requires forall i :: 0 <= i < |tour| ==>
      tour[i] in ring && ring[tour[i]] in nodes && distance(ring[tour[i]]) <= Clockwise(p, tour[i])
    requires forall i, j :: 0 <= i < j < |tour| ==> Clockwise(p, tour[i]) < Clockwise(p, tour[j])
    requires at.Keys == nodes.Keys
    requires forall n :: n in at ==>
      at[n] < |tour| && ring[tour[at[n]]] == n && Clockwise(p, tour[at[n]]) == distance(n)
    requires forall n :: n in nodes ==> nodes[n].nodeId == n
    ensures w.owners == Owners(ring, tour) && ValidCourse(w, nodes)
    ensures forall n :: n in nodes ==> w.dist[n] == distance(n)
  {
    w := Course(Owners(ring, tour), seq(|tour|, i requires 0 <= i < |tour| => Clockwise(p, tour[i])),
                map n | n in nodes :: distance(n), at);
  }

  lemma ListedIsNearest(w: Course, nodes: map<string, Peer>, distance: string -> nat, result: seq<Peer>, count: nat)
    requires ValidCourse(w, nodes) && Listed(w, nodes, result, count)
    requires forall n :: n in nodes ==> w.dist[n] == distance(n)
    ensures Nearest(NodeIds(result), nodes.Keys, distance, count)
  {
    var i, seen :| MetSoFar(w, nodes, i, result, seen);
    assert |nodes| == |nodes.Keys|;
    var r := NodeIds(result);
    forall j | 0 <= j < |r| ensures r[j] in w.at && w.at[r[j]] < i {
      assert r[j] == result[j].nodeId && r[j] in r && r[j] in seen;
    }
    forall j, k | 0 <= j < k < |r| ensures w.at[r[j]] < w.at[r[k]] {
      assert r[j] == result[j].nodeId && r[k] == result[k].nodeId;
    }
    forall n | n in w.at && n !in r ensures w.at[n] >= i {
      assert n !in seen;
    }
    ByPlaceIsNearest(w, nodes, distance, r, i);
  }

  /** Listed by the places where they are nearest, up to place `i`, nodes are listed nearest first. */
  lemma ByPlaceIsNearest(w: Course, nodes: map<string, Peer>, distance: string -> nat, r: seq<string>, i: nat)
    requires ValidCourse(w, nodes) && forall n :: n in nodes ==> w.dist[n] == distance(n)
    requires forall j :: 0 <= j < |r| ==> r[j] in w.at && w.at[r[j]] < i
    requires forall j, k :: 0 <= j < k < |r| ==> w.at[r[j]] < w.at[r[k]]
    requires forall n :: n in w.at && n !in r ==> w.at[n] >= i
    ensures NearestFirst(r, nodes.Keys, distance)
  {
    forall m, n | m in w.at && n in w.at && w.at[m] < w.at[n] ensures distance(m) < distance(n) {
      assert w.steps[w.at[m]] < w.steps[w.at[n]];
    }
  }

  /** The two-range walk finds exactly the nearest nodes, as many as asked for and at least one. */
  lemma WalkFindsNearest(c: Circle, p: Position, factor: nat)
    requires ValidRing(c)
    ensures Responsible(Found(c, p, factor), c, p, AtLeastOne(factor))
  {
    if |c.ring| == 0 {
      EmptyRing(c, p, AtLeastOne(factor));
    } else {
      var q :| q in c.ring;
      OwnPosition(c, p, q);
      FullWalk(c, p, factor);
    }
  }

  lemma FullWalk(c: Circle, p: Position, factor: nat)
    requires ValidRing(c) && c.vnodes > 0 && |c.ring| > 0
    ensures Responsible(Found(c, p, factor), c, p, AtLeastOne(factor))
  {
    var w := ListingCourse(c, p, factor);
    ListedIsResponsible(c, p, w, Found(c, p, factor), AtLeastOne(factor));
  }

  lemma ListingCourse(c: Circle, p: Position, factor: nat) returns (w: Course)
    requires ValidRing(c) && c.vnodes > 0 && |c.ring| > 0
    ensures ValidCourse(w, c.nodes) && Listed(w, c.nodes, Found(c, p, factor), AtLeastOne(factor))
    ensures forall n :: n in c.nodes ==> w.dist[n] == DistanceFrom(c.hash, c.vnodes, p)(n)
  {
    TourOf(c, p);
    w := CourseOf(c, p, Ahead(c, p) + Behind(c, p));
    FoundIsListed(c, p, factor, w);
  }

  lemma ListedIsResponsible(c: Circle, p: Position, w: Course, result: seq<Peer>, count: nat)
    requires c.vnodes > 0 && ValidCourse(w, c.nodes) && Listed(w, c.nodes, result, count)
    requires forall n :: n in c.nodes ==> w.dist[n] == DistanceFrom(c.hash, c.vnodes, p)(n)
    ensures Responsible(result, c, p, count)
  {
    ListedIsNearest(w, c.nodes, DistanceFrom(c.hash, c.vnodes, p), result, count);
  }

  lemma FoundIsListed(c: Circle, p: Position, factor: nat, w: Course)
    requires |c.ring| > 0 && ValidCourse(w, c.nodes)
    requires forall i :: 0 <= i < |Ahead(c, p) + Behind(c, p)| ==> (Ahead(c, p) + Behind(c, p))[i] in c.ring
    requires w.owners == Owners(c.ring, Ahead(c, p) + Behind(c, p))
    ensures Listed(w, c.nodes, Found(c, p, factor), AtLeastOne(factor))
  {
    var mid := |Ahead(c, p)|;
    assert w.owners[..mid] == Owners(c.ring, Ahead(c, p)) && w.owners[mid..] == Owners(c.ring, Behind(c, p));
    TwoRanges(w, c.nodes, mid, factor);
  }
}
