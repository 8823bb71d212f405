/** What changes for content when nodes join or leave the ring, and how content is routed. */
module RingChanges {
  import opened Wrappers
  import opened HashRing

  // ---- Nearest nodes of a shrinking set ----

  /** `r` without the first occurrence of `n`. */
  function Drop(r: seq<string>, n: string): seq<string> {
    if r == [] then [] else if r[0] == n then r[1..] else [r[0]] + Drop(r[1..], n)
  }

  lemma {:induction false} DropAbsent(r: seq<string>, n: string)
    requires n !in r
    ensures Drop(r, n) == r
  {
    if r != [] { DropAbsent(r[1..], n); }
  }

  lemma {:induction false} DropAt(r: seq<string>, i: nat)
    requires i < |r| && r[i] !in r[..i]
    ensures Drop(r, r[i]) == r[..i] + r[i + 1..]
  {
    if i > 0 {
      var rest := r[1..];
      assert r[..i] == [r[0]] + rest[..i - 1];
      assert rest[i - 1] == r[i] && rest[i..] == r[i + 1..];
      DropAt(rest, i - 1);
    }
  }

  lemma CutMembers(r: seq<string>, i: nat, m: string)
    requires i < |r| && forall j, k :: 0 <= j < k < |r| ==> r[j] != r[k]
    ensures m in Cut(r, i) <==> m in r && m != r[i]
  {
    assert r == r[..i] + [r[i]] + r[i + 1..];
    assert r[i] !in r[..i] && r[i] !in r[i + 1..];
  }

  /** Dropping one listed node leaves a nearest-first listing of the others. */
  lemma DropKeepsNearestFirst(r: seq<string>, ids: set<string>, distance: string -> nat, n: string)
    requires NearestFirst(r, ids, distance)
    ensures NearestFirst(Drop(r, n), ids - {n}, distance)
    ensures |Drop(r, n)| == if n in r then |r| - 1 else |r|
  {
    if n in r {
      var i :| 0 <= i < |r| && r[i] == n;
      CutKeepsNearestFirst(r, ids, distance, i);
      ListedOnce(r, ids, distance);
      DropAt(r, i);
    } else {
      DropAbsent(r, n);
    }
  }

  lemma ListedOnce(r: seq<string>, ids: set<string>, distance: string -> nat)
    requires NearestFirst(r, ids, distance)
    ensures forall j, k :: 0 <= j < k < |r| ==> r[j] != r[k]
  {
    forall j, k | 0 <= j < k < |r| ensures r[j] != r[k] { assert distance(r[j]) < distance(r[k]); }
  }

  /** `r` without its entry at `i`. */
  function Cut(r: seq<string>, i: nat): (d: seq<string>)
    requires i < |r|
    ensures |d| == |r| - 1 && forall j :: 0 <= j < |d| ==> d[j] == r[if j < i then j else j + 1]
  {
    r[..i] + r[i + 1..]
  }

  lemma CutKeepsNearestFirst(r: seq<string>, ids: set<string>, distance: string -> nat, i: nat)
    requires NearestFirst(r, ids, distance) && i < |r|
    ensures NearestFirst(Cut(r, i), ids - {r[i]}, distance)
  {
    var d, rest := Cut(r, i), ids - {r[i]};
    ListedOnce(r, ids, distance);
    forall j, m | 0 <= j < |d| && m in rest && m !in d ensures distance(d[j]) < distance(m) {
      CutMembers(r, i, m);
    }
  }

  ghost predicate SameStart(a: seq<string>, b: seq<string>, i: nat)
    requires i <= |a| && i <= |b|
  {
    forall j :: 0 <= j < i ==> a[j] == b[j]
  }

  /** Two nearest-first listings of the same nodes agree as far as both go. */
  lemma {:induction false} ListingsAgree(a: seq<string>, b: seq<string>, ids: set<string>, distance: string -> nat,
      i: nat)
    requires NearestFirst(a, ids, distance) && NearestFirst(b, ids, distance)
    requires i <= |a| && i <= |b|
    ensures SameStart(a, b, i)
  {
    if i > 0 {
      ListingsAgree(a, b, ids, distance, i - 1);
      SameNext(a, b, ids, distance, i - 1);
    }
  }

  lemma SameNext(a: seq<string>, b: seq<string>, ids: set<string>, distance: string -> nat, i: nat)
    requires NearestFirst(a, ids, distance) && NearestFirst(b, ids, distance)
    requires i < |a| && i < |b| && SameStart(a, b, i)
    ensures SameStart(a, b, i + 1)
  {
    NotNearer(a, b, ids, distance, i);
    NotNearer(b, a, ids, distance, i);
    assert a[i] == b[i];
  }

  /** After a common beginning, the next node of `b` is the next of `a` or nearer. */
  lemma NotNearer(a: seq<string>, b: seq<string>, ids: set<string>, distance: string -> nat, i: nat)
    requires NearestFirst(a, ids, distance) && NearestFirst(b, ids, distance)
    requires i < |a| && i < |b| && SameStart(a, b, i)
    ensures a[i] == b[i] || distance(b[i]) < distance(a[i])
  {
    forall j | 0 <= j < i ensures distance(a[j]) < distance(a[i]) { }
    if a[i] in b {
      var k :| 0 <= k < |b| && b[k] == a[i];
    }
  }

  /**
   * Taking node `n` away keeps every other listed node, in order, and brings in at most one; if `n`
   * was not listed nothing changes.
   */
  lemma RemovalDisruptsLittle(r: seq<string>, s: seq<string>, ids: set<string>, distance: string -> nat, count: nat,
      n: string)
    requires n in ids && Nearest(r, ids, distance, count) && Nearest(s, ids - {n}, distance, count)
    ensures Drop(r, n) <= s && |s| <= |Drop(r, n)| + 1
    ensures n !in r ==> s == r
  {
    DropKeepsNearestFirst(r, ids, distance, n);
    assert |ids - {n}| == |ids| - 1;
    if n !in r {
      DropAbsent(r, n);
      if |r| == |ids| { AllListed(r, ids, distance, n); }
    }
    ListingsAgree(Drop(r, n), s, ids - {n}, distance, |Drop(r, n)|);
  }

  lemma AllListed(r: seq<string>, ids: set<string>, distance: string -> nat, n: string)
    requires NearestFirst(r, ids, distance) && |r| == |ids| && n in ids
    ensures n in r
  {
    ListedOnce(r, ids, distance);
    DistinctCount(r, ids);
  }

  // ---- Joining and leaving ----

  lemma ValidRingIsCollisionFree(c: Circle)
    requires ValidRing(c)
    ensures CollisionFree(c.hash, c.vnodes, c.nodes.Keys)
  {
  }

  lemma FoundIsNearest(c: Circle, p: Position, factor: nat)
    requires ValidRing(c)
    ensures c.vnodes == 0 ==> NodeIds(Found(c, p, factor)) == []
    ensures c.vnodes > 0 ==>
      Nearest(NodeIds(Found(c, p, factor)), c.nodes.Keys, DistanceFrom(c.hash, c.vnodes, p), AtLeastOne(factor))
  {
    WalkFindsNearest(c, p, factor);
  }

  /** Two rings that differ in one node, which `b` lacks. */
  lemma OneNodeLess(a: Circle, b: Circle, id: string, p: Position, factor: nat)
    requires ValidRing(a) && ValidRing(b) && a.hash == b.hash && a.vnodes == b.vnodes
    requires id in a.nodes && b.nodes.Keys == a.nodes.Keys - {id}
    ensures var more, fewer := NodeIds(Found(a, p, factor)), NodeIds(Found(b, p, factor));
            && Drop(more, id) <= fewer && |fewer| <= |Drop(more, id)| + 1
            && (id !in more ==> fewer == more)
  {
    FoundIsNearest(a, p, factor);
    FoundIsNearest(b, p, factor);
    if a.vnodes > 0 {
      RemovalDisruptsLittle(NodeIds(Found(a, p, factor)), NodeIds(Found(b, p, factor)),
                            a.nodes.Keys, DistanceFrom(a.hash, a.vnodes, p), AtLeastOne(factor), id);
    }
  }

  lemma RemoveMember(c: Circle, id: string)
    requires ValidRing(c) && id in c.nodes
    ensures ValidRing(Removed(c, id)) && Removed(c, id).nodes.Keys == c.nodes.Keys - {id}
  {
    ValidRingIsCollisionFree(c);
    assert c.nodes.Keys + {id} == c.nodes.Keys;
    RemoveKeepsValid(c, id);
  }

  /** Removing a node: every other responsible node stays responsible, in the same order, and at most one is new. */
  lemma RemoveNodeDisruption(c: Circle, id: string, p: Position, factor: nat)
    requires ValidRing(c) && id in c.nodes
    ensures var before, after := NodeIds(Found(c, p, factor)), NodeIds(Found(Removed(c, id), p, factor));
            && Drop(before, id) <= after && |after| <= |Drop(before, id)| + 1
            && (id !in before ==> after == before)
  {
    RemoveMember(c, id);
    OneNodeLess(c, Removed(c, id), id, p, factor);
  }

  /** Adding a node: nobody but the new node becomes responsible, and at most one node is displaced. */
  lemma AddNodeDisruption(c: Circle, peer: Peer, p: Position, factor: nat)
    requires ValidRing(c) && peer.nodeId !in c.nodes && CollisionFree(c.hash, c.vnodes, c.nodes.Keys + {peer.nodeId})
    ensures var before, after := NodeIds(Found(c, p, factor)), NodeIds(Found(Added(c, peer), p, factor));
            && Drop(after, peer.nodeId) <= before && |before| <= |Drop(after, peer.nodeId)| + 1
            && (peer.nodeId !in after ==> after == before)
  {
    AddKeepsValid(c, peer);
    assert c.nodes.Keys == Added(c, peer).nodes.Keys - {peer.nodeId};
    OneNodeLess(Added(c, peer), c, peer.nodeId, p, factor);
  }

  /** The walk returns min(factor, nodes) nodes unless the factor is zero and there is somebody to return. */
  lemma WalkLengthIff(c: Circle, p: Position, factor: nat)
    requires ValidRing(c) && c.vnodes > 0
    ensures |Found(c, p, factor)| == (if |c.nodes| <= factor then |c.nodes| else factor)
      <==> factor >= 1 || |c.nodes| == 0
  {
    WalkFindsNearest(c, p, factor);
    assert |c.nodes| == |c.nodes.Keys|;
  }

  /** Adding an absent node and removing it again restores the ring exactly when its positions were free. */
  lemma AddThenRemoveIff(c: Circle, peer: Peer)
    requires peer.nodeId !in c.nodes
    ensures Removed(Added(c, peer), peer.nodeId) == c <==> Positions(c.hash, c.vnodes, peer.nodeId) !! c.ring.Keys
  {
    var back := Removed(Added(c, peer), peer.nodeId);
    var taken := Positions(c.hash, c.vnodes, peer.nodeId);
    assert back.nodes == c.nodes;
    assert back.ring == c.ring - taken;
    if taken !! c.ring.Keys {
      assert back.ring == c.ring;
    } else {
      var q :| q in taken && q in c.ring.Keys;
      assert q !in back.ring;
    }
  }

  // ---- Rebuilding from a peer list ----

  function Rebuilt(peers: seq<Peer>, hash: VnodeHash, v: nat): Circle {
    if peers == [] then Circle(map[], map[], hash, v)
    else Added(Rebuilt(peers[..|peers| - 1], hash, v), peers[|peers| - 1])
  }

  ghost predicate DistinctIds(peers: seq<Peer>) {
    forall i, j :: 0 <= i < j < |peers| ==> peers[i].nodeId != peers[j].nodeId
  }

  function IdSet(peers: seq<Peer>): set<string> {
    set i | 0 <= i < |peers| :: peers[i].nodeId
  }

  lemma IdSetLast(peers: seq<Peer>)
    requires peers != []
    ensures IdSet(peers) == IdSet(peers[..|peers| - 1]) + {peers[|peers| - 1].nodeId}
  {
    var init := peers[..|peers| - 1];
    forall id | id in IdSet(init) ensures id in IdSet(peers) {
      var i :| 0 <= i < |init| && init[i].nodeId == id;
      assert peers[i].nodeId == id;
    }
    forall id | id in IdSet(peers) ensures id in IdSet(init) + {peers[|peers| - 1].nodeId} {
      var i :| 0 <= i < |peers| && peers[i].nodeId == id;
      if i < |init| { assert init[i].nodeId == id; }
    }
  }

  lemma {:induction false} RebuiltRecords(peers: seq<Peer>, hash: VnodeHash, v: nat)
    requires DistinctIds(peers)
    ensures Rebuilt(peers, hash, v).nodes.Keys == IdSet(peers)
    ensures forall i :: 0 <= i < |peers| ==> Rebuilt(peers, hash, v).nodes[peers[i].nodeId] == peers[i]
  {
    if peers != [] {
      var init, last := peers[..|peers| - 1], peers[|peers| - 1];
      IdSetLast(peers);
      RebuiltRecords(init, hash, v);
      forall i | 0 <= i < |peers| ensures Rebuilt(peers, hash, v).nodes[peers[i].nodeId] == peers[i] {
        if i < |init| { assert peers[i] == init[i]; }
      }
    }
  }

  /** A duplicate-free list, in any order, yields the ring of exactly its nodes. */
  lemma {:induction false} RebuiltIsRing(peers: seq<Peer>, hash: VnodeHash, v: nat)
    requires DistinctIds(peers) && CollisionFree(hash, v, IdSet(peers))
    ensures var c := Rebuilt(peers, hash, v);
            c.hash == hash && c.vnodes == v && ValidRing(c) && c.nodes.Keys == IdSet(peers)
    ensures forall i :: 0 <= i < |peers| ==> Rebuilt(peers, hash, v).nodes[peers[i].nodeId] == peers[i]
  {
    if peers != [] {
      var init, last := peers[..|peers| - 1], peers[|peers| - 1];
      IdSetLast(peers);
      RebuiltIsRing(init, hash, v);
      AddKeepsValid(Rebuilt(init, hash, v), last);
    }
    RebuiltRecords(peers, hash, v);
  }

  lemma RingIsUnique(r: map<Position, string>, s: map<Position, string>, ids: set<string>, hash: VnodeHash, v: nat)
    requires RingOf(r, ids, hash, v) && RingOf(s, ids, hash, v)
    ensures r == s
  {
    assert r.Keys == s.Keys;
  }

  /** The order of the peer list does not matter. */
  lemma RebuildIgnoresOrder(a: seq<Peer>, b: seq<Peer>, hash: VnodeHash, v: nat)
    requires DistinctIds(a) && DistinctIds(b) && CollisionFree(hash, v, IdSet(a))
    requires forall peer :: peer in a <==> peer in b
    ensures Rebuilt(a, hash, v) == Rebuilt(b, hash, v)
  {
    SameIds(a, b);
    SameIds(b, a);
    assert IdSet(a) == IdSet(b);
    RebuiltIsRing(a, hash, v);
    RebuiltIsRing(b, hash, v);
    RingIsUnique(Rebuilt(a, hash, v).ring, Rebuilt(b, hash, v).ring, IdSet(a), hash, v);
    SameRecords(a, b, Rebuilt(a, hash, v).nodes, Rebuilt(b, hash, v).nodes);
  }

  lemma SameRecords(a: seq<Peer>, b: seq<Peer>, c: map<string, Peer>, d: map<string, Peer>)
    requires c.Keys == d.Keys == IdSet(a) == IdSet(b)
    requires forall i :: 0 <= i < |a| ==> c[a[i].nodeId] == a[i]
    requires forall i :: 0 <= i < |b| ==> d[b[i].nodeId] == b[i]
    requires forall peer :: peer in a ==> peer in b
    ensures c == d
  {
    forall id | id in c ensures c[id] == d[id] {
      var i :| 0 <= i < |a| && a[i].nodeId == id;
      assert a[i] in b;
      var j :| 0 <= j < |b| && b[j] == a[i];
    }
  }

  lemma SameIds(a: seq<Peer>, b: seq<Peer>)
    requires forall peer :: peer in a ==> peer in b
    ensures IdSet(a) <= IdSet(b)
  {
    forall id | id in IdSet(a) ensures id in IdSet(b) {
      var i :| 0 <= i < |a| && a[i].nodeId == id;
      assert a[i] in b;
      var j :| 0 <= j < |b| && b[j] == a[i];
    }
  }

  // ---- Routing ----

  datatype Decision = Owned(replicas: seq<Peer>) | NotOwned(responsible: seq<Peer>)

  function Others(peers: seq<Peer>, me: string): seq<Peer> {
    if peers == [] then []
    else (if peers[0].nodeId == me then [] else [peers[0]]) + Others(peers[1..], me)
  }

  function Decide(responsible: seq<Peer>, me: string): Decision {
    if exists i :: 0 <= i < |responsible| && responsible[i].nodeId == me then Owned(Others(responsible, me))
    else NotOwned(responsible)
  }

  lemma {:induction false} OthersAreTheRest(peers: seq<Peer>, me: string)
    requires DistinctIds(peers)
    ensures NodeIds(Others(peers, me)) == Drop(NodeIds(peers), me)
  {
    if peers != [] {
      var rest := peers[1..];
      OthersAreTheRest(rest, me);
      assert NodeIds(peers)[1..] == NodeIds(rest);
      if peers[0].nodeId == me {
        forall i | 0 <= i < |rest| ensures NodeIds(rest)[i] != me { assert rest[i] == peers[i + 1]; }
        DropAbsent(NodeIds(rest), me);
        assert Others(peers, me) == [] + Others(rest, me) == Others(rest, me);
        assert Drop(NodeIds(peers), me) == NodeIds(rest);
      } else {
        assert Others(peers, me) == [peers[0]] + Others(rest, me);
        assert NodeIds([peers[0]] + Others(rest, me)) == [peers[0].nodeId] + NodeIds(Others(rest, me));
        assert Drop(NodeIds(peers), me) == [peers[0].nodeId] + Drop(NodeIds(rest), me);
      }
    }
  }

  /** Leaving one node out keeps the others, and their order. */
  lemma {:induction false} OthersInOrder(peers: seq<Peer>, me: string)
    ensures forall peer :: peer in Others(peers, me) <==> peer in peers && peer.nodeId != me
    ensures KeepsOrder(peers, Others(peers, me))
  {
    if peers != [] {
      var first, rest := peers[0], peers[1..];
      OthersInOrder(rest, me);
      assert peers == [first] + rest;
      OrderUnderFirst(first, rest, Others(rest, me));
      assert Others(peers, me) == if first.nodeId == me then Others(rest, me) else [first] + Others(rest, me);
    }
  }

  lemma FoundIdsDistinct(c: Circle, p: Position, factor: nat)
    requires ValidRing(c)
    ensures DistinctIds(Found(c, p, factor))
  {
    WalkFindsNearest(c, p, factor);
    var found := Found(c, p, factor);
    var ids := NodeIds(found);
    forall i, j | 0 <= i < j < |found| ensures found[i].nodeId != found[j].nodeId {
      assert ids[i] == found[i].nodeId && ids[j] == found[j].nodeId;
      assert DistanceFrom(c.hash, c.vnodes, p)(ids[i]) < DistanceFrom(c.hash, c.vnodes, p)(ids[j]);
    }
  }

  /**
   * Among nodes sharing a ring, exactly the responsible ones decide that they own the content, and each of
   * them names precisely the other responsible nodes as replicas, in their order. The rest name all of
   * the responsible nodes.
   */
  lemma ExactlyResponsibleOwn(c: Circle, p: Position, factor: nat, me: string)
    requires ValidRing(c)
    ensures var responsible, d := Found(c, p, factor), Decide(Found(c, p, factor), me);
      if me in NodeIds(responsible) then
        && d.Owned?
        && (forall peer :: peer in d.replicas <==> peer in responsible && peer.nodeId != me)
        && NodeIds(d.replicas) == Drop(NodeIds(responsible), me)
        && KeepsOrder(responsible, d.replicas)
      else d == NotOwned(responsible)
  {
    var responsible := Found(c, p, factor);
    FoundIdsDistinct(c, p, factor);
    OthersAreTheRest(responsible, me);
    OthersInOrder(responsible, me);
    forall i | 0 <= i < |responsible| ensures NodeIds(responsible)[i] == responsible[i].nodeId { }
  }

  class ShardingService {
    var ring: ContentRing
    const ourNodeId: string

    constructor (ourNodeId: string, replicationFactor: nat, vnodesPerNode: nat, hash: VnodeHash)
      ensures this.ourNodeId == ourNodeId && fresh(ring) && ring.replicationFactor == replicationFactor
      ensures ring.Now() == Circle(map[], map[], hash, vnodesPerNode)
    {
      this.ourNodeId := ourNodeId;
      ring := new ContentRing(replicationFactor, vnodesPerNode, hash);
    }

    /** Starts from an empty ring, so that peers that left are gone. */
    method RebuildFromPeers(peers: seq<Peer>)
      modifies this
      ensures fresh(ring) && ring.replicationFactor == old(ring.replicationFactor)
      ensures ring.Now() == Rebuilt(peers, old(ring.hash), old(ring.vnodesPerNode))
    {
      var newRing := new ContentRing(ring.replicationFactor, ring.vnodesPerNode, ring.hash);
      for i := 0 to |peers|
        invariant fresh(newRing) && newRing.replicationFactor == old(ring.replicationFactor)
        invariant newRing.Now() == Rebuilt(peers[..i], old(ring.hash), old(ring.vnodesPerNode))
      {
        newRing.AddNode(peers[i].nodeId, peers[i].httpAddress);
        assert peers[..i + 1][..i] == peers[..i];
      }
      assert peers[..|peers|] == peers;
      ring := newRing;
    }

    /** Whether this node is among the responsible ones. */
    method IsOurs(responsible: seq<Peer>) returns (ours: bool)
      ensures ours <==> exists k :: 0 <= k < |responsible| && responsible[k].nodeId == ourNodeId
    {
      ours := false;
      for i := 0 to |responsible|
        invariant !ours && forall k :: 0 <= k < i ==> responsible[k].nodeId != ourNodeId
      {
        if responsible[i].nodeId == ourNodeId { return true; }
      }
    }

    /** The responsible nodes other than this one, in order. */
    method Replicas(responsible: seq<Peer>) returns (replicas: seq<Peer>)
      ensures replicas == Others(responsible, ourNodeId)
    {
      replicas := [];
      for i := 0 to |responsible|
        invariant replicas + Others(responsible[i..], ourNodeId) == Others(responsible, ourNodeId)
      {
        assert responsible[i..][1..] == responsible[i + 1..];
        if responsible[i].nodeId != ourNodeId {
          replicas := replicas + [responsible[i]];
        }
      }
    }

    method GetRoutingDecision(position: Position) returns (d: Decision)
      ensures d == Decide(Found(ring.Now(), position, ring.replicationFactor), ourNodeId)
    {
      var responsible := ring.GetResponsibleNodes(position);
      var isOurs := IsOurs(responsible);
      if isOurs {
        var replicas := Replicas(responsible);
        d := Owned(replicas);
      } else {
        d := NotOwned(responsible);
      }
    }
  }
}
