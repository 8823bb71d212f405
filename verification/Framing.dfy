/** Length-prefixed frames between peers: what is written to a connection and what its read loop makes of it. */
module Framing {
  import opened Wrappers

  type byte = x: int | 0 <= x < 256
  type Bytes = seq<byte>
  type PeerId = string

  const MAX_MESSAGE_SIZE: nat := 10 * 1024 * 1024
  const U32: nat := 0x1_0000_0000

  // ---- Lengths as four bytes, most significant first ----

  /** A length cut down to 32 bits, then written out. */
  function ToBytes(n: nat): (b: Bytes)
    ensures |b| == 4
  {
    var w := n % U32;
    [w / 256 / 256 / 256, w / 256 / 256 % 256, w / 256 % 256, w % 256]
  }

  function FromBytes(b: Bytes): nat
    requires |b| == 4
  {
    ((b[0] as int * 256 + b[1]) * 256 + b[2]) * 256 + b[3]
  }

  lemma MostSignificantFirst(b: Bytes)
    requires |b| == 4
    ensures FromBytes(b) == 0x100_0000 * b[0] as int + 0x1_0000 * b[1] as int + 0x100 * b[2] as int + b[3] as int
  {
  }

  lemma FromToBytes(n: nat)
    ensures FromBytes(ToBytes(n)) == n % U32
  {
    var w := n % U32;
    assert w == w / 256 * 256 + w % 256;
    assert w / 256 == w / 256 / 256 * 256 + w / 256 % 256;
    assert w / 256 / 256 == w / 256 / 256 / 256 * 256 + w / 256 / 256 % 256;
  }

  lemma ToFromBytes(b: Bytes)
    requires |b| == 4
    ensures FromBytes(b) < U32 && ToBytes(FromBytes(b)) == b
  {
    var two := b[0] as int * 256 + b[1];
    var three := two * 256 + b[2];
    Digit(b[0], b[1]);
    Digit(two, b[2]);
    Digit(three, b[3]);
    assert FromBytes(b) == three * 256 + b[3] && FromBytes(b) < U32;
    assert ToBytes(FromBytes(b)) == [two / 256, two % 256, three % 256, b[3]];
  }

  lemma Digit(q: nat, r: byte)
    ensures (q * 256 + r) / 256 == q && (q * 256 + r) % 256 == r
  {
  }

  // ---- Writing ----

  function Frame(payload: Bytes): Bytes {
    ToBytes(|payload|) + payload
  }

  function Frames(payloads: seq<Bytes>): Bytes {
    if payloads == [] then [] else Frame(payloads[0]) + Frames(payloads[1..])
  }

  /** What has been written to each open connection, and how many messages each known peer was sent. */
  datatype Net = Net(connections: map<PeerId, Bytes>, messagesSent: map<PeerId, nat>)

  predicate Reached(n: Net, peer: PeerId, payload: Bytes, room: nat) {
    peer in n.connections && |Frame(payload)| <= room
  }

  /** One send, when the connection still takes `room` bytes. */
  function Sent(n: Net, peer: PeerId, payload: Bytes, room: nat): Net {
    Net(if peer in n.connections
        then n.connections[peer := n.connections[peer] + Written(Frame(payload), room)] else n.connections,
        if Reached(n, peer, payload, room) && peer in n.messagesSent
        then n.messagesSent[peer := n.messagesSent[peer] + 1] else n.messagesSent)
  }

  /** A send to every connected peer. */
  function SentToAll(n: Net, payload: Bytes, room: PeerId -> nat): Net {
    Net(map p | p in n.connections :: n.connections[p] + Written(Frame(payload), room(p)),
        map p | p in n.messagesSent :: n.messagesSent[p] + (if Reached(n, p, payload, room(p)) then 1 else 0))
  }

  class NetworkService {
    var connections: map<PeerId, Bytes>
    var messagesSent: map<PeerId, nat>

    function Contents(): Net reads this { Net(connections, messagesSent) }

    constructor ()
      ensures Contents() == Net(map[], map[])
    {
      connections, messagesSent := map[], map[];
    }

    /**
     * Writes length, then payload. `room` is how many bytes the connection still takes before writing
     * fails; a failed write leaves the part that got through, and the connection stays in the table.
     */
    method SendToPeer(peer: PeerId, payload: Bytes, room: nat) returns (ok: bool)
      modifies this
      ensures ok <==> Reached(old(Contents()), peer, payload, room)
      ensures Contents() == Sent(old(Contents()), peer, payload, room)
      ensures ok <==> peer in old(connections) && room >= 4 + |payload|
      ensures connections.Keys == old(connections).Keys && connections - {peer} == old(connections) - {peer}
      ensures ok ==> connections[peer] == old(connections[peer]) + ToBytes(|payload|) + payload
      ensures messagesSent.Keys == old(messagesSent).Keys && messagesSent - {peer} == old(messagesSent) - {peer}
      ensures peer in messagesSent ==> messagesSent[peer] == old(messagesSent[peer]) + (if ok then 1 else 0)
    {
      if peer !in connections { return false; }
      ghost var before := connections[peer];
      var prefix := ToBytes(|payload|);
      WrittenInTwo(prefix, payload, room);
      connections := connections[peer := connections[peer] + Written(prefix, room)];
      if room < |prefix| {
        assert connections[peer] == before + Written(Frame(payload), room);
        return false;
      }
      connections := connections[peer := connections[peer] + Written(payload, room - |prefix|)];
      assert connections[peer] == before + Written(Frame(payload), room);
      if room - |prefix| < |payload| { return false; }
      if peer in messagesSent {
        messagesSent := messagesSent[peer := messagesSent[peer] + 1];
      }
      ok := true;
    }

    /** Sends to every peer connected when it starts, and reports exactly those whose write failed, each once. */
    method Broadcast(payload: Bytes, room: PeerId -> nat) returns (errors: seq<PeerId>)
      modifies this
      ensures Contents() == SentToAll(old(Contents()), payload, room)
      ensures forall p :: p in errors <==> p in old(connections) && room(p) < |Frame(payload)|
      ensures forall i, j :: 0 <= i < j < |errors| ==> errors[i] != errors[j]
    {
      var left := connections.Keys;
      errors := [];
      while left != {}
        invariant SentSoFar(old(Contents()), Contents(), left, payload, room)
        invariant FailedSoFar(old(Contents()), errors, left, payload, room)
        decreases |left|
      {
        var p :| p in left;
        SentNext(old(Contents()), Contents(), left, p, payload, room);
        FailedNext(old(Contents()), errors, left, p, payload, room);
        var ok := SendToPeer(p, payload, room(p));
        if !ok { errors := errors + [p]; }
        left := left - {p};
      }
      SentEnds(old(Contents()), Contents(), payload, room);
    }
  }

  /** Everybody but `left` has been sent to. */
  ghost predicate SentSoFar(start: Net, now: Net, left: set<PeerId>, payload: Bytes, room: PeerId -> nat) {
    && left <= start.connections.Keys == now.connections.Keys && start.messagesSent.Keys == now.messagesSent.Keys
    && (forall p :: p in now.connections ==>
          now.connections[p]
            == if p in left then start.connections[p] else SentToAll(start, payload, room).connections[p])
    && (forall p :: p in now.messagesSent ==>
          now.messagesSent[p]
            == if p in left then start.messagesSent[p] else SentToAll(start, payload, room).messagesSent[p])
  }

  lemma SentNext(start: Net, now: Net, left: set<PeerId>, p: PeerId, payload: Bytes, room: PeerId -> nat)
    requires SentSoFar(start, now, left, payload, room) && p in left
    ensures SentSoFar(start, Sent(now, p, payload, room(p)), left - {p}, payload, room)
    ensures Reached(now, p, payload, room(p)) <==> room(p) >= |Frame(payload)|
  {
  }

  ghost predicate FailedSoFar(n: Net, errors: seq<PeerId>, left: set<PeerId>, payload: Bytes, room: PeerId -> nat) {
    && (forall p :: p in errors <==> p in n.connections && p !in left && room(p) < |Frame(payload)|)
    && (forall i, j :: 0 <= i < j < |errors| ==> errors[i] != errors[j])
  }

  lemma FailedNext(n: Net, errors: seq<PeerId>, left: set<PeerId>, p: PeerId, payload: Bytes, room: PeerId -> nat)
    requires FailedSoFar(n, errors, left, payload, room) && p in left && p in n.connections
    ensures FailedSoFar(n, if room(p) < |Frame(payload)| then errors + [p] else errors, left - {p}, payload, room)
  {
    assert p !in errors;
  }

  lemma SentEnds(start: Net, now: Net, payload: Bytes, room: PeerId -> nat)
    requires SentSoFar(start, now, {}, payload, room)
    ensures now == SentToAll(start, payload, room)
  {
    assert now.connections == SentToAll(start, payload, room).connections;
    assert now.messagesSent == SentToAll(start, payload, room).messagesSent;
  }

  /** What gets through of some bytes when there is room for `room`. */
  function Written(b: Bytes, room: nat): Bytes {
    if |b| <= room then b else b[..room]
  }

  lemma WrittenInTwo(a: Bytes, b: Bytes, room: nat)
    ensures Written(a + b, room) == Written(a, room) + (if room < |a| then [] else Written(b, room - |a|))
  {
  }

  // ---- Reading ----

  datatype Event<M> = MessageReceived(peer: PeerId, message: M) | PeerDisconnected(peer: PeerId)

  /** The bytes a connection will still yield before it closes. */
  class Reader {
    var rest: Bytes

    constructor (stream: Bytes)
      ensures rest == stream
    {
      rest := stream;
    }

    method ReadExact(n: nat) returns (r: Option<Bytes>)
      modifies this
      ensures r == if n <= |old(rest)| then Some(old(rest)[..n]) else None
      ensures rest == if n <= |old(rest)| then old(rest)[n..] else []
    {
      if n <= |rest| {
        r, rest := Some(rest[..n]), rest[n..];
      } else {
        r, rest := None, [];
      }
    }
  }

  /** The next payload of a stream, if its length is in bounds and all of it is there. */
  function Next(s: Bytes): Option<Bytes> {
    if |s| < 4 then None
    else
      var n := FromBytes(s[..4]);
      if n > MAX_MESSAGE_SIZE || |s| < 4 + n then None else Some(s[4..4 + n])
  }

  /** The payloads of a stream, up to the first length that is too large or the first short read. */
  function Payloads(s: Bytes): seq<Bytes>
    decreases |s|
  {
    match Next(s)
    case None => []
    case Some(p) => [p] + Payloads(s[4 + |p|..])
  }

  /** The events for the payloads that decode; the others are dropped. */
  function Received<M>(peer: PeerId, decode: Bytes -> Option<M>, payloads: seq<Bytes>): seq<Event<M>> {
    if payloads == [] then []
    else EventsOf(peer, decode, payloads[0]) + Received(peer, decode, payloads[1..])
  }

  /** What one more payload adds to the events. */
  function EventsOf<M>(peer: PeerId, decode: Bytes -> Option<M>, payload: Bytes): seq<Event<M>> {
    match decode(payload)
    case Some(m) => [MessageReceived(peer, m)]
    case None => []
  }

  function EventFor<M>(peer: PeerId, decode: Bytes -> Option<M>): Bytes -> Option<Event<M>> {
    (payload: Bytes) =>
      match decode(payload)
      case Some(m) => Some(MessageReceived(peer, m))
      case None => None
  }

  lemma {:induction false} ReceivedIsKept<M>(peer: PeerId, decode: Bytes -> Option<M>, payloads: seq<Bytes>)
    ensures Received(peer, decode, payloads) == Kept(EventFor(peer, decode), payloads)
  {
    if payloads != [] {
      var first := payloads[..1];
      ReceivedIsKept(peer, decode, payloads[1..]);
      KeptAppend(EventFor(peer, decode), first, payloads[1..]);
      assert payloads == first + payloads[1..] && first[..0] == [];
      assert Kept(EventFor(peer, decode), first) == EventsOf(peer, decode, payloads[0]);
    }
  }

  /**
   * One event for each payload that decodes, in order, and no other: the k-th event is what the payload
   * at `at[k]` decodes to.
   */
  lemma EachPayloadOnce<M(!new)>(peer: PeerId, decode: Bytes -> Option<M>, payloads: seq<Bytes>) returns (at: seq<nat>)
    ensures var events := Received(peer, decode, payloads);
      && |at| == |events|
      && (forall k :: 0 <= k < |at| ==>
            && at[k] < |payloads| && decode(payloads[at[k]]).Some?
            && events[k] == MessageReceived(peer, decode(payloads[at[k]]).value))
      && (forall j, k :: 0 <= j < k < |at| ==> at[j] < at[k])
      && (forall i :: 0 <= i < |payloads| && decode(payloads[i]).Some? ==> i in at)
  {
    ReceivedIsKept(peer, decode, payloads);
    at := KeptPicksOut(EventFor(peer, decode), payloads);
  }

  lemma ReceivedNext<M>(peer: PeerId, decode: Bytes -> Option<M>, s: Bytes)
    ensures Next(s).None? ==> Received(peer, decode, Payloads(s)) == []
    ensures Next(s).Some? ==>
      var p := Next(s).value;
      Received(peer, decode, Payloads(s)) == EventsOf(peer, decode, p) + Received(peer, decode, Payloads(s[4 + |p|..]))
  {
    if Next(s).Some? {
      assert Payloads(s)[1..] == Payloads(s[4 + |Next(s).value|..]);
    }
  }

  /** Reads one length and the payload it announces; `None` is any of the three reasons to disconnect. */
  method ReadPayload(reader: Reader) returns (r: Option<Bytes>)
    modifies reader
    ensures r == Next(old(reader.rest))
    ensures r.Some? ==> reader.rest == old(reader.rest)[4 + |r.value|..]
  {
    var prefix := reader.ReadExact(4);
    if prefix.None? { return None; }
    var len := FromBytes(prefix.value);
    if len > MAX_MESSAGE_SIZE { return None; }
    r := reader.ReadExact(len);
    assert r.Some? ==> r.value == old(reader.rest)[4..4 + len];
  }

  /** Whatever the stream holds, the loop hands on its payloads in order and then disconnects, once. */
  method ReadLoop<M>(peer: PeerId, reader: Reader, decode: Bytes -> Option<M>) returns (events: seq<Event<M>>)
    modifies reader
    ensures events == Received(peer, decode, Payloads(old(reader.rest))) + [PeerDisconnected(peer)]
  {
    ghost var all := Received(peer, decode, Payloads(reader.rest));
    events := [];
    while true
      invariant events + Received(peer, decode, Payloads(reader.rest)) == all
      decreases |reader.rest|
    {
      ghost var before := events;
      ReceivedNext(peer, decode, reader.rest);
      var payload := ReadPayload(reader);
      if payload.None? {
        assert events == all;
        return events + [PeerDisconnected(peer)];
      }
      match decode(payload.value) {
        case Some(m) => events := events + [MessageReceived(peer, m)];
        case None =>
      }
      assert events == before + EventsOf(peer, decode, payload.value);
      Regroup(before, EventsOf(peer, decode, payload.value), Received(peer, decode, Payloads(reader.rest)));
    }
  }

  // ---- What was sent is what is read ----

  predicate Fits(payload: Bytes) { |payload| <= MAX_MESSAGE_SIZE }

  ghost predicate AllFit(payloads: seq<Bytes>) {
    forall i :: 0 <= i < |payloads| ==> Fits(payloads[i])
  }

  lemma FrameSplits(payload: Bytes, rest: Bytes)
    ensures var s := Frame(payload) + rest;
      && s[..4] == ToBytes(|payload|) && FromBytes(s[..4]) == |payload| % U32
      && s[4..4 + |payload|] == payload && s[4 + |payload|..] == rest
  {
    FromToBytes(|payload|);
    assert (Frame(payload) + rest)[..4] == ToBytes(|payload|);
  }

  /** Reading one fitting frame leaves the rest of the stream to be read. */
  lemma ReadFrame(payload: Bytes, rest: Bytes)
    requires Fits(payload)
    ensures Payloads(Frame(payload) + rest) == [payload] + Payloads(rest)
  {
    FrameSplits(payload, rest);
    assert Next(Frame(payload) + rest) == Some(payload);
  }

  /** Ten mebibytes are read; one byte more, and nothing from there on is. */
  lemma LargestPayload(payload: Bytes, rest: Bytes)
    ensures |payload| <= 10485760 ==> Payloads(Frame(payload) + rest) == [payload] + Payloads(rest)
    ensures 10485760 < |payload| < 0x1_0000_0000 ==> Payloads(Frame(payload) + rest) == []
  {
    FrameSplits(payload, rest);
    if Fits(payload) { ReadFrame(payload, rest); }
  }

  /** A frame that does not fit is never read as what it was. */
  lemma OversizeIsLost(payload: Bytes, rest: Bytes)
    requires !Fits(payload)
    ensures var r := Payloads(Frame(payload) + rest); r == [] || |r[0]| < |payload|
  {
    FrameSplits(payload, rest);
  }

  /** The reader gets exactly the list that was sent if and only if every payload fits; the sender does not check. */
  lemma {:induction false} RoundTripIff(payloads: seq<Bytes>)
    ensures Payloads(Frames(payloads)) == payloads <==> AllFit(payloads)
  {
    if payloads != [] {
      var rest := payloads[1..];
      assert payloads == [payloads[0]] + rest;
      if Fits(payloads[0]) {
        ReadFrame(payloads[0], Frames(rest));
        RoundTripIff(rest);
        assert ([payloads[0]] + Payloads(Frames(rest)))[1..] == Payloads(Frames(rest));
        assert AllFit(payloads) <==> AllFit(rest);
      } else {
        OversizeIsLost(payloads[0], Frames(rest));
      }
    }
  }

  lemma {:induction false} AllReceived<M(!new)>(peer: PeerId, encode: M -> Bytes, decode: Bytes -> Option<M>,
      messages: seq<M>)
    requires forall m :: decode(encode(m)) == Some(m)
    ensures Received(peer, decode, Encoded(encode, messages)) ==
      seq(|messages|, i requires 0 <= i < |messages| => MessageReceived(peer, messages[i]))
  {
    if messages != [] {
      AllReceived(peer, encode, decode, messages[1..]);
      assert Encoded(encode, messages)[1..] == Encoded(encode, messages[1..]);
    }
  }

  function Encoded<M>(encode: M -> Bytes, messages: seq<M>): seq<Bytes> {
    seq(|messages|, i requires 0 <= i < |messages| => encode(messages[i]))
  }

  /** Messages whose encoding fits and decodes again all arrive, each once, in order. */
  lemma MessagesArrive<M(!new)>(peer: PeerId, encode: M -> Bytes, decode: Bytes -> Option<M>, messages: seq<M>)
    requires forall m :: decode(encode(m)) == Some(m)
    requires AllFit(Encoded(encode, messages))
    ensures Received(peer, decode, Payloads(Frames(Encoded(encode, messages))))
      == seq(|messages|, i requires 0 <= i < |messages| => MessageReceived(peer, messages[i]))
  {
    RoundTripIff(Encoded(encode, messages));
    AllReceived(peer, encode, decode, messages);
  }

  // ---- Streams cut short ----

  /** More bytes only ever add payloads at the end. */
  lemma {:induction false} MoreBytesExtend(s: Bytes, t: Bytes)
    ensures Payloads(s) <= Payloads(s + t)
    decreases |s|
  {
    var n := Next(s);
    NextExtends(s, t);
    if n.Some? {
      var size := 4 + |n.value|;
      assert (s + t)[size..] == s[size..] + t;
      MoreBytesExtend(s[size..], t);
    }
  }

  lemma NextExtends(s: Bytes, t: Bytes)
    ensures Next(s).Some? ==> Next(s + t) == Next(s)
  {
    if Next(s).Some? {
      assert (s + t)[..4] == s[..4];
      var n := FromBytes(s[..4]);
      assert (s + t)[4..4 + n] == s[4..4 + n];
    }
  }

  /** How many whole frames lie within the first `n` bytes. */
  function WholeFrames(payloads: seq<Bytes>, n: nat): (k: nat)
    ensures k <= |payloads|
  {
    if payloads == [] || n < 4 + |payloads[0]| then 0 else 1 + WholeFrames(payloads[1..], n - 4 - |payloads[0]|)
  }

  /** Fitting frames are read off a stream one after the other, whatever follows them. */
  lemma {:induction false} ReadFrames(payloads: seq<Bytes>, rest: Bytes)
    requires AllFit(payloads)
    ensures Payloads(Frames(payloads) + rest) == payloads + Payloads(rest)
  {
    if payloads == [] {
      assert Frames(payloads) + rest == rest;
    } else {
      var p, tail := payloads[0], Frames(payloads[1..]) + rest;
      Regroup(Frame(p), Frames(payloads[1..]), rest);
      assert Payloads(Frame(p) + tail) == [p] + Payloads(tail) by { ReadFrame(p, tail); }
      ReadFrames(payloads[1..], rest);
      Regroup([p], payloads[1..], Payloads(rest));
      assert payloads == [p] + payloads[1..];
    }
  }

  /** A stream cut anywhere is its whole frames and the beginning of one more. */
  lemma {:induction false} CutShape(payloads: seq<Bytes>, n: nat) returns (piece: Bytes)
    requires n <= |Frames(payloads)|
    ensures var k := WholeFrames(payloads, n);
      && Frames(payloads)[..n] == Frames(payloads[..k]) + piece
      && if k == |payloads| then piece == [] else |piece| < 4 + |payloads[k]| && piece == Frame(payloads[k])[..|piece|]
  {
    if payloads == [] {
      piece := [];
    } else {
      var p, rest := payloads[0], payloads[1..];
      if n < 4 + |p| {
        piece := Frame(p)[..n];
      } else {
        var k := WholeFrames(rest, n - 4 - |p|);
        piece := CutShape(rest, n - 4 - |p|);
        assert payloads[..k + 1] == [p] + rest[..k] && payloads[..k + 1][1..] == rest[..k];
        assert Frames(payloads)[..n] == Frame(p) + Frames(rest)[..n - 4 - |p|];
        Regroup(Frame(p), Frames(rest[..k]), piece);
      }
    }
  }

  /** Cutting the stream anywhere loses exactly the frames that are no longer whole. */
  lemma CutStream(payloads: seq<Bytes>, n: nat)
    requires AllFit(payloads) && n <= |Frames(payloads)|
    ensures Payloads(Frames(payloads)[..n]) == payloads[..WholeFrames(payloads, n)]
  {
    var k := WholeFrames(payloads, n);
    var piece := CutShape(payloads, n);
    ReadFrames(payloads[..k], piece);
    if k < |payloads| { CutFrame(payloads[k], |piece|); }
  }

  /** A write that fails part-way loses no payload before it, and its own as long as nothing more is written. */
  lemma FailedWriteLosesOne(payloads: seq<Bytes>, payload: Bytes, room: nat)
    requires AllFit(payloads) && Fits(payload) && room < |Frame(payload)|
    ensures Payloads(Frames(payloads) + Written(Frame(payload), room)) == payloads
  {
    CutFrame(payload, room);
    ReadFrames(payloads, Written(Frame(payload), room));
  }

  /** What a torn frame and the bytes after it are read as, when `missing` bytes of its payload did not get through. */
  function TornRead(payload: Bytes, missing: nat, later: Bytes): seq<Bytes>
    requires missing <= |payload|
  {
    if |later| < missing then [] else [payload[..|payload| - missing] + later[..missing]] + Payloads(later[missing..])
  }

  /**
   * Whatever is written to the connection after a frame torn within its payload is first taken for the
   * rest of that payload, and only what lies behind is read as frames again.
   */
  lemma TornFrameSwallows(payloads: seq<Bytes>, payload: Bytes, room: nat, later: Bytes)
    requires AllFit(payloads) && Fits(payload) && 4 <= room < |Frame(payload)|
    ensures Payloads(Frames(payloads) + (Written(Frame(payload), room) + later))
      == payloads + TornRead(payload, |Frame(payload)| - room, later)
  {
    ReadFrames(payloads, Written(Frame(payload), room) + later);
    TornBytes(payload, room, later);
  }

  lemma TornBytes(payload: Bytes, room: nat, later: Bytes)
    requires Fits(payload) && 4 <= room < |Frame(payload)|
    ensures Payloads(Written(Frame(payload), room) + later) == TornRead(payload, |Frame(payload)| - room, later)
  {
    var missing := 4 + |payload| - room;
    TornFrame(payload, room);
    assert payload[..room - 4] == payload[..|payload| - missing];
    TornBody(payload, ToBytes(|payload|), missing, later);
  }

  lemma TornFrame(payload: Bytes, room: nat)
    requires Fits(payload) && 4 <= room < |Frame(payload)|
    ensures FromBytes(ToBytes(|payload|)) == |payload|
    ensures Written(Frame(payload), room) == ToBytes(|payload|) + payload[..room - 4]
  {
    FromToBytes(|payload|);
  }

  lemma TornBody(payload: Bytes, prefix: Bytes, missing: nat, later: Bytes)
    requires Fits(payload) && |prefix| == 4 && FromBytes(prefix) == |payload| && 0 < missing <= |payload|
    ensures Payloads(prefix + payload[..|payload| - missing] + later) == TornRead(payload, missing, later)
  {
    var kept := payload[..|payload| - missing];
    Regroup(prefix, kept, later);
    if |later| < missing {
      ShortBody(prefix, kept + later);
    } else {
      assert kept + later == (kept + later[..missing]) + later[missing..];
      WholeBody(prefix, kept + later[..missing], later[missing..]);
    }
  }

  lemma ShortBody(prefix: Bytes, body: Bytes)
    requires |prefix| == 4 && |body| < FromBytes(prefix)
    ensures Payloads(prefix + body) == []
  {
    assert (prefix + body)[..4] == prefix;
  }

  lemma WholeBody(prefix: Bytes, body: Bytes, rest: Bytes)
    requires |prefix| == 4 && |body| == FromBytes(prefix) && Fits(body)
    ensures Payloads(prefix + (body + rest)) == [body] + Payloads(rest)
  {
    var s := prefix + (body + rest);
    assert s[..4] == prefix && s[4..4 + |body|] == body && s[4 + |body|..] == rest;
    assert Next(s) == Some(body);
  }

  /** So the torn payload is read as it was exactly when the bytes that happen to follow are the ones it lacks. */
  lemma TornReadIff(payload: Bytes, missing: nat, later: Bytes)
    requires missing <= |payload| && missing <= |later|
    ensures TornRead(payload, missing, later)[0] == payload <==> later[..missing] == payload[|payload| - missing..]
  {
    var kept := payload[..|payload| - missing];
    assert payload == kept + payload[|payload| - missing..];
    assert (kept + later[..missing])[|kept|..] == later[..missing];
  }

  lemma CutFrame(payload: Bytes, n: nat)
    requires Fits(payload) && n < |Frame(payload)|
    ensures Payloads(Frame(payload)[..n]) == []
  {
    if n >= 4 {
      FromToBytes(|payload|);
      assert Frame(payload)[..n][..4] == ToBytes(|payload|);
    }
  }

  /** Counting whole frames means what it says. */
  lemma {:induction false} WholeFramesFit(payloads: seq<Bytes>, n: nat)
    requires n <= |Frames(payloads)|
    ensures var k := WholeFrames(payloads, n);
      |Frames(payloads[..k])| <= n && (k < |payloads| ==> n < |Frames(payloads[..k + 1])|)
  {
    if payloads != [] && n >= 4 + |payloads[0]| {
      var rest, m := payloads[1..], n - 4 - |payloads[0]|;
      WholeFramesFit(rest, m);
      var k := WholeFrames(rest, m);
      assert payloads[..k + 1][1..] == rest[..k];
      if k < |rest| { assert payloads[..k + 2][1..] == rest[..k + 1]; }
    } else if payloads != [] {
      assert payloads[..1][1..] == [];
    }
  }
}
