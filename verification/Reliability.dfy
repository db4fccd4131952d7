/**
  The control channel's reliability layer (src/session.rs): packet ids, the unacked queue with
  exponential backoff, pending acks, the envelope's own packet ids, and the fragments of a flush, as
  functions on values.
 */
module Reliability {
  import opened Bytes
  import opened Bits
  import opened Protocol

  const MAX_TLS_PAYLOAD: nat := 1100
  const MAX_ATTEMPTS: nat := 6

  datatype Unacked = Unacked(id: u32, encoded: ByteString, sentAt: nat, attempts: nat)

  /** The fields of a session that this layer reads and writes. */
  datatype Reliable = Reliable(
    nextId: u32,
    pending: seq<u32>,
    received: set<u32>,
    unacked: seq<Unacked>,
    envelopeId: u32)

  const Init := Reliable(0, [], {}, [], 1)

  /** `checked_add(1).unwrap_or(1)`: 0 is skipped. */
  function NextEnvelopeId(id: u32): u32 {
    if id + 1 < U32_COUNT then id + 1 else 1
  }

  // ---------------------------------------------------------------------------------------------
  // Single operations
  // ---------------------------------------------------------------------------------------------

  function NoteReceived(r: Reliable, id: u32): Reliable {
    if id in r.received then r else r.(received := r.received + {id}, pending := r.pending + [id])
  }

  /** Entries whose id is not acknowledged, in order. */
  function Unacknowledged(q: seq<Unacked>, acks: seq<u32>): seq<Unacked> {
    if q == [] then []
    else (if q[0].id in acks then [] else [q[0]]) + Unacknowledged(q[1..], acks)
  }

  /** Entries that may still be sent again, in order. */
  function Alive(q: seq<Unacked>): seq<Unacked> {
    if q == [] then []
    else (if q[0].attempts < MAX_ATTEMPTS then [q[0]] else []) + Alive(q[1..])
  }

  function Min(a: int, b: int): int {
    if a < b then a else b
  }

  function Backoff(u: Unacked, base: nat): nat {
    base * Pow2(if u.attempts == 0 then 0 else Min(u.attempts - 1, 5))
  }

  /** The waiting times in full: one base timeout after the first transmission, doubling up to 32. */
  lemma BackoffTable(u: Unacked, base: nat)
    ensures u.attempts <= 1 ==> Backoff(u, base) == base
    ensures u.attempts == 2 ==> Backoff(u, base) == 2 * base
    ensures u.attempts == 3 ==> Backoff(u, base) == 4 * base
    ensures u.attempts == 4 ==> Backoff(u, base) == 8 * base
    ensures u.attempts == 5 ==> Backoff(u, base) == 16 * base
    ensures u.attempts >= 6 ==> Backoff(u, base) == 32 * base
  {
    assert Pow2(3) == 8 && Pow2(5) == 32;
  }

  /** Time since the last transmission; a clock that went back counts as no time. */
  function Elapsed(u: Unacked, now: nat): nat {
    if now >= u.sentAt then now - u.sentAt else 0
  }

  predicate Due(u: Unacked, now: nat, base: nat) {
    Elapsed(u, now) >= Backoff(u, base)
  }

  function Resent(u: Unacked, now: nat): Unacked {
    u.(sentAt := now, attempts := u.attempts + 1)
  }

  function Bumped(q: seq<Unacked>, now: nat, base: nat): (r: seq<Unacked>)
    ensures |r| == |q|
  {
    seq(|q|, i requires 0 <= i < |q| => if Due(q[i], now, base) then Resent(q[i], now) else q[i])
  }

  function DueOnes(q: seq<Unacked>, now: nat, base: nat): seq<Unacked> {
    if q == [] then []
    else (if Due(q[0], now, base) then [q[0]] else []) + DueOnes(q[1..], now, base)
  }

  /** `stale_unacked`: the queue afterwards. */
  function AfterTick(q: seq<Unacked>, now: nat, base: nat): seq<Unacked> {
    Bumped(Alive(q), now, base)
  }

  /** `stale_unacked`: what is to be sent again. */
  function Retransmits(q: seq<Unacked>, now: nat, base: nat): seq<Unacked> {
    DueOnes(Alive(q), now, base)
  }

  /** Who a packet is from and to. */
  datatype Ids = Ids(serverSid: u64, clientSid: u64)

  /** `make_control`: takes the next id and all pending acks. */
  function MakeControl(r: Reliable, ids: Ids, keyId: byte, payload: ByteString): (Reliable, ControlPacket) {
    (r.(nextId := NextU32(r.nextId), pending := []),
     ControlPacket(ControlV1, keyId, ids.serverSid, r.pending,
                   if r.pending == [] then None else Some(ids.clientSid), Some(r.nextId), payload))
  }

  /** The reset packets: `make_hard_reset_reply`, `make_soft_reset_reply`, `make_soft_reset_init`. */
  function MakeReset(r: Reliable, ids: Ids, op: OpCode, keyId: byte, ack: Option<u32>): (Reliable, ControlPacket) {
    (r.(nextId := NextU32(r.nextId)),
     match ack
     case Some(id) => ControlPacket(op, keyId, ids.serverSid, [id], Some(ids.clientSid), Some(r.nextId), [])
     case None => ControlPacket(op, keyId, ids.serverSid, [], None, Some(r.nextId), []))
  }

  function MakeAck(ids: Ids, keyId: byte, acks: seq<u32>): ControlPacket {
    ControlPacket(AckV1, keyId, ids.serverSid, acks, Some(ids.clientSid), None, [])
  }

  function Track(r: Reliable, id: u32, encoded: ByteString, now: nat): Reliable {
    r.(unacked := r.unacked + [Unacked(id, encoded, now, 1)])
  }

  function UseEnvelopeId(r: Reliable): Reliable {
    r.(envelopeId := NextEnvelopeId(r.envelopeId))
  }

  /** `send_and_track` of a packet that carries an id. */
  function SendTracked(r: Reliable, p: ControlPacket, enveloped: bool, now: nat, sent: bool): Reliable
    requires p.packetId.Some?
  {
    var r' := if enveloped then UseEnvelopeId(r) else r;
    if sent then Track(r', p.packetId.value, Encode(p), now) else r'
  }

  /** Every packet the builders make is well formed, as long as no more than 255 acks are pending. */
  lemma BuildersWellFormed(r: Reliable, ids: Ids, op: OpCode, keyId: byte, ack: Option<u32>, payload: ByteString)
    requires keyId < 8 && IsControl(op) && op != AckV1
    ensures WellFormed(MakeControl(r, ids, keyId, payload).1) <==> |r.pending| <= 255
    ensures WellFormed(MakeReset(r, ids, op, keyId, ack).1)
    ensures WellFormed(MakeAck(ids, keyId, r.pending)) <==> 0 < |r.pending| <= 255
  {}

  /** What the peer reads of a reset and of a pure ack: from the server's session, to the client's,
      acknowledging exactly what was asked. */
  lemma PeerReadsBuilders(r: Reliable, ids: Ids, op: OpCode, keyId: byte, ack: Option<u32>)
    requires keyId < 8 && IsControl(op) && op != AckV1
    ensures var p := Parse(Encode(MakeReset(r, ids, op, keyId, ack).1));
            && p.Ok? && p.value.op == op && p.value.keyId == keyId && p.value.sessionId == ids.serverSid
            && p.value.packetId == Some(r.nextId) && p.value.payload == []
            && p.value.acks == (match ack case Some(id) => [id] case None => [])
            && p.value.remoteSessionId == (if ack.Some? then Some(ids.clientSid) else None)
    ensures 0 < |r.pending| <= 255 ==>
              var p := Parse(Encode(MakeAck(ids, keyId, r.pending)));
              && p.Ok? && p.value.op == AckV1 && p.value.keyId == keyId && p.value.sessionId == ids.serverSid
              && p.value.acks == r.pending && p.value.remoteSessionId == Some(ids.clientSid)
              && p.value.packetId == None && p.value.payload == []
  {
    BuildersWellFormed(r, ids, op, keyId, ack, []);
    WellFormedParses(MakeReset(r, ids, op, keyId, ack).1);
    if 0 < |r.pending| <= 255 {
      WellFormedParses(MakeAck(ids, keyId, r.pending));
    }
  }

  // ---------------------------------------------------------------------------------------------
  // Fragmenting TLS output
  // ---------------------------------------------------------------------------------------------

  /** `out.chunks(1100)` */
  function Chunks(out: ByteString): seq<ByteString> {
    if |out| <= MAX_TLS_PAYLOAD then (if out == [] then [] else [out])
    else [out[..MAX_TLS_PAYLOAD]] + Chunks(out[MAX_TLS_PAYLOAD..])
  }

  /** The packets built for `chunks` when the transport takes `accepts` of them, the session
      afterwards, and whether all were taken. */
  function SendChunks(r: Reliable, ids: Ids, keyId: byte, chunks: seq<ByteString>, enveloped: bool, now: nat,
                      accepts: nat)
    : (Reliable, seq<ControlPacket>, bool)
    decreases |chunks|
  {
    if chunks == [] then (r, [], true)
    else
      var p := MakeControl(r, ids, keyId, chunks[0]).1;
      var r2 := AfterFirst(r, ids, keyId, chunks[0], enveloped, now, accepts > 0);
      if accepts == 0 then (r2, [p], false)
      else
        var (r3, ps, ok) := SendChunks(r2, ids, keyId, chunks[1..], enveloped, now, accepts - 1);
        (r3, [p] + ps, ok)
  }

  lemma {:induction false} ChunksJoin(out: ByteString)
    ensures Concat(Chunks(out)) == out
    ensures forall c | c in Chunks(out) :: 0 < |c| <= MAX_TLS_PAYLOAD
    ensures forall i | 0 <= i < |Chunks(out)| - 1 :: |Chunks(out)[i]| == MAX_TLS_PAYLOAD
    decreases |out|
  {
    if |out| > MAX_TLS_PAYLOAD {
      ChunksJoin(out[MAX_TLS_PAYLOAD..]);
      assert Chunks(out)[1..] == Chunks(out[MAX_TLS_PAYLOAD..]);
    } else if out != [] {
      assert Concat([out][1..]) == [];
    }
  }

  /** The `i`th packet of a flush, field by field. */
  predicate FragmentShape(r: Reliable, ids: Ids, keyId: byte, chunk: ByteString, p: ControlPacket, i: nat) {
    && p.op == ControlV1 && p.keyId == keyId && p.sessionId == ids.serverSid
    && p.payload == chunk
    && p.packetId == Some((r.nextId + i) % 0x1_0000_0000)
    && p.acks == (if i == 0 then r.pending else [])
    && p.remoteSessionId == (if i == 0 && r.pending != [] then Some(ids.clientSid) else None)
  }

  ghost predicate FlushShape(r: Reliable, ids: Ids, keyId: byte, chunks: seq<ByteString>, ps: seq<ControlPacket>) {
    && |ps| <= |chunks|
    && forall i | 0 <= i < |ps| :: FragmentShape(r, ids, keyId, chunks[i], ps[i], i)
  }

  predicate AllNumbered(ps: seq<ControlPacket>) {
    forall p | p in ps :: p.packetId.Some?
  }

  function Entry(p: ControlPacket, now: nat): Unacked
    requires p.packetId.Some?
  {
    Unacked(p.packetId.value, Encode(p), now, 1)
  }

  /** Queue entries for the packets `ps`, in order. */
  function Entries(ps: seq<ControlPacket>, now: nat): seq<Unacked>
    requires AllNumbered(ps)
  {
    if ps == [] then [] else [Entry(ps[0], now)] + Entries(ps[1..], now)
  }

  /** What a flush leaves of the counters. */
  predicate FlushedCounters(r: Reliable, r': Reliable, chunks: seq<ByteString>, built: nat) {
    && r'.nextId == (r.nextId + built) % 0x1_0000_0000
    && r'.pending == (if chunks == [] then r.pending else [])
    && r'.received == r.received
  }

  /** The queue has grown by the packets the transport took. */
  predicate FlushedQueue(r: Reliable, r': Reliable, ps: seq<ControlPacket>, accepts: nat, now: nat) {
    && AllNumbered(ps)
    && r'.unacked == r.unacked + Entries(ps[..Min(|ps|, accepts)], now)
  }

  /** The session after the first packet of a flush. */
  function AfterFirst(r: Reliable, ids: Ids, keyId: byte, chunk: ByteString, enveloped: bool, now: nat,
                      sent: bool): Reliable {
    var (r1, p) := MakeControl(r, ids, keyId, chunk);
    SendTracked(r1, p, enveloped, now, sent)
  }

  lemma AfterFirstFields(r: Reliable, ids: Ids, keyId: byte, chunk: ByteString, enveloped: bool, now: nat, sent: bool)
    ensures var r' := AfterFirst(r, ids, keyId, chunk, enveloped, now, sent);
            var p := MakeControl(r, ids, keyId, chunk).1;
            && r'.nextId == NextU32(r.nextId) && r'.pending == [] && r'.received == r.received
            && p.packetId.Some? && r'.unacked == r.unacked + (if sent then [Entry(p, now)] else [])
  {}

  lemma IdStep(id: u32, i: nat)
    ensures (NextU32(id) + i) % 0x1_0000_0000 == (id + (i + 1)) % 0x1_0000_0000
  {
    WrapAdd(id + 1, i);
  }

  lemma FlushShapeCons(r: Reliable, r': Reliable, ids: Ids, keyId: byte, chunks: seq<ByteString>,
                       ps: seq<ControlPacket>)
    requires chunks != [] && r'.nextId == NextU32(r.nextId) && r'.pending == []
    requires FlushShape(r', ids, keyId, chunks[1..], ps)
    ensures FlushShape(r, ids, keyId, chunks, [MakeControl(r, ids, keyId, chunks[0]).1] + ps)
  {
    var all := [MakeControl(r, ids, keyId, chunks[0]).1] + ps;
    forall i | 0 <= i < |all|
      ensures FragmentShape(r, ids, keyId, chunks[i], all[i], i)
    {
      if i > 0 {
        assert FragmentShape(r', ids, keyId, chunks[1..][i - 1], ps[i - 1], i - 1);
        IdStep(r.nextId, i - 1);
      }
    }
  }

  lemma {:induction false} FlushPackets(
    r: Reliable, ids: Ids, keyId: byte, chunks: seq<ByteString>, enveloped: bool, now: nat, accepts: nat)
    ensures var (r', ps, ok) := SendChunks(r, ids, keyId, chunks, enveloped, now, accepts);
            && FlushShape(r, ids, keyId, chunks, ps)
            && |ps| == Min(|chunks|, accepts + 1) && (ok <==> accepts >= |chunks|)
    decreases |chunks|
  {
    if chunks != [] {
      var r2 := AfterFirst(r, ids, keyId, chunks[0], enveloped, now, accepts > 0);
      AfterFirstFields(r, ids, keyId, chunks[0], enveloped, now, accepts > 0);
      if accepts > 0 {
        FlushPackets(r2, ids, keyId, chunks[1..], enveloped, now, accepts - 1);
        FlushShapeCons(r, r2, ids, keyId, chunks,
                       SendChunks(r2, ids, keyId, chunks[1..], enveloped, now, accepts - 1).1);
      }
    }
  }

  lemma CountersStep(r: Reliable, r2: Reliable, r': Reliable, chunks: seq<ByteString>, built: nat)
    requires chunks != [] && r2.nextId == NextU32(r.nextId) && r2.pending == [] && r2.received == r.received
    requires FlushedCounters(r2, r', chunks[1..], built)
    ensures FlushedCounters(r, r', chunks, built + 1)
  {
    IdStep(r.nextId, built);
  }

  lemma {:induction false} FlushCounters(
    r: Reliable, ids: Ids, keyId: byte, chunks: seq<ByteString>, enveloped: bool, now: nat, accepts: nat)
    ensures var (r', ps, ok) := SendChunks(r, ids, keyId, chunks, enveloped, now, accepts);
            FlushedCounters(r, r', chunks, |ps|)
    decreases |chunks|
  {
    if chunks != [] {
      var r2 := AfterFirst(r, ids, keyId, chunks[0], enveloped, now, accepts > 0);
      AfterFirstFields(r, ids, keyId, chunks[0], enveloped, now, accepts > 0);
      if accepts > 0 {
        FlushCounters(r2, ids, keyId, chunks[1..], enveloped, now, accepts - 1);
        var (r', ps, ok) := SendChunks(r2, ids, keyId, chunks[1..], enveloped, now, accepts - 1);
        CountersStep(r, r2, r', chunks, |ps|);
      }
    }
  }

  lemma EntriesCons(p: ControlPacket, ps: seq<ControlPacket>, now: nat)
    requires p.packetId.Some? && AllNumbered(ps)
    ensures AllNumbered([p] + ps)
    ensures Entries([p] + ps, now) == [Entry(p, now)] + Entries(ps, now)
  {
    assert ([p] + ps)[1..] == ps;
  }

  lemma TakenCons(p: ControlPacket, ps: seq<ControlPacket>, n: nat)
    requires p.packetId.Some? && AllNumbered(ps) && n <= |ps|
    ensures AllNumbered(ps[..n]) && AllNumbered([p] + ps) && ([p] + ps)[..n + 1] == [p] + ps[..n]
  {}

  lemma TakenEntries(p: ControlPacket, ps: seq<ControlPacket>, n: nat, now: nat)
    requires p.packetId.Some? && AllNumbered(ps) && n <= |ps|
    ensures AllNumbered(ps[..n]) && AllNumbered([p] + ps)
    ensures Entries(([p] + ps)[..n + 1], now) == [Entry(p, now)] + Entries(ps[..n], now)
  {
    TakenCons(p, ps, n);
    EntriesCons(p, ps[..n], now);
  }

  lemma FlushedQueueCons(r: Reliable, r2: Reliable, r': Reliable, p: ControlPacket, e: Unacked, ps: seq<ControlPacket>,
                         accepts: nat, now: nat)
    requires p.packetId.Some? && e == Entry(p, now) && r2.unacked == r.unacked + [e]
    requires FlushedQueue(r2, r', ps, accepts, now)
    ensures FlushedQueue(r, r', [p] + ps, accepts + 1, now)
  {
    var n := Min(|ps|, accepts);
    TakenEntries(p, ps, n, now);
    QueueAssoc(r.unacked, [e], Entries(ps[..n], now));
    assert Min(|[p] + ps|, accepts + 1) == n + 1;
  }

  lemma QueueAssoc(a: seq<Unacked>, b: seq<Unacked>, c: seq<Unacked>)
    ensures (a + b) + c == a + (b + c)
  {}

  lemma FlushedNone(r: Reliable, r': Reliable, ps: seq<ControlPacket>, accepts: nat, now: nat)
    requires r'.unacked == r.unacked && AllNumbered(ps) && (ps == [] || accepts == 0)
    ensures FlushedQueue(r, r', ps, accepts, now)
  {
    assert ps[..0] == [];
  }

  lemma {:induction false} FlushQueue(
    r: Reliable, ids: Ids, keyId: byte, chunks: seq<ByteString>, enveloped: bool, now: nat, accepts: nat)
    ensures var (r', ps, ok) := SendChunks(r, ids, keyId, chunks, enveloped, now, accepts);
            FlushedQueue(r, r', ps, accepts, now)
    decreases |chunks|
  {
    if chunks == [] {
      FlushedNone(r, r, [], accepts, now);
    } else {
      var p := MakeControl(r, ids, keyId, chunks[0]).1;
      var r2 := AfterFirst(r, ids, keyId, chunks[0], enveloped, now, accepts > 0);
      AfterFirstFields(r, ids, keyId, chunks[0], enveloped, now, accepts > 0);
      if accepts > 0 {
        FlushQueue(r2, ids, keyId, chunks[1..], enveloped, now, accepts - 1);
        var (r', ps, ok) := SendChunks(r2, ids, keyId, chunks[1..], enveloped, now, accepts - 1);
        FlushedQueueCons(r, r2, r', p, Entry(p, now), ps, accepts - 1, now);
      } else {
        FlushedNone(r, r2, [p], 0, now);
      }
    }
  }

  /**
    Fragmentation, for any TLS output, any session state and any number of sends that succeed: the
    payloads are nonempty, at most 1100 bytes, and joined they are the output; ids are consecutive
    modulo 2^32; all pending acks ride on the first packet and no other; and exactly the packets the
    transport took are appended to the unacked queue, in order.
   */
  lemma FlushFragments(r: Reliable, ids: Ids, keyId: byte, out: ByteString, enveloped: bool, now: nat, accepts: nat)
    ensures Concat(Chunks(out)) == out && forall c | c in Chunks(out) :: 0 < |c| <= 1100
    ensures forall i | 0 <= i < |Chunks(out)| - 1 :: |Chunks(out)[i]| == 1100
    ensures var (r', ps, ok) := SendChunks(r, ids, keyId, Chunks(out), enveloped, now, accepts);
            && FlushShape(r, ids, keyId, Chunks(out), ps)
            && |ps| == Min(|Chunks(out)|, accepts + 1) && (ok <==> accepts >= |Chunks(out)|)
            && FlushedCounters(r, r', Chunks(out), |ps|)
            && FlushedQueue(r, r', ps, accepts, now)
  {
    ChunksJoin(out);
    FlushPackets(r, ids, keyId, Chunks(out), enveloped, now, accepts);
    FlushCounters(r, ids, keyId, Chunks(out), enveloped, now, accepts);
    FlushQueue(r, ids, keyId, Chunks(out), enveloped, now, accepts);
  }
}
