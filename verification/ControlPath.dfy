/**
  Control packets on the wire: each is encoded and wrapped under the next envelope id, whether it is
  sent for the first time or again, and the peer reads back what was sent.
 */
module ControlPath {
  import opened Bytes
  import opened EnvelopePrimitives
  import opened Protocol
  import opened Reliability
  import opened ReliabilityRuns
  import Envelope

  /** A server's envelope with the primitives it is made of. */
  datatype Wrapping = Wrapping(hmac: Hmac256, keystream: Keystream, envelope: Envelope.Envelope)

  predicate Enveloped(w: Wrapping) {
    !w.envelope.Plain?
  }

  /** The datagram for an encoded packet. */
  function Wrapped(w: Wrapping, inner: ByteString, id: u32, timestamp: u32): Result<ByteString> {
    Envelope.WrapForWire(w.hmac, w.keystream, w.envelope, inner, id, timestamp)
  }

  /** What the peer takes a datagram for: the packet, and the replay id if there is an envelope. */
  function PeerReads(w: Wrapping, wire: ByteString): Result<(ControlPacket, Option<u32>)> {
    Envelope.ReceiveControl(w.hmac, w.keystream, Envelope.Mirror(w.envelope), wire)
  }

  /** The envelope id after `n` datagrams; without an envelope none are used. */
  function WrapId(w: Wrapping, id: u32, n: nat): u32 {
    if Enveloped(w) then EnvelopeAfter(id, n) else id
  }

  /** The datagrams for `inners` in turn.  One that cannot be wrapped is left out, its id is used up. */
  function WrapEach(w: Wrapping, inners: seq<ByteString>, id: u32, timestamp: u32): seq<ByteString>
    decreases |inners|
  {
    if inners == [] then []
    else
      (match Wrapped(w, inners[0], id, timestamp) case Ok(wire) => [wire] case Err => [])
      + WrapEach(w, inners[1..], WrapId(w, id, 1), timestamp)
  }

  function EncodeAll(ps: seq<ControlPacket>): seq<ByteString> {
    seq(|ps|, i requires 0 <= i < |ps| => Encode(ps[i]))
  }

  function Encodings(q: seq<Unacked>): seq<ByteString> {
    seq(|q|, i requires 0 <= i < |q| => q[i].encoded)
  }

  /** The datagrams for packets sent in turn. */
  function Wires(w: Wrapping, ps: seq<ControlPacket>, id: u32, timestamp: u32): seq<ByteString> {
    WrapEach(w, EncodeAll(ps), id, timestamp)
  }

  lemma WiresCons(w: Wrapping, p: ControlPacket, ps: seq<ControlPacket>, id: u32, timestamp: u32)
    ensures Wrapped(w, Encode(p), id, timestamp).Ok?
    ensures Wires(w, [p] + ps, id, timestamp)
         == [Wrapped(w, Encode(p), id, timestamp).value] + Wires(w, ps, WrapId(w, id, 1), timestamp)
  {
    Envelope.EncodedWraps(w.hmac, w.keystream, w.envelope, p, id, timestamp);
    assert EncodeAll([p] + ps)[1..] == EncodeAll(ps);
  }

  lemma WiresOne(w: Wrapping, p: ControlPacket, id: u32, timestamp: u32)
    ensures Wrapped(w, Encode(p), id, timestamp).Ok?
    ensures Wires(w, [p], id, timestamp) == [Wrapped(w, Encode(p), id, timestamp).value]
  {
    assert [p] + [] == [p] && Wires(w, [], WrapId(w, id, 1), timestamp) == [];
    WiresCons(w, p, [], id, timestamp);
  }

  /** The peer takes `wire` for `p`, under envelope id `id`. */
  predicate ReadAs(w: Wrapping, wire: ByteString, p: ControlPacket, id: u32) {
    PeerReads(w, wire) == Ok((p, Envelope.ReplayId(w.envelope, id)))
  }

  /** What the receive path makes of the inner bytes `inner` under envelope id `id`. */
  function Taken(w: Wrapping, inner: ByteString, id: u32): Result<(ControlPacket, Option<u32>)> {
    match Parse(inner) case Ok(p) => Ok((p, Envelope.ReplayId(w.envelope, id))) case Err => Err
  }

  /** What the peer finds in a datagram. */
  function Unwraps(w: Wrapping, wire: ByteString): Result<(ByteString, Option<u32>)> {
    Envelope.UnwrapControl(w.hmac, w.keystream, Envelope.Mirror(w.envelope), wire)
  }

  lemma WrappedUnwraps(w: Wrapping, inner: ByteString, wire: ByteString, id: u32, timestamp: u32)
    requires Wrapped(w, inner, id, timestamp) == Ok(wire)
    ensures Unwraps(w, wire) == Ok((inner, Envelope.ReplayId(w.envelope, id)))
    ensures PeerReads(w, wire) == Taken(w, inner, id)
  {
    Envelope.UnwrapExact(w.hmac, w.keystream, w.envelope, wire, inner, id);
  }

  /** There is one datagram for each packet, from which the peer parses exactly the packet's encoding,
      under an envelope id of its own; so it takes it for that packet if and only if the packet is well
      formed. */
  predicate ReadBack(w: Wrapping, ps: seq<ControlPacket>, wires: seq<ByteString>, id: u32)
    decreases |ps|
  {
    && |wires| == |ps|
    && (ps != [] ==>
          && PeerReads(w, wires[0]) == Taken(w, Encode(ps[0]), id)
          && (ReadAs(w, wires[0], ps[0], id) <==> WellFormed(ps[0]))
          && ReadBack(w, ps[1..], wires[1..], WrapId(w, id, 1)))
  }

  lemma {:induction false} WiresReadBack(w: Wrapping, ps: seq<ControlPacket>, id: u32, timestamp: u32)
    ensures ReadBack(w, ps, Wires(w, ps, id, timestamp), id)
    decreases |ps|
  {
    if ps != [] {
      assert ps == [ps[0]] + ps[1..];
      WiresCons(w, ps[0], ps[1..], id, timestamp);
      WiresReadBack(w, ps[1..], WrapId(w, id, 1), timestamp);
      var wire := Wrapped(w, Encode(ps[0]), id, timestamp).value;
      WrappedUnwraps(w, Encode(ps[0]), wire, id, timestamp);
      Envelope.ControlPathExact(w.hmac, w.keystream, w.envelope, wire, ps[0], id);
    }
  }

  // ---------------------------------------------------------------------------------------------
  // Datagrams over a whole run
  // ---------------------------------------------------------------------------------------------

  /** Datagram, inner bytes and number stand in the relation `rel`, from number `m` on. */
  ghost predicate Pairwise(rel: (ByteString, ByteString, nat) -> bool, wires: seq<ByteString>, inners: seq<ByteString>,
                           m: nat)
  {
    |wires| == |inners| && forall k: nat | k < |wires| :: rel(wires[k], inners[k], m + k)
  }

  lemma PairwiseConcat(rel: (ByteString, ByteString, nat) -> bool, all: seq<ByteString>, allInners: seq<ByteString>,
                       wires: seq<ByteString>, inners: seq<ByteString>, more: seq<ByteString>,
                       moreInners: seq<ByteString>, m: nat, n: nat)
    requires all == wires + more && allInners == inners + moreInners && n == m + |inners|
    requires Pairwise(rel, wires, inners, m) && Pairwise(rel, more, moreInners, n)
    ensures Pairwise(rel, all, allInners, m)
  {
    forall k: nat | k < |all|
      ensures rel(all[k], allInners[k], m + k)
    {
      if k >= |wires| {
        var i := k - |wires|;
        assert rel(more[i], moreInners[i], n + i);
      }
    }
  }

  /** The peer unwraps `wire` to `inner`, under the `n`th envelope id of a session. */
  predicate Arrives(w: Wrapping, wire: ByteString, inner: ByteString, n: nat) {
    Unwraps(w, wire) == Ok((inner, Envelope.ReplayId(w.envelope, EnvelopeId(n))))
  }

  function Arrival(w: Wrapping): (ByteString, ByteString, nat) -> bool {
    (wire: ByteString, inner: ByteString, n: nat) => Arrives(w, wire, inner, n)
  }

  /** A mirrored peer unwraps datagram `k` to the inner bytes `k`, under the envelope id that comes `m + k`
      ids after the first. */
  ghost predicate AllArrive(w: Wrapping, wires: seq<ByteString>, inners: seq<ByteString>, m: nat) {
    Pairwise(Arrival(w), wires, inners, m)
  }

  lemma ArriveConcat(w: Wrapping, all: seq<ByteString>, allInners: seq<ByteString>, wires: seq<ByteString>,
                     inners: seq<ByteString>, more: seq<ByteString>, moreInners: seq<ByteString>, m: nat, n: nat)
    requires all == wires + more && allInners == inners + moreInners && n == m + |inners|
    requires AllArrive(w, wires, inners, m) && AllArrive(w, more, moreInners, n)
    ensures AllArrive(w, all, allInners, m)
  {
    PairwiseConcat(Arrival(w), all, allInners, wires, inners, more, moreInners, m, n);
  }

  /** Long enough to be wrapped. */
  predicate Wrappable(inners: seq<ByteString>) {
    forall b | b in inners :: |b| >= 9
  }

  lemma OneArrives(w: Wrapping, inner: ByteString, id: u32, m: nat, timestamp: u32) returns (wire: ByteString)
    requires |inner| >= 9 && (Enveloped(w) ==> id == EnvelopeId(m))
    ensures Wrapped(w, inner, id, timestamp) == Ok(wire) && AllArrive(w, [wire], [inner], m)
  {
    wire := Wrapped(w, inner, id, timestamp).value;
    WrappedUnwraps(w, inner, wire, id, timestamp);
  }

  lemma WrapEachCons(w: Wrapping, inners: seq<ByteString>, first: ByteString, id: u32, timestamp: u32)
    requires inners != [] && Wrapped(w, inners[0], id, timestamp) == Ok(first)
    ensures WrapEach(w, inners, id, timestamp)
         == [first] + WrapEach(w, inners[1..], WrapId(w, id, 1), timestamp)
  {}

  lemma NextWrapId(w: Wrapping, id: u32, m: nat)
    requires Enveloped(w) && id == EnvelopeId(m)
    ensures WrapId(w, id, 1) == EnvelopeId(m + 1)
  {
    EnvelopeIdNext(m);
    assert EnvelopeAfter(id, 1) == NextEnvelopeId(id);
  }

  lemma {:induction false} EachArrives(w: Wrapping, inners: seq<ByteString>, wires: seq<ByteString>,
                                       id: u32, m: nat, timestamp: u32)
    requires Wrappable(inners) && (Enveloped(w) ==> id == EnvelopeId(m))
    requires wires == WrapEach(w, inners, id, timestamp)
    ensures AllArrive(w, wires, inners, m)
    decreases |inners|, 1
  {
    if inners != [] {
      var first := OneArrives(w, inners[0], id, m, timestamp);
      WrapEachCons(w, inners, first, id, timestamp);
      if Enveloped(w) {
        NextWrapId(w, id, m);
      }
      RestArrives(w, inners, wires, first, WrapId(w, id, 1), m, timestamp);
    }
  }

  lemma {:induction false} RestArrives(w: Wrapping, inners: seq<ByteString>, wires: seq<ByteString>, first: ByteString,
                                       next: u32, m: nat, timestamp: u32)
    requires inners != [] && Wrappable(inners) && (Enveloped(w) ==> next == EnvelopeId(m + 1))
    requires AllArrive(w, [first], [inners[0]], m)
    requires wires == [first] + WrapEach(w, inners[1..], next, timestamp)
    ensures AllArrive(w, wires, inners, m)
    decreases |inners|, 0
  {
    var rest := WrapEach(w, inners[1..], next, timestamp);
    EachArrives(w, inners[1..], rest, next, m + 1, timestamp);
    assert inners == [inners[0]] + inners[1..];
    ArriveConcat(w, wires, inners, [first], [inners[0]], rest, inners[1..], m, m + 1);
  }

  // ---------------------------------------------------------------------------------------------
  // A flush
  // ---------------------------------------------------------------------------------------------

  function Payloads(ps: seq<ControlPacket>): seq<ByteString> {
    seq(|ps|, i requires 0 <= i < |ps| => ps[i].payload)
  }

  /** The peer takes the datagrams for exactly the packets `ps`, in order and under successive ids. */
  predicate AllRead(w: Wrapping, ps: seq<ControlPacket>, wires: seq<ByteString>, id: u32)
    decreases |ps|
  {
    && |wires| == |ps|
    && (ps != [] ==> ReadAs(w, wires[0], ps[0], id) && AllRead(w, ps[1..], wires[1..], WrapId(w, id, 1)))
  }

  lemma {:induction false} ReadBackAll(w: Wrapping, ps: seq<ControlPacket>, wires: seq<ByteString>, id: u32)
    requires ReadBack(w, ps, wires, id)
    ensures AllRead(w, ps, wires, id) <==> forall p | p in ps :: WellFormed(p)
    decreases |ps|
  {
    if ps != [] {
      ReadBackAll(w, ps[1..], wires[1..], WrapId(w, id, 1));
      assert forall p :: p in ps <==> p == ps[0] || p in ps[1..];
    }
  }

  lemma FlushWellFormed(r: Reliable, ids: Ids, keyId: byte, chunks: seq<ByteString>, ps: seq<ControlPacket>)
    requires keyId < 8 && FlushShape(r, ids, keyId, chunks, ps)
    ensures (forall p | p in ps :: WellFormed(p)) <==> ps == [] || |r.pending| <= 255
  {
    assert forall i | 0 <= i < |ps| :: WellFormed(ps[i]) <==> i > 0 || |r.pending| <= 255;
    if ps != [] {
      assert ps[0] in ps;
    }
  }

  lemma FlushPayloads(r: Reliable, ids: Ids, keyId: byte, out: ByteString, ps: seq<ControlPacket>)
    requires FlushShape(r, ids, keyId, Chunks(out), ps) && |ps| == |Chunks(out)|
    ensures Concat(Payloads(ps)) == out
  {
    ChunksJoin(out);
    assert Payloads(ps) == Chunks(out);
  }

  /**
    The control channel end to end, for any TLS output, any session state and any of the three
    envelopes: the peer takes the datagrams of a flush for exactly the packets built if and only if
    at most 255 acks were pending (or there was nothing to flush), and when the transport took all of
    them, the payloads join to the TLS output.
   */
  lemma FlushReachesPeer(w: Wrapping, r: Reliable, ids: Ids, keyId: byte, out: ByteString, now: nat, accepts: nat,
                         timestamp: u32)
    requires keyId < 8
    ensures var (r', ps, ok) := SendChunks(r, ids, keyId, Chunks(out), Enveloped(w), now, accepts);
            && (AllRead(w, ps, Wires(w, ps, r.envelopeId, timestamp), r.envelopeId) <==>
                  out == [] || |r.pending| <= 255)
            && (ok ==> Concat(Payloads(ps)) == out)
  {
    var (r', ps, ok) := SendChunks(r, ids, keyId, Chunks(out), Enveloped(w), now, accepts);
    FlushFragments(r, ids, keyId, out, Enveloped(w), now, accepts);
    WiresReadBack(w, ps, r.envelopeId, timestamp);
    ReadBackAll(w, ps, Wires(w, ps, r.envelopeId, timestamp), r.envelopeId);
    FlushWellFormed(r, ids, keyId, Chunks(out), ps);
    if ok {
      FlushPayloads(r, ids, keyId, out, ps);
    }
  }

  // ---------------------------------------------------------------------------------------------
  // Retransmissions
  // ---------------------------------------------------------------------------------------------

  ghost predicate AllFile(q: seq<Unacked>, ps: seq<ControlPacket>) {
    |ps| == |q| && forall i | 0 <= i < |q| :: Files(q[i], ps[i])
  }

  lemma AllFileEncodings(q: seq<Unacked>, ps: seq<ControlPacket>)
    requires AllFile(q, ps)
    ensures EncodeAll(ps) == Encodings(q)
  {}

  lemma AllFileCons(u: Unacked, q: seq<Unacked>, p: ControlPacket, ps: seq<ControlPacket>)
    requires Files(u, p) && AllFile(q, ps)
    ensures AllFile([u] + q, [p] + ps)
  {}

  lemma FirstFiled(q: seq<Unacked>, log: seq<ControlPacket>) returns (p: ControlPacket)
    requires q != [] && HoldsPackets(q, log)
    ensures p in log && Files(q[0], p) && HoldsPackets(q[1..], log)
  {
    assert q[0] in q;
    p :| p in log && Files(q[0], p);
    assert forall u | u in q[1..] :: u in q;
  }

  /** The packets of `log` that a queue holds the encodings of. */
  lemma {:induction false} PacketsBehind(q: seq<Unacked>, log: seq<ControlPacket>) returns (ps: seq<ControlPacket>)
    requires HoldsPackets(q, log)
    ensures AllFile(q, ps) && forall p | p in ps :: p in log
    decreases |q|
  {
    if q == [] {
      ps := [];
    } else {
      var p := FirstFiled(q, log);
      var rest := PacketsBehind(q[1..], log);
      AllFileCons(q[0], q[1..], p, rest);
      assert [q[0]] + q[1..] == q;
      ps := [p] + rest;
    }
  }

  /**
    Over every run, what a tick sends again are packets that were sent before under the ids that are due,
    each wrapped under an envelope id of its own, and the peer parses from each datagram exactly what it
    would have parsed from the first copy.
   */
  lemma RetransmitsFromLog(w: Wrapping, s: Setup, ops: seq<Op>, now: nat, timestamp: u32)
    returns (ps: seq<ControlPacket>)
    ensures var r := After(s, ops).r;
            var due := Retransmits(r.unacked, now, s.base);
            && AllFile(due, ps) && (forall p | p in ps :: p in SentLog(s, ops))
            && ReadBack(w, ps, WrapEach(w, Encodings(due), r.envelopeId, timestamp), r.envelopeId)
  {
    var r := After(s, ops).r;
    var due := Retransmits(r.unacked, now, s.base);
    QueueHoldsPackets(s, ops);
    RetransmitsAre(r.unacked, now, s.base);
    ps := PacketsBehind(due, SentLog(s, ops));
    AllFileEncodings(due, ps);
    WiresReadBack(w, ps, r.envelopeId, timestamp);
  }

  /** The packets that were sent under the ids of `q`. */
  function Behind(q: seq<Unacked>, m: map<u32, ControlPacket>): seq<ControlPacket>
    requires forall u | u in q :: u.id in m
  {
    seq(|q|, i requires 0 <= i < |q| => m[q[i].id])
  }

  lemma DueAreSent(s: Setup, ops: seq<Op>, now: nat)
    requires After(s, ops).allocs <= U32_COUNT
    ensures var due, m := Retransmits(After(s, ops).r.unacked, now, s.base), SentPackets(s, ops);
            (forall u | u in due :: u.id in m) && AllFile(due, Behind(due, m))
  {
    var q, m := After(s, ops).r.unacked, SentPackets(s, ops);
    RetransmitsAre(q, now, s.base);
    forall u | u in Retransmits(q, now, s.base)
      ensures u.id in m && Files(u, m[u.id])
    {
      QueueHoldsSent(s, ops, u);
    }
  }

  /** Within 2^32 ids these are the very packets that were sent under the ids that are due. */
  lemma RetransmitsReadBack(w: Wrapping, s: Setup, ops: seq<Op>, now: nat, timestamp: u32)
    requires After(s, ops).allocs <= U32_COUNT
    ensures var r, m := After(s, ops).r, SentPackets(s, ops);
            var due := Retransmits(r.unacked, now, s.base);
            && (forall u | u in due :: u.id in m)
            && ReadBack(w, Behind(due, m), WrapEach(w, Encodings(due), r.envelopeId, timestamp), r.envelopeId)
  {
    var r, m := After(s, ops).r, SentPackets(s, ops);
    var due := Retransmits(r.unacked, now, s.base);
    DueAreSent(s, ops, now);
    AllFileEncodings(due, Behind(due, m));
    WiresReadBack(w, Behind(due, m), r.envelopeId, timestamp);
  }
}
