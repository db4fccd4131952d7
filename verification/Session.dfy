/**
  A client session as the server updates it in place: the methods of src/session.rs and the parts
  of src/server.rs that run with a session locked.  Each method is tied to the functions about which
  the run-level properties are proved.
 */
module SessionObject {
  import opened Bytes
  import opened Crypto
  import opened Protocol
  import opened Replay
  import opened Keyring
  import opened ControlChannel
  import opened ControlPlane
  import opened Reliability
  import opened ControlPath
  import Prf
  import ReliabilityRuns
  import TlsAuth
  import TlsCrypt

  /** What one locked section gets from outside: decrypted plaintext, whether the handshake is over,
      the TLS bytes to send, the outcome of address assignment, how many sends the transport takes,
      randomness, the time, and the time stamp for envelopes. */
  datatype Inputs = Inputs(
    chunk: ByteString, tlsUp: bool, tlsOut: ByteString, assign: Result<ByteString>, accepts: nat,
    random1: ByteString, random2: ByteString, now: nat, timestamp: u32)

  /** What a locked section does to the reliability layer: its new state, the packets handed to the
      transport in order, and whether the section returns without an error. */
  type Outcome = (Reliable, seq<ControlPacket>, bool)

  function ActiveKeyId(k: Keyring): byte {
    match ActiveSlot(k) case Some(slot) => slot.keyId case None => 0
  }

  // ---------------------------------------------------------------------------------------------
  // One control packet, as a function
  // ---------------------------------------------------------------------------------------------

  /** Acks are processed and the packet's own id is noted, whatever the opcode. */
  function Booked(r: Reliable, p: ControlPacket): Reliable {
    var r' := r.(unacked := Unacknowledged(r.unacked, p.acks));
    match p.packetId case Some(id) => NoteReceived(r', id) case None => r'
  }

  /** `flush_outgoing`: TLS bytes as control packets, or else the pending acks alone. */
  function Flush(r: Reliable, ids: Ids, keyId: byte, out: ByteString, enveloped: bool, now: nat,
                 accepts: nat): Outcome {
    if out != [] then SendChunks(r, ids, keyId, Chunks(out), enveloped, now, accepts)
    else if r.pending == [] then (r, [], true)
    else ((if enveloped then UseEnvelopeId(r) else r).(pending := []), [MakeAck(ids, keyId, r.pending)], accepts > 0)
  }

  /** A reset packet built, sent and tracked. */
  function Reset(env: Env, enveloped: bool, r: Reliable, op: OpCode, keyId: byte, ack: Option<u32>,
                 i: Inputs): Outcome {
    var (r', p) := MakeReset(r, Ids(env.serverSid, env.clientSid), op, keyId, ack);
    (SendTracked(r', p, enveloped, i.now, i.accepts > 0), [p], i.accepts > 0)
  }

  /** The id a reset reply acknowledges. */
  function AckOf(p: ControlPacket): Option<u32> {
    Some(match p.packetId case Some(id) => id case None => 0)
  }

  /** The answer to a hard reset. */
  function HardResetOutcome(env: Env, enveloped: bool, r: Reliable, p: ControlPacket, i: Inputs): Outcome {
    Reset(env, enveloped, r, ControlHardResetServerV2, 0, AckOf(p), i)
  }

  /** The keys and phase after a control packet that passed the replay check. */
  function ConnAfter(env: Env, c: Conn, p: ControlPacket, i: Inputs): Conn {
    match p.op
    case ControlV1 => Step(env, c, Control(p.keyId, i.chunk, i.tlsUp, i.assign, i.accepts >= |Chunks(i.tlsOut)|))
    case ControlSoftResetV1 => Step(env, c, SoftReset(p.keyId, i.random1, i.random2))
    case _ => c
  }

  function RekeyOutcome(env: Env, enveloped: bool, c: Conn, r: Reliable, i: Inputs): Outcome
    requires c.track.Some?
  {
    if DriveRekey(env, FedRekey(c, i.chunk, i.tlsUp)).1 then
      SendChunks(r, Ids(env.serverSid, env.clientSid), c.track.value.keyId, Chunks(i.tlsOut), enveloped, i.now,
                 i.accepts)
    else (r, [], false)
  }

  function MainOutcome(env: Env, enveloped: bool, c: Conn, r: Reliable, i: Inputs): Outcome {
    var (c', verdict) := HandleMain(env, i.assign, c, i.chunk, i.tlsUp);
    if verdict == Quiet then
      Flush(r, Ids(env.serverSid, env.clientSid), ActiveKeyId(c'.keys), i.tlsOut, enveloped, i.now, i.accepts)
    else (r, [], false)
  }

  /** A soft reset that starts a rekey is answered with one that acknowledges it. */
  function SoftResetOutcome(env: Env, enveloped: bool, c: Conn, r: Reliable, p: ControlPacket, i: Inputs): Outcome {
    if c.track.Some? || c.phase != Established then (r, [], true)
    else Reset(env, enveloped, r, ControlSoftResetV1, p.keyId, AckOf(p), i)
  }

  function TimerOutcome(env: Env, enveloped: bool, c: Conn, r: Reliable, due: bool, i: Inputs): Outcome {
    if c.phase != Established || c.track.Some? || !due then (r, [], true)
    else Reset(env, enveloped, r, ControlSoftResetV1, NextKeyId(ActiveKeyId(c.keys)), None, i)
  }

  function RestartOutcome(env: Env, enveloped: bool, c: Conn, r: Reliable, i: Inputs): Outcome {
    if c.phase != Established then (r, [], true)
    else Flush(r, Ids(env.serverSid, env.clientSid), ActiveKeyId(c.keys), i.tlsOut, enveloped, i.now, i.accepts)
  }

  /** A control packet whose own acks and id are already booked. */
  function DispatchOutcome(env: Env, enveloped: bool, c: Conn, r: Reliable, p: ControlPacket, i: Inputs): Outcome {
    match p.op
    case ControlV1 =>
      if IsRekeyControl(c, p.keyId) then RekeyOutcome(env, enveloped, c, r, i) else MainOutcome(env, enveloped, c, r, i)
    case ControlSoftResetV1 => SoftResetOutcome(env, enveloped, c, r, p, i)
    case _ => (r, [], true)
  }

  /** The reliability layer after a tick of the retransmit timer. */
  function Retransmitted(r: Reliable, enveloped: bool, now: nat, base: nat): Reliable {
    var n := if enveloped then |Retransmits(r.unacked, now, base)| else 0;
    r.(unacked := AfterTick(r.unacked, now, base), envelopeId := ReliabilityRuns.EnvelopeAfter(r.envelopeId, n))
  }

  /** What a decrypted packet puts on the TUN device. */
  function Forwarded(plaintext: ByteString): Option<ByteString> {
    if plaintext == PING_PAYLOAD then None else Some(plaintext)
  }

  /** Everything but the 16 bytes of a ping is forwarded as it is. */
  lemma ForwardsAllButPings(plaintext: ByteString)
    ensures Forwarded(plaintext)
         == if plaintext == [0x2a, 0x18, 0x7b, 0xf3, 0x64, 0x1e, 0xb4, 0xcb,
                             0x07, 0xed, 0x2d, 0x0a, 0x98, 0x1f, 0xc7, 0x48]
            then None else Some(plaintext)
  {}

  /** What the peer reads of the one packet an outcome sends. */
  predicate SendsOnly(o: Outcome, p: ControlPacket) {
    |o.1| == 1 && Parse(Encode(o.1[0])) == Ok(p)
  }

  lemma PeerReadsReset(env: Env, enveloped: bool, r: Reliable, op: OpCode, keyId: byte, ack: Option<u32>, i: Inputs)
    requires keyId < 8 && IsControl(op) && op != AckV1
    ensures SendsOnly(Reset(env, enveloped, r, op, keyId, ack, i),
                      if ack.Some?
                      then ControlPacket(op, keyId, env.serverSid, [ack.value], Some(env.clientSid), Some(r.nextId), [])
                      else ControlPacket(op, keyId, env.serverSid, [], None, Some(r.nextId), []))
  {
    WellFormedParses(Reset(env, enveloped, r, op, keyId, ack, i).1[0]);
  }

  /** The answer to a hard reset acknowledges it, under key id 0. */
  lemma PeerReadsHardReset(env: Env, enveloped: bool, r: Reliable, p: ControlPacket, i: Inputs)
    ensures SendsOnly(HardResetOutcome(env, enveloped, r, p, i),
                      ControlPacket(ControlHardResetServerV2, 0, env.serverSid,
                                    [if p.packetId.Some? then p.packetId.value else 0],
                                    Some(env.clientSid), Some(r.nextId), []))
  {
    PeerReadsReset(env, enveloped, r, ControlHardResetServerV2, 0, AckOf(p), i);
  }

  /** The answer to a soft reset that starts a rekey acknowledges it and repeats its key id. */
  lemma PeerReadsSoftReset(env: Env, enveloped: bool, c: Conn, r: Reliable, p: ControlPacket, i: Inputs)
    requires p.keyId < 8 && c.phase == Established && c.track.None?
    ensures SendsOnly(SoftResetOutcome(env, enveloped, c, r, p, i),
                      ControlPacket(ControlSoftResetV1, p.keyId, env.serverSid,
                                    [if p.packetId.Some? then p.packetId.value else 0],
                                    Some(env.clientSid), Some(r.nextId), []))
  {
    PeerReadsReset(env, enveloped, r, ControlSoftResetV1, p.keyId, AckOf(p), i);
  }

  /** The key id the server chooses for its own rekey: the one after the active one, of eight. */
  lemma OwnKeyId(c: Conn)
    ensures NextKeyId(ActiveKeyId(c.keys)) < 8
    ensures NextKeyId(ActiveKeyId(c.keys))
         == match c.keys.slots[c.keys.active] case Some(s) => (s.keyId + 1) % 8 case None => 1
  {
    NextKeyIdIs(ActiveKeyId(c.keys));
  }

  /** The server's own soft reset acknowledges nothing and names that key id. */
  lemma PeerReadsOwnReset(env: Env, enveloped: bool, c: Conn, r: Reliable, i: Inputs, keyId: byte)
    requires c.phase == Established && c.track.None?
    requires keyId == match c.keys.slots[c.keys.active] case Some(s) => (s.keyId + 1) % 8 case None => 1
    ensures SendsOnly(TimerOutcome(env, enveloped, c, r, true, i),
                      ControlPacket(ControlSoftResetV1, keyId, env.serverSid, [], None, Some(r.nextId), []))
  {
    OwnKeyId(c);
    PeerReadsReset(env, enveloped, r, ControlSoftResetV1, keyId, None, i);
  }

  /** The drive of a control packet ends in an error. */
  predicate DriveFails(env: Env, c: Conn, p: ControlPacket, i: Inputs) {
    && p.op == ControlV1
    && if IsRekeyControl(c, p.keyId) then !DriveRekey(env, FedRekey(c, i.chunk, i.tlsUp)).1
       else HandleMain(env, i.assign, c, i.chunk, i.tlsUp).1 != Quiet
  }

  /** The transport took every packet that was handed to it. */
  predicate AllTaken(o: Outcome, i: Inputs) {
    |o.1| <= i.accepts
  }

  lemma ChunksTaken(r: Reliable, ids: Ids, keyId: byte, out: ByteString, enveloped: bool, i: Inputs)
    ensures var o := SendChunks(r, ids, keyId, Chunks(out), enveloped, i.now, i.accepts);
            o.2 <==> AllTaken(o, i)
  {
    FlushPackets(r, ids, keyId, Chunks(out), enveloped, i.now, i.accepts);
  }

  lemma FlushTaken(r: Reliable, ids: Ids, keyId: byte, out: ByteString, enveloped: bool, i: Inputs)
    ensures var o := Flush(r, ids, keyId, out, enveloped, i.now, i.accepts);
            o.2 <==> AllTaken(o, i)
  {
    ChunksTaken(r, ids, keyId, out, enveloped, i);
  }

  /** A control packet is handled without an error exactly if its drive ends without one and the transport
      takes every packet sent; after a failed drive nothing is sent. */
  lemma HandledExactly(env: Env, enveloped: bool, c: Conn, r: Reliable, p: ControlPacket, i: Inputs)
    ensures var o := DispatchOutcome(env, enveloped, c, r, p, i);
            && (o.2 <==> !DriveFails(env, c, p, i) && AllTaken(o, i))
            && (DriveFails(env, c, p, i) ==> o.0 == r && o.1 == [])
  {
    var ids := Ids(env.serverSid, env.clientSid);
    if p.op == ControlV1 {
      if IsRekeyControl(c, p.keyId) {
        ChunksTaken(r, ids, c.track.value.keyId, i.tlsOut, enveloped, i);
      } else {
        var (c', v) := HandleMain(env, i.assign, c, i.chunk, i.tlsUp);
        MainOutcomeIs(env, enveloped, c, r, i, c', v);
        FlushTaken(r, ids, ActiveKeyId(c'.keys), i.tlsOut, enveloped, i);
      }
    }
  }

  /** So are the answer to a hard reset, the server's own soft reset and the restart message. */
  lemma SentExactly(env: Env, enveloped: bool, c: Conn, r: Reliable, p: ControlPacket, due: bool, i: Inputs)
    ensures var o := HardResetOutcome(env, enveloped, r, p, i); o.2 <==> AllTaken(o, i)
    ensures var o := TimerOutcome(env, enveloped, c, r, due, i); o.2 <==> AllTaken(o, i)
    ensures var o := RestartOutcome(env, enveloped, c, r, i); o.2 <==> AllTaken(o, i)
  {
    FlushTaken(r, Ids(env.serverSid, env.clientSid), ActiveKeyId(c.keys), i.tlsOut, enveloped, i);
  }

  /** The main track's packets go out under the active key id, the rekey track's under its own. */
  lemma PacketsUseTheirKey(env: Env, enveloped: bool, c: Conn, r: Reliable, i: Inputs, q: ControlPacket)
    ensures q in MainOutcome(env, enveloped, c, r, i).1 ==>
              var k := HandleMain(env, i.assign, c, i.chunk, i.tlsUp).0.keys;
              q.keyId == match k.slots[k.active] case Some(s) => s.keyId case None => 0
    ensures c.track.Some? && q in RekeyOutcome(env, enveloped, c, r, i).1 ==> q.keyId == c.track.value.keyId
  {
    var ids := Ids(env.serverSid, env.clientSid);
    var (c', v) := HandleMain(env, i.assign, c, i.chunk, i.tlsUp);
    MainOutcomeIs(env, enveloped, c, r, i, c', v);
    FlushUsesKey(r, ids, ActiveKeyId(c'.keys), i.tlsOut, enveloped, i.now, i.accepts, q);
    if c.track.Some? {
      FragmentsUseKey(r, ids, c.track.value.keyId, i.tlsOut, enveloped, i.now, i.accepts, q);
    }
  }

  lemma FragmentsUseKey(r: Reliable, ids: Ids, keyId: byte, out: ByteString, enveloped: bool, now: nat, accepts: nat,
                        q: ControlPacket)
    ensures q in SendChunks(r, ids, keyId, Chunks(out), enveloped, now, accepts).1 ==> q.keyId == keyId
  {
    FlushPackets(r, ids, keyId, Chunks(out), enveloped, now, accepts);
    var ps := SendChunks(r, ids, keyId, Chunks(out), enveloped, now, accepts).1;
    if q in ps {
      var k :| 0 <= k < |ps| && ps[k] == q;
      assert FragmentShape(r, ids, keyId, Chunks(out)[k], ps[k], k);
    }
  }

  lemma FlushUsesKey(r: Reliable, ids: Ids, keyId: byte, out: ByteString, enveloped: bool, now: nat, accepts: nat,
                     q: ControlPacket)
    ensures q in Flush(r, ids, keyId, out, enveloped, now, accepts).1 ==> q.keyId == keyId
  {
    FragmentsUseKey(r, ids, keyId, out, enveloped, now, accepts, q);
  }

  class Session {
    const env: Env
    /** How the server wraps control packets. */
    const wrapping: Wrapping

    var phase: Phase
    var inbox: ByteString
    var outbox: ByteString
    var handled: seq<Message>

    var slots: Slots
    var activeSlotIdx: SlotIndex
    var gens: nat
    var rekey: Option<RekeyTrack>

    var nextPacketId: u32
    var pendingAcks: seq<u32>
    var receivedPids: set<u32>
    var unacked: seq<Unacked>

    var tlsAuthPidOut: u32
    const tlsAuthReplay: ReplayWindow

    /** `Session::new` */
    constructor (env: Env, wrapping: Wrapping)
      ensures this.env == env && this.wrapping == wrapping
      ensures State() == Start.(phase := WaitingHardReset) && Layer() == Init
      ensures fresh(tlsAuthReplay) && tlsAuthReplay.Value() == Fresh
    {
      this.env, this.wrapping := env, wrapping;
      phase, inbox, outbox, handled := WaitingHardReset, [], [], [];
      slots, activeSlotIdx, gens, rekey := [None, None], 0, 0, None;
      nextPacketId, pendingAcks, receivedPids, unacked := 0, [], {}, [];
      tlsAuthPidOut := 1;
      tlsAuthReplay := new ReplayWindow();
    }

    function Keys(): Keyring
      reads this
    {
      Keyring(slots, activeSlotIdx, gens)
    }

    function State(): Conn
      reads this
    {
      Conn(phase, inbox, outbox, handled, Keys(), rekey)
    }

    function Layer(): Reliable
      reads this
    {
      Reliable(nextPacketId, pendingAcks, receivedPids, unacked, tlsAuthPidOut)
    }

    function Sids(): Ids {
      Ids(env.serverSid, env.clientSid)
    }

    /** The section left the reliability layer, the datagrams and the result that `o` says, where `id` was
        the next envelope id before it. */
    predicate Yields(o: Outcome, id: u32, timestamp: u32, wires: seq<ByteString>, ok: bool)
      reads this
    {
      Layer() == o.0 && wires == Wires(wrapping, o.1, id, timestamp) && ok == o.2
    }

    // -------------------------------------------------------------------------------------------
    // Key slots
    // -------------------------------------------------------------------------------------------

    method PromoteSlot(keyId: byte) returns (found: bool)
      modifies this`activeSlotIdx
      ensures (Keys(), found) == Promote(old(Keys()), keyId)
    {
      var idx := 0;
      while idx < 2
        invariant 0 <= idx <= 2
        invariant forall i | 0 <= i < idx :: !Holds(slots[i], keyId)
        invariant Keys() == old(Keys())
      {
        if slots[idx].Some? && slots[idx].value.keyId == keyId {
          activeSlotIdx := idx;
          return true;
        }
        idx := idx + 1;
      }
      return false;
    }

    method InstallSlot(keyId: byte, cipher: DataCipher)
      modifies this`slots, this`gens
      ensures Keys() == Install(old(Keys()), keyId, cipher)
    {
      var idx := 1 - activeSlotIdx;
      slots := slots[idx := Some(KeySlot(keyId, cipher, 1, Fresh, gens))];
      gens := gens + 1;
    }

    method InstallPrfSlot(keyId: byte, km: ClientKeyMethod2)
      modifies this`slots, this`activeSlotIdx, this`gens
      ensures Keys() == InstallPrf(old(Keys()), keyId, DeriveCipher(env, km, env.random1, env.random2))
    {
      var keyData := Prf.DeriveKeyData(env.md5, env.sha1, Prf.KeyInputs(
        km.preMaster, km.random1, env.random1, km.random2, env.random2,
        ToBe(W64, env.clientSid), ToBe(W64, env.serverSid)));
      var cipher := FromKeymatServer(keyData[..]);
      if slots[activeSlotIdx].None? {
        slots := slots[0 := Some(KeySlot(keyId, cipher, 1, Fresh, gens))];
        activeSlotIdx := 0;
        gens := gens + 1;
      } else {
        InstallSlot(keyId, cipher);
      }
    }

    // -------------------------------------------------------------------------------------------
    // Data packets
    // -------------------------------------------------------------------------------------------

    method BuildDataPacket(plaintext: ByteString) returns (r: Result<ByteString>)
      modifies this`slots
      ensures (Keys(), r) == SealNext(env.aead, old(Keys()), env.peerId, plaintext)
    {
      if slots[activeSlotIdx].None? {
        return Err;
      }
      var slot := slots[activeSlotIdx].value;
      var pid := slot.pidOut;
      slots := slots[activeSlotIdx := Some(slot.(pidOut := NextU32(pid)))];
      var header := FillHeader(slot.keyId, env.peerId, pid);
      var ct := SealPacket(env.aead, slot.cipher, pid, header[..], plaintext);
      if ct.Err? {
        return Err;
      }
      var out := header[..];
      out := out + ct.value;
      return Ok(out);
    }

    /** The plaintext for the TUN writer, or nothing for a ping. */
    method DecryptAndForward(pkt: ByteString) returns (r: Result<Option<ByteString>>)
      modifies this`slots
      ensures Keys() == OpenNext(env.aead, old(Keys()), pkt).0
      ensures r == match OpenNext(env.aead, old(Keys()), pkt).1
                   case Err => Err
                   case Ok(plaintext) => Ok(Forwarded(plaintext))
    {
      var dp := ParseData(pkt);
      if dp.Err? {
        return Err;
      }
      var position := Position(Keys(), dp.value.keyId);
      if position.None? {
        return Err;
      }
      var i := position.value;
      var slot := slots[i].value;
      var plaintext := OpenPacket(env.aead, slot.cipher, dp.value.packetId, pkt[..8], dp.value.ciphertext);
      if plaintext.Err? {
        return Err;
      }
      var (window, ok) := Check(slot.replay, dp.value.packetId);
      slots := slots[i := Some(slot.(replay := window))];
      if !ok {
        return Err;
      }
      if plaintext.value == PING_PAYLOAD {
        return Ok(None);
      }
      return Ok(Some(plaintext.value));
    }

    // -------------------------------------------------------------------------------------------
    // Reliability
    // -------------------------------------------------------------------------------------------

    method AllocPacketId() returns (id: u32)
      modifies this`nextPacketId
      ensures id == old(nextPacketId) && nextPacketId == NextU32(old(nextPacketId))
    {
      id := nextPacketId;
      nextPacketId := (nextPacketId + 1) % 0x1_0000_0000;
    }

    method NextTlsAuthPid() returns (id: u32)
      modifies this`tlsAuthPidOut
      ensures id == old(tlsAuthPidOut) && tlsAuthPidOut == NextEnvelopeId(old(tlsAuthPidOut))
    {
      id := tlsAuthPidOut;
      tlsAuthPidOut := if tlsAuthPidOut + 1 < U32_COUNT then tlsAuthPidOut + 1 else 1;
    }

    method NotePid(id: u32)
      modifies this`receivedPids, this`pendingAcks
      ensures Layer() == NoteReceived(old(Layer()), id)
    {
      if id !in receivedPids {
        receivedPids := receivedPids + {id};
        pendingAcks := pendingAcks + [id];
      }
    }

    method RecordSent(id: u32, encoded: ByteString, now: nat)
      modifies this`unacked
      ensures Layer() == Track(old(Layer()), id, encoded, now)
    {
      unacked := unacked + [Unacked(id, encoded, now, 1)];
    }

    method ProcessAcks(acks: seq<u32>)
      modifies this`unacked
      ensures unacked == Unacknowledged(old(unacked), acks)
    {
      var kept: seq<Unacked> := [];
      var i := 0;
      while i < |unacked|
        invariant 0 <= i <= |unacked| && unacked == old(unacked)
        invariant kept + Unacknowledged(unacked[i..], acks) == Unacknowledged(unacked, acks)
      {
        UnacknowledgedStep(unacked, i, acks, kept);
        if unacked[i].id !in acks {
          kept := kept + [unacked[i]];
        }
        i := i + 1;
      }
      assert kept + [] == kept;
      unacked := kept;
    }

    /** Drops entries that were sent often enough, then bumps and returns those that are due. */
    method StaleUnacked(now: nat, base: nat) returns (out: seq<ByteString>)
      modifies this`unacked
      ensures unacked == AfterTick(old(unacked), now, base)
      ensures out == Encodings(Retransmits(old(unacked), now, base))
    {
      RetainAlive();
      out := BumpDue(now, base);
    }

    method BumpDue(now: nat, base: nat) returns (out: seq<ByteString>)
      modifies this`unacked
      ensures unacked == Bumped(old(unacked), now, base)
      ensures out == Encodings(DueOnes(old(unacked), now, base))
    {
      ghost var before := unacked;
      out := [];
      BumpingStarts(before, now, base);
      var i := 0;
      while i < |unacked|
        invariant 0 <= i <= |unacked| == |before|
        invariant Bumping(before, i, now, base, unacked, out)
      {
        BumpingStep(before, i, now, base, unacked, out);
        var u := unacked[i];
        if Due(u, now, base) {
          unacked := unacked[i := Resent(u, now)];
          out := out + [u.encoded];
        }
        i := i + 1;
      }
      BumpingEnds(before, now, base, unacked, out);
    }

    method RetainAlive()
      modifies this`unacked
      ensures unacked == Alive(old(unacked))
    {
      var kept: seq<Unacked> := [];
      var i := 0;
      while i < |unacked|
        invariant 0 <= i <= |unacked| && unacked == old(unacked)
        invariant kept + Alive(unacked[i..]) == Alive(unacked)
      {
        AliveStep(unacked, i, kept);
        if unacked[i].attempts < MAX_ATTEMPTS {
          kept := kept + [unacked[i]];
        }
        i := i + 1;
      }
      assert kept + [] == kept;
      unacked := kept;
    }

    method BuildControl(keyId: byte, payload: ByteString) returns (p: ControlPacket)
      modifies this`nextPacketId, this`pendingAcks
      ensures (Layer(), p) == MakeControl(old(Layer()), Sids(), keyId, payload)
    {
      var id := AllocPacketId();
      var acks := pendingAcks;
      pendingAcks := [];
      var remote := if acks != [] then Some(env.clientSid) else None;
      p := ControlPacket(ControlV1, keyId, env.serverSid, acks, remote, Some(id), payload);
    }

    /** The three reset builders differ in opcode, key id and the id they acknowledge. */
    method BuildReset(op: OpCode, keyId: byte, ack: Option<u32>) returns (p: ControlPacket)
      modifies this`nextPacketId
      ensures (Layer(), p) == MakeReset(old(Layer()), Sids(), op, keyId, ack)
    {
      var id := AllocPacketId();
      match ack {
        case Some(a) => p := ControlPacket(op, keyId, env.serverSid, [a], Some(env.clientSid), Some(id), []);
        case None => p := ControlPacket(op, keyId, env.serverSid, [], None, Some(id), []);
      }
    }

    /** `wrap_for_wire` */
    method WrapForWire(inner: ByteString, timestamp: u32) returns (r: Result<ByteString>)
      modifies this`tlsAuthPidOut
      ensures r == Wrapped(wrapping, inner, old(tlsAuthPidOut), timestamp)
      ensures tlsAuthPidOut == WrapId(wrapping, old(tlsAuthPidOut), 1)
    {
      match wrapping.envelope {
        case Crypt(key) =>
          var id := NextTlsAuthPid();
          r := TlsCrypt.WrapPacket(wrapping.hmac, wrapping.keystream, key, inner, id, timestamp);
        case Auth(key) =>
          var id := NextTlsAuthPid();
          r := TlsAuth.WrapPacket(wrapping.hmac, key, inner, id, timestamp);
        case Plain =>
          r := Ok(inner);
      }
    }

    /** `send_and_track`: wrap, send, and remember the inner bytes if the transport took them. */
    method SendAndTrack(p: ControlPacket, now: nat, timestamp: u32, sent: bool) returns (wire: ByteString)
      requires p.packetId.Some?
      modifies this`tlsAuthPidOut, this`unacked
      ensures Layer() == SendTracked(old(Layer()), p, Enveloped(wrapping), now, sent)
      ensures Wrapped(wrapping, Encode(p), old(tlsAuthPidOut), timestamp) == Ok(wire)
    {
      var encoded := EncodePacket(p);
      WiresOne(wrapping, p, tlsAuthPidOut, timestamp);
      var wrapped := WrapForWire(encoded, timestamp);
      wire := wrapped.value;
      if sent {
        RecordSent(p.packetId.value, encoded, now);
      }
    }

    /** One fragment of a flush. */
    method SendFragment(keyId: byte, chunk: ByteString, now: nat, timestamp: u32, sent: bool)
      returns (p: ControlPacket, wire: ByteString)
      modifies this`nextPacketId, this`pendingAcks, this`tlsAuthPidOut, this`unacked
      ensures p == MakeControl(old(Layer()), Sids(), keyId, chunk).1
      ensures Layer() == AfterFirst(old(Layer()), Sids(), keyId, chunk, Enveloped(wrapping), now, sent)
      ensures Wrapped(wrapping, Encode(p), old(tlsAuthPidOut), timestamp) == Ok(wire)
    {
      p := BuildControl(keyId, chunk);
      wire := SendAndTrack(p, now, timestamp, sent);
    }

    /** The chunk loop shared by both flushes. */
    method SendFragments(keyId: byte, out: ByteString, now: nat, timestamp: u32, accepts: nat)
      returns (wires: seq<ByteString>, ok: bool)
      modifies this`nextPacketId, this`pendingAcks, this`tlsAuthPidOut, this`unacked
      ensures Yields(SendChunks(old(Layer()), Sids(), keyId, Chunks(out), Enveloped(wrapping), now, accepts),
                     old(tlsAuthPidOut), timestamp, wires, ok)
    {
      ghost var goal := Flushed(wrapping, Layer(), Sids(), keyId, out, now, timestamp, accepts);
      wires, ok := [], true;
      assert wires + goal.1 == goal.1;
      var rest, left := out, accepts;
      while rest != []
        invariant ok
        invariant goal == Prepend(wires, Flushed(wrapping, Layer(), Sids(), keyId, rest, now, timestamp, left))
        decreases |rest|
      {
        var n := if |rest| <= MAX_TLS_PAYLOAD then |rest| else MAX_TLS_PAYLOAD;
        FragmentStep(wrapping, Layer(), Sids(), keyId, rest, now, timestamp, left);
        var p, wire := SendFragment(keyId, rest[..n], now, timestamp, left > 0);
        if left == 0 {
          return wires + [wire], false;
        }
        PrependTwice(wires, [wire], Flushed(wrapping, Layer(), Sids(), keyId, rest[n..], now, timestamp, left - 1));
        wires := wires + [wire];
        left := left - 1;
        rest := rest[n..];
      }
      assert wires + [] == wires;
    }

    /** `flush_outgoing` */
    method FlushOutgoing(out: ByteString, now: nat, timestamp: u32, accepts: nat)
      returns (wires: seq<ByteString>, ok: bool)
      modifies this`nextPacketId, this`pendingAcks, this`tlsAuthPidOut, this`unacked
      ensures Yields(Flush(old(Layer()), Sids(), ActiveKeyId(old(Keys())), out, Enveloped(wrapping), now, accepts),
                     old(tlsAuthPidOut), timestamp, wires, ok)
    {
      wires, ok := [], true;
      var keyId := match slots[activeSlotIdx] case Some(slot) => slot.keyId case None => 0;
      if out != [] {
        wires, ok := SendFragments(keyId, out, now, timestamp, accepts);
      } else if pendingAcks != [] {
        var wire := SendPendingAcks(keyId, timestamp);
        wires, ok := [wire], accepts > 0;
      }
    }

    /** The pure ack of `flush_outgoing`. */
    method SendPendingAcks(keyId: byte, timestamp: u32) returns (wire: ByteString)
      modifies this`pendingAcks, this`tlsAuthPidOut
      ensures Layer() == (if Enveloped(wrapping) then UseEnvelopeId(old(Layer())) else old(Layer())).(pending := [])
      ensures Wires(wrapping, [MakeAck(Sids(), keyId, old(pendingAcks))], old(tlsAuthPidOut), timestamp) == [wire]
    {
      var ack := MakeAck(Sids(), keyId, pendingAcks);
      pendingAcks := [];
      var encoded := EncodePacket(ack);
      WiresOne(wrapping, ack, tlsAuthPidOut, timestamp);
      var wrapped := WrapForWire(encoded, timestamp);
      wire := wrapped.value;
    }

    /** A reset packet built, sent and tracked. */
    method SendReset(op: OpCode, keyId: byte, ack: Option<u32>, i: Inputs) returns (wires: seq<ByteString>, ok: bool)
      modifies this`nextPacketId, this`tlsAuthPidOut, this`unacked
      ensures Yields(Reset(env, Enveloped(wrapping), old(Layer()), op, keyId, ack, i),
                     old(tlsAuthPidOut), i.timestamp, wires, ok)
    {
      var p := BuildReset(op, keyId, ack);
      WiresOne(wrapping, p, tlsAuthPidOut, i.timestamp);
      var wire := SendAndTrack(p, i.now, i.timestamp, i.accepts > 0);
      wires, ok := [wire], i.accepts > 0;
    }

    /** What `handle_control_packet` does with a session it has just made. */
    method AnswerHardReset(p: ControlPacket, replayId: Option<u32>, i: Inputs)
      returns (wires: seq<ByteString>, ok: bool)
      modifies this`phase, this`nextPacketId, this`tlsAuthPidOut, this`unacked, tlsAuthReplay
      ensures State() == old(State()).(phase := Handshaking)
      ensures tlsAuthReplay.Value()
           == if replayId.Some? then Check(old(tlsAuthReplay.Value()), replayId.value).0 else old(tlsAuthReplay.Value())
      ensures Yields(HardResetOutcome(env, Enveloped(wrapping), old(Layer()), p, i),
                     old(tlsAuthPidOut), i.timestamp, wires, ok)
    {
      phase := Handshaking;
      var _ := CheckReplay(replayId);
      var ack := match p.packetId case Some(id) => id case None => 0;
      wires, ok := SendReset(ControlHardResetServerV2, 0, Some(ack), i);
    }

    // -------------------------------------------------------------------------------------------
    // The control plane
    // -------------------------------------------------------------------------------------------

    method DriveControlPlane(assign: Result<ByteString>) returns (v: Verdict)
      modifies this`phase, this`inbox, this`outbox, this`handled, this`slots, this`activeSlotIdx, this`gens
      ensures (State(), v) == Drive(env, assign, old(State()))
    {
      while true
        invariant Drive(env, assign, State()) == Drive(env, assign, old(State()))
        decreases |inbox|
      {
        var done := DriveTurn(assign);
        if done.Some? {
          return done.value;
        }
      }
    }

    /** One turn of the loop. */
    method DriveTurn(assign: Result<ByteString>) returns (done: Option<Verdict>)
      modifies this`phase, this`inbox, this`outbox, this`handled, this`slots, this`activeSlotIdx, this`gens
      ensures (State(), done) == Turn(env, assign, old(State()))
    {
      match phase {
        case KeyExchange => done := AwaitKeyMethod(assign);
        case PushPending => done := AwaitPushRequest(assign);
        case Established => done := AwaitText(assign);
        case _ => return Some(Quiet);
      }
    }

    method AwaitKeyMethod(assign: Result<ByteString>) returns (done: Option<Verdict>)
      requires phase == KeyExchange
      modifies this`phase, this`inbox, this`outbox, this`handled, this`slots, this`activeSlotIdx, this`gens
      ensures (State(), done) == Turn(env, assign, old(State()))
    {
      var parsed := TryParsePacket(inbox);
      match parsed {
        case NeedMore => return Some(Quiet);
        case Malformed => return Some(BadKeyMethod);
        case Ready(km, n) =>
          AnswerKeyMethod(km, n);
          return None;
      }
    }

    method AnswerKeyMethod(km: ClientKeyMethod2, n: nat)
      requires n <= |inbox|
      modifies this`phase, this`inbox, this`outbox, this`handled, this`slots, this`activeSlotIdx, this`gens
      ensures State() == TakeKeyMethod(env, old(State()), km, n)
    {
      InstallPrfSlot(0, km);
      QueueReply();
      inbox, handled, phase := inbox[n..], handled + [KeyMethod(km)], PushPending;
    }

    /** The server's half of key-method-2. */
    method QueueReply()
      modifies this`outbox
      ensures outbox == old(outbox) + Reply(env, env.random1, env.random2)
    {
      var reply := EncodeServerPacket(
        ServerKeyMethod2(env.random1, env.random2, env.options, [], [], env.peerInfo));
      outbox := outbox + reply;
    }

    method AwaitPushRequest(assign: Result<ByteString>) returns (done: Option<Verdict>)
      requires phase == PushPending
      modifies this`phase, this`inbox, this`outbox, this`handled
      ensures (State(), done) == Turn(env, assign, old(State()))
    {
      match TryPopAscii(inbox) {
        case NeedMore => return Some(Quiet);
        case Ready(msg, n) =>
          inbox := inbox[n..];
          handled := handled + [Text(msg)];
          if msg == PUSH_REQUEST {
            if assign.Err? {
              return Some(AssignFailed);
            }
            outbox := outbox + assign.value;
            phase := Established;
          }
          return None;
      }
    }

    method AwaitText(assign: Result<ByteString>) returns (done: Option<Verdict>)
      requires phase == Established
      modifies this`phase, this`inbox, this`handled
      ensures (State(), done) == Turn(env, assign, old(State()))
    {
      match TryPopAscii(inbox) {
        case NeedMore => return Some(Quiet);
        case Ready(msg, n) =>
          inbox := inbox[n..];
          handled := handled + [Text(msg)];
          if IsExit(msg) {
            phase := Closed;
            return Some(Quiet);
          }
          return None;
      }
    }

    /** `drive_rekey_control_plane` */
    method DriveRekeyControlPlane() returns (ok: bool)
      modifies this`slots, this`gens, this`rekey
      ensures (State(), ok) == DriveRekey(env, old(State()))
    {
      if rekey.None? || rekey.value.phase != RekeyKeyExchange {
        return true;
      }
      var t := rekey.value;
      var parsed := TryParsePacket(t.inbox);
      match parsed {
        case NeedMore => return true;
        case Malformed => return false;
        case Ready(km, n) =>
          var keyData := Prf.DeriveKeyData(env.md5, env.sha1, Prf.KeyInputs(
            km.preMaster, km.random1, t.random1, km.random2, t.random2,
            ToBe(W64, env.clientSid), ToBe(W64, env.serverSid)));
          var cipher := FromKeymatServer(keyData[..]);
          InstallSlot(t.keyId, cipher);
          var reply := EncodeServerPacket(
            ServerKeyMethod2(t.random1, t.random2, env.options, [], [], env.peerInfo));
          rekey := Some(t.(inbox := t.inbox[n..], outbox := t.outbox + reply, keyMethodSent := true));
          return true;
      }
    }

    /** `handle_rekey_control`: feed, drive, flush, and switch keys once our answer is out. */
    method HandleRekeyControl(i: Inputs) returns (wires: seq<ByteString>, ok: bool)
      requires rekey.Some?
      modifies this`slots, this`activeSlotIdx, this`gens, this`rekey,
               this`nextPacketId, this`pendingAcks, this`tlsAuthPidOut, this`unacked
      ensures State() == HandleRekey(env, old(State()), i.chunk, i.tlsUp, i.accepts >= |Chunks(i.tlsOut)|)
      ensures Yields(RekeyOutcome(env, Enveloped(wrapping), old(State()), old(Layer()), i),
                     old(tlsAuthPidOut), i.timestamp, wires, ok)
    {
      var driven := DriveRekeyTrack(i.chunk, i.tlsUp);
      RekeyHandled(env, Enveloped(wrapping), old(State()), old(Layer()), i, State(), driven);
      if !driven {
        return [], false;
      }
      wires, ok := FlushAndFinish(i);
    }

    method DriveRekeyTrack(chunk: ByteString, tlsUp: bool) returns (ok: bool)
      requires rekey.Some?
      modifies this`slots, this`gens, this`rekey
      ensures (State(), ok) == DriveRekey(env, FedRekey(old(State()), chunk, tlsUp))
    {
      rekey := Some(FeedRekey(rekey.value, chunk, tlsUp));
      ok := DriveRekeyControlPlane();
    }

    method FlushAndFinish(i: Inputs) returns (wires: seq<ByteString>, ok: bool)
      requires rekey.Some?
      modifies this`activeSlotIdx, this`rekey, this`nextPacketId, this`pendingAcks, this`tlsAuthPidOut, this`unacked
      ensures State() == if i.accepts >= |Chunks(i.tlsOut)| then FinishRekey(old(State())) else old(State())
      ensures Yields(SendChunks(old(Layer()), Sids(), old(rekey).value.keyId, Chunks(i.tlsOut), Enveloped(wrapping),
                                i.now, i.accepts),
                     old(tlsAuthPidOut), i.timestamp, wires, ok)
    {
      wires, ok := FlushRekeyOutgoing(i.tlsOut, i.now, i.timestamp, i.accepts);
      if ok {
        FinishRekeyTrack();
      }
    }

    /** `flush_rekey_outgoing` */
    method FlushRekeyOutgoing(out: ByteString, now: nat, timestamp: u32, accepts: nat)
      returns (wires: seq<ByteString>, ok: bool)
      requires rekey.Some?
      modifies this`nextPacketId, this`pendingAcks, this`tlsAuthPidOut, this`unacked
      ensures Yields(SendChunks(old(Layer()), Sids(), rekey.value.keyId, Chunks(out), Enveloped(wrapping), now,
                                accepts),
                     old(tlsAuthPidOut), timestamp, wires, ok)
      ensures ok <==> accepts >= |Chunks(out)|
    {
      wires, ok := SendFragments(rekey.value.keyId, out, now, timestamp, accepts);
      FlushPackets(old(Layer()), Sids(), rekey.value.keyId, Chunks(out), Enveloped(wrapping), now, accepts);
    }

    /** The last phase of `handle_rekey_control`. */
    method FinishRekeyTrack()
      modifies this`activeSlotIdx, this`rekey
      ensures State() == FinishRekey(old(State()))
    {
      if rekey.Some? && rekey.value.keyMethodSent {
        var _ := PromoteSlot(rekey.value.keyId);
        rekey := None;
      }
    }

    /** The locked part of `handle_control_packet`, for a session that exists. */
    method HandleControlPacket(p: ControlPacket, replayId: Option<u32>, i: Inputs)
      returns (wires: seq<ByteString>, ok: bool)
      modifies this, tlsAuthReplay
      ensures tlsAuthReplay.Value()
           == if replayId.Some? then Check(old(tlsAuthReplay.Value()), replayId.value).0 else old(tlsAuthReplay.Value())
      ensures if replayId.None? || Check(old(tlsAuthReplay.Value()), replayId.value).1 then
                && State() == ConnAfter(env, old(State()), p, i)
                && Yields(DispatchOutcome(env, Enveloped(wrapping), old(State()), Booked(old(Layer()), p), p, i),
                          old(tlsAuthPidOut), i.timestamp, wires, ok)
              else State() == old(State()) && Layer() == old(Layer()) && wires == [] && !ok
    {
      var accepted := CheckReplay(replayId);
      if !accepted {
        return [], false;
      }
      BookPacket(p);
      wires, ok := Dispatch(p, i);
    }

    method CheckReplay(replayId: Option<u32>) returns (ok: bool)
      modifies tlsAuthReplay
      ensures tlsAuthReplay.Value()
           == if replayId.Some? then Check(old(tlsAuthReplay.Value()), replayId.value).0 else old(tlsAuthReplay.Value())
      ensures ok == (replayId.None? || Check(old(tlsAuthReplay.Value()), replayId.value).1)
    {
      ok := true;
      if replayId.Some? {
        ok := tlsAuthReplay.CheckAndSet(replayId.value);
      }
    }

    method BookPacket(p: ControlPacket)
      modifies this`unacked, this`receivedPids, this`pendingAcks
      ensures Layer() == Booked(old(Layer()), p)
    {
      ProcessAcks(p.acks);
      if p.packetId.Some? {
        NotePid(p.packetId.value);
      }
    }

    /** The opcode match of `handle_control_packet`. */
    method Dispatch(p: ControlPacket, i: Inputs) returns (wires: seq<ByteString>, ok: bool)
      modifies this`phase, this`inbox, this`outbox, this`handled, this`slots, this`activeSlotIdx, this`gens, this`rekey,
               this`nextPacketId, this`pendingAcks, this`tlsAuthPidOut, this`unacked
      ensures State() == ConnAfter(env, old(State()), p, i)
      ensures Yields(DispatchOutcome(env, Enveloped(wrapping), old(State()), old(Layer()), p, i),
                     old(tlsAuthPidOut), i.timestamp, wires, ok)
    {
      match p.op {
        case ControlV1 => wires, ok := DispatchControl(p, i);
        case ControlSoftResetV1 => wires, ok := AnswerSoftReset(p, i);
        case _ => return [], true;
      }
    }

    /** By key id: to the rekey track or to the main session. */
    method DispatchControl(p: ControlPacket, i: Inputs) returns (wires: seq<ByteString>, ok: bool)
      requires p.op == ControlV1
      modifies this`phase, this`inbox, this`outbox, this`handled, this`slots, this`activeSlotIdx, this`gens, this`rekey,
               this`nextPacketId, this`pendingAcks, this`tlsAuthPidOut, this`unacked
      ensures State() == ConnAfter(env, old(State()), p, i)
      ensures Yields(DispatchOutcome(env, Enveloped(wrapping), old(State()), old(Layer()), p, i),
                     old(tlsAuthPidOut), i.timestamp, wires, ok)
    {
      if rekey.Some? && rekey.value.keyId == p.keyId {
        wires, ok := HandleRekeyControl(i);
      } else {
        wires, ok := HandleMainControl(i);
      }
    }

    /** `start_rekey` */
    method StartTrack(keyId: byte, random1: ByteString, random2: ByteString)
      modifies this`rekey
      ensures State() == StartRekey(old(State()), keyId, random1, random2)
    {
      rekey := Some(RekeyTrack(keyId, RekeyHandshaking, [], [], random1, random2, false));
    }

    method AnswerSoftReset(p: ControlPacket, i: Inputs) returns (wires: seq<ByteString>, ok: bool)
      modifies this`rekey, this`nextPacketId, this`tlsAuthPidOut, this`unacked
      ensures State() == TakeSoftReset(old(State()), p.keyId, i.random1, i.random2)
      ensures Yields(SoftResetOutcome(env, Enveloped(wrapping), old(State()), old(Layer()), p, i),
                     old(tlsAuthPidOut), i.timestamp, wires, ok)
    {
      if rekey.Some? || phase != Established {
        return [], true;
      }
      StartTrack(p.keyId, i.random1, i.random2);
      var ack := match p.packetId case Some(id) => id case None => 0;
      wires, ok := SendReset(ControlSoftResetV1, p.keyId, Some(ack), i);
    }

    method HandleMainControl(i: Inputs) returns (wires: seq<ByteString>, ok: bool)
      modifies this`phase, this`inbox, this`outbox, this`handled, this`slots, this`activeSlotIdx, this`gens,
               this`nextPacketId, this`pendingAcks, this`tlsAuthPidOut, this`unacked
      ensures State() == HandleMain(env, i.assign, old(State()), i.chunk, i.tlsUp).0
      ensures Yields(MainOutcome(env, Enveloped(wrapping), old(State()), old(Layer()), i),
                     old(tlsAuthPidOut), i.timestamp, wires, ok)
    {
      var verdict := DriveMain(i);
      MainOutcomeIs(env, Enveloped(wrapping), old(State()), old(Layer()), i, State(), verdict);
      if verdict != Quiet {
        return [], false;
      }
      wires, ok := FlushOutgoing(i.tlsOut, i.now, i.timestamp, i.accepts);
    }

    method DriveMain(i: Inputs) returns (v: Verdict)
      modifies this`phase, this`inbox, this`outbox, this`handled, this`slots, this`activeSlotIdx, this`gens
      ensures (State(), v) == HandleMain(env, i.assign, old(State()), i.chunk, i.tlsUp)
    {
      FeedMainTrack(i.chunk, i.tlsUp);
      v := DriveControlPlane(i.assign);
    }

    method FeedMainTrack(chunk: ByteString, tlsUp: bool)
      modifies this`phase, this`inbox
      ensures State() == FeedMain(old(State()), chunk, tlsUp)
    {
      inbox := inbox + chunk;
      if phase == Handshaking && tlsUp {
        phase := KeyExchange;
      }
    }

    // -------------------------------------------------------------------------------------------
    // Timers
    // -------------------------------------------------------------------------------------------

    /** The body of the server-initiated rekey timer for one session. */
    method RekeyTick(due: bool, i: Inputs) returns (wires: seq<ByteString>, ok: bool)
      modifies this`rekey, this`nextPacketId, this`tlsAuthPidOut, this`unacked
      ensures State() == TakeTimer(old(State()), due, i.random1, i.random2)
      ensures Yields(TimerOutcome(env, Enveloped(wrapping), old(State()), old(Layer()), due, i),
                     old(tlsAuthPidOut), i.timestamp, wires, ok)
    {
      if phase != Established || rekey.Some? || !due {
        return [], true;
      }
      var activeKeyId := match slots[activeSlotIdx] case Some(slot) => slot.keyId case None => 0;
      var newKeyId := NextKeyId(activeKeyId);
      StartTrack(newKeyId, i.random1, i.random2);
      wires, ok := SendReset(ControlSoftResetV1, newKeyId, None, i);
    }

    /** The body of the retransmit timer: each packet due again is wrapped under a fresh id. */
    method RetransmitTick(now: nat, base: nat, timestamp: u32) returns (wires: seq<ByteString>)
      modifies this`unacked, this`tlsAuthPidOut
      ensures Layer() == Retransmitted(old(Layer()), Enveloped(wrapping), now, base)
      ensures wires == WrapEach(wrapping, Encodings(Retransmits(old(unacked), now, base)), old(tlsAuthPidOut),
                                timestamp)
    {
      var inner := StaleUnacked(now, base);
      wires := WrapAll(inner, timestamp);
    }

    method WrapAll(inner: seq<ByteString>, timestamp: u32) returns (wires: seq<ByteString>)
      modifies this`tlsAuthPidOut
      ensures wires == WrapEach(wrapping, inner, old(tlsAuthPidOut), timestamp)
      ensures tlsAuthPidOut == WrapId(wrapping, old(tlsAuthPidOut), |inner|)
    {
      wires := [];
      var i := 0;
      while i < |inner|
        invariant 0 <= i <= |inner|
        invariant wires + WrapEach(wrapping, inner[i..], tlsAuthPidOut, timestamp)
               == WrapEach(wrapping, inner, old(tlsAuthPidOut), timestamp)
        invariant WrapId(wrapping, tlsAuthPidOut, |inner| - i) == WrapId(wrapping, old(tlsAuthPidOut), |inner|)
      {
        WrapStep(wrapping, inner, i, tlsAuthPidOut, timestamp, wires);
        var wire := WrapForWire(inner[i], timestamp);
        if wire.Ok? {
          wires := wires + [wire.value];
        }
        i := i + 1;
      }
      assert wires + [] == wires;
    }

    /** The body of `shutdown_clients` for one session. */
    method AnnounceRestart(i: Inputs) returns (wires: seq<ByteString>, ok: bool)
      modifies this`outbox, this`nextPacketId, this`pendingAcks, this`tlsAuthPidOut, this`unacked
      ensures State() == TakeRestart(old(State()))
      ensures Yields(RestartOutcome(env, Enveloped(wrapping), old(State()), old(Layer()), i),
                     old(tlsAuthPidOut), i.timestamp, wires, ok)
    {
      if phase != Established {
        return [], true;
      }
      QueueText(RESTART);
      wires, ok := FlushOutgoing(i.tlsOut, i.now, i.timestamp, i.accepts);
    }

    /** `send_plaintext` */
    method QueueText(text: ByteString)
      modifies this`outbox
      ensures State() == old(State()).(outbox := old(outbox) + text)
    {
      outbox := outbox + text;
    }

    /** The body of the ping timer. */
    method PingTick() returns (r: Result<ByteString>)
      modifies this`slots
      ensures State() == Step(env, old(State()), Send(true, PING_PAYLOAD))
      ensures r == if Sends(old(State()), true) then SealNext(env.aead, old(Keys()), env.peerId, PING_PAYLOAD).1
                   else Err
    {
      if phase != Established || slots[activeSlotIdx].None? {
        return Err;
      }
      r := BuildDataPacket(PING_PAYLOAD);
    }
  }

  lemma MainOutcomeIs(env: Env, enveloped: bool, c: Conn, r: Reliable, i: Inputs, c': Conn, v: Verdict)
    requires (c', v) == HandleMain(env, i.assign, c, i.chunk, i.tlsUp)
    ensures MainOutcome(env, enveloped, c, r, i)
         == if v == Quiet
            then Flush(r, Ids(env.serverSid, env.clientSid), ActiveKeyId(c'.keys), i.tlsOut, enveloped, i.now,
                       i.accepts)
            else (r, [], false)
  {}

  lemma RekeyHandled(env: Env, enveloped: bool, c: Conn, r: Reliable, i: Inputs, c': Conn, ok: bool)
    requires c.track.Some? && (c', ok) == DriveRekey(env, FedRekey(c, i.chunk, i.tlsUp))
    ensures c'.track.Some? && c'.track.value.keyId == c.track.value.keyId
    ensures RekeyOutcome(env, enveloped, c, r, i)
         == if ok
            then SendChunks(r, Ids(env.serverSid, env.clientSid), c.track.value.keyId, Chunks(i.tlsOut), enveloped,
                            i.now, i.accepts)
            else (r, [], false)
    ensures HandleRekey(env, c, i.chunk, i.tlsUp, i.accepts >= |Chunks(i.tlsOut)|)
         == if ok && i.accepts >= |Chunks(i.tlsOut)| then FinishRekey(c') else c'
  {}

  lemma UnacknowledgedStep(q: seq<Unacked>, i: nat, acks: seq<u32>, kept: seq<Unacked>)
    requires i < |q|
    ensures kept + Unacknowledged(q[i..], acks)
         == (if q[i].id in acks then kept else kept + [q[i]]) + Unacknowledged(q[i + 1..], acks)
  {
    assert q[i..][1..] == q[i + 1..];
  }

  lemma AliveStep(q: seq<Unacked>, i: nat, kept: seq<Unacked>)
    requires i < |q|
    ensures kept + Alive(q[i..]) == (if q[i].attempts < MAX_ATTEMPTS then kept + [q[i]] else kept) + Alive(q[i + 1..])
  {
    assert q[i..][1..] == q[i + 1..];
  }

  lemma EncodingsCons(u: Unacked, q: seq<Unacked>)
    ensures Encodings([u] + q) == [u.encoded] + Encodings(q)
  {}

  lemma DueOnesStep(q: seq<Unacked>, i: nat, now: nat, base: nat, out: seq<ByteString>)
    requires i < |q|
    ensures out + Encodings(DueOnes(q[i..], now, base))
         == (if Due(q[i], now, base) then out + [q[i].encoded] else out) + Encodings(DueOnes(q[i + 1..], now, base))
  {
    var rest := DueOnes(q[i + 1..], now, base);
    assert q[i..][1..] == q[i + 1..];
    EncodingsCons(q[i], rest);
    assert [] + rest == rest;
    assert out + ([q[i].encoded] + Encodings(rest)) == out + [q[i].encoded] + Encodings(rest);
  }

  /** The queue while its entries before `i` have been looked at. */
  function BumpedUpTo(q: seq<Unacked>, i: nat, now: nat, base: nat): (r: seq<Unacked>)
    requires i <= |q|
    ensures |r| == |q|
  {
    Bumped(q, now, base)[..i] + q[i..]
  }

  lemma BumpedStep(q: seq<Unacked>, i: nat, now: nat, base: nat)
    requires i < |q|
    ensures BumpedUpTo(q, i, now, base)[i] == q[i]
    ensures BumpedUpTo(q, i + 1, now, base)
         == if Due(q[i], now, base) then BumpedUpTo(q, i, now, base)[i := Resent(q[i], now)]
            else BumpedUpTo(q, i, now, base)
  {}

  /** The loop of `BumpDue` at `i`: `cur` is the queue so far, `out` what has been collected. */
  ghost predicate Bumping(q: seq<Unacked>, i: nat, now: nat, base: nat, cur: seq<Unacked>, out: seq<ByteString>)
    requires i <= |q|
  {
    && cur == BumpedUpTo(q, i, now, base)
    && out + Encodings(DueOnes(q[i..], now, base)) == Encodings(DueOnes(q, now, base))
  }

  lemma BumpingStarts(q: seq<Unacked>, now: nat, base: nat)
    ensures Bumping(q, 0, now, base, q, [])
  {
    assert q[0..] == q && Bumped(q, now, base)[..0] + q[0..] == q;
  }

  lemma BumpingStep(q: seq<Unacked>, i: nat, now: nat, base: nat, cur: seq<Unacked>, out: seq<ByteString>)
    requires i < |q| && Bumping(q, i, now, base, cur, out)
    ensures |cur| == |q| && cur[i] == q[i]
    ensures Due(q[i], now, base) ==>
              Bumping(q, i + 1, now, base, cur[i := Resent(q[i], now)], out + [q[i].encoded])
    ensures !Due(q[i], now, base) ==> Bumping(q, i + 1, now, base, cur, out)
  {
    BumpedStep(q, i, now, base);
    DueOnesStep(q, i, now, base, out);
  }

  lemma BumpingEnds(q: seq<Unacked>, now: nat, base: nat, cur: seq<Unacked>, out: seq<ByteString>)
    requires Bumping(q, |q|, now, base, cur, out)
    ensures cur == Bumped(q, now, base) && out == Encodings(DueOnes(q, now, base))
  {
    assert q[|q|..] == [] && out + [] == out;
  }

  lemma WrapStep(w: Wrapping, inner: seq<ByteString>, i: nat, id: u32, timestamp: u32, wires: seq<ByteString>)
    requires i < |inner|
    ensures wires + WrapEach(w, inner[i..], id, timestamp)
         == (match Wrapped(w, inner[i], id, timestamp) case Ok(wire) => wires + [wire] case Err => wires)
            + WrapEach(w, inner[i + 1..], WrapId(w, id, 1), timestamp)
    ensures WrapId(w, id, |inner| - i) == WrapId(w, WrapId(w, id, 1), |inner| - (i + 1))
  {
    assert inner[i..][0] == inner[i] && inner[i..][1..] == inner[i + 1..];
  }

  /** A flush as the chunk loop builds it up: the layer afterwards, the datagrams, the result. */
  function Flushed(w: Wrapping, r: Reliable, ids: Ids, keyId: byte, rest: ByteString, now: nat, timestamp: u32,
                   left: nat)
    : (Reliable, seq<ByteString>, bool)
  {
    var (r', ps, ok) := SendChunks(r, ids, keyId, Chunks(rest), Enveloped(w), now, left);
    (r', Wires(w, ps, r.envelopeId, timestamp), ok)
  }

  function Prepend(wires: seq<ByteString>, res: (Reliable, seq<ByteString>, bool)): (Reliable, seq<ByteString>, bool) {
    (res.0, wires + res.1, res.2)
  }

  lemma PrependTwice(a: seq<ByteString>, b: seq<ByteString>, res: (Reliable, seq<ByteString>, bool))
    ensures Prepend(a, Prepend(b, res)) == Prepend(a + b, res)
  {
    assert a + (b + res.1) == a + b + res.1;
  }

  /** One fragment of a flush. */
  lemma FragmentStep(w: Wrapping, r: Reliable, ids: Ids, keyId: byte, rest: ByteString, now: nat, timestamp: u32,
                     left: nat)
    requires rest != []
    ensures var n := if |rest| <= MAX_TLS_PAYLOAD then |rest| else MAX_TLS_PAYLOAD;
            var p := MakeControl(r, ids, keyId, rest[..n]).1;
            var r' := AfterFirst(r, ids, keyId, rest[..n], Enveloped(w), now, left > 0);
            var wire := Wrapped(w, Encode(p), r.envelopeId, timestamp);
            && wire.Ok?
            && Flushed(w, r, ids, keyId, rest, now, timestamp, left)
                 == if left == 0 then (r', [wire.value], false)
                    else Prepend([wire.value], Flushed(w, r', ids, keyId, rest[n..], now, timestamp, left - 1))
  {
    ChunksStep(rest);
    var n := if |rest| <= MAX_TLS_PAYLOAD then |rest| else MAX_TLS_PAYLOAD;
    var p := MakeControl(r, ids, keyId, rest[..n]).1;
    var r' := AfterFirst(r, ids, keyId, rest[..n], Enveloped(w), now, left > 0);
    assert r'.envelopeId == WrapId(w, r.envelopeId, 1);
    WiresOne(w, p, r.envelopeId, timestamp);
    if left > 0 {
      WiresCons(w, p, SendChunks(r', ids, keyId, Chunks(rest[n..]), Enveloped(w), now, left - 1).1, r.envelopeId,
                timestamp);
    }
  }

  lemma ChunksStep(rest: ByteString)
    requires rest != []
    ensures var n := if |rest| <= MAX_TLS_PAYLOAD then |rest| else MAX_TLS_PAYLOAD;
            Chunks(rest) == [rest[..n]] + Chunks(rest[n..])
  {
    if |rest| <= MAX_TLS_PAYLOAD {
      assert rest[..|rest|] == rest && Chunks(rest[|rest|..]) == [];
    }
  }

  /** The header of a data packet, filled in place. */
  method FillHeader(keyId: byte, peerId: u32, packetId: u32) returns (header: array<byte>)
    ensures fresh(header) && header[..] == DataHeader(keyId, peerId, packetId)
  {
    header := new byte[8](i => 0);
    header[0] := FirstByte(DataV2, keyId);
    CopyFromSlice(header, 1, ToBe(W24, peerId));
    assert header[..4] == [FirstByte(DataV2, keyId)] + ToBe(W24, peerId);
    CopyFromSlice(header, 4, ToBe(W32, packetId));
  }
}
