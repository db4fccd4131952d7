/**
  The data plane end to end: a sender numbering and sealing packets on one key generation, a network
  that may lose, repeat, reorder and inject, and a mirrored receiver.
 */
module DataPlane {
  import opened Bytes
  import opened Crypto
  import opened Protocol
  import opened Replay
  import opened Keyring
  import ControlPlane
  import ControlChannel

  // ---------------------------------------------------------------------------------------------
  // The sender
  // ---------------------------------------------------------------------------------------------

  /** The results of building a packet for each of `plaintexts` in turn. */
  function Sent(a: Aead, k: Keyring, peerId: u32, plaintexts: seq<ByteString>): (r: seq<Result<ByteString>>)
    ensures |r| == |plaintexts|
    decreases |plaintexts|
  {
    if plaintexts == [] then []
    else
      var (k', wire) := SealNext(a, k, peerId, plaintexts[0]);
      [wire] + Sent(a, k', peerId, plaintexts[1..])
  }

  /** A packet sealed on `slot` under id `pid`. */
  function Wire(a: Aead, slot: KeySlot, peerId: u32, pid: u32, plaintext: ByteString): Result<ByteString> {
    SealSlot(a, slot.(pidOut := pid), peerId, plaintext).1
  }

  /** The same on a slot alone. */
  function SentOn(a: Aead, slot: KeySlot, peerId: u32, plaintexts: seq<ByteString>): (r: seq<Result<ByteString>>)
    ensures |r| == |plaintexts|
    decreases |plaintexts|
  {
    if plaintexts == [] then []
    else
      var (slot', wire) := SealSlot(a, slot, peerId, plaintexts[0]);
      [wire] + SentOn(a, slot', peerId, plaintexts[1..])
  }

  lemma {:induction false} SentOnActive(a: Aead, k: Keyring, peerId: u32, plaintexts: seq<ByteString>)
    requires ActiveSlot(k).Some?
    ensures Sent(a, k, peerId, plaintexts) == SentOn(a, ActiveSlot(k).value, peerId, plaintexts)
    decreases |plaintexts|
  {
    if plaintexts != [] {
      SentOnActive(a, SealNext(a, k, peerId, plaintexts[0]).0, peerId, plaintexts[1..]);
    }
  }

  /** The counter after `i` packets. */
  function NthPid(pid: u32, i: nat): u32
    decreases i
  {
    if i == 0 then pid else NthPid(NextU32(pid), i - 1)
  }

  lemma {:induction false} NthPidIs(pid: u32, i: nat)
    ensures NthPid(pid, i) == (pid + i) % 0x1_0000_0000
    decreases i
  {
    if i > 0 {
      NthPidIs(NextU32(pid), i - 1);
      WrapAdd(pid + 1, i - 1);
    }
  }

  lemma {:induction false} SentOnAt(a: Aead, slot: KeySlot, peerId: u32, plaintexts: seq<ByteString>, i: nat)
    requires i < |plaintexts|
    ensures SentOn(a, slot, peerId, plaintexts)[i] == Wire(a, slot, peerId, NthPid(slot.pidOut, i), plaintexts[i])
    decreases i
  {
    if i > 0 {
      var slot' := SealSlot(a, slot, peerId, plaintexts[0]).0;
      SentOnAt(a, slot', peerId, plaintexts[1..], i - 1);
    } else {
      assert slot.(pidOut := slot.pidOut) == slot;
    }
  }

  /** The `i`th packet carries the `i`th id after the counter, modulo 2^32. */
  lemma SentAt(a: Aead, k: Keyring, peerId: u32, plaintexts: seq<ByteString>, i: nat, pid: u32)
    requires ActiveSlot(k).Some? && i < |plaintexts| && pid == (ActiveSlot(k).value.pidOut + i) % 0x1_0000_0000
    ensures Sent(a, k, peerId, plaintexts)[i] == Wire(a, ActiveSlot(k).value, peerId, pid, plaintexts[i])
  {
    var slot := ActiveSlot(k).value;
    NthPidIs(slot.pidOut, i);
    assert pid == NthPid(slot.pidOut, i);
    SentOnActive(a, k, peerId, plaintexts);
    SentOnAt(a, slot, peerId, plaintexts, i);
  }

  // ---------------------------------------------------------------------------------------------
  // The receiver
  // ---------------------------------------------------------------------------------------------

  function ReceiverAfter(a: Aead, k: Keyring, datagrams: seq<ByteString>): Keyring {
    if datagrams == [] then k
    else OpenNext(a, ReceiverAfter(a, k, datagrams[..|datagrams| - 1]), datagrams[|datagrams| - 1]).0
  }

  /** What the receiver hands on for the `j`th datagram. */
  function Delivered(a: Aead, k: Keyring, datagrams: seq<ByteString>, j: nat): Result<ByteString>
    requires j < |datagrams|
  {
    OpenNext(a, ReceiverAfter(a, k, datagrams[..j]), datagrams[j]).1
  }

  predicate SameKey(s: Option<KeySlot>, t: Option<KeySlot>) {
    s.Some? == t.Some? && (s.Some? ==> s.value.keyId == t.value.keyId && s.value.cipher == t.value.cipher)
  }

  predicate SameKeys(k: Keyring, l: Keyring) {
    SameKey(k.slots[0], l.slots[0]) && SameKey(k.slots[1], l.slots[1])
  }

  lemma SameKeysAuthenticate(a: Aead, k: Keyring, l: Keyring, pkt: ByteString)
    requires SameKeys(k, l)
    ensures Authenticate(a, k, pkt) == Authenticate(a, l, pkt)
  {
    if ParseData(pkt).Ok? {
      var keyId := ParseData(pkt).value.keyId;
      assert Position(k, keyId) == Position(l, keyId);
    }
  }

  lemma OpenKeepsKeys(a: Aead, k: Keyring, l: Keyring, datagram: ByteString)
    requires SameKeys(k, l)
    ensures SameKeys(k, OpenNext(a, l, datagram).0)
  {}

  lemma OpenForeign(a: Aead, k: Keyring, i: SlotIndex, datagram: ByteString)
    requires Foreign(a, k, i, datagram)
    ensures OpenNext(a, k, datagram).0.slots[i] == k.slots[i]
  {}

  lemma OpenMatched(a: Aead, k: Keyring, i: SlotIndex, datagram: ByteString, id: u32, plaintext: ByteString)
    requires Authenticate(a, k, datagram) == Some((i, id, plaintext))
    ensures OpenNext(a, k, datagram).0.slots[i].value.replay == Check(k.slots[i].value.replay, id).0
    ensures OpenNext(a, k, datagram).1 == if Check(k.slots[i].value.replay, id).1 then Ok(plaintext) else Err
  {}

  /** The receiver's slot `i` holds the other side of the sender's active slot. */
  predicate Mirrored(sender: Keyring, receiver: Keyring, i: SlotIndex) {
    && ActiveSlot(sender).Some?
    && ActiveSlot(sender).value.keyId < 8
    && Position(receiver, ActiveSlot(sender).value.keyId) == Some(i)
    && receiver.slots[i].value.cipher == Mirror(ActiveSlot(sender).value.cipher)
  }

  lemma WireAuthenticates(a: Aead, sender: Keyring, receiver: Keyring, i: SlotIndex, peerId: u32, pid: u32,
                          plaintext: ByteString, wire: ByteString)
    requires Mirrored(sender, receiver, i) && peerId < 0x100_0000
    requires Wire(a, ActiveSlot(sender).value, peerId, pid, plaintext) == Ok(wire)
    ensures Authenticate(a, receiver, wire) == Some((i, pid, plaintext))
  {
    var slot := ActiveSlot(sender).value;
    var header := DataHeader(slot.keyId, peerId, pid);
    var ct := Seal(a, slot.cipher, pid, header, plaintext).value;
    assert wire == header + ct && wire[..8] == header;
    DataHeaderParses(slot.keyId, peerId, pid, ct);
    OpenExact(a, slot.cipher, pid, header, ct, plaintext);
  }

  // ---------------------------------------------------------------------------------------------
  // Sender, network and receiver together
  // ---------------------------------------------------------------------------------------------

  /** A datagram that does not authenticate on slot `i`: forged, damaged, or for the other key. */
  predicate Foreign(a: Aead, receiver: Keyring, i: SlotIndex, datagram: ByteString) {
    match Authenticate(a, receiver, datagram)
    case Some((j, _, _)) => j != i
    case None => true
  }

  /** Datagram `j` is the packet with id `ids[j]`, or foreign if that is 0.  Any list of this kind is
      possible: packets may be missing, repeated, and in any order. */
  ghost predicate Carries(a: Aead, receiver: Keyring, i: SlotIndex, sent: seq<Result<ByteString>>,
                          datagrams: seq<ByteString>, ids: seq<u32>)
  {
    && |ids| == |datagrams|
    && forall j | 0 <= j < |ids| ::
         if ids[j] == 0 then Foreign(a, receiver, i, datagrams[j])
         else ids[j] <= |sent| && sent[ids[j] - 1] == Ok(datagrams[j])
  }

  /** The state right after both peers have installed the key derived from one exchange. */
  lemma InstalledPairIsFresh(cipher: DataCipher, keyId: byte, peerId: u32)
    requires keyId < 8 && peerId < 0x100_0000
    ensures FreshPair(InstallPrf(EmptyKeyring, keyId, cipher), InstallPrf(EmptyKeyring, keyId, Mirror(cipher)), 0,
                      peerId)
    ensures FreshPair(InstallPrf(EmptyKeyring, keyId, Mirror(cipher)), InstallPrf(EmptyKeyring, keyId, cipher), 0,
                      peerId)
  {}

  /** So the session at the end of a handshake and its client are such a pair, in both directions. */
  lemma HandshakeGivesFreshPair(env: ControlPlane.Env, km: ControlChannel.ClientKeyMethod2, outbox: ByteString,
                                texts: seq<ControlPlane.Message>)
    requires |env.random1| == |env.random2| == 32 && env.peerId < 0x100_0000
    ensures var reply := ControlPlane.Reply(env, env.random1, env.random2);
            var server := ControlPlane.Greeted(env, km, ControlPlane.Established, [], outbox, texts).keys;
            && |reply| >= 69
            && var client := InstallPrf(EmptyKeyring, 0, ControlPlane.ClientView(env, km, reply));
               FreshPair(server, client, 0, env.peerId) && FreshPair(client, server, 0, env.peerId)
  {
    ControlPlane.KeyAgreement(env, km, env.random1, env.random2);
    InstalledPairIsFresh(ControlPlane.DeriveCipher(env, km, env.random1, env.random2), 0, env.peerId);
  }

  /** A fresh session pair: the sender's counter is at 1, the receiver's window is empty. */
  predicate FreshPair(sender: Keyring, receiver: Keyring, i: SlotIndex, peerId: u32) {
    && Mirrored(sender, receiver, i)
    && peerId < 0x100_0000
    && ActiveSlot(sender).value.pidOut == 1
    && receiver.slots[i].value.replay == Fresh
  }

  lemma {:induction false} ReceiverTracksIds(
    a: Aead, sender: Keyring, receiver: Keyring, i: SlotIndex, peerId: u32,
    plaintexts: seq<ByteString>, datagrams: seq<ByteString>, ids: seq<u32>)
    requires FreshPair(sender, receiver, i, peerId) && |plaintexts| < U32_COUNT
    requires Carries(a, receiver, i, Sent(a, sender, peerId, plaintexts), datagrams, ids)
    ensures SameKeys(receiver, ReceiverAfter(a, receiver, datagrams))
    ensures ReceiverAfter(a, receiver, datagrams).slots[i].value.replay == After(ids)
    decreases |datagrams|
  {
    if datagrams != [] {
      var n := |datagrams| - 1;
      ReceiverTracksIds(a, sender, receiver, i, peerId, plaintexts, datagrams[..n], ids[..n]);
      DatagramStep(a, sender, receiver, ReceiverAfter(a, receiver, datagrams[..n]), i, peerId, plaintexts,
                   datagrams[n], ids[n]);
    }
  }

  lemma SentWithId(a: Aead, sender: Keyring, peerId: u32, plaintexts: seq<ByteString>, id: u32)
    requires ActiveSlot(sender).Some? && ActiveSlot(sender).value.pidOut == 1 && 0 < id <= |plaintexts|
    ensures Sent(a, sender, peerId, plaintexts)[id - 1]
         == Wire(a, ActiveSlot(sender).value, peerId, id, plaintexts[id - 1])
  {
    SentAt(a, sender, peerId, plaintexts, id - 1, id);
  }

  /** What the packet with id `id` authenticates as. */
  lemma DatagramAuthenticates(
    a: Aead, sender: Keyring, receiver: Keyring, i: SlotIndex, peerId: u32,
    plaintexts: seq<ByteString>, datagram: ByteString, id: u32)
    requires Mirrored(sender, receiver, i) && peerId < 0x100_0000 && ActiveSlot(sender).value.pidOut == 1
    requires 0 < id <= |plaintexts| && Sent(a, sender, peerId, plaintexts)[id - 1] == Ok(datagram)
    ensures Authenticate(a, receiver, datagram) == Some((i, id, plaintexts[id - 1]))
  {
    SentWithId(a, sender, peerId, plaintexts, id);
    WireAuthenticates(a, sender, receiver, i, peerId, id, plaintexts[id - 1], datagram);
  }

  /** One datagram at a receiver whose keys are those of `receiver`. */
  lemma DatagramStep(
    a: Aead, sender: Keyring, receiver: Keyring, k: Keyring, i: SlotIndex, peerId: u32,
    plaintexts: seq<ByteString>, datagram: ByteString, id: u32)
    requires FreshPair(sender, receiver, i, peerId) && SameKeys(receiver, k) && id <= |plaintexts|
    requires if id == 0 then Foreign(a, receiver, i, datagram)
             else Sent(a, sender, peerId, plaintexts)[id - 1] == Ok(datagram)
    ensures SameKeys(receiver, OpenNext(a, k, datagram).0)
    ensures OpenNext(a, k, datagram).0.slots[i].value.replay == Check(k.slots[i].value.replay, id).0
    ensures id != 0 ==> OpenNext(a, k, datagram).1
                        == if Check(k.slots[i].value.replay, id).1 then Ok(plaintexts[id - 1]) else Err
  {
    if id != 0 {
      DatagramAuthenticates(a, sender, receiver, i, peerId, plaintexts, datagram, id);
    }
    SameKeysAuthenticate(a, receiver, k, datagram);
    OpenKeepsKeys(a, receiver, k, datagram);
    if id == 0 {
      OpenForeign(a, k, i, datagram);
    } else {
      OpenMatched(a, k, i, datagram, id, plaintexts[id - 1]);
    }
  }

  /**
    End to end, for every plaintext sequence of fewer than 2^32 packets and every network: each
    delivery of packet `n` yields exactly the plaintext that was sealed into it when the window's
    reference meaning admits the id, and nothing otherwise.  Foreign datagrams have no influence.
   */
  lemma EndToEnd(
    a: Aead, sender: Keyring, receiver: Keyring, i: SlotIndex, peerId: u32,
    plaintexts: seq<ByteString>, datagrams: seq<ByteString>, ids: seq<u32>, j: nat)
    requires FreshPair(sender, receiver, i, peerId) && |plaintexts| < U32_COUNT
    requires Carries(a, receiver, i, Sent(a, sender, peerId, plaintexts), datagrams, ids)
    requires j < |ids| && ids[j] != 0
    ensures Delivered(a, receiver, datagrams, j)
            == if Admits(Accepted(ids[..j]), ids[j]) then Ok(plaintexts[ids[j] - 1]) else Err
  {
    ReceiverTracksIds(a, sender, receiver, i, peerId, plaintexts, datagrams[..j], ids[..j]);
    DatagramStep(a, sender, receiver, ReceiverAfter(a, receiver, datagrams[..j]), i, peerId, plaintexts,
                 datagrams[j], ids[j]);
    RunRefines(ids, j);
  }

  /** No packet is delivered twice. */
  lemma DeliveredAtMostOnce(
    a: Aead, sender: Keyring, receiver: Keyring, i: SlotIndex, peerId: u32,
    plaintexts: seq<ByteString>, datagrams: seq<ByteString>, ids: seq<u32>, j: nat, l: nat)
    requires FreshPair(sender, receiver, i, peerId) && |plaintexts| < U32_COUNT
    requires Carries(a, receiver, i, Sent(a, sender, peerId, plaintexts), datagrams, ids)
    requires j < l < |ids| && ids[j] == ids[l] != 0
    ensures Delivered(a, receiver, datagrams, j).Err? || Delivered(a, receiver, datagrams, l).Err?
  {
    EndToEnd(a, sender, receiver, i, peerId, plaintexts, datagrams, ids, j);
    EndToEnd(a, sender, receiver, i, peerId, plaintexts, datagrams, ids, l);
    RunRefines(ids, j);
    AcceptedEarlier(ids, j, l);
  }

  /** A packet fewer than 64 ids behind everything delivered before it, and not itself delivered
      before, is delivered. */
  lemma RecentIsDelivered(
    a: Aead, sender: Keyring, receiver: Keyring, i: SlotIndex, peerId: u32,
    plaintexts: seq<ByteString>, datagrams: seq<ByteString>, ids: seq<u32>, j: nat)
    requires FreshPair(sender, receiver, i, peerId) && |plaintexts| < U32_COUNT
    requires Carries(a, receiver, i, Sent(a, sender, peerId, plaintexts), datagrams, ids)
    requires j < |ids| && ids[j] != 0 && ids[j] !in ids[..j]
    requires forall x | x in ids[..j] :: x < (ids[j] as int) + 64
    ensures Delivered(a, receiver, datagrams, j) == Ok(plaintexts[ids[j] - 1])
  {
    EndToEnd(a, sender, receiver, i, peerId, plaintexts, datagrams, ids, j);
    forall x | x in Accepted(ids[..j])
      ensures x in ids[..j]
    {
      AcceptedWasOffered(ids[..j], x);
    }
  }

  // ---------------------------------------------------------------------------------------------
  // Delivery in order, and the limit of a generation
  // ---------------------------------------------------------------------------------------------

  predicate AllSealable(a: Aead, plaintexts: seq<ByteString>) {
    forall p | p in plaintexts :: |p| <= a.limit
  }

  /** The packets a sender puts on the wire. */
  function Wires(a: Aead, sender: Keyring, peerId: u32, plaintexts: seq<ByteString>): (r: seq<ByteString>)
    requires ActiveSlot(sender).Some? && AllSealable(a, plaintexts)
    ensures |r| == |plaintexts|
    ensures forall n | 0 <= n < |r| :: Sent(a, sender, peerId, plaintexts)[n] == Ok(r[n])
  {
    var sent := Sent(a, sender, peerId, plaintexts);
    assert forall n: nat | n < |sent| :: sent[n].Ok? by {
      forall n: nat | n < |sent|
        ensures sent[n].Ok?
      {
        SentAt(a, sender, peerId, plaintexts, n, (ActiveSlot(sender).value.pidOut + n) % 0x1_0000_0000);
        assert plaintexts[n] in plaintexts;
      }
    }
    seq(|sent|, n requires 0 <= n < |sent| => sent[n].value)
  }

  /** The ids 1, 2, ..., n. */
  function OneTo(n: nat): (ids: seq<u32>)
    requires n < U32_COUNT
    ensures |ids| == n && forall m | 0 <= m < n :: ids[m] == m + 1
  {
    if n == 0 then [] else OneTo(n - 1) + [n]
  }

  lemma Lossless(a: Aead, sender: Keyring, receiver: Keyring, i: SlotIndex, peerId: u32,
                 plaintexts: seq<ByteString>, n: nat)
    requires FreshPair(sender, receiver, i, peerId) && AllSealable(a, plaintexts)
    requires n < |plaintexts| < U32_COUNT
    ensures Delivered(a, receiver, Wires(a, sender, peerId, plaintexts), n) == Ok(plaintexts[n])
  {
    LosslessWires(a, sender, receiver, i, peerId, plaintexts, Wires(a, sender, peerId, plaintexts), n);
  }

  lemma LosslessWires(a: Aead, sender: Keyring, receiver: Keyring, i: SlotIndex, peerId: u32,
                      plaintexts: seq<ByteString>, wires: seq<ByteString>, n: nat)
    requires FreshPair(sender, receiver, i, peerId) && n < |plaintexts| == |wires| < U32_COUNT
    requires forall m | 0 <= m < |wires| :: Sent(a, sender, peerId, plaintexts)[m] == Ok(wires[m])
    ensures Delivered(a, receiver, wires, n) == Ok(plaintexts[n])
  {
    var ids := OneTo(|plaintexts|);
    WiresCarry(a, receiver, i, Sent(a, sender, peerId, plaintexts), wires, ids);
    EndToEnd(a, sender, receiver, i, peerId, plaintexts, wires, ids, n);
    IncreasingAllAccepted(ids, n);
    RunRefines(ids, n);
  }

  lemma WiresCarry(a: Aead, receiver: Keyring, i: SlotIndex, sent: seq<Result<ByteString>>, wires: seq<ByteString>,
                   ids: seq<u32>)
    requires |sent| == |wires| == |ids| && forall n | 0 <= n < |wires| :: sent[n] == Ok(wires[n])
    requires forall m | 0 <= m < |ids| :: ids[m] == m + 1
    ensures Carries(a, receiver, i, sent, wires, ids)
  {}

  lemma {:induction false} ReceiverKeepsKeys(a: Aead, k: Keyring, datagrams: seq<ByteString>)
    ensures SameKeys(k, ReceiverAfter(a, k, datagrams))
  {
    if datagrams != [] {
      var n := |datagrams| - 1;
      ReceiverKeepsKeys(a, k, datagrams[..n]);
      OpenKeepsKeys(a, k, ReceiverAfter(a, k, datagrams[..n]), datagrams[n]);
    }
  }

  /** Id 0 comes up once the counter wraps, and no receiver takes it. */
  lemma WrappedIsRejected(a: Aead, sender: Keyring, receiver: Keyring, i: SlotIndex, peerId: u32,
                          plaintexts: seq<ByteString>)
    requires FreshPair(sender, receiver, i, peerId) && AllSealable(a, plaintexts)
    requires |plaintexts| >= U32_COUNT
    ensures Delivered(a, receiver, Wires(a, sender, peerId, plaintexts), U32_COUNT - 1).Err?
  {
    var wires := Wires(a, sender, peerId, plaintexts);
    var n := U32_COUNT - 1;
    SentAt(a, sender, peerId, plaintexts, n, 0);
    WireAuthenticates(a, sender, receiver, i, peerId, 0, plaintexts[n], wires[n]);
    ReceiverKeepsKeys(a, receiver, wires[..n]);
    SameKeysAuthenticate(a, receiver, ReceiverAfter(a, receiver, wires[..n]), wires[n]);
  }

  /** One generation carries every packet of an in-order stream if and only if the stream has fewer
      than 2^32 packets. */
  lemma InOrderLossless(a: Aead, sender: Keyring, receiver: Keyring, i: SlotIndex, peerId: u32,
                        plaintexts: seq<ByteString>)
    requires FreshPair(sender, receiver, i, peerId) && AllSealable(a, plaintexts)
    ensures (forall n: nat | n < |plaintexts| ::
               Delivered(a, receiver, Wires(a, sender, peerId, plaintexts), n) == Ok(plaintexts[n]))
        <==> |plaintexts| < U32_COUNT
  {
    if |plaintexts| < U32_COUNT {
      forall n: nat | n < |plaintexts|
        ensures Delivered(a, receiver, Wires(a, sender, peerId, plaintexts), n) == Ok(plaintexts[n])
      {
        Lossless(a, sender, receiver, i, peerId, plaintexts, n);
      }
    } else {
      WrappedIsRejected(a, sender, receiver, i, peerId, plaintexts);
    }
  }
}
