/**
  The two data-channel key slots of a session (src/session.rs) and the two ends of the data plane:
  `build_data_packet`, and the locked part of `decrypt_and_forward` in src/server.rs.
 */
module Keyring {
  import opened Bytes
  import opened Crypto
  import opened Protocol
  import opened Replay

  /**
    One key generation.  `gen` numbers the installations of a session in order; the source has no
    such field, and no operation reads it.  It lets properties name a generation.
   */
  datatype KeySlot = KeySlot(keyId: byte, cipher: DataCipher, pidOut: u32, replay: Window, gen: nat)

  type Slots = s: seq<Option<KeySlot>> | |s| == 2 witness [None, None]
  type SlotIndex = i: nat | i < 2

  /** `gens` counts the installations so far. */
  datatype Keyring = Keyring(slots: Slots, active: SlotIndex, gens: nat)

  const EmptyKeyring := Keyring([None, None], 0, 0)

  function ActiveSlot(k: Keyring): Option<KeySlot> {
    k.slots[k.active]
  }

  predicate Holds(slot: Option<KeySlot>, keyId: byte) {
    slot.Some? && slot.value.keyId == keyId
  }

  /** The first slot carrying `keyId`. */
  function Position(k: Keyring, keyId: byte): Option<SlotIndex> {
    if Holds(k.slots[0], keyId) then Some(0)
    else if Holds(k.slots[1], keyId) then Some(1)
    else None
  }

  function Promote(k: Keyring, keyId: byte): (Keyring, bool) {
    match Position(k, keyId)
    case Some(i) => (k.(active := i), true)
    case None => (k, false)
  }

  /** A newly derived slot: the send counter starts at 1 and the replay window is empty. */
  function NewSlot(k: Keyring, keyId: byte, cipher: DataCipher): KeySlot {
    KeySlot(keyId, cipher, 1, Fresh, k.gens)
  }

  /** `install_slot`: into the position that is not active, evicting what was there. */
  function Install(k: Keyring, keyId: byte, cipher: DataCipher): Keyring {
    k.(slots := k.slots[1 - k.active := Some(NewSlot(k, keyId, cipher))], gens := k.gens + 1)
  }

  /** `install_prf_slot`: the first installation goes to slot 0 and is active at once. */
  function InstallPrf(k: Keyring, keyId: byte, cipher: DataCipher): Keyring {
    if ActiveSlot(k).None? then
      Keyring(k.slots[0 := Some(NewSlot(k, keyId, cipher))], 0, k.gens + 1)
    else
      Install(k, keyId, cipher)
  }

  /** One packet on a slot: the counter advances even if the cipher then refuses the plaintext. */
  function SealSlot(a: Aead, slot: KeySlot, peerId: u32, plaintext: ByteString): (KeySlot, Result<ByteString>) {
    var header := DataHeader(slot.keyId, peerId, slot.pidOut);
    (slot.(pidOut := NextU32(slot.pidOut)),
     match Seal(a, slot.cipher, slot.pidOut, header, plaintext)
     case Ok(ct) => Ok(header + ct)
     case Err => Err)
  }

  /** `build_data_packet`: the next packet on the active slot. */
  function SealNext(a: Aead, k: Keyring, peerId: u32, plaintext: ByteString): (Keyring, Result<ByteString>) {
    match ActiveSlot(k)
    case None => (k, Err)
    case Some(slot) =>
      var (slot', wire) := SealSlot(a, slot, peerId, plaintext);
      (k.(slots := k.slots[k.active := Some(slot')]), wire)
  }

  /** What a datagram authenticates as: the slot it is for, its packet id and its plaintext. */
  function Authenticate(a: Aead, k: Keyring, pkt: ByteString): Option<(SlotIndex, u32, ByteString)> {
    match ParseData(pkt)
    case Err => None
    case Ok(dp) =>
      match Position(k, dp.keyId)
      case None => None
      case Some(i) =>
        match Open(a, k.slots[i].value.cipher, dp.packetId, pkt[..8], dp.ciphertext)
        case Ok(plaintext) => Some((i, dp.packetId, plaintext))
        case Err => None
  }

  /** The locked part of `decrypt_and_forward`: authenticate first, then ask the replay window. */
  function OpenNext(a: Aead, k: Keyring, pkt: ByteString): (Keyring, Result<ByteString>) {
    match Authenticate(a, k, pkt)
    case None => (k, Err)
    case Some((i, id, plaintext)) =>
      var (window, ok) := Check(k.slots[i].value.replay, id);
      (k.(slots := k.slots[i := Some(k.slots[i].value.(replay := window))]),
       if ok then Ok(plaintext) else Err)
  }

  // ---------------------------------------------------------------------------------------------
  // Data packets on the wire
  // ---------------------------------------------------------------------------------------------

  /** By wire offsets: the header names key, peer and packet, and is authenticated; the rest is tag and
      ciphertext of the plaintext under the active key and the nonce of that packet id. */
  lemma SealedWire(a: Aead, k: Keyring, peerId: u32, plaintext: ByteString, w: ByteString) returns (n: ByteString)
    requires peerId < 0x100_0000 && ActiveSlot(k).Some? && SealNext(a, k, peerId, plaintext).1 == Ok(w)
    ensures var slot := ActiveSlot(k).value;
            && |w| == |plaintext| + 24
            && w[0] == 72 + slot.keyId % 8 && FromBe(w[1..4]) == peerId && U32(w[4..8]) == slot.pidOut
            && IsNonce(n, slot.pidOut, slot.cipher.encIv)
            && w[24..] + w[8..24] == a.encrypt(slot.cipher.encKey, n, w[..8], plaintext)
  {
    var slot := ActiveSlot(k).value;
    var header := DataHeader(slot.keyId, peerId, slot.pidOut);
    var ct := Seal(a, slot.cipher, slot.pidOut, header, plaintext).value;
    n := SealedUnder(a, slot.cipher, slot.pidOut, header, plaintext, ct);
    DataLayout(slot.keyId, peerId, slot.pidOut);
    assert w == header + ct && w[..8] == header;
    assert w[1..4] == header[1..4] && w[4..8] == header[4..8];
    assert w[24..] == ct[16..] && w[8..24] == ct[..16];
  }

  lemma AuthenticatesByKeyId(a: Aead, k: Keyring, w: ByteString, i: SlotIndex, id: u32, plaintext: ByteString)
    ensures Authenticate(a, k, w) == Some((i, id, plaintext)) <==>
              && |w| >= 8 && 72 <= w[0] < 80 && Position(k, w[0] - 72) == Some(i) && id == U32(w[4..8])
              && Open(a, k.slots[i].value.cipher, id, w[..8], w[8..]) == Ok(plaintext)
  {
    DataAccepted(w);
  }

  lemma OpensByOffsets(a: Aead, c: DataCipher, w: ByteString, id: u32, plaintext: ByteString) returns (n: ByteString)
    requires |w| >= 8
    ensures IsNonce(n, id, c.decIv)
    ensures Open(a, c, id, w[..8], w[8..]) == Ok(plaintext) <==>
              |w| >= 24 && a.decrypt(c.decKey, n, w[..8], w[24..] + w[8..24]) == Some(plaintext)
  {
    n := OpenedUnder(a, c, id, w[..8], w[8..]);
    if |w| >= 24 {
      assert w[8..][16..] == w[24..] && w[8..][..16] == w[8..24];
    }
  }

  /** By the same offsets: a datagram authenticates exactly if its key id is that of a slot and it decrypts
      under that slot's receiving key, the nonce of its packet id, and its own header. */
  lemma AuthenticatesExactly(a: Aead, k: Keyring, w: ByteString, i: SlotIndex, id: u32, plaintext: ByteString)
    returns (n: ByteString)
    ensures k.slots[i].Some? ==> IsNonce(n, id, k.slots[i].value.cipher.decIv)
    ensures Authenticate(a, k, w) == Some((i, id, plaintext)) <==>
              && |w| >= 24 && 72 <= w[0] < 80 && Position(k, w[0] - 72) == Some(i) && id == U32(w[4..8])
              && a.decrypt(k.slots[i].value.cipher.decKey, n, w[..8], w[24..] + w[8..24]) == Some(plaintext)
  {
    AuthenticatesByKeyId(a, k, w, i, id, plaintext);
    n := [];
    if k.slots[i].Some? {
      var c := k.slots[i].value.cipher;
      n := Nonce(id, c.decIv);
      NonceIs(id, c.decIv);
      if |w| >= 8 {
        n := OpensByOffsets(a, c, w, id, plaintext);
      }
    }
  }

  // ---------------------------------------------------------------------------------------------
  // Installing and promoting
  // ---------------------------------------------------------------------------------------------

  /**
    Promoting the key id just installed reaches the slot just installed, except when slot 0 is
    active and already carries that key id.  The peer chooses the key id of a client rekey, so
    nothing in the code rules the exception out.
   */
  lemma PromoteReachesInstalled(k: Keyring, keyId: byte, cipher: DataCipher)
    requires ActiveSlot(k).Some? && ActiveSlot(k).value.gen < k.gens
    ensures ActiveSlot(Promote(Install(k, keyId, cipher), keyId).0) == Some(NewSlot(k, keyId, cipher))
        <==> !(k.active == 0 && ActiveSlot(k).value.keyId == keyId)
  {}

  /** After an installation each slot is found by its stored key id exactly when the new key id differs
      from the active one. */
  lemma InstallKeepsDistinct(k: Keyring, keyId: byte, cipher: DataCipher)
    requires ActiveSlot(k).Some?
    ensures (forall i: SlotIndex :: Install(k, keyId, cipher).slots[i].Some?
               && Position(Install(k, keyId, cipher), Install(k, keyId, cipher).slots[i].value.keyId) == Some(i))
        <==> ActiveSlot(k).value.keyId != keyId
  {
    var k' := Install(k, keyId, cipher);
    assert k'.slots[k.active] == ActiveSlot(k);
    if ActiveSlot(k).value.keyId != keyId {
      assert forall i: SlotIndex :: k'.slots[i].Some? && Position(k', k'.slots[i].value.keyId) == Some(i);
    } else {
      assert Position(k', k'.slots[1].value.keyId) == Some(0);
    }
  }
}
