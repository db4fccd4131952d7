/**
  Data-channel encryption of src/crypto.rs over an abstract AEAD.

  AES-256-GCM itself is a foreign library.  `Aead` keeps the three facts about it that the source
  relies on: it appends a 16-byte tag, it refuses over-long messages, and it decrypts exactly the
  strings that encryption under the same key, nonce and header produces.
 */
module Crypto {
  import opened Bytes

  const KEY_SIZE: nat := 32
  const IMPLICIT_IV_SIZE: nat := 8
  const TAG_SIZE: nat := 16
  const KEYMAT_LEN: nat := 256
  const SLOT: nat := 64

  /** Arguments are key, nonce, associated data and message. */
  datatype AeadOps = AeadOps(
    encrypt: (ByteString, ByteString, ByteString, ByteString) -> ByteString,
    decrypt: (ByteString, ByteString, ByteString, ByteString) -> Option<ByteString>,
    limit: nat)

  ghost predicate Lawful(a: AeadOps) {
    && (forall k: ByteString, n: ByteString, d: ByteString, m: ByteString ::
          |a.encrypt(k, n, d, m)| == |m| + TAG_SIZE)
    && (forall k: ByteString, n: ByteString, d: ByteString, c: ByteString, m: ByteString ::
          a.decrypt(k, n, d, c) == Some(m) <==> |m| <= a.limit && a.encrypt(k, n, d, m) == c)
  }

  const ZeroTag: ByteString := seq(TAG_SIZE, i => 0)

  /** A (useless) cipher that satisfies the laws, to show that they can be met. */
  const PlainAead := AeadOps(
    (k, n, d, m: ByteString) => m + ZeroTag,
    (k, n, d, c: ByteString) =>
      if TAG_SIZE <= |c| <= TAG_SIZE + 65535 && c[|c| - TAG_SIZE..] == ZeroTag then Some(c[..|c| - TAG_SIZE]) else None,
    65535)

  lemma PlainAeadLawful()
    ensures Lawful(PlainAead)
  {
    var a := PlainAead;
    forall k: ByteString, n: ByteString, d: ByteString, c: ByteString, m: ByteString
      ensures a.decrypt(k, n, d, c) == Some(m) <==> |m| <= a.limit && a.encrypt(k, n, d, m) == c
    {
      if a.decrypt(k, n, d, c) == Some(m) {
        assert c == m + ZeroTag;
      }
      if a.encrypt(k, n, d, m) == c {
        assert c[|c| - TAG_SIZE..] == ZeroTag && c[..|c| - TAG_SIZE] == m;
      }
    }
  }

  type Aead = a: AeadOps | Lawful(a) ghost witness (PlainAeadLawful(); PlainAead)

  datatype CipherKeys = CipherKeys(encKey: ByteString, decKey: ByteString, encIv: ByteString, decIv: ByteString)

  type DataCipher = c: CipherKeys |
    |c.encKey| == |c.decKey| == KEY_SIZE && |c.encIv| == |c.decIv| == IMPLICIT_IV_SIZE
    witness CipherKeys(seq(KEY_SIZE, i => 0), seq(KEY_SIZE, i => 0),
                       seq(IMPLICIT_IV_SIZE, i => 0), seq(IMPLICIT_IV_SIZE, i => 0))

  /** The other peer's view of the same keys. */
  function Mirror(c: DataCipher): DataCipher {
    CipherKeys(c.decKey, c.encKey, c.decIv, c.encIv)
  }

  /** The server's half of the key block: `keys[1]` for sending, `keys[0]` for receiving. */
  function ServerCipher(km: ByteString): DataCipher
    requires |km| == KEYMAT_LEN
  {
    CipherKeys(km[128..160], km[0..32], km[192..200], km[64..72])
  }

  /** The client's half of the same block: it sends with `keys[0]` and receives with `keys[1]`. */
  function ClientCipher(km: ByteString): DataCipher
    requires |km| == KEYMAT_LEN
  {
    var sendKey, sendIv := km[..KEY_SIZE], km[SLOT..][..IMPLICIT_IV_SIZE];
    var receiveKey, receiveIv := km[2 * SLOT..][..KEY_SIZE], km[3 * SLOT..][..IMPLICIT_IV_SIZE];
    CipherKeys(sendKey, receiveKey, sendIv, receiveIv)
  }

  lemma ClientMirrorsServer(km: ByteString)
    requires |km| == KEYMAT_LEN
    ensures ClientCipher(km) == Mirror(ServerCipher(km))
    ensures ServerCipher(km) == Mirror(ClientCipher(km))
  {
    assert km[SLOT..][..IMPLICIT_IV_SIZE] == km[64..72];
    assert km[2 * SLOT..][..KEY_SIZE] == km[128..160];
    assert km[3 * SLOT..][..IMPLICIT_IV_SIZE] == km[192..200];
  }

  function Nonce(packetId: u32, iv: ByteString): ByteString {
    ToBe(W32, packetId) + iv
  }

  function Seal(a: Aead, c: DataCipher, packetId: u32, aad: ByteString, plaintext: ByteString): Result<ByteString> {
    if |plaintext| > a.limit then Err
    else
      var ctThenTag := a.encrypt(c.encKey, Nonce(packetId, c.encIv), aad, plaintext);
      var split := |ctThenTag| - TAG_SIZE;
      Ok(ctThenTag[split..] + ctThenTag[..split])
  }

  function Open(a: Aead, c: DataCipher, packetId: u32, aad: ByteString, wire: ByteString): Result<ByteString> {
    if |wire| < TAG_SIZE then Err
    else
      match a.decrypt(c.decKey, Nonce(packetId, c.decIv), aad, wire[TAG_SIZE..] + wire[..TAG_SIZE])
      case Some(plaintext) => Ok(plaintext)
      case None => Err
  }

  /** The mirrored cipher opens exactly what this one seals, with the same id and header. */
  lemma OpenExact(a: Aead, c: DataCipher, packetId: u32, aad: ByteString, wire: ByteString, plaintext: ByteString)
    ensures Open(a, Mirror(c), packetId, aad, wire) == Ok(plaintext)
        <==> Seal(a, c, packetId, aad, plaintext) == Ok(wire)
  {
    var nonce := Nonce(packetId, c.encIv);
    var ct := a.encrypt(c.encKey, nonce, aad, plaintext);
    var split := |ct| - TAG_SIZE;
    var sealed := ct[split..] + ct[..split];
    if |wire| >= TAG_SIZE {
      var back := wire[TAG_SIZE..] + wire[..TAG_SIZE];
      assert a.decrypt(c.encKey, nonce, aad, back) == Some(plaintext) <==> |plaintext| <= a.limit && ct == back;
      if ct == back {
        assert sealed == wire;
      }
      if sealed == wire {
        assert back == ct;
      }
    }
  }

  /** The 12 bytes of a nonce: the packet id, most significant byte first, and the implicit IV. */
  predicate IsNonce(n: ByteString, packetId: u32, iv: ByteString) {
    |n| == 12 && U32(n[..4]) == packetId && n[4..] == iv
  }

  lemma NonceIs(packetId: u32, iv: ByteString)
    requires |iv| == IMPLICIT_IV_SIZE
    ensures IsNonce(Nonce(packetId, iv), packetId, iv)
  {
    assert Nonce(packetId, iv)[..4] == ToBe(W32, packetId) && Nonce(packetId, iv)[4..] == iv;
    U32RoundTrip(packetId);
  }

  /** Under one IV, nonces differ exactly if packet ids do. */
  lemma NoncesDiffer(m: ByteString, n: ByteString, i: u32, j: u32, iv: ByteString)
    requires IsNonce(m, i, iv) && IsNonce(n, j, iv)
    ensures m == n <==> i == j
  {
    if i == j {
      ToFromBe(m[..4]);
      ToFromBe(n[..4]);
      assert m == m[..4] + m[4..] && n == n[..4] + n[4..];
    }
  }

  /** What is sent is the tag and then the ciphertext of the plaintext, under the sending key, the nonce
      of the packet id and the sending IV, with the header authenticated. */
  lemma SealedUnder(a: Aead, c: DataCipher, packetId: u32, aad: ByteString, plaintext: ByteString, wire: ByteString)
    returns (n: ByteString)
    requires Seal(a, c, packetId, aad, plaintext) == Ok(wire)
    ensures IsNonce(n, packetId, c.encIv) && |wire| == |plaintext| + 16
    ensures wire[16..] + wire[..16] == a.encrypt(c.encKey, n, aad, plaintext)
  {
    n := Nonce(packetId, c.encIv);
    NonceIs(packetId, c.encIv);
    var ct := a.encrypt(c.encKey, n, aad, plaintext);
    assert ct == ct[..|plaintext|] + ct[|plaintext|..];
  }

  /** And what is received is decrypted under the receiving key, nonce and IV, with its own header. */
  lemma OpenedUnder(a: Aead, c: DataCipher, packetId: u32, aad: ByteString, wire: ByteString) returns (n: ByteString)
    ensures IsNonce(n, packetId, c.decIv)
    ensures Open(a, c, packetId, aad, wire)
         == if |wire| < 16 then Err
            else match a.decrypt(c.decKey, n, aad, wire[16..] + wire[..16]) case Some(m) => Ok(m) case None => Err
  {
    n := Nonce(packetId, c.decIv);
    NonceIs(packetId, c.decIv);
  }

  // ---------------------------------------------------------------------------------------------
  // The same operations as the source performs them
  // ---------------------------------------------------------------------------------------------

  method FromKeymatServer(km: ByteString) returns (c: DataCipher)
    requires |km| == KEYMAT_LEN
    ensures c == ServerCipher(km)
  {
    var clientEnc := ToArray(km[0..KEY_SIZE]);
    var clientIv := ToArray(km[SLOT..SLOT + IMPLICIT_IV_SIZE]);
    var serverEnc := ToArray(km[SLOT * 2..SLOT * 2 + KEY_SIZE]);
    var serverIv := ToArray(km[SLOT * 3..SLOT * 3 + IMPLICIT_IV_SIZE]);
    c := CipherKeys(serverEnc[..], clientEnc[..], serverIv[..], clientIv[..]);
  }

  method FillNonce(packetId: u32, iv: ByteString) returns (nonce: array<byte>)
    requires |iv| == IMPLICIT_IV_SIZE
    ensures fresh(nonce) && nonce[..] == Nonce(packetId, iv)
  {
    nonce := new byte[12](i => 0);
    CopyFromSlice(nonce, 0, ToBe(W32, packetId));
    CopyFromSlice(nonce, 4, iv);
  }

  method SealPacket(a: Aead, c: DataCipher, packetId: u32, aad: ByteString, plaintext: ByteString)
    returns (r: Result<ByteString>)
    ensures r == Seal(a, c, packetId, aad, plaintext)
  {
    var nonce := FillNonce(packetId, c.encIv);
    if |plaintext| > a.limit {
      return Err;
    }
    var ctThenTag := a.encrypt(c.encKey, nonce[..], aad, plaintext);
    var split := |ctThenTag| - TAG_SIZE;
    var out := ctThenTag[split..];
    out := out + ctThenTag[..split];
    return Ok(out);
  }

  method OpenPacket(a: Aead, c: DataCipher, packetId: u32, aad: ByteString, wire: ByteString)
    returns (r: Result<ByteString>)
    ensures r == Open(a, c, packetId, aad, wire)
  {
    if |wire| < TAG_SIZE {
      return Err;
    }
    var tag, ct := wire[..TAG_SIZE], wire[TAG_SIZE..];
    var ctThenTag := ct;
    ctThenTag := ctThenTag + tag;
    var nonce := FillNonce(packetId, c.decIv);
    match a.decrypt(c.decKey, nonce[..], aad, ctThenTag) {
      case Some(plaintext) => return Ok(plaintext);
      case None => return Err;
    }
  }
}
