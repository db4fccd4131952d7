/** The primitives under the two control-channel envelopes, with the only laws the source needs. */
module EnvelopePrimitives {
  import opened Bytes
  import Bits

  const STATIC_KEY_LEN: nat := 256
  const TAG_LEN: nat := 32

  /** HMAC-SHA256 as a function of key and message; all that is known is its output length. */
  type Hmac256 = h: (ByteString, ByteString) -> ByteString |
    forall k: ByteString, m: ByteString :: |h(k, m)| == TAG_LEN
    ghost witness (k, m) => seq(TAG_LEN, i => 0)

  /** The first `n` AES-256-CTR keystream bytes for a key and an IV. */
  type Keystream = s: (ByteString, ByteString, nat) -> ByteString |
    forall k: ByteString, iv: ByteString, n: nat :: |s(k, iv, n)| == n
    ghost witness (k, iv, n: nat) => seq(n, i => 0)

  function XorByte(a: byte, b: byte): byte {
    Bits.XorBound(a, b, 8); Bits.Xor(a, b)
  }

  function XorBytes(a: ByteString, b: ByteString): (r: ByteString)
    requires |a| == |b|
    ensures |r| == |a|
  {
    seq(|a|, i requires 0 <= i < |a| => XorByte(a[i], b[i]))
  }

  lemma XorBytesTwice(a: ByteString, b: ByteString)
    requires |a| == |b|
    ensures XorBytes(XorBytes(a, b), b) == a
  {
    forall i | 0 <= i < |a|
      ensures XorBytes(XorBytes(a, b), b)[i] == a[i]
    {
      Bits.XorTwice(a[i], b[i]);
    }
  }

  /** `cipher.apply_keystream(&mut buf)` */
  method ApplyKeystream(s: Keystream, key: ByteString, iv: ByteString, buf: array<byte>)
    modifies buf
    ensures buf[..] == XorBytes(old(buf[..]), s(key, iv, buf.Length))
  {
    var stream := s(key, iv, buf.Length);
    var i := 0;
    while i < buf.Length
      invariant 0 <= i <= buf.Length
      invariant forall k | 0 <= k < i :: buf[k] == XorByte(old(buf[k]), stream[k])
      invariant forall k | i <= k < buf.Length :: buf[k] == old(buf[k])
    {
      buf[i] := XorByte(buf[i], stream[i]);
      i := i + 1;
    }
  }
}

/** The SIV-style `--tls-crypt` envelope of src/tls_crypt.rs. */
module TlsCrypt {
  import opened Bytes
  import opened EnvelopePrimitives

  const HEADER_LEN: nat := 17
  const SLOT: nat := 64
  const KEY_LEN: nat := 32

  datatype Key = Key(encCipher: ByteString, encHmac: ByteString, decCipher: ByteString, decHmac: ByteString)

  function Mirror(k: Key): Key {
    Key(k.decCipher, k.decHmac, k.encCipher, k.encHmac)
  }

  function ServerKey(km: ByteString): Key
    requires |km| == STATIC_KEY_LEN
  {
    Key(km[0..32], km[64..96], km[128..160], km[192..224])
  }

  /** A client runs in the other direction: `keys[1]` outbound, `keys[0]` inbound. */
  function ClientKey(km: ByteString): Key
    requires |km| == STATIC_KEY_LEN
  {
    var keys0, keys1 := km[..2 * SLOT], km[2 * SLOT..];
    Key(keys1[..KEY_LEN], keys1[SLOT..][..KEY_LEN], keys0[..KEY_LEN], keys0[SLOT..][..KEY_LEN])
  }

  lemma ClientMirrorsServer(km: ByteString)
    requires |km| == STATIC_KEY_LEN
    ensures ClientKey(km) == Mirror(ServerKey(km))
  {
    var keys0, keys1 := km[..2 * SLOT], km[2 * SLOT..];
    assert keys1[..KEY_LEN] == km[128..160] && keys1[SLOT..][..KEY_LEN] == km[192..224];
    assert keys0[..KEY_LEN] == km[0..32] && keys0[SLOT..][..KEY_LEN] == km[64..96];
  }

  function Header(inner: ByteString, packetId: u32, timestamp: u32): (h: ByteString)
    requires |inner| >= 9
    ensures |h| == HEADER_LEN
  {
    inner[..9] + ToBe(W32, packetId) + ToBe(W32, timestamp)
  }

  function Crypt(s: Keystream, cipherKey: ByteString, tag: ByteString, body: ByteString): (r: ByteString)
    requires |tag| == TAG_LEN
    ensures |r| == |body|
  {
    XorBytes(body, s(cipherKey, tag[..16], |body|))
  }

  function Wrap(h: Hmac256, s: Keystream, k: Key, inner: ByteString, packetId: u32, timestamp: u32)
    : Result<ByteString>
  {
    if |inner| < 9 then Err
    else
      var header := Header(inner, packetId, timestamp);
      var tag := h(k.encHmac, header + inner[9..]);
      Ok(header + tag + Crypt(s, k.encCipher, tag, inner[9..]))
  }

  function Unwrap(h: Hmac256, s: Keystream, k: Key, pkt: ByteString): Result<(ByteString, u32)> {
    if |pkt| < HEADER_LEN + TAG_LEN then Err
    else
      var header := pkt[..17];
      var tag := pkt[17..49];
      var plaintext := Crypt(s, k.decCipher, tag, pkt[49..]);
      if h(k.decHmac, header + plaintext) != tag then Err
      else Ok((header[..9] + plaintext, U32(header[9..13])))
  }

  function Timestamp(pkt: ByteString): u32
    requires |pkt| >= HEADER_LEN
  {
    U32(pkt[13..17])
  }

  lemma WrapThenUnwrap(h: Hmac256, s: Keystream, k: Key, inner: ByteString, packetId: u32, timestamp: u32)
    requires |inner| >= 9
    ensures var w := Wrap(h, s, k, inner, packetId, timestamp);
            w.Ok? && Unwrap(h, s, Mirror(k), w.value) == Ok((inner, packetId))
  {
    var header, body := Header(inner, packetId, timestamp), inner[9..];
    var tag := h(k.encHmac, header + body);
    var pkt := header + tag + Crypt(s, k.encCipher, tag, body);
    assert pkt[..17] == header && pkt[17..49] == tag;
    assert pkt[49..] == Crypt(s, k.encCipher, tag, body);
    XorBytesTwice(body, s(k.encCipher, tag[..16], |body|));
    assert header[9..13] == ToBe(W32, packetId);
    U32RoundTrip(packetId);
    assert header[..9] + body == inner;
  }

  lemma UnwrapThenWrap(h: Hmac256, s: Keystream, k: Key, pkt: ByteString)
    requires Unwrap(h, s, Mirror(k), pkt).Ok?
    ensures var (inner, packetId) := Unwrap(h, s, Mirror(k), pkt).value;
            Wrap(h, s, k, inner, packetId, Timestamp(pkt)) == Ok(pkt)
  {
    var header, tag := pkt[..17], pkt[17..49];
    var body := Crypt(s, k.encCipher, tag, pkt[49..]);
    var inner := header[..9] + body;
    assert inner[..9] == header[..9] && inner[9..] == body;
    ToFromBe(header[9..13]);
    ToFromBe(pkt[13..17]);
    assert header == header[..9] + header[9..13] + pkt[13..17];
    assert Header(inner, U32(header[9..13]), Timestamp(pkt)) == header;
    XorBytesTwice(pkt[49..], s(k.encCipher, tag[..16], |pkt| - 49));
    assert pkt == header + tag + pkt[49..];
  }

  /** The peer accepts exactly what this side can produce, and reads back the same contents. */
  lemma UnwrapExact(h: Hmac256, s: Keystream, k: Key, pkt: ByteString, inner: ByteString, packetId: u32)
    ensures Unwrap(h, s, Mirror(k), pkt) == Ok((inner, packetId))
        <==> exists ts: u32 :: Wrap(h, s, k, inner, packetId, ts) == Ok(pkt)
  {
    if Unwrap(h, s, Mirror(k), pkt) == Ok((inner, packetId)) {
      UnwrapThenWrap(h, s, k, pkt);
      assert Wrap(h, s, k, inner, packetId, Timestamp(pkt)) == Ok(pkt);
    }
    if ts: u32 :| Wrap(h, s, k, inner, packetId, ts) == Ok(pkt) {
      WrapThenUnwrap(h, s, k, inner, packetId, ts);
    }
  }

  /** Decryption of the part after the tag, byte by byte, with the first half of the tag as IV. */
  function Decrypted(s: Keystream, cipherKey: ByteString, pkt: ByteString): ByteString
    requires |pkt| >= 49
  {
    var stream := s(cipherKey, pkt[17..33], |pkt| - 49);
    seq(|pkt| - 49, i requires 0 <= i < |pkt| - 49 => XorByte(pkt[49 + i], stream[i]))
  }

  /** By wire offsets: a packet is accepted exactly if its tag covers its header and its plaintext. */
  lemma UnwrapByOffsets(h: Hmac256, s: Keystream, k: Key, pkt: ByteString)
    ensures Unwrap(h, s, k, pkt)
         == if |pkt| < 49 then Err
            else
              var plain := Decrypted(s, k.decCipher, pkt);
              if pkt[17..49] == h(k.decHmac, pkt[..17] + plain) then Ok((pkt[..9] + plain, U32(pkt[9..13]))) else Err
  {
    if |pkt| >= 49 {
      assert pkt[17..49][..16] == pkt[17..33];
      assert Crypt(s, k.decCipher, pkt[17..49], pkt[49..]) == Decrypted(s, k.decCipher, pkt);
      assert pkt[..17][..9] == pkt[..9] && pkt[..17][9..13] == pkt[9..13];
    }
  }

  /** What is sent: the packet's first nine bytes, its id, the time, the tag, the encrypted rest. */
  lemma WrapByOffsets(h: Hmac256, s: Keystream, k: Key, inner: ByteString, packetId: u32, timestamp: u32)
    ensures match Wrap(h, s, k, inner, packetId, timestamp)
            case Err => |inner| < 9
            case Ok(pkt) =>
              && |pkt| == |inner| + 40 && pkt[..9] == inner[..9]
              && U32(pkt[9..13]) == packetId && U32(pkt[13..17]) == timestamp
              && pkt[17..49] == h(k.encHmac, pkt[..17] + inner[9..])
              && Decrypted(s, k.encCipher, pkt) == inner[9..]
  {
    if |inner| >= 9 {
      var header, body := Header(inner, packetId, timestamp), inner[9..];
      var tag := h(k.encHmac, header + body);
      var pkt := header + tag + Crypt(s, k.encCipher, tag, body);
      assert pkt[..17] == header && pkt[17..49] == tag && pkt[17..33] == tag[..16];
      assert pkt[..9] == inner[..9];
      assert pkt[9..13] == ToBe(W32, packetId) && pkt[13..17] == ToBe(W32, timestamp);
      U32RoundTrip(packetId);
      U32RoundTrip(timestamp);
      assert pkt[49..] == Crypt(s, k.encCipher, tag, body);
      XorBytesTwice(body, s(k.encCipher, tag[..16], |body|));
      assert Decrypted(s, k.encCipher, pkt) == XorBytes(pkt[49..], s(k.encCipher, tag[..16], |body|));
    }
  }

  method FromStaticKeyServer(km: ByteString) returns (k: Key)
    requires |km| == STATIC_KEY_LEN
    ensures k == ServerKey(km)
  {
    var encCipher := ToArray(km[0..KEY_LEN]);
    var encHmac := ToArray(km[SLOT..SLOT + KEY_LEN]);
    var decCipher := ToArray(km[SLOT * 2..SLOT * 2 + KEY_LEN]);
    var decHmac := ToArray(km[SLOT * 3..SLOT * 3 + KEY_LEN]);
    k := Key(encCipher[..], encHmac[..], decCipher[..], decHmac[..]);
  }

  method WrapPacket(h: Hmac256, s: Keystream, k: Key, inner: ByteString, packetId: u32, timestamp: u32)
    returns (r: Result<ByteString>)
    ensures r == Wrap(h, s, k, inner, packetId, timestamp)
  {
    if |inner| < 9 {
      return Err;
    }
    var body := inner[9..];
    var header := new byte[HEADER_LEN](i => 0);
    header[0] := inner[0];
    CopyFromSlice(header, 1, inner[1..9]);
    assert header[..9] == inner[..9];
    CopyFromSlice(header, 9, ToBe(W32, packetId));
    CopyFromSlice(header, 13, ToBe(W32, timestamp));
    assert header[..] == Header(inner, packetId, timestamp);
    var tag := h(k.encHmac, header[..] + body);
    var ciphertext := ToArray(body);
    ApplyKeystream(s, k.encCipher, tag[..16], ciphertext);
    var out := header[..];
    out := out + tag;
    out := out + ciphertext[..];
    return Ok(out);
  }

  method UnwrapPacket(h: Hmac256, s: Keystream, k: Key, pkt: ByteString) returns (r: Result<(ByteString, u32)>)
    ensures r == Unwrap(h, s, k, pkt)
  {
    if |pkt| < HEADER_LEN + TAG_LEN {
      return Err;
    }
    var header := pkt[..HEADER_LEN];
    var packetId := U32(header[9..13]);
    var tag := pkt[HEADER_LEN..HEADER_LEN + TAG_LEN];
    var plaintext := ToArray(pkt[HEADER_LEN + TAG_LEN..]);
    ApplyKeystream(s, k.decCipher, tag[..16], plaintext);
    if h(k.decHmac, header + plaintext[..]) != tag {
      return Err;
    }
    var inner := [header[0]];
    inner := inner + header[1..9];
    assert inner == header[..9];
    inner := inner + plaintext[..];
    return Ok((inner, packetId));
  }
}

/** The `--tls-auth` envelope of src/tls_auth.rs. */
module TlsAuth {
  import opened Bytes
  import opened EnvelopePrimitives

  const HEADER_LEN: nat := 9
  const REPLAY_HEADER_LEN: nat := 8
  const SLOT_LEN: nat := 64

  datatype Key = Key(outKey: ByteString, inKey: ByteString)

  function Mirror(k: Key): Key {
    Key(k.inKey, k.outKey)
  }

  /** Direction 0 uses one key both ways; direction 1 sends with slot 3 and receives with slot 1. */
  function ServerKey(km: ByteString, direction: byte): Result<Key>
    requires |km| == STATIC_KEY_LEN
  {
    if direction == 0 then Ok(Key(km[64..128], km[64..128]))
    else if direction == 1 then Ok(Key(km[192..256], km[64..128]))
    else Err
  }

  function HmacInput(head: ByteString, replayId: u32, timestamp: u32, body: ByteString): ByteString {
    ToBe(W32, replayId) + ToBe(W32, timestamp) + head + body
  }

  function Wrap(h: Hmac256, k: Key, inner: ByteString, replayId: u32, timestamp: u32): Result<ByteString> {
    if |inner| < HEADER_LEN then Err
    else
      var tag := h(k.outKey, HmacInput(inner[..9], replayId, timestamp, inner[9..]));
      Ok(inner[..9] + tag + ToBe(W32, replayId) + ToBe(W32, timestamp) + inner[9..])
  }

  function Unwrap(h: Hmac256, k: Key, pkt: ByteString): Result<(ByteString, u32)> {
    if |pkt| < 49 then Err
    else
      var replayId := U32(pkt[41..45]);
      var timestamp := U32(pkt[45..49]);
      if h(k.inKey, HmacInput(pkt[..9], replayId, timestamp, pkt[49..])) != pkt[9..41] then Err
      else Ok((pkt[..9] + pkt[49..], replayId))
  }

  function Timestamp(pkt: ByteString): u32
    requires |pkt| >= 49
  {
    U32(pkt[45..49])
  }

  lemma WrapThenUnwrap(h: Hmac256, k: Key, inner: ByteString, replayId: u32, timestamp: u32)
    requires |inner| >= HEADER_LEN
    ensures var w := Wrap(h, k, inner, replayId, timestamp);
            w.Ok? && Unwrap(h, Mirror(k), w.value) == Ok((inner, replayId))
  {
    var tag := h(k.outKey, HmacInput(inner[..9], replayId, timestamp, inner[9..]));
    var pkt := inner[..9] + tag + ToBe(W32, replayId) + ToBe(W32, timestamp) + inner[9..];
    assert pkt[..9] == inner[..9] && pkt[9..41] == tag;
    assert pkt[41..45] == ToBe(W32, replayId) && pkt[45..49] == ToBe(W32, timestamp);
    assert pkt[49..] == inner[9..];
    U32RoundTrip(replayId);
    U32RoundTrip(timestamp);
    assert inner == inner[..9] + inner[9..];
  }

  lemma UnwrapThenWrap(h: Hmac256, k: Key, pkt: ByteString)
    requires Unwrap(h, Mirror(k), pkt).Ok?
    ensures var (inner, replayId) := Unwrap(h, Mirror(k), pkt).value;
            Wrap(h, k, inner, replayId, Timestamp(pkt)) == Ok(pkt)
  {
    var inner := pkt[..9] + pkt[49..];
    assert inner[..9] == pkt[..9] && inner[9..] == pkt[49..];
    ToFromBe(pkt[41..45]);
    ToFromBe(pkt[45..49]);
    assert pkt == pkt[..9] + pkt[9..41] + pkt[41..45] + pkt[45..49] + pkt[49..];
  }

  /** The peer accepts exactly what this side can produce, and reads back the same contents. */
  lemma UnwrapExact(h: Hmac256, k: Key, pkt: ByteString, inner: ByteString, replayId: u32)
    ensures Unwrap(h, Mirror(k), pkt) == Ok((inner, replayId))
        <==> exists ts: u32 :: Wrap(h, k, inner, replayId, ts) == Ok(pkt)
  {
    if Unwrap(h, Mirror(k), pkt) == Ok((inner, replayId)) {
      UnwrapThenWrap(h, k, pkt);
      assert Wrap(h, k, inner, replayId, Timestamp(pkt)) == Ok(pkt);
    }
    if ts: u32 :| Wrap(h, k, inner, replayId, ts) == Ok(pkt) {
      WrapThenUnwrap(h, k, inner, replayId, ts);
    }
  }

  /** A client with the opposite setting: it sends with what the server receives with. */
  function ClientKey(km: ByteString, direction: byte): Result<Key>
    requires |km| == STATIC_KEY_LEN
  {
    var slot1, slot3 := km[SLOT_LEN..][..SLOT_LEN], km[3 * SLOT_LEN..];
    match direction
    case 0 => Ok(Key(slot1, slot1))
    case 1 => Ok(Key(slot1, slot3))
    case _ => Err
  }

  lemma ClientMirrorsServer(km: ByteString, direction: byte)
    requires |km| == STATIC_KEY_LEN
    ensures ClientKey(km, direction)
         == match ServerKey(km, direction) case Ok(k) => Ok(Mirror(k)) case Err => Err
    ensures ServerKey(km, direction).Ok? <==> direction == 0 || direction == 1
  {
    assert km[SLOT_LEN..][..SLOT_LEN] == km[64..128] && km[3 * SLOT_LEN..] == km[192..256];
  }

  /** By wire offsets: a packet is accepted exactly if its tag covers replay id, time, the packet's first
      nine bytes and all of its body. */
  lemma UnwrapByOffsets(h: Hmac256, k: Key, pkt: ByteString)
    ensures Unwrap(h, k, pkt)
         == if |pkt| >= 49 && pkt[9..41] == h(k.inKey, pkt[41..49] + pkt[..9] + pkt[49..])
            then Ok((pkt[..9] + pkt[49..], U32(pkt[41..45]))) else Err
  {
    if |pkt| >= 49 {
      ToFromBe(pkt[41..45]);
      ToFromBe(pkt[45..49]);
      assert pkt[41..49] == pkt[41..45] + pkt[45..49];
    }
  }

  /** What is sent: the packet's first nine bytes, the tag, replay id, time, and the rest. */
  lemma WrapByOffsets(h: Hmac256, k: Key, inner: ByteString, replayId: u32, timestamp: u32)
    ensures match Wrap(h, k, inner, replayId, timestamp)
            case Err => |inner| < 9
            case Ok(pkt) =>
              && |pkt| == |inner| + 40 && pkt[..9] == inner[..9] && pkt[49..] == inner[9..]
              && U32(pkt[41..45]) == replayId && U32(pkt[45..49]) == timestamp
              && pkt[9..41] == h(k.outKey, pkt[41..49] + inner)
  {
    if |inner| >= 9 {
      var tag := h(k.outKey, HmacInput(inner[..9], replayId, timestamp, inner[9..]));
      var pkt := inner[..9] + tag + ToBe(W32, replayId) + ToBe(W32, timestamp) + inner[9..];
      assert pkt[9..41] == tag && pkt[41..45] == ToBe(W32, replayId) && pkt[45..49] == ToBe(W32, timestamp);
      U32RoundTrip(replayId);
      U32RoundTrip(timestamp);
      assert pkt[41..49] + inner == HmacInput(inner[..9], replayId, timestamp, inner[9..]);
    }
  }

  method FromStaticKeyServer(km: ByteString, direction: byte) returns (r: Result<Key>)
    requires |km| == STATIC_KEY_LEN
    ensures r == ServerKey(km, direction)
  {
    var outOff, inOff;
    match direction {
      case 0 => outOff, inOff := SLOT_LEN, SLOT_LEN;
      case 1 => outOff, inOff := SLOT_LEN * 3, SLOT_LEN;
      case _ => return Err;
    }
    var outKey := ToArray(km[outOff..outOff + SLOT_LEN]);
    var inKey := ToArray(km[inOff..inOff + SLOT_LEN]);
    return Ok(Key(outKey[..], inKey[..]));
  }

  method ComposeHmacInput(op: byte, sessionId: ByteString, replayId: u32, timestamp: u32, body: ByteString)
    returns (v: ByteString)
    ensures v == HmacInput([op] + sessionId, replayId, timestamp, body)
  {
    v := ToBe(W32, replayId);
    v := v + ToBe(W32, timestamp);
    v := v + [op];
    v := v + sessionId;
    v := v + body;
  }

  method WrapPacket(h: Hmac256, k: Key, inner: ByteString, replayId: u32, timestamp: u32)
    returns (r: Result<ByteString>)
    ensures r == Wrap(h, k, inner, replayId, timestamp)
  {
    if |inner| < HEADER_LEN {
      return Err;
    }
    var op, sessionId, body := inner[0], inner[1..9], inner[9..];
    assert [op] + sessionId == inner[..9];
    var input := ComposeHmacInput(op, sessionId, replayId, timestamp, body);
    var tag := h(k.outKey, input);
    var out := [op];
    out := out + sessionId;
    assert out == inner[..9];
    out := out + tag;
    out := out + ToBe(W32, replayId);
    out := out + ToBe(W32, timestamp);
    out := out + body;
    return Ok(out);
  }

  method UnwrapPacket(h: Hmac256, k: Key, pkt: ByteString) returns (r: Result<(ByteString, u32)>)
    ensures r == Unwrap(h, k, pkt)
  {
    if |pkt| < HEADER_LEN + TAG_LEN + REPLAY_HEADER_LEN {
      return Err;
    }
    var op, sessionId := pkt[0], pkt[1..HEADER_LEN];
    assert [op] + sessionId == pkt[..9];
    var received := pkt[HEADER_LEN..HEADER_LEN + TAG_LEN];
    var replayId := U32(pkt[41..45]);
    var timestamp := U32(pkt[45..49]);
    var body := pkt[49..];
    var input := ComposeHmacInput(op, sessionId, replayId, timestamp, body);
    if h(k.inKey, input) != received {
      return Err;
    }
    var inner := [op];
    inner := inner + sessionId;
    assert inner == pkt[..9];
    inner := inner + body;
    return Ok((inner, replayId));
  }
}

/** `wrap_for_wire` and `unwrap_control` of src/server.rs: tls-crypt before tls-auth before nothing. */
module Envelope {
  import opened Bytes
  import opened EnvelopePrimitives
  import opened Protocol
  import TlsCrypt
  import TlsAuth

  datatype Envelope = Crypt(ckey: TlsCrypt.Key) | Auth(akey: TlsAuth.Key) | Plain

  function Mirror(e: Envelope): Envelope {
    match e
    case Crypt(k) => Crypt(TlsCrypt.Mirror(k))
    case Auth(k) => Auth(TlsAuth.Mirror(k))
    case Plain => Plain
  }

  function WrapForWire(h: Hmac256, s: Keystream, e: Envelope, inner: ByteString, replayId: u32, timestamp: u32)
    : Result<ByteString>
  {
    match e
    case Crypt(k) => TlsCrypt.Wrap(h, s, k, inner, replayId, timestamp)
    case Auth(k) => TlsAuth.Wrap(h, k, inner, replayId, timestamp)
    case Plain => Ok(inner)
  }

  /** The inner bytes and, when there is an envelope, its replay id. */
  function UnwrapControl(h: Hmac256, s: Keystream, e: Envelope, pkt: ByteString): Result<(ByteString, Option<u32>)> {
    match e
    case Crypt(k) => (match TlsCrypt.Unwrap(h, s, k, pkt) case Ok(r) => Ok((r.0, Some(r.1))) case Err => Err)
    case Auth(k) => (match TlsAuth.Unwrap(h, k, pkt) case Ok(r) => Ok((r.0, Some(r.1))) case Err => Err)
    case Plain => Ok((pkt, None))
  }

  /** What the receive path hands to the dispatcher. */
  function ReceiveControl(h: Hmac256, s: Keystream, e: Envelope, pkt: ByteString)
    : Result<(ControlPacket, Option<u32>)>
  {
    match UnwrapControl(h, s, e, pkt)
    case Err => Err
    case Ok(r) => match Parse(r.0) case Ok(p) => Ok((p, r.1)) case Err => Err
  }

  function ReplayId(e: Envelope, id: u32): Option<u32> {
    if e.Plain? then None else Some(id)
  }

  lemma UnwrapExact(h: Hmac256, s: Keystream, e: Envelope, pkt: ByteString, inner: ByteString, replayId: u32)
    ensures UnwrapControl(h, s, Mirror(e), pkt) == Ok((inner, ReplayId(e, replayId)))
        <==> exists ts: u32 :: WrapForWire(h, s, e, inner, replayId, ts) == Ok(pkt)
  {
    match e
    case Crypt(k) =>
      TlsCrypt.UnwrapExact(h, s, k, pkt, inner, replayId);
      if UnwrapControl(h, s, Mirror(e), pkt) == Ok((inner, ReplayId(e, replayId))) {
        var ts: u32 :| TlsCrypt.Wrap(h, s, k, inner, replayId, ts) == Ok(pkt);
        assert WrapForWire(h, s, e, inner, replayId, ts) == Ok(pkt);
      }
    case Auth(k) =>
      TlsAuth.UnwrapExact(h, k, pkt, inner, replayId);
      if UnwrapControl(h, s, Mirror(e), pkt) == Ok((inner, ReplayId(e, replayId))) {
        var ts: u32 :| TlsAuth.Wrap(h, k, inner, replayId, ts) == Ok(pkt);
        assert WrapForWire(h, s, e, inner, replayId, ts) == Ok(pkt);
      }
    case Plain =>
      assert WrapForWire(h, s, e, inner, replayId, 0) == Ok(inner);
  }

  /**
    The whole control path, for all three envelopes: the peer accepts a datagram as packet `p` under
    replay id `replayId` if and only if `p` is well formed and the datagram is `p` encoded and
    wrapped by this side under that id.
   */
  lemma ControlPathExact(h: Hmac256, s: Keystream, e: Envelope, pkt: ByteString, p: ControlPacket, replayId: u32)
    ensures ReceiveControl(h, s, Mirror(e), pkt) == Ok((p, ReplayId(e, replayId)))
        <==> WellFormed(p) && exists ts: u32 :: WrapForWire(h, s, e, Encode(p), replayId, ts) == Ok(pkt)
  {
    UnwrapExact(h, s, e, pkt, Encode(p), replayId);
    ControlPacketRoundTrip(p);
    if ReceiveControl(h, s, Mirror(e), pkt) == Ok((p, ReplayId(e, replayId))) {
      var inner := UnwrapControl(h, s, Mirror(e), pkt).value.0;
      ParseThenEncode(inner, p);
    }
  }

  /** A control packet can always be wrapped. */
  lemma EncodedWraps(h: Hmac256, s: Keystream, e: Envelope, p: ControlPacket, replayId: u32, timestamp: u32)
    ensures WrapForWire(h, s, e, Encode(p), replayId, timestamp).Ok?
  {}
}
