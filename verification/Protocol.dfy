/**
  Wire formats of src/protocol.rs: opcodes, the control packet codec and the P_DATA_V2 header.

  A first byte `(op << 3) | (key_id & 7)` is the number `8 * op + key_id % 8`, read back with
  `/ 8` and `% 8`.
 */
module Protocol {
  import opened Bytes

  datatype OpCode =
    | ControlHardResetClientV1
    | ControlHardResetServerV1
    | ControlSoftResetV1
    | ControlV1
    | AckV1
    | DataV1
    | ControlHardResetClientV2
    | ControlHardResetServerV2
    | DataV2
    | ControlHardResetClientV3
    | ControlWkcV1

  function OpNumber(op: OpCode): byte {
    match op
    case ControlHardResetClientV1 => 1
    case ControlHardResetServerV1 => 2
    case ControlSoftResetV1 => 3
    case ControlV1 => 4
    case AckV1 => 5
    case DataV1 => 6
    case ControlHardResetClientV2 => 7
    case ControlHardResetServerV2 => 8
    case DataV2 => 9
    case ControlHardResetClientV3 => 10
    case ControlWkcV1 => 11
  }

  function OpFromByte(v: byte): Result<OpCode> {
    match v
    case 1 => Ok(ControlHardResetClientV1)
    case 2 => Ok(ControlHardResetServerV1)
    case 3 => Ok(ControlSoftResetV1)
    case 4 => Ok(ControlV1)
    case 5 => Ok(AckV1)
    case 6 => Ok(DataV1)
    case 7 => Ok(ControlHardResetClientV2)
    case 8 => Ok(ControlHardResetServerV2)
    case 9 => Ok(DataV2)
    case 10 => Ok(ControlHardResetClientV3)
    case 11 => Ok(ControlWkcV1)
    case _ => Err
  }

  predicate IsControl(op: OpCode) {
    op != DataV1 && op != DataV2
  }

  function FirstByte(op: OpCode, keyId: byte): byte {
    8 * OpNumber(op) + keyId % 8
  }

  lemma FirstByteRoundTrip(op: OpCode, keyId: byte)
    ensures OpFromByte(FirstByte(op, keyId) / 8) == Ok(op)
    ensures FirstByte(op, keyId) % 8 == keyId % 8
  {}

  lemma FirstByteInverse(first: byte, op: OpCode)
    requires OpFromByte(first / 8) == Ok(op)
    ensures FirstByte(op, first % 8) == first
  {}

  // ---------------------------------------------------------------------------------------------
  // Control packets
  // ---------------------------------------------------------------------------------------------

  datatype ControlPacket = ControlPacket(
    op: OpCode,
    keyId: byte,
    sessionId: u64,
    acks: seq<u32>,
    remoteSessionId: Option<u64>,
    packetId: Option<u32>,
    payload: ByteString)

  function AckBytes(acks: seq<u32>): (r: ByteString)
    ensures |r| == 4 * |acks|
  {
    if acks == [] then [] else ToBe(W32, acks[0]) + AckBytes(acks[1..])
  }

  function ReadAcks(b: ByteString, n: nat): (acks: seq<u32>)
    requires |b| >= 4 * n
    ensures |acks| == n
  {
    if n == 0 then [] else [U32(b[..4])] + ReadAcks(b[4..], n - 1)
  }

  function RemoteBytes(p: ControlPacket): ByteString {
    if p.acks == [] then []
    else ToBe(W64, match p.remoteSessionId case Some(id) => id case None => 0)
  }

  function PacketIdBytes(p: ControlPacket): ByteString {
    match p.packetId case Some(id) => ToBe(W32, id) case None => []
  }

  /** Everything before the ack array; the ack count is cast to a byte, so it wraps at 256. */
  function EncodeHead(p: ControlPacket): (r: ByteString)
    ensures |r| == 10
  {
    [FirstByte(p.op, p.keyId)] + ToBe(W64, p.sessionId) + [|p.acks| % 256]
  }

  /** What follows the ack array. */
  function EncodeTail(p: ControlPacket): ByteString {
    RemoteBytes(p) + PacketIdBytes(p) + p.payload
  }

  function Encode(p: ControlPacket): (r: ByteString)
    ensures |r| >= 10
  {
    EncodeHead(p) + (AckBytes(p.acks) + EncodeTail(p))
  }

  function Parse(buf: ByteString): Result<ControlPacket> {
    if |buf| == 0 then Err
    else
      var op := OpFromByte(buf[0] / 8);
      if op.Err? || !IsControl(op.value) || |buf| < 10 then Err
      else ParseBody(op.value, buf[0] % 8, U64(buf[1..9]), buf[9], buf[10..])
  }

  function ParseBody(op: OpCode, keyId: byte, sessionId: u64, ackCount: nat, rest: ByteString)
    : Result<ControlPacket>
  {
    if |rest| < 4 * ackCount then Err
    else ParseTail(op, keyId, sessionId, ReadAcks(rest, ackCount), rest[4 * ackCount..])
  }

  function ParseTail(op: OpCode, keyId: byte, sessionId: u64, acks: seq<u32>, rest: ByteString)
    : Result<ControlPacket>
  {
    if acks != [] && |rest| < 8 then Err
    else
      var remote := if acks == [] then None else Some(U64(rest[..8]));
      ParseEnd(op, keyId, sessionId, acks, remote, if acks == [] then rest else rest[8..])
  }

  function ParseEnd(op: OpCode, keyId: byte, sessionId: u64, acks: seq<u32>, remote: Option<u64>, rest: ByteString)
    : Result<ControlPacket>
  {
    if op == AckV1 then Ok(ControlPacket(op, keyId, sessionId, acks, remote, None, rest))
    else if |rest| < 4 then Err
    else Ok(ControlPacket(op, keyId, sessionId, acks, remote, Some(U32(rest[..4])), rest[4..]))
  }

  predicate WellFormed(p: ControlPacket) {
    && IsControl(p.op)
    && p.keyId < 8
    && |p.acks| <= 255
    && (p.remoteSessionId.Some? <==> p.acks != [])
    && (p.packetId.Some? <==> p.op != AckV1)
  }

  lemma {:induction false} AcksRoundTrip(acks: seq<u32>, rest: ByteString)
    ensures ReadAcks(AckBytes(acks) + rest, |acks|) == acks
  {
    if acks != [] {
      var b := AckBytes(acks) + rest;
      assert b[..4] == ToBe(W32, acks[0]);
      assert b[4..] == AckBytes(acks[1..]) + rest;
      U32RoundTrip(acks[0]);
      AcksRoundTrip(acks[1..], rest);
    }
  }

  lemma {:induction false} AcksInverse(b: ByteString, n: nat)
    requires |b| >= 4 * n
    ensures AckBytes(ReadAcks(b, n)) == b[..4 * n]
  {
    if n > 0 {
      AcksInverse(b[4..], n - 1);
      ToFromBe(b[..4]);
      assert ReadAcks(b, n)[1..] == ReadAcks(b[4..], n - 1);
      assert b[..4 * n] == b[..4] + b[4..][..4 * (n - 1)];
    }
  }

  lemma EndRoundTrip(p: ControlPacket)
    requires WellFormed(p)
    ensures ParseEnd(p.op, p.keyId, p.sessionId, p.acks, p.remoteSessionId, PacketIdBytes(p) + p.payload) == Ok(p)
  {
    var rest := PacketIdBytes(p) + p.payload;
    if p.op == AckV1 {
      assert rest == p.payload;
    } else {
      assert rest[..4] == ToBe(W32, p.packetId.value);
      assert rest[4..] == p.payload;
      U32RoundTrip(p.packetId.value);
    }
  }

  lemma TailRoundTrip(p: ControlPacket)
    requires WellFormed(p)
    ensures ParseTail(p.op, p.keyId, p.sessionId, p.acks, EncodeTail(p)) == Ok(p)
  {
    var rest := EncodeTail(p);
    var end := PacketIdBytes(p) + p.payload;
    if p.acks != [] {
      assert rest[..8] == ToBe(W64, p.remoteSessionId.value);
      U64RoundTrip(p.remoteSessionId.value);
      assert rest[8..] == end;
    } else {
      assert rest == end;
    }
    EndRoundTrip(p);
  }

  lemma BodyRoundTrip(p: ControlPacket)
    requires WellFormed(p)
    ensures ParseBody(p.op, p.keyId, p.sessionId, |p.acks|, AckBytes(p.acks) + EncodeTail(p)) == Ok(p)
  {
    var rest := AckBytes(p.acks) + EncodeTail(p);
    AcksRoundTrip(p.acks, EncodeTail(p));
    assert rest[4 * |p.acks|..] == EncodeTail(p);
    TailRoundTrip(p);
  }

  lemma HeadRoundTrip(p: ControlPacket, rest: ByteString)
    ensures var b := EncodeHead(p) + rest;
            && OpFromByte(b[0] / 8) == Ok(p.op) && b[0] % 8 == p.keyId % 8
            && U64(b[1..9]) == p.sessionId && b[9] == |p.acks| % 256 && b[10..] == rest
  {
    FirstByteRoundTrip(p.op, p.keyId);
    U64RoundTrip(p.sessionId);
    assert (EncodeHead(p) + rest)[1..9] == ToBe(W64, p.sessionId);
  }

  lemma ParseInParts(b: ByteString, op: OpCode, keyId: byte, sessionId: u64, ackCount: nat, rest: ByteString)
    requires |b| >= 10 && OpFromByte(b[0] / 8) == Ok(op) && IsControl(op) && b[0] % 8 == keyId
    requires U64(b[1..9]) == sessionId && b[9] == ackCount && b[10..] == rest
    ensures Parse(b) == ParseBody(op, keyId, sessionId, ackCount, rest)
  {}

  lemma WellFormedParses(p: ControlPacket)
    requires WellFormed(p)
    ensures Parse(Encode(p)) == Ok(p)
  {
    var rest := AckBytes(p.acks) + EncodeTail(p);
    HeadRoundTrip(p, rest);
    ParseInParts(EncodeHead(p) + rest, p.op, p.keyId, p.sessionId, |p.acks|, rest);
    BodyRoundTrip(p);
  }

  lemma EndInverse(op: OpCode, keyId: byte, sessionId: u64, acks: seq<u32>, remote: Option<u64>, rest: ByteString,
                   p: ControlPacket)
    requires ParseEnd(op, keyId, sessionId, acks, remote, rest) == Ok(p)
    ensures p.op == op && p.keyId == keyId && p.sessionId == sessionId && p.acks == acks
    ensures p.remoteSessionId == remote
    ensures p.packetId.Some? <==> op != AckV1
    ensures PacketIdBytes(p) + p.payload == rest
  {
    if op != AckV1 {
      ToFromBe(rest[..4]);
    }
  }

  lemma RemoteInverse(p: ControlPacket, rest: ByteString)
    requires p.acks != [] ==> |rest| >= 8 && p.remoteSessionId == Some(U64(rest[..8]))
    ensures RemoteBytes(p) == if p.acks == [] then [] else rest[..8]
  {
    if p.acks != [] {
      ToFromBe(rest[..8]);
    }
  }

  lemma TailBytes(p: ControlPacket, rest: ByteString, split: nat)
    requires split <= |rest| && RemoteBytes(p) == rest[..split] && PacketIdBytes(p) + p.payload == rest[split..]
    ensures EncodeTail(p) == rest
  {
    assert EncodeTail(p) == RemoteBytes(p) + (PacketIdBytes(p) + p.payload);
    assert rest == rest[..split] + rest[split..];
  }

  lemma TailInverse(op: OpCode, keyId: byte, sessionId: u64, acks: seq<u32>, rest: ByteString, p: ControlPacket)
    requires ParseTail(op, keyId, sessionId, acks, rest) == Ok(p)
    ensures p.op == op && p.keyId == keyId && p.sessionId == sessionId && p.acks == acks
    ensures p.remoteSessionId.Some? <==> acks != []
    ensures p.packetId.Some? <==> op != AckV1
    ensures EncodeTail(p) == rest
  {
    var remote := if acks == [] then None else Some(U64(rest[..8]));
    var split := if acks == [] then 0 else 8;
    assert rest[0..] == rest && rest[..0] == [];
    EndInverse(op, keyId, sessionId, acks, remote, rest[split..], p);
    RemoteInverse(p, rest);
    TailBytes(p, rest, split);
  }

  lemma BodyInverse(op: OpCode, keyId: byte, sessionId: u64, ackCount: nat, rest: ByteString, p: ControlPacket)
    requires ParseBody(op, keyId, sessionId, ackCount, rest) == Ok(p)
    ensures p.op == op && p.keyId == keyId && p.sessionId == sessionId && |p.acks| == ackCount
    ensures p.remoteSessionId.Some? <==> p.acks != []
    ensures p.packetId.Some? <==> op != AckV1
    ensures AckBytes(p.acks) + EncodeTail(p) == rest
  {
    var acks := ReadAcks(rest, ackCount);
    AcksInverse(rest, ackCount);
    TailInverse(op, keyId, sessionId, acks, rest[4 * ackCount..], p);
    assert rest == rest[..4 * ackCount] + rest[4 * ackCount..];
  }

  lemma HeadInverse(buf: ByteString, p: ControlPacket)
    requires |buf| >= 10 && OpFromByte(buf[0] / 8) == Ok(p.op) && p.keyId == buf[0] % 8
    requires p.sessionId == U64(buf[1..9]) && |p.acks| == buf[9]
    ensures EncodeHead(p) == buf[..10]
  {
    FirstByteInverse(buf[0], p.op);
    ToFromBe(buf[1..9]);
    assert buf[..10] == [buf[0]] + buf[1..9] + [buf[9]];
  }

  /** Encoding is a left inverse of every successful parse, and only well-formed packets come out. */
  lemma ParseThenEncode(buf: ByteString, p: ControlPacket)
    requires Parse(buf) == Ok(p)
    ensures Encode(p) == buf
    ensures WellFormed(p)
  {
    var op := OpFromByte(buf[0] / 8).value;
    BodyInverse(op, buf[0] % 8, U64(buf[1..9]), buf[9], buf[10..], p);
    HeadInverse(buf, p);
  }

  /** A packet survives the wire exactly when it is well formed. */
  lemma ControlPacketRoundTrip(p: ControlPacket)
    ensures Parse(Encode(p)) == Ok(p) <==> WellFormed(p)
  {
    if WellFormed(p) {
      WellFormedParses(p);
    } else if Parse(Encode(p)) == Ok(p) {
      ParseThenEncode(Encode(p), p);
    }
  }

  /** `parse` as the source runs it: a cursor advanced field by field, the acks in a loop. */
  method ParsePacket(buf: ByteString) returns (r: Result<ControlPacket>)
    ensures r == Parse(buf)
  {
    if |buf| == 0 {
      return Err;
    }
    var b := buf;
    var first := b[0];
    b := b[1..];
    var op := OpFromByte(first / 8);
    if op.Err? {
      return Err;
    }
    var keyId := first % 8;
    if !IsControl(op.value) {
      return Err;
    }
    if |b| < 8 {
      return Err;
    }
    var sessionId := U64(b[..8]);
    assert b[..8] == buf[1..9];
    b := b[8..];
    if |b| < 1 {
      return Err;
    }
    var ackCount: nat := b[0];
    b := b[1..];
    assert b == buf[10..];
    r := ParseAfterHead(op.value, keyId, sessionId, ackCount, b);
  }

  method ParseAfterHead(op: OpCode, keyId: byte, sessionId: u64, ackCount: nat, rest: ByteString)
    returns (r: Result<ControlPacket>)
    ensures r == ParseBody(op, keyId, sessionId, ackCount, rest)
  {
    if |rest| < 4 * ackCount {
      return Err;
    }
    var acks := ParseAcks(rest, ackCount);
    assert (acks == []) == (ackCount == 0);
    r := ParseAfterAcks(op, keyId, sessionId, acks, rest[4 * ackCount..]);
  }

  method ParseAcks(rest: ByteString, ackCount: nat) returns (acks: seq<u32>)
    requires |rest| >= 4 * ackCount
    ensures acks == ReadAcks(rest, ackCount)
  {
    var b := rest;
    acks := [];
    var i := 0;
    while i < ackCount
      invariant 0 <= i <= ackCount
      invariant b == rest[4 * i..]
      invariant acks + ReadAcks(b, ackCount - i) == ReadAcks(rest, ackCount)
    {
      acks := acks + [U32(b[..4])];
      b := b[4..];
      i := i + 1;
    }
    assert acks + [] == acks;
  }

  method ParseAfterAcks(op: OpCode, keyId: byte, sessionId: u64, acks: seq<u32>, rest: ByteString)
    returns (r: Result<ControlPacket>)
    ensures r == ParseTail(op, keyId, sessionId, acks, rest)
  {
    var b := rest;
    var remote := None;
    if acks != [] {
      if |b| < 8 {
        return Err;
      }
      remote := Some(U64(b[..8]));
      b := b[8..];
    }
    var packetId := None;
    if op != AckV1 {
      if |b| < 4 {
        return Err;
      }
      packetId := Some(U32(b[..4]));
      b := b[4..];
    }
    r := Ok(ControlPacket(op, keyId, sessionId, acks, remote, packetId, b));
  }

  /** `encode` as the source runs it: appending to a buffer, the acks in a loop. */
  method EncodePacket(p: ControlPacket) returns (out: ByteString)
    ensures out == Encode(p)
  {
    out := [FirstByte(p.op, p.keyId)];
    out := out + ToBe(W64, p.sessionId);
    out := out + [|p.acks| % 256];
    ghost var head := out;
    var i := 0;
    while i < |p.acks|
      invariant 0 <= i <= |p.acks|
      invariant out + AckBytes(p.acks[i..]) == head + AckBytes(p.acks)
    {
      assert p.acks[i..][1..] == p.acks[i + 1..];
      out := out + ToBe(W32, p.acks[i]);
      i := i + 1;
    }
    ghost var withAcks := out;
    assert withAcks == EncodeHead(p) + AckBytes(p.acks);
    if p.acks != [] {
      out := out + ToBe(W64, match p.remoteSessionId case Some(id) => id case None => 0);
    }
    assert out == withAcks + RemoteBytes(p);
    ghost var withRemote := out;
    if p.packetId.Some? {
      out := out + ToBe(W32, p.packetId.value);
    }
    assert out == withRemote + PacketIdBytes(p);
    out := out + p.payload;
    Regroup(EncodeHead(p), AckBytes(p.acks), RemoteBytes(p), PacketIdBytes(p), p.payload);
  }

  lemma Regroup(a: ByteString, b: ByteString, c: ByteString, d: ByteString, e: ByteString)
    ensures a + b + c + d + e == a + (b + (c + d + e))
  {}

  // ---------------------------------------------------------------------------------------------
  // Data packets
  // ---------------------------------------------------------------------------------------------

  const PING_PAYLOAD: ByteString := [
    0x2a, 0x18, 0x7b, 0xf3, 0x64, 0x1e, 0xb4, 0xcb, 0x07, 0xed, 0x2d, 0x0a, 0x98, 0x1f, 0xc7, 0x48]

  datatype DataPacket = DataPacket(keyId: byte, peerId: nat, packetId: u32, ciphertext: ByteString)

  /** The 8-byte header of an outbound packet; only the low 24 bits of the peer id fit. */
  function DataHeader(keyId: byte, peerId: u32, packetId: u32): (h: ByteString)
    ensures |h| == 8
  {
    [FirstByte(DataV2, keyId)] + ToBe(W24, peerId) + ToBe(W32, packetId)
  }

  function ParseData(buf: ByteString): Result<DataPacket> {
    if |buf| < 8 || buf[0] / 8 != OpNumber(DataV2) then Err
    else Ok(DataPacket(buf[0] % 8, FromBe(buf[1..4]), U32(buf[4..8]), buf[8..]))
  }

  lemma DataHeaderParses(keyId: byte, peerId: u32, packetId: u32, ct: ByteString)
    requires keyId < 8 && peerId < 0x100_0000
    ensures ParseData(DataHeader(keyId, peerId, packetId) + ct) == Ok(DataPacket(keyId, peerId, packetId, ct))
  {
    var buf := DataHeader(keyId, peerId, packetId) + ct;
    assert buf[1..4] == ToBe(W24, peerId);
    assert buf[4..8] == ToBe(W32, packetId);
    assert buf[8..] == ct;
    Widths();
    FromToBe(W24, peerId);
    U32RoundTrip(packetId);
  }

  /** Every accepted data packet is the header of its own fields followed by its ciphertext. */
  lemma ParsedDataHeader(buf: ByteString, d: DataPacket)
    requires ParseData(buf) == Ok(d)
    ensures d.keyId < 8 && d.peerId < 0x100_0000
    ensures buf == DataHeader(d.keyId, d.peerId, d.packetId) + d.ciphertext
    ensures buf[..8] == DataHeader(d.keyId, d.peerId, d.packetId)
  {
    Widths();
    ToFromBe(buf[1..4]);
    ToFromBe(buf[4..8]);
    assert buf == [buf[0]] + buf[1..4] + buf[4..8] + buf[8..];
  }

  // ---------------------------------------------------------------------------------------------
  // Where the fields stand on the wire
  // ---------------------------------------------------------------------------------------------

  /** The opcode numbers, as the first five bits of a packet. */
  lemma OpcodesOnTheWire(op: OpCode, keyId: byte)
    ensures FirstByte(op, keyId) % 8 == keyId % 8
    ensures FirstByte(op, keyId) / 8 == 1 <==> op == ControlHardResetClientV1
    ensures FirstByte(op, keyId) / 8 == 2 <==> op == ControlHardResetServerV1
    ensures FirstByte(op, keyId) / 8 == 3 <==> op == ControlSoftResetV1
    ensures FirstByte(op, keyId) / 8 == 4 <==> op == ControlV1
    ensures FirstByte(op, keyId) / 8 == 5 <==> op == AckV1
    ensures FirstByte(op, keyId) / 8 == 6 <==> op == DataV1
    ensures FirstByte(op, keyId) / 8 == 7 <==> op == ControlHardResetClientV2
    ensures FirstByte(op, keyId) / 8 == 8 <==> op == ControlHardResetServerV2
    ensures FirstByte(op, keyId) / 8 == 9 <==> op == DataV2
    ensures FirstByte(op, keyId) / 8 == 10 <==> op == ControlHardResetClientV3
    ensures FirstByte(op, keyId) / 8 == 11 <==> op == ControlWkcV1
  {}

  lemma {:induction false} AckAt(acks: seq<u32>, i: nat)
    requires i < |acks|
    ensures U32(AckBytes(acks)[4 * i..4 * i + 4]) == acks[i]
  {
    var b := AckBytes(acks);
    if i == 0 {
      assert b[0..4] == ToBe(W32, acks[0]);
      U32RoundTrip(acks[0]);
    } else {
      assert b[4 * i..4 * i + 4] == AckBytes(acks[1..])[4 * (i - 1)..4 * (i - 1) + 4];
      AckAt(acks[1..], i - 1);
    }
  }

  /** The fixed part of a control packet and its acks, by wire offsets. */
  lemma ControlLayout(p: ControlPacket, i: nat)
    ensures var b := Encode(p);
            && |b| >= 10 + 4 * |p.acks| && b[0] == FirstByte(p.op, p.keyId)
            && U64(b[1..9]) == p.sessionId && b[9] == |p.acks| % 256
            && (i < |p.acks| ==> U32(b[10 + 4 * i..14 + 4 * i]) == p.acks[i])
  {
    var b := Encode(p);
    assert b[1..9] == ToBe(W64, p.sessionId);
    U64RoundTrip(p.sessionId);
    if i < |p.acks| {
      AckAt(p.acks, i);
      assert b[10 + 4 * i..14 + 4 * i] == AckBytes(p.acks)[4 * i..4 * i + 4];
    }
  }

  /** What follows the acks, by wire offsets: the remote session id if there are acks, the packet id if
      there is one, and the payload. */
  lemma TailLayout(p: ControlPacket)
    requires p.remoteSessionId.Some? <==> p.acks != []
    ensures var b := Encode(p);
            var remote := 10 + 4 * |p.acks|;
            var id := if p.acks == [] then remote else remote + 8;
            var payload := if p.packetId.None? then id else id + 4;
            && |b| == payload + |p.payload| && b[payload..] == p.payload
            && (p.acks != [] ==> U64(b[remote..remote + 8]) == p.remoteSessionId.value)
            && (p.packetId.Some? ==> U32(b[id..id + 4]) == p.packetId.value)
  {
    var head := EncodeHead(p) + AckBytes(p.acks);
    Regroup(EncodeHead(p), AckBytes(p.acks), RemoteBytes(p), PacketIdBytes(p), p.payload);
    var b := head + RemoteBytes(p) + PacketIdBytes(p) + p.payload;
    assert Encode(p) == b;
    if p.acks != [] {
      assert b[|head|..|head| + 8] == RemoteBytes(p);
      U64RoundTrip(p.remoteSessionId.value);
    }
    if p.packetId.Some? {
      var at := |head| + |RemoteBytes(p)|;
      assert b[at..at + 4] == PacketIdBytes(p);
      U32RoundTrip(p.packetId.value);
    }
  }

  /** A data packet's header, by wire offsets: opcode 9 with the key id, then peer id and packet id. */
  lemma DataLayout(keyId: byte, peerId: u32, packetId: u32)
    requires peerId < 0x100_0000
    ensures var h := DataHeader(keyId, peerId, packetId);
            h[0] == 72 + keyId % 8 && FromBe(h[1..4]) == peerId && U32(h[4..8]) == packetId
  {
    var h := DataHeader(keyId, peerId, packetId);
    assert h[1..4] == ToBe(W24, peerId) && h[4..8] == ToBe(W32, packetId);
    Widths();
    FromToBe(W24, peerId);
    U32RoundTrip(packetId);
  }

  /** And what is accepted as a data packet, by the same offsets. */
  lemma DataAccepted(buf: ByteString)
    ensures ParseData(buf)
         == if |buf| >= 8 && 72 <= buf[0] < 80
            then Ok(DataPacket(buf[0] - 72, FromBe(buf[1..4]), U32(buf[4..8]), buf[8..])) else Err
  {}

  /** How many bytes a control packet must have, by its opcode number and its number of acks. */
  function LeastLength(op: nat, acks: nat): nat {
    10 + 4 * acks + (if acks > 0 then 8 else 0) + (if op == 5 then 0 else 4)
  }

  lemma ControlOpcodes(v: byte)
    ensures OpFromByte(v).Ok? && IsControl(OpFromByte(v).value) <==> v in {1, 2, 3, 4, 5, 7, 8, 10, 11}
    ensures OpFromByte(v) == Ok(AckV1) <==> v == 5
  {}

  lemma BodyParses(op: OpCode, keyId: byte, sessionId: u64, acks: nat, rest: ByteString)
    ensures ParseBody(op, keyId, sessionId, acks, rest).Ok? <==>
              |rest| >= 4 * acks + (if acks > 0 then 8 else 0) + (if op == AckV1 then 0 else 4)
  {
    if |rest| >= 4 * acks {
      var read, tail := ReadAcks(rest, acks), rest[4 * acks..];
      assert |read| == acks && |tail| == |rest| - 4 * acks;
      assert ParseTail(op, keyId, sessionId, read, tail).Ok? <==>
               |tail| >= (if acks > 0 then 8 else 0) + (if op == AckV1 then 0 else 4);
    }
  }

  /** Exactly the buffers that parse: one of nine opcodes, and long enough for the acks they announce. */
  lemma ParsesExactly(buf: ByteString)
    ensures Parse(buf).Ok? <==>
              |buf| >= 10 && buf[0] / 8 in {1, 2, 3, 4, 5, 7, 8, 10, 11} && |buf| >= LeastLength(buf[0] / 8, buf[9])
  {
    if |buf| >= 10 {
      ControlOpcodes(buf[0] / 8);
      var op := OpFromByte(buf[0] / 8);
      if op.Ok? {
        BodyParses(op.value, buf[0] % 8, U64(buf[1..9]), buf[9], buf[10..]);
      }
    }
  }
}
