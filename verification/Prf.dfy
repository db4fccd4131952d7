/**
  Key derivation of src/prf.rs over abstract keyed hashes: P_hash of RFC 4346 section 5 and the
  TLS 1.0 PRF of RFC 2246 section 5.
 */
module Prf {
  import opened Bytes
  import opened EnvelopePrimitives
  import Crypto

  const MASTER_LEN: nat := 48

  /** A keyed hash of any fixed, nonempty output size; its several input parts are concatenated. */
  datatype HashOps = HashOps(mac: (ByteString, ByteString) -> ByteString, size: nat)

  ghost predicate LawfulHash(h: HashOps) {
    h.size > 0 && forall k: ByteString, m: ByteString :: |h.mac(k, m)| == h.size
  }

  type Hash = h: HashOps | LawfulHash(h) ghost witness HashOps((k, m) => [0], 1)

  /** `A(0) = seed`, `A(i) = HMAC(secret, A(i-1))` */
  function A(h: Hash, secret: ByteString, seed: ByteString, i: nat): ByteString {
    if i == 0 then seed else h.mac(secret, A(h, secret, seed, i - 1))
  }

  /** `HMAC(secret, A(1) || seed) || ... || HMAC(secret, A(n) || seed)` */
  function Stream(h: Hash, secret: ByteString, seed: ByteString, n: nat): (r: ByteString)
    ensures |r| >= n
  {
    if n == 0 then [] else Stream(h, secret, seed, n - 1) + h.mac(secret, A(h, secret, seed, n) + seed)
  }

  /** The first `len` bytes of the unending stream; `len` blocks always suffice. */
  function PHash(h: Hash, secret: ByteString, seed: ByteString, len: nat): (r: ByteString)
    ensures |r| == len
  {
    Stream(h, secret, seed, len)[..len]
  }

  lemma {:induction false} StreamGrows(h: Hash, secret: ByteString, seed: ByteString, m: nat, n: nat)
    requires m <= n
    ensures Stream(h, secret, seed, m) <= Stream(h, secret, seed, n)
    decreases n
  {
    if m < n {
      StreamGrows(h, secret, seed, m, n - 1);
    }
  }

  /** Any number of blocks that reaches `len` bytes gives the same first `len` bytes. */
  lemma PHashOfStream(h: Hash, secret: ByteString, seed: ByteString, n: nat, len: nat)
    requires |Stream(h, secret, seed, n)| >= len
    ensures Stream(h, secret, seed, n)[..len] == PHash(h, secret, seed, len)
  {
    if n <= len {
      StreamGrows(h, secret, seed, n, len);
    } else {
      StreamGrows(h, secret, seed, len, n);
    }
  }

  /** Shorter outputs are prefixes of longer ones. */
  lemma PHashPrefix(h: Hash, secret: ByteString, seed: ByteString, short: nat, long: nat)
    requires short <= long
    ensures PHash(h, secret, seed, short) <= PHash(h, secret, seed, long)
  {
    StreamGrows(h, secret, seed, short, long);
    PHashOfStream(h, secret, seed, long, short);
  }

  /** `p_hash`: the loop fills the output slice in place, block by block. */
  method FillPHash(h: Hash, secret: ByteString, seed: ByteString, out: array<byte>)
    modifies out
    ensures out[..] == PHash(h, secret, seed, out.Length)
  {
    var a := h.mac(secret, seed);
    var written := 0;
    ghost var i := 0;
    while written < out.Length
      invariant a == A(h, secret, seed, i + 1)
      invariant 0 <= written <= out.Length
      invariant written <= |Stream(h, secret, seed, i)|
      invariant written == out.Length || written == |Stream(h, secret, seed, i)|
      invariant out[..written] == Stream(h, secret, seed, i)[..written]
      decreases out.Length - written
    {
      var block := h.mac(secret, a + seed);
      var n := if |block| <= out.Length - written then |block| else out.Length - written;
      ghost var before := out[..written];
      CopyFromSlice(out, written, block[..n]);
      assert out[..written + n] == before + block[..n];
      assert Stream(h, secret, seed, i + 1) == Stream(h, secret, seed, i) + block;
      written := written + n;
      a := h.mac(secret, a);
      i := i + 1;
    }
    PHashOfStream(h, secret, seed, i, out.Length);
    assert out[..] == out[..written];
  }

  // ---------------------------------------------------------------------------------------------
  // The TLS 1.0 PRF
  // ---------------------------------------------------------------------------------------------

  function Half(secret: ByteString): nat {
    (|secret| + 1) / 2
  }

  function FirstHalf(secret: ByteString): ByteString {
    secret[..Half(secret)]
  }

  function SecondHalf(secret: ByteString): ByteString {
    secret[|secret| - Half(secret)..]
  }

  /** The halves cover the secret and overlap in one byte exactly when its length is odd. */
  lemma HalvesCover(secret: ByteString)
    ensures |FirstHalf(secret)| == |SecondHalf(secret)| == Half(secret)
    ensures |FirstHalf(secret)| + |SecondHalf(secret)| == |secret| + |secret| % 2
    ensures secret == FirstHalf(secret) + SecondHalf(secret)[|secret| % 2..]
    ensures |secret| % 2 == 1 ==> FirstHalf(secret)[Half(secret) - 1] == SecondHalf(secret)[0]
  {}

  function Tls10Prf(md5: Hash, sha1: Hash, secret: ByteString, tag: ByteString, seed: ByteString, len: nat)
    : (r: ByteString)
    ensures |r| == len
  {
    XorBytes(PHash(md5, FirstHalf(secret), tag + seed, len), PHash(sha1, SecondHalf(secret), tag + seed, len))
  }

  lemma Tls10PrfPrefix(md5: Hash, sha1: Hash, secret: ByteString, tag: ByteString, seed: ByteString,
                       short: nat, long: nat)
    requires short <= long
    ensures Tls10Prf(md5, sha1, secret, tag, seed, short) <= Tls10Prf(md5, sha1, secret, tag, seed, long)
  {
    PHashPrefix(md5, FirstHalf(secret), tag + seed, short, long);
    PHashPrefix(sha1, SecondHalf(secret), tag + seed, short, long);
  }

  method FillTls10Prf(md5: Hash, sha1: Hash, secret: ByteString, tag: ByteString, seed: ByteString, out: array<byte>)
    modifies out
    ensures out[..] == Tls10Prf(md5, sha1, secret, tag, seed, out.Length)
  {
    var half := (|secret| + 1) / 2;
    var s1 := secret[..half];
    var s2 := secret[|secret| - half..];
    var combined := tag;
    combined := combined + seed;
    var md5Out := new byte[out.Length](i => 0);
    var sha1Out := new byte[out.Length](i => 0);
    FillPHash(md5, s1, combined, md5Out);
    FillPHash(sha1, s2, combined, sha1Out);
    var i := 0;
    while i < out.Length
      invariant 0 <= i <= out.Length
      invariant forall k | 0 <= k < i :: out[k] == XorByte(md5Out[k], sha1Out[k])
      invariant md5Out[..] == PHash(md5, s1, combined, out.Length)
      invariant sha1Out[..] == PHash(sha1, s2, combined, out.Length)
    {
      out[i] := XorByte(md5Out[i], sha1Out[i]);
      i := i + 1;
    }
    assert out[..] == XorBytes(md5Out[..], sha1Out[..]);
  }

  /** "OpenVPN master secret" and "OpenVPN key expansion" */
  const MASTER_LABEL: ByteString := [
    0x4F, 0x70, 0x65, 0x6E, 0x56, 0x50, 0x4E, 0x20, 0x6D, 0x61, 0x73, 0x74, 0x65, 0x72, 0x20, 0x73, 0x65, 0x63,
    0x72, 0x65, 0x74]
  const KEY_EXP_LABEL: ByteString := [
    0x4F, 0x70, 0x65, 0x6E, 0x56, 0x50, 0x4E, 0x20, 0x6B, 0x65, 0x79, 0x20, 0x65, 0x78, 0x70, 0x61, 0x6E, 0x73,
    0x69, 0x6F, 0x6E]

  datatype KeyInputs = KeyInputs(
    preMaster: ByteString,
    clientRandom1: ByteString, serverRandom1: ByteString,
    clientRandom2: ByteString, serverRandom2: ByteString,
    clientSid: ByteString, serverSid: ByteString)

  function KeyData(md5: Hash, sha1: Hash, k: KeyInputs): (r: ByteString)
    ensures |r| == Crypto.KEYMAT_LEN
  {
    var master := Tls10Prf(md5, sha1, k.preMaster, MASTER_LABEL, k.clientRandom1 + k.serverRandom1, MASTER_LEN);
    Tls10Prf(md5, sha1, master, KEY_EXP_LABEL,
             k.clientRandom2 + k.serverRandom2 + k.clientSid + k.serverSid, Crypto.KEYMAT_LEN)
  }

  // ---------------------------------------------------------------------------------------------
  // The same, byte by byte
  // ---------------------------------------------------------------------------------------------

  /** The `n`th iterate of a keyed hash, starting from `x`. */
  function Iterated(h: Hash, secret: ByteString, x: ByteString, n: nat): ByteString
    decreases n
  {
    if n == 0 then x else Iterated(h, secret, h.mac(secret, x), n - 1)
  }

  /** Byte `i` of P_hash: byte `i % size` of block `i / size`, where block `j` is the hash of the
      (j + 1)st iterate followed by the seed. */
  function StreamByte(h: Hash, secret: ByteString, seed: ByteString, i: nat): byte {
    h.mac(secret, Iterated(h, secret, seed, i / h.size + 1) + seed)[i % h.size]
  }

  /** The TLS 1.0 PRF byte by byte: MD5 on the first half of the secret, SHA-1 on the second. */
  function PrfBytes(md5: Hash, sha1: Hash, secret: ByteString, text: ByteString, len: nat): ByteString {
    var left, right := secret[..|secret| - |secret| / 2], secret[|secret| / 2..];
    seq(len, i requires 0 <= i < len => XorByte(StreamByte(md5, left, text, i), StreamByte(sha1, right, text, i)))
  }

  /** The key data as the OpenVPN protocol defines it for key method 2. */
  function KeyDataBytes(md5: Hash, sha1: Hash, preMaster: ByteString,
                        clientRandom1: ByteString, serverRandom1: ByteString,
                        clientRandom2: ByteString, serverRandom2: ByteString,
                        clientSid: ByteString, serverSid: ByteString)
    : (r: ByteString)
    ensures |r| == 256
  {
    var master := PrfBytes(md5, sha1, preMaster, Ascii("OpenVPN master secret") + (clientRandom1 + serverRandom1), 48);
    PrfBytes(md5, sha1, master,
             Ascii("OpenVPN key expansion") + (clientRandom2 + serverRandom2 + clientSid + serverSid), 256)
  }

  lemma {:induction false} IteratedStep(h: Hash, secret: ByteString, x: ByteString, n: nat)
    ensures Iterated(h, secret, x, n + 1) == h.mac(secret, Iterated(h, secret, x, n))
    decreases n
  {
    if n > 0 {
      IteratedStep(h, secret, h.mac(secret, x), n - 1);
    }
  }

  lemma {:induction false} AIsIterated(h: Hash, secret: ByteString, seed: ByteString, n: nat)
    ensures A(h, secret, seed, n) == Iterated(h, secret, seed, n)
  {
    if n > 0 {
      AIsIterated(h, secret, seed, n - 1);
      IteratedStep(h, secret, seed, n - 1);
    }
  }

  lemma {:induction false} StreamLength(h: Hash, secret: ByteString, seed: ByteString, n: nat)
    ensures |Stream(h, secret, seed, n)| == n * h.size
  {
    if n > 0 {
      StreamLength(h, secret, seed, n - 1);
      assert (n - 1) * h.size + h.size == n * h.size;
    }
  }

  lemma BlockOf(q: nat, size: nat, j: nat)
    requires j < size
    ensures (q * size + j) / size == q && (q * size + j) % size == j
  {
    var i := q * size + j;
    assert i == size * (i / size) + i % size;
    if i / size < q {
      MulMono(size, i / size + 1, q);
      assert false;
    } else if i / size > q {
      MulMono(size, q + 1, i / size);
      assert false;
    }
  }

  lemma MulMono(a: nat, x: nat, y: nat)
    requires x <= y
    ensures a * x <= a * y
  {}

  lemma {:induction false} StreamAt(h: Hash, secret: ByteString, seed: ByteString, n: nat, i: nat)
    requires i < |Stream(h, secret, seed, n)|
    ensures Stream(h, secret, seed, n)[i] == StreamByte(h, secret, seed, i)
  {
    if n > 0 {
      StreamLength(h, secret, seed, n - 1);
      if i < |Stream(h, secret, seed, n - 1)| {
        StreamAt(h, secret, seed, n - 1, i);
      } else {
        var j := i - (n - 1) * h.size;
        BlockOf(n - 1, h.size, j);
        AIsIterated(h, secret, seed, n);
      }
    }
  }

  lemma PrfIsBytes(md5: Hash, sha1: Hash, secret: ByteString, tag: ByteString, seed: ByteString, len: nat)
    ensures Tls10Prf(md5, sha1, secret, tag, seed, len) == PrfBytes(md5, sha1, secret, tag + seed, len)
  {
    var left, right := FirstHalf(secret), SecondHalf(secret);
    assert left == secret[..|secret| - |secret| / 2] && right == secret[|secret| / 2..];
    forall i | 0 <= i < len
      ensures PHash(md5, left, tag + seed, len)[i] == StreamByte(md5, left, tag + seed, i)
      ensures PHash(sha1, right, tag + seed, len)[i] == StreamByte(sha1, right, tag + seed, i)
    {
      StreamAt(md5, left, tag + seed, len, i);
      StreamAt(sha1, right, tag + seed, len, i);
    }
  }

  lemma LabelTexts()
    ensures MASTER_LABEL == Ascii("OpenVPN master secret")
    ensures KEY_EXP_LABEL == Ascii("OpenVPN key expansion")
  {}

  /** The derived key data is what the protocol defines: both labels, and every random and session id in
      its place. */
  lemma KeyDataIsBytes(md5: Hash, sha1: Hash, k: KeyInputs)
    ensures KeyData(md5, sha1, k)
         == KeyDataBytes(md5, sha1, k.preMaster, k.clientRandom1, k.serverRandom1,
                         k.clientRandom2, k.serverRandom2, k.clientSid, k.serverSid)
  {
    LabelTexts();
    var seed1 := k.clientRandom1 + k.serverRandom1;
    var master := Tls10Prf(md5, sha1, k.preMaster, MASTER_LABEL, seed1, MASTER_LEN);
    PrfIsBytes(md5, sha1, k.preMaster, MASTER_LABEL, seed1, MASTER_LEN);
    PrfIsBytes(md5, sha1, master, KEY_EXP_LABEL,
               k.clientRandom2 + k.serverRandom2 + k.clientSid + k.serverSid, Crypto.KEYMAT_LEN);
  }

  method DeriveKeyData(md5: Hash, sha1: Hash, k: KeyInputs) returns (keyData: array<byte>)
    ensures fresh(keyData) && keyData[..] == KeyData(md5, sha1, k)
  {
    var master := new byte[MASTER_LEN](i => 0);
    var masterSeed := k.clientRandom1;
    masterSeed := masterSeed + k.serverRandom1;
    FillTls10Prf(md5, sha1, k.preMaster, MASTER_LABEL, masterSeed, master);
    var seed := k.clientRandom2;
    seed := seed + k.serverRandom2;
    seed := seed + k.clientSid;
    seed := seed + k.serverSid;
    keyData := new byte[Crypto.KEYMAT_LEN](i => 0);
    FillTls10Prf(md5, sha1, master[..], KEY_EXP_LABEL, seed, keyData);
  }
}
