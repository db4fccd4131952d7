/** Bytes and fixed-width big-endian integers. */
module Bytes {
  type byte = x: int | 0 <= x < 0x100
  type u16 = x: int | 0 <= x < 0x1_0000
  type u32 = x: int | 0 <= x < 0x1_0000_0000
  type u64 = x: int | 0 <= x < 0x1_0000_0000_0000_0000

  const U32_COUNT: nat := 0x1_0000_0000

  /** Widths in bytes of the integers on the wire. */
  const W16: nat := 2
  const W24: nat := 3
  const W32: nat := 4
  const W64: nat := 8

  type ByteString = seq<byte>

  datatype Option<+T> = None | Some(value: T)

  /** The source's `Result`, without the text of the error. */
  datatype Result<+T> = Ok(value: T) | Err

  function Pow256(n: nat): nat {
    if n == 0 then 1 else 256 * Pow256(n - 1)
  }

  /** The low `n` bytes of `v`, most significant first. */
  function ToBe(n: nat, v: nat): (r: ByteString)
    ensures |r| == n
  {
    if n == 0 then [] else ToBe(n - 1, v / 256) + [v % 256]
  }

  function FromBe(s: ByteString): (v: nat)
    ensures v < Pow256(|s|)
  {
    if s == [] then 0 else FromBe(s[..|s| - 1]) * 256 + s[|s| - 1]
  }

  lemma {:induction false} FromToBe(n: nat, v: nat)
    requires v < Pow256(n)
    ensures FromBe(ToBe(n, v)) == v
  {
    if n > 0 {
      FromToBe(n - 1, v / 256);
      assert ToBe(n, v)[..n - 1] == ToBe(n - 1, v / 256);
    }
  }

  lemma {:induction false} ToFromBe(s: ByteString)
    ensures ToBe(|s|, FromBe(s)) == s
  {
    if s != [] {
      ToFromBe(s[..|s| - 1]);
    }
  }

  lemma Widths()
    ensures Pow256(W16) == 0x1_0000 && Pow256(W24) == 0x100_0000 && Pow256(W32) == 0x1_0000_0000
    ensures Pow256(W64) == 0x1_0000_0000_0000_0000
  {
    assert Pow256(6) == 0x1_0000_0000_0000;
  }

  /** The first byte counts most. */
  lemma {:induction false} MostSignificantFirst(s: ByteString)
    requires s != []
    ensures FromBe(s) == s[0] * Pow256(|s| - 1) + FromBe(s[1..])
  {
    var n := |s| - 1;
    if n > 0 {
      MostSignificantFirst(s[..n]);
      var p, q: int, r := Pow256(n - 1), s[0], FromBe(s[..n][1..]);
      assert s[..n][1..] == s[1..][..n - 1];
      assert FromBe(s[1..]) == r * 256 + s[n];
      ScaleSum(q, p, r);
    }
  }

  lemma ScaleSum(q: int, p: int, r: int)
    ensures (q * p + r) * 256 == q * (256 * p) + r * 256
  {}

  function Code(c: char): byte {
    (c as int) % 256
  }

  /** A text of ASCII characters as bytes. */
  function Ascii(text: string): (r: ByteString)
    ensures |r| == |text|
  {
    seq(|text|, i requires 0 <= i < |text| => Code(text[i]))
  }

  function U16(s: ByteString): u16
    requires |s| == W16
  {
    Widths(); FromBe(s)
  }

  function U32(s: ByteString): u32
    requires |s| == W32
  {
    Widths(); FromBe(s)
  }

  function U64(s: ByteString): u64
    requires |s| == W64
  {
    Widths(); FromBe(s)
  }

  lemma TwoBytes(v: nat)
    ensures ToBe(W16, v) == [v / 256 % 256, v % 256]
  {
    assert ToBe(1, v / 256) == ToBe(0, v / 256 / 256) + [v / 256 % 256];
  }

  lemma TwoByteValue(s: ByteString)
    requires |s| == W16
    ensures U16(s) == 256 * (s[0] as int) + s[1]
  {
    assert FromBe(s[..1]) == 256 * FromBe(s[..1][..0]) + s[..1][0];
  }

  lemma Low16(v: nat)
    ensures 256 * (v / 256 % 256) + v % 256 == v % 0x1_0000
  {}

  /** A number written in 16 bits keeps its low 16 bits. */
  lemma U16OfWide(v: nat)
    ensures U16(ToBe(W16, v)) == v % 0x1_0000
  {
    TwoBytes(v);
    TwoByteValue(ToBe(W16, v));
    Low16(v);
  }

  lemma U32RoundTrip(v: u32)
    ensures U32(ToBe(W32, v)) == v
  {
    Widths();
    FromToBe(W32, v);
  }

  lemma U64RoundTrip(v: u64)
    ensures U64(ToBe(W64, v)) == v
  {
    Widths();
    FromToBe(W64, v);
  }

  /** `s` with the bytes from index `at` on replaced by those of `part`. */
  function Overwrite(s: ByteString, at: nat, part: ByteString): (r: ByteString)
    requires at + |part| <= |s|
    ensures |r| == |s|
  {
    s[..at] + part + s[at + |part|..]
  }

  /** `buf[at..at + part.len()].copy_from_slice(part)` */
  method CopyFromSlice(buf: array<byte>, at: nat, part: ByteString)
    requires at + |part| <= buf.Length
    modifies buf
    ensures buf[..] == Overwrite(old(buf[..]), at, part)
  {
    var i := 0;
    while i < |part|
      invariant 0 <= i <= |part|
      invariant forall k | 0 <= k < i :: buf[at + k] == part[k]
      invariant forall k | 0 <= k < buf.Length && !(at <= k < at + i) :: buf[k] == old(buf[k])
    {
      buf[at + i] := part[i];
      i := i + 1;
    }
  }

  /** A new array holding a copy of `s`. */
  method ToArray(s: ByteString) returns (a: array<byte>)
    ensures fresh(a) && a[..] == s
  {
    a := new byte[|s|](i => 0);
    CopyFromSlice(a, 0, s);
  }

  /** `wrapping_add(1)` */
  function NextU32(x: u32): u32 {
    (x + 1) % 0x1_0000_0000
  }

  function Concat(chunks: seq<ByteString>): ByteString {
    if chunks == [] then [] else chunks[0] + Concat(chunks[1..])
  }

  ghost predicate Distinct<T>(s: seq<T>) {
    forall i, j | 0 <= i < j < |s| :: s[i] != s[j]
  }

  /** Wrapping early or late makes no difference. */
  lemma WrapAdd(x: nat, y: nat)
    ensures (x % 0x1_0000_0000 + y) % 0x1_0000_0000 == (x + y) % 0x1_0000_0000
  {
    var q, z := x / 0x1_0000_0000, x % 0x1_0000_0000 + y;
    assert x + y == z + 0x1_0000_0000 * q;
    assert (x + y) / 0x1_0000_0000 == z / 0x1_0000_0000 + q;
  }
}
