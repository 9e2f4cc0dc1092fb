/**
 * Host-order integer fields as they sit in memory: what `binary.Write(buf,
 * endian, v)` appends for a fixed-width value, and what an unsafe pointer
 * cast reads back from a byte buffer.
 */
module Wire {
  import opened Base

  function Pow256(k: nat): (p: nat)
    ensures p >= 1
  {
    if k == 0 then 1 else 256 * Pow256(k - 1)
  }

  /** The `w` low bytes of `n`, least significant first. */
  function LE(n: nat, w: nat): (s: bytes)
    ensures |s| == w
  {
    if w == 0 then [] else [n % 256] + LE(n / 256, w - 1)
  }

  /** The `w` low bytes of `n`, most significant first (network order). */
  function BE(n: nat, w: nat): (s: bytes)
    ensures |s| == w
  {
    if w == 0 then [] else BE(n / 256, w - 1) + [n % 256]
  }

  function FromLE(s: bytes): (n: nat)
    ensures n < Pow256(|s|)
  {
    if s == [] then 0 else s[0] + 256 * FromLE(s[1..])
  }

  function FromBE(s: bytes): (n: nat)
    ensures n < Pow256(|s|)
  {
    if s == [] then 0 else FromBE(s[..|s| - 1]) * 256 + s[|s| - 1]
  }

  lemma {:induction false} LERoundTrip(n: nat, w: nat)
    requires n < Pow256(w)
    ensures FromLE(LE(n, w)) == n
  {
    if w > 0 {
      LERoundTrip(n / 256, w - 1);
      assert LE(n, w)[1..] == LE(n / 256, w - 1);
    }
  }

  lemma {:induction false} BERoundTrip(n: nat, w: nat)
    requires n < Pow256(w)
    ensures FromBE(BE(n, w)) == n
  {
    if w > 0 {
      BERoundTrip(n / 256, w - 1);
      assert BE(n, w)[..w - 1] == BE(n / 256, w - 1);
    }
  }

  lemma {:induction false} LEOfFromLE(s: bytes)
    ensures LE(FromLE(s), |s|) == s
  {
    if s != [] {
      LEOfFromLE(s[1..]);
      assert FromLE(s) % 256 == s[0] && FromLE(s) / 256 == FromLE(s[1..]);
    }
  }

  lemma {:induction false} BEOfFromBE(s: bytes)
    ensures BE(FromBE(s), |s|) == s
  {
    if s != [] {
      var t := s[..|s| - 1];
      BEOfFromBE(t);
      assert FromBE(s) % 256 == s[|s| - 1] && FromBE(s) / 256 == FromBE(t);
      assert s == t + [s[|s| - 1]];
    }
  }

  lemma DivModShift(lo: nat, q: nat)
    ensures (lo + 256 * q) % 256 == lo % 256
    ensures (lo + 256 * q) / 256 == lo / 256 + q
  {
  }

  /** Splitting a number at a byte boundary splits its little-endian bytes. */
  lemma {:induction false} LESplit(lo: nat, hi: nat, k: nat, m: nat)
    requires lo < Pow256(k)
    ensures LE(lo + Pow256(k) * hi, k + m) == LE(lo, k) + LE(hi, m)
  {
    if k > 0 {
      var q := Pow256(k - 1) * hi;
      var n := lo + Pow256(k) * hi;
      assert n == lo + 256 * q;
      DivModShift(lo, q);
      LESplit(lo / 256, hi, k - 1, m);
    }
  }

  /** Splitting a number at a byte boundary splits its big-endian bytes. */
  lemma {:induction false} BESplit(lo: nat, hi: nat, k: nat, m: nat)
    requires lo < Pow256(k)
    ensures BE(lo + Pow256(k) * hi, k + m) == BE(hi, m) + BE(lo, k)
  {
    if k == 0 {
      assert lo == 0;
    } else {
      var q := Pow256(k - 1) * hi;
      var n := lo + Pow256(k) * hi;
      assert n == lo + 256 * q;
      DivModShift(lo, q);
      BESplit(lo / 256, hi, k - 1, m);
    }
  }

  /** The network-order bytes are the host little-endian bytes reversed. */
  lemma {:induction false} BEIsReversedLE(n: nat, w: nat)
    ensures |BE(n, w)| == |LE(n, w)| == w
    ensures forall i :: 0 <= i < w ==> BE(n, w)[i] == LE(n, w)[w - 1 - i]
  {
    if w > 0 {
      BEIsReversedLE(n / 256, w - 1);
    }
  }

  /** A `w`-byte unsigned field in host order. */
  function Encode(order: ByteOrder, n: nat, w: nat): (s: bytes)
    ensures |s| == w
  {
    if order == LittleEndian then LE(n, w) else BE(n, w)
  }

  /** Reads back an unsigned field stored in host order. */
  function Decode(order: ByteOrder, s: bytes): (n: nat)
    ensures n < Pow256(|s|)
  {
    if order == LittleEndian then FromLE(s) else FromBE(s)
  }

  lemma EncodeDecode(order: ByteOrder, n: nat, w: nat)
    requires n < Pow256(w)
    ensures Decode(order, Encode(order, n, w)) == n
  {
    if order == LittleEndian { LERoundTrip(n, w); } else { BERoundTrip(n, w); }
  }

  lemma DecodeEncode(order: ByteOrder, s: bytes)
    ensures Encode(order, Decode(order, s), |s|) == s
  {
    if order == LittleEndian { LEOfFromLE(s); } else { BEOfFromBE(s); }
  }

  /** Two's-complement image of a signed 32-bit field. */
  function UnsignedOfInt32(x: int32): (u: uint32)
    ensures x >= 0 ==> u == x
    ensures x < 0 ==> u == x + 0x1_0000_0000
  {
    if x < 0 then x + 0x1_0000_0000 else x
  }

  function Int32OfUnsigned(u: uint32): (x: int32)
    ensures UnsignedOfInt32(x) == u
  {
    if u >= 0x8000_0000 then u - 0x1_0000_0000 else u
  }

  // binary.Write of each fixed-width field type

  function PutU8(x: uint8): bytes { [x] }

  function PutU16(order: ByteOrder, x: uint16): (s: bytes)
    ensures |s| == 2
  {
    Encode(order, x, 2)
  }

  function PutU32(order: ByteOrder, x: uint32): (s: bytes)
    ensures |s| == 4
  {
    Encode(order, x, 4)
  }

  function PutU64(order: ByteOrder, x: uint64): (s: bytes)
    ensures |s| == 8
  {
    Encode(order, x, 8)
  }

  function PutI32(order: ByteOrder, x: int32): (s: bytes)
    ensures |s| == 4
  {
    Encode(order, UnsignedOfInt32(x), 4)
  }

  // Field reads at a byte offset, as a pointer cast does them

  function GetU16(order: ByteOrder, s: bytes, off: nat): uint16
    requires off + 2 <= |s|
  {
    Decode(order, s[off..off + 2])
  }

  function GetU32(order: ByteOrder, s: bytes, off: nat): uint32
    requires off + 4 <= |s|
  {
    assert Pow256(4) == 0x1_0000_0000;
    Decode(order, s[off..off + 4])
  }

  function GetU64(order: ByteOrder, s: bytes, off: nat): uint64
    requires off + 8 <= |s|
  {
    assert Pow256(8) == 0x1_0000_0000_0000_0000;
    Decode(order, s[off..off + 8])
  }

  function GetI32(order: ByteOrder, s: bytes, off: nat): int32
    requires off + 4 <= |s|
  {
    Int32OfUnsigned(GetU32(order, s, off))
  }

  lemma GetPutU16(order: ByteOrder, x: uint16, a: bytes, b: bytes)
    ensures GetU16(order, a + PutU16(order, x) + b, |a|) == x
  {
    assert (a + PutU16(order, x) + b)[|a|..|a| + 2] == PutU16(order, x);
    EncodeDecode(order, x, 2);
  }

  lemma GetPutU32(order: ByteOrder, x: uint32, a: bytes, b: bytes)
    ensures GetU32(order, a + PutU32(order, x) + b, |a|) == x
  {
    assert (a + PutU32(order, x) + b)[|a|..|a| + 4] == PutU32(order, x);
    EncodeDecode(order, x, 4);
  }

  lemma GetPutU64(order: ByteOrder, x: uint64, a: bytes, b: bytes)
    ensures GetU64(order, a + PutU64(order, x) + b, |a|) == x
  {
    assert (a + PutU64(order, x) + b)[|a|..|a| + 8] == PutU64(order, x);
    EncodeDecode(order, x, 8);
  }

  lemma GetPutI32(order: ByteOrder, x: int32, a: bytes, b: bytes)
    ensures GetI32(order, a + PutI32(order, x) + b, |a|) == x
  {
    assert (a + PutI32(order, x) + b)[|a|..|a| + 4] == PutI32(order, x);
    EncodeDecode(order, UnsignedOfInt32(x), 4);
  }

  // Writing back a field read from a buffer gives the bytes it was read from

  lemma PutGetU16(order: ByteOrder, s: bytes, off: nat)
    requires off + 2 <= |s|
    ensures PutU16(order, GetU16(order, s, off)) == s[off..off + 2]
  {
    DecodeEncode(order, s[off..off + 2]);
  }

  lemma PutGetU32(order: ByteOrder, s: bytes, off: nat)
    requires off + 4 <= |s|
    ensures PutU32(order, GetU32(order, s, off)) == s[off..off + 4]
  {
    DecodeEncode(order, s[off..off + 4]);
  }

  lemma PutGetI32(order: ByteOrder, s: bytes, off: nat)
    requires off + 4 <= |s|
    ensures PutI32(order, GetI32(order, s, off)) == s[off..off + 4]
  {
    DecodeEncode(order, s[off..off + 4]);
  }
}
