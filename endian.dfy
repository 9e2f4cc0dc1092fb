/**
 * Byte-order conversions between host order and network order (big-endian),
 * for 16-, 32- and 64-bit values, plus the port helpers htons/ntohs.
 *
 * On a little-endian host each conversion reverses the bytes of its
 * argument; on a big-endian host it is the identity. The 32- and 64-bit
 * conversions are built from the next smaller one, exactly as the source
 * composes them.
 */
module Endian {
  import opened Base
  import opened Wire

  /**
   * `(n << 8 & 0xff00) | (n >> 8 & 0x00ff)` on a uint16. The left shift keeps
   * the low byte in the high position, the right shift moves the high byte
   * down; the two masked halves share no bit, so the `|` is a sum.
   */
  function Swap16(n: uint16): uint16
  {
    (n % 0x100) * 0x100 + n / 0x100
  }

  function HostToNetworkShort(order: ByteOrder, n: uint16): uint16
  {
    if order == LittleEndian then Swap16(n) else n
  }

  function NetworkToHostShort(order: ByteOrder, n: uint16): uint16
  {
    if order == LittleEndian then Swap16(n) else n
  }

  /** The low half swapped moves up, the high half swapped moves down. */
  function HostToNetwork(order: ByteOrder, n: uint32): uint32
  {
    if order == LittleEndian then
      HostToNetworkShort(order, n % 0x1_0000) * 0x1_0000 + HostToNetworkShort(order, n / 0x1_0000)
    else
      n
  }

  function NetworkToHost(order: ByteOrder, n: uint32): uint32
  {
    if order == LittleEndian then
      NetworkToHostShort(order, n % 0x1_0000) * 0x1_0000 + NetworkToHostShort(order, n / 0x1_0000)
    else
      n
  }

  function HostToNetworkLong(order: ByteOrder, n: uint64): uint64
  {
    if order == LittleEndian then
      HostToNetwork(order, n % 0x1_0000_0000) * 0x1_0000_0000 + HostToNetwork(order, n / 0x1_0000_0000)
    else
      n
  }

  function NetworkToHostLong(order: ByteOrder, n: uint64): uint64
  {
    if order == LittleEndian then
      NetworkToHost(order, n % 0x1_0000_0000) * 0x1_0000_0000 + NetworkToHost(order, n / 0x1_0000_0000)
    else
      n
  }

  /** htons from sctp.go: the same swap as HostToNetworkShort, written out again there. */
  function Htons(order: ByteOrder, port: uint16): uint16
  {
    if order == LittleEndian then (port % 0x100) * 0x100 + port / 0x100 else port
  }

  /** ntohs from sctp.go. */
  function Ntohs(order: ByteOrder, port: uint16): uint16
  {
    if order == LittleEndian then (port % 0x100) * 0x100 + port / 0x100 else port
  }

  // ---------------------------------------------------------------------
  // Properties

  lemma Swap16Involution(n: uint16)
    ensures Swap16(Swap16(n)) == n
  {
    var lo, hi := n % 0x100, n / 0x100;
    assert Swap16(n) == lo * 0x100 + hi;
    assert (lo * 0x100 + hi) % 0x100 == hi;
    assert (lo * 0x100 + hi) / 0x100 == lo;
  }

  lemma Swap16Bytes(n: uint16)
    ensures LE(Swap16(n), 2) == BE(n, 2)
  {
    var lo, hi := n % 0x100, n / 0x100;
    assert (lo * 0x100 + hi) % 0x100 == hi;
    assert (lo * 0x100 + hi) / 0x100 == lo;
    assert LE(Swap16(n), 2) == [hi, lo];
    assert BE(n, 2) == [hi, lo];
  }

  /** Storing `HostToNetworkShort(n)` in host order lays out `n` in network order, on either host. */
  lemma HostToNetworkShortBytes(order: ByteOrder, n: uint16)
    ensures Encode(order, HostToNetworkShort(order, n), 2) == BE(n, 2)
  {
    if order == LittleEndian { Swap16Bytes(n); }
  }

  lemma ShortRoundTrip(order: ByteOrder, n: uint16)
    ensures NetworkToHostShort(order, HostToNetworkShort(order, n)) == n
    ensures HostToNetworkShort(order, NetworkToHostShort(order, n)) == n
  {
    Swap16Involution(n);
  }

  /** htons and ntohs are the same swap, hence mutual inverses, and htons puts a port in network order. */
  lemma HtonsNtohs(order: ByteOrder, port: uint16)
    ensures Htons(order, port) == HostToNetworkShort(order, port)
    ensures Ntohs(order, Htons(order, port)) == port
    ensures Htons(order, Ntohs(order, port)) == port
    ensures Encode(order, Htons(order, port), 2) == BE(port, 2)
  {
    ShortRoundTrip(order, port);
    HostToNetworkShortBytes(order, port);
  }

  /** Storing `HostToNetwork(n)` in host order lays out `n` in network order, on either host. */
  lemma HostToNetworkBytes(order: ByteOrder, n: uint32)
    ensures Encode(order, HostToNetwork(order, n), 4) == BE(n, 4)
  {
    if order == LittleEndian {
      var lo, hi := n % 0x1_0000, n / 0x1_0000;
      var slo, shi := Swap16(lo), Swap16(hi);
      assert Pow256(2) == 0x1_0000;
      assert HostToNetwork(order, n) == shi + Pow256(2) * slo;
      LESplit(shi, slo, 2, 2);
      Swap16Bytes(lo);
      Swap16Bytes(hi);
      assert n == lo + Pow256(2) * hi;
      BESplit(lo, hi, 2, 2);
    }
  }

  /** On a little-endian host the 32-bit conversion reverses all four bytes. */
  lemma HostToNetworkReverses(n: uint32)
    ensures forall i :: 0 <= i < 4 ==>
      LE(HostToNetwork(LittleEndian, n), 4)[i] == LE(n, 4)[3 - i]
  {
    HostToNetworkBytes(LittleEndian, n);
    BEIsReversedLE(n, 4);
  }

  /** A 32-bit word split into two 16-bit halves and put back together. */
  lemma Halves16(hi: nat, lo: nat)
    requires lo < 0x1_0000
    ensures (hi * 0x1_0000 + lo) % 0x1_0000 == lo
    ensures (hi * 0x1_0000 + lo) / 0x1_0000 == hi
  {
  }

  lemma LongRoundTrip32(order: ByteOrder, n: uint32)
    ensures NetworkToHost(order, HostToNetwork(order, n)) == n
  {
    if order == LittleEndian {
      var lo, hi := n % 0x1_0000, n / 0x1_0000;
      var m := Swap16(lo) * 0x1_0000 + Swap16(hi);
      assert HostToNetwork(order, n) == m;
      Halves16(Swap16(lo), Swap16(hi));
      Swap16Involution(lo);
      Swap16Involution(hi);
      assert NetworkToHostShort(order, m % 0x1_0000) == hi;
      assert NetworkToHostShort(order, m / 0x1_0000) == lo;
    }
  }

  /** Storing `HostToNetworkLong(n)` in host order lays out `n` in network order, on either host. */
  lemma HostToNetworkLongBytes(order: ByteOrder, n: uint64)
    ensures Encode(order, HostToNetworkLong(order, n), 8) == BE(n, 8)
  {
    if order == LittleEndian {
      var lo, hi := n % 0x1_0000_0000, n / 0x1_0000_0000;
      var slo, shi := HostToNetwork(order, lo), HostToNetwork(order, hi);
      assert Pow256(4) == 0x1_0000_0000;
      assert HostToNetworkLong(order, n) == shi + Pow256(4) * slo;
      LESplit(shi, slo, 4, 4);
      HostToNetworkBytes(order, lo);
      HostToNetworkBytes(order, hi);
      assert n == lo + Pow256(4) * hi;
      BESplit(lo, hi, 4, 4);
    }
  }

  /** On a little-endian host the 64-bit conversion reverses all eight bytes. */
  lemma HostToNetworkLongReverses(n: uint64)
    ensures forall i :: 0 <= i < 8 ==>
      LE(HostToNetworkLong(LittleEndian, n), 8)[i] == LE(n, 8)[7 - i]
  {
    HostToNetworkLongBytes(LittleEndian, n);
    BEIsReversedLE(n, 8);
  }

  /** Each to-host conversion is the same swap as its to-network partner. */
  lemma NetworkToHostShortIsSwap(order: ByteOrder, n: uint16)
    ensures NetworkToHostShort(order, n) == HostToNetworkShort(order, n)
  {
  }

  lemma NetworkToHostIsSwap(order: ByteOrder, n: uint32)
    ensures NetworkToHost(order, n) == HostToNetwork(order, n)
  {
  }

  lemma NetworkToHostLongIsSwap(order: ByteOrder, n: uint64)
    ensures NetworkToHostLong(order, n) == HostToNetworkLong(order, n)
  {
    NetworkToHostIsSwap(order, n % 0x1_0000_0000);
    NetworkToHostIsSwap(order, n / 0x1_0000_0000);
  }

  /** Eight little-endian bytes determine a 64-bit value. */
  lemma SameBytesSameLong(x: uint64, y: uint64)
    requires LE(x, 8) == LE(y, 8)
    ensures x == y
  {
    assert Pow256(8) == 0x1_0000_0000_0000_0000;
    LERoundTrip(x, 8);
    LERoundTrip(y, 8);
  }

  /** Reversing eight bytes twice gives them back. */
  lemma LongBytesRoundTrip(n: uint64)
    ensures LE(HostToNetworkLong(LittleEndian, HostToNetworkLong(LittleEndian, n)), 8) == LE(n, 8)
  {
    var h := HostToNetworkLong(LittleEndian, n);
    HostToNetworkLongBytes(LittleEndian, n);
    HostToNetworkLongBytes(LittleEndian, h);
    BEIsReversedLE(h, 8);
    BEIsReversedLE(n, 8);
    assert LE(h, 8) == BE(n, 8);
    forall i | 0 <= i < 8
      ensures BE(h, 8)[i] == LE(n, 8)[i]
    {
      assert BE(h, 8)[i] == BE(n, 8)[7 - i];
    }
  }

  /** The byte-level round trip makes the 64-bit conversion undo itself. */
  lemma LongRoundTrip64(order: ByteOrder, n: uint64)
    ensures NetworkToHostLong(order, HostToNetworkLong(order, n)) == n
  {
    if order == LittleEndian {
      var h := HostToNetworkLong(order, n);
      NetworkToHostLongIsSwap(order, h);
      LongBytesRoundTrip(n);
      SameBytesSameLong(HostToNetworkLong(order, h), n);
    }
  }

  /** On a big-endian host all six conversions leave their argument alone. */
  lemma BigEndianIdentity(a: uint16, b: uint32, c: uint64)
    ensures HostToNetworkShort(BigEndian, a) == a && NetworkToHostShort(BigEndian, a) == a
    ensures HostToNetwork(BigEndian, b) == b && NetworkToHost(BigEndian, b) == b
    ensures HostToNetworkLong(BigEndian, c) == c && NetworkToHostLong(BigEndian, c) == c
  {
  }
}
