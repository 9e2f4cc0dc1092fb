/**
 * Fixed-size kernel ABI records and their host-order byte layouts.
 *
 * Each record has a `Pack*` function giving the bytes `binary.Write` (or the
 * in-memory layout handed to the kernel) produces, and an `Unpack*` function
 * that reads the fields back from a buffer the way a pointer cast does. Field
 * order, width and the padding slots follow the Go struct declarations.
 */
module Structs {
  import opened Base
  import opened Wire

  const SockAddrInSize: nat := 16
  const SockAddrIn6Size: nat := 28
  const SockAddrStorageSize: nat := 128
  const InitMsgSize: nat := 8
  const SndRcvInfoSize: nat := 32
  const GetAddrsSize: nat := 8
  const EventSubscribeSize: nat := 13
  const PeelOffArgSize: nat := 8
  const PeelOffFlagsArgSize: nat := 12
  const CmsghdrSize: nat := 16
  const PeerAddrParamsSize: nat := 156

  // ---------------------------------------------------------------------
  // Reading back a field that was written at a known offset

  lemma ReadU16(order: ByteOrder, s: bytes, off: nat, x: uint16)
    requires off + 2 <= |s| && s[off..off + 2] == PutU16(order, x)
    ensures GetU16(order, s, off) == x
  {
    EncodeDecode(order, x, 2);
  }

  lemma ReadU32(order: ByteOrder, s: bytes, off: nat, x: uint32)
    requires off + 4 <= |s| && s[off..off + 4] == PutU32(order, x)
    ensures GetU32(order, s, off) == x
  {
    EncodeDecode(order, x, 4);
  }

  lemma ReadU64(order: ByteOrder, s: bytes, off: nat, x: uint64)
    requires off + 8 <= |s| && s[off..off + 8] == PutU64(order, x)
    ensures GetU64(order, s, off) == x
  {
    EncodeDecode(order, x, 8);
  }

  lemma ReadI32(order: ByteOrder, s: bytes, off: nat, x: int32)
    requires off + 4 <= |s| && s[off..off + 4] == PutI32(order, x)
    ensures GetI32(order, s, off) == x
  {
    EncodeDecode(order, UnsignedOfInt32(x), 4);
  }

  // ---------------------------------------------------------------------
  // sctp_sndrcvinfo: 3 x u16, a reserved u16, 5 x u32, an i32

  datatype SndRcvInfo = SndRcvInfo(
    stream: uint16, ssn: uint16, flags: uint16,
    ppid: uint32, context: uint32, timeToLive: uint32, tsn: uint32, cumTsn: uint32,
    assocId: int32)

  /** The empty record `&SCTPSndRcvInfo{}`. */
  const NoSndRcvInfo := SndRcvInfo(0, 0, 0, 0, 0, 0, 0, 0, 0)

  /** `binary.Write` of the record; the blank reserved field is written as zeros. */
  function PackSndRcvInfo(order: ByteOrder, i: SndRcvInfo): (r: bytes)
    ensures |r| == SndRcvInfoSize
    ensures r[6] == 0 && r[7] == 0
  {
    PutU16(order, i.stream) + PutU16(order, i.ssn) + PutU16(order, i.flags) + [0, 0]
    + PutU32(order, i.ppid) + PutU32(order, i.context) + PutU32(order, i.timeToLive)
    + PutU32(order, i.tsn) + PutU32(order, i.cumTsn) + PutI32(order, i.assocId)
  }

  /** The record a pointer cast sees at offset `off` of `s`. */
  function UnpackSndRcvInfo(order: ByteOrder, s: bytes, off: nat): SndRcvInfo
    requires off + SndRcvInfoSize <= |s|
  {
    SndRcvInfo(
      GetU16(order, s, off), GetU16(order, s, off + 2), GetU16(order, s, off + 4),
      GetU32(order, s, off + 8), GetU32(order, s, off + 12), GetU32(order, s, off + 16),
      GetU32(order, s, off + 20), GetU32(order, s, off + 24),
      GetI32(order, s, off + 28))
  }

  /** A slice of a record embedded in a larger buffer is the same slice of the record. */
  lemma SliceOfEmbedded(a: bytes, p: bytes, b: bytes, i: nat, j: nat)
    requires i <= j <= |p|
    ensures |a + p + b| >= |a| + j && (a + p + b)[|a| + i..|a| + j] == p[i..j]
  {
    var s := a + p + b;
    assert s[|a|..|a| + |p|] == p;
    assert s[|a| + i..|a| + j] == s[|a|..|a| + |p|][i..j];
  }

  /** Where the three 16-bit fields and the first two 32-bit ones sit in the packed record. */
  lemma SndRcvInfoLowSlices(order: ByteOrder, i: SndRcvInfo)
    ensures var p := PackSndRcvInfo(order, i);
      && p[0..2] == PutU16(order, i.stream) && p[2..4] == PutU16(order, i.ssn)
      && p[4..6] == PutU16(order, i.flags)
      && p[8..12] == PutU32(order, i.ppid) && p[12..16] == PutU32(order, i.context)
  {
    var h := PutU16(order, i.stream) + PutU16(order, i.ssn) + PutU16(order, i.flags) + [0, 0]
      + PutU32(order, i.ppid) + PutU32(order, i.context);
    var p := PackSndRcvInfo(order, i);
    assert p[..16] == h;
    assert h[0..2] == PutU16(order, i.stream);
    assert h[2..4] == PutU16(order, i.ssn);
    assert h[4..6] == PutU16(order, i.flags);
    assert h[8..12] == PutU32(order, i.ppid);
    assert h[12..16] == PutU32(order, i.context);
  }

  /** Where the last three 32-bit fields and the association id sit in the packed record. */
  lemma SndRcvInfoHighSlices(order: ByteOrder, i: SndRcvInfo)
    ensures var p := PackSndRcvInfo(order, i);
      && p[16..20] == PutU32(order, i.timeToLive) && p[20..24] == PutU32(order, i.tsn)
      && p[24..28] == PutU32(order, i.cumTsn) && p[28..32] == PutI32(order, i.assocId)
  {
    var h := PutU16(order, i.stream) + PutU16(order, i.ssn) + PutU16(order, i.flags) + [0, 0]
      + PutU32(order, i.ppid) + PutU32(order, i.context);
    var p := PackSndRcvInfo(order, i);
    assert p == h + PutU32(order, i.timeToLive) + PutU32(order, i.tsn) + PutU32(order, i.cumTsn)
      + PutI32(order, i.assocId);
    assert p[16..20] == PutU32(order, i.timeToLive);
    assert p[20..24] == PutU32(order, i.tsn);
    assert p[24..28] == PutU32(order, i.cumTsn);
    assert p[28..32] == PutI32(order, i.assocId);
  }

  /** The three 16-bit fields and the first two 32-bit ones read back. */
  lemma SndRcvInfoLowFields(order: ByteOrder, i: SndRcvInfo, a: bytes, b: bytes)
    ensures var s := a + PackSndRcvInfo(order, i) + b;
      && |s| >= |a| + SndRcvInfoSize
      && GetU16(order, s, |a|) == i.stream && GetU16(order, s, |a| + 2) == i.ssn
      && GetU16(order, s, |a| + 4) == i.flags
      && GetU32(order, s, |a| + 8) == i.ppid && GetU32(order, s, |a| + 12) == i.context
  {
    var p := PackSndRcvInfo(order, i);
    var s := a + p + b;
    var o := |a|;
    SndRcvInfoLowSlices(order, i);
    SliceOfEmbedded(a, p, b, 0, 2);
    SliceOfEmbedded(a, p, b, 2, 4);
    SliceOfEmbedded(a, p, b, 4, 6);
    SliceOfEmbedded(a, p, b, 8, 12);
    SliceOfEmbedded(a, p, b, 12, 16);
    ReadU16(order, s, o, i.stream);
    ReadU16(order, s, o + 2, i.ssn);
    ReadU16(order, s, o + 4, i.flags);
    ReadU32(order, s, o + 8, i.ppid);
    ReadU32(order, s, o + 12, i.context);
  }

  /** The remaining three 32-bit fields and the association id read back. */
  lemma SndRcvInfoHighFields(order: ByteOrder, i: SndRcvInfo, a: bytes, b: bytes)
    ensures var s := a + PackSndRcvInfo(order, i) + b;
      && |s| >= |a| + SndRcvInfoSize
      && GetU32(order, s, |a| + 16) == i.timeToLive && GetU32(order, s, |a| + 20) == i.tsn
      && GetU32(order, s, |a| + 24) == i.cumTsn && GetI32(order, s, |a| + 28) == i.assocId
  {
    var s := a + PackSndRcvInfo(order, i) + b;
    var o := |a|;
    ReadU32(order, s, o + 16, i.timeToLive);
    ReadU32(order, s, o + 20, i.tsn);
    ReadU32(order, s, o + 24, i.cumTsn);
    ReadI32(order, s, o + 28, i.assocId);
  }

  /** Reading the record back from wherever it was written gives every field back. */
  lemma SndRcvInfoRoundTrip(order: ByteOrder, i: SndRcvInfo, a: bytes, b: bytes)
    ensures |a + PackSndRcvInfo(order, i) + b| >= |a| + SndRcvInfoSize
    ensures UnpackSndRcvInfo(order, a + PackSndRcvInfo(order, i) + b, |a|) == i
  {
    SndRcvInfoLowFields(order, i, a, b);
    SndRcvInfoHighFields(order, i, a, b);
  }

  /** The same, for a buffer holding just the record. */
  lemma SndRcvInfoUnpackPack(order: ByteOrder, i: SndRcvInfo)
    ensures UnpackSndRcvInfo(order, PackSndRcvInfo(order, i), 0) == i
  {
    var p := PackSndRcvInfo(order, i);
    SndRcvInfoRoundTrip(order, i, [], []);
    assert [] + p + [] == p;
  }

  /** A 32-byte record cut at its field boundaries and glued back together. */
  lemma SndRcvInfoPieces(s: bytes)
    requires |s| == SndRcvInfoSize
    ensures s == s[0..2] + s[2..4] + s[4..6] + s[6..8] + s[8..12] + s[12..16] + s[16..20]
      + s[20..24] + s[24..28] + s[28..32]
  {
    assert s[..4] == s[0..2] + s[2..4];
    assert s[..6] == s[..4] + s[4..6];
    assert s[..8] == s[..6] + s[6..8];
    assert s[..12] == s[..8] + s[8..12];
    assert s[..16] == s[..12] + s[12..16];
    assert s[..20] == s[..16] + s[16..20];
    assert s[..24] == s[..20] + s[20..24];
    assert s[..28] == s[..24] + s[24..28];
    assert s == s[..28] + s[28..32];
  }

  /** A 32-byte buffer whose reserved slot is zero is exactly the packing of what it holds. */
  lemma SndRcvInfoBytes(order: ByteOrder, s: bytes)
    requires |s| == SndRcvInfoSize && s[6] == 0 && s[7] == 0
    ensures PackSndRcvInfo(order, UnpackSndRcvInfo(order, s, 0)) == s
  {
    var i := UnpackSndRcvInfo(order, s, 0);
    var p := PackSndRcvInfo(order, i);
    assert p[0..2] == s[0..2] && p[2..4] == s[2..4] && p[4..6] == s[4..6] && p[6..8] == s[6..8]
        && p[8..12] == s[8..12] && p[12..16] == s[12..16] && p[16..20] == s[16..20]
        && p[20..24] == s[20..24] && p[24..28] == s[24..28] && p[28..32] == s[28..32] by {
      SndRcvInfoLowSlices(order, i);
      SndRcvInfoHighSlices(order, i);
      PutGetU16(order, s, 0);
      PutGetU16(order, s, 2);
      PutGetU16(order, s, 4);
      PutGetU32(order, s, 8);
      PutGetU32(order, s, 12);
      PutGetU32(order, s, 16);
      PutGetU32(order, s, 20);
      PutGetU32(order, s, 24);
      PutGetI32(order, s, 28);
    }
    SndRcvInfoPieces(p);
    SndRcvInfoPieces(s);
  }

  // ---------------------------------------------------------------------
  // sctp_event_subscribe: 13 one-byte switches

  datatype EventSubscribe = EventSubscribe(
    dataIo: uint8, association: uint8, address: uint8, sendFailure: uint8,
    peerError: uint8, shutdown: uint8, partialDelivery: uint8, adaptationLayer: uint8,
    authentication: uint8, senderDry: uint8, streamReset: uint8, assocReset: uint8,
    streamChange: uint8)

  function PackEventSubscribe(e: EventSubscribe): (r: bytes)
    ensures |r| == EventSubscribeSize
  {
    [e.dataIo, e.association, e.address, e.sendFailure, e.peerError, e.shutdown,
     e.partialDelivery, e.adaptationLayer, e.authentication, e.senderDry,
     e.streamReset, e.assocReset, e.streamChange]
  }

  function UnpackEventSubscribe(s: bytes): EventSubscribe
    requires |s| >= EventSubscribeSize
  {
    EventSubscribe(s[0], s[1], s[2], s[3], s[4], s[5], s[6], s[7], s[8], s[9], s[10], s[11], s[12])
  }

  /** The 13 switches sit one per byte in declaration order, so packing is a bijection onto 13-byte buffers. */
  lemma EventSubscribeRoundTrip(e: EventSubscribe, s: bytes)
    ensures UnpackEventSubscribe(PackEventSubscribe(e)) == e
    ensures |s| == EventSubscribeSize ==> PackEventSubscribe(UnpackEventSubscribe(s)) == s
  {
  }

  // ---------------------------------------------------------------------
  // sctp_initmsg: 4 x u16

  datatype InitMsg = InitMsg(numOutStreams: uint16, maxInStreams: uint16, maxAttempts: uint16, maxInitTimeout: uint16)

  function PackInitMsg(order: ByteOrder, m: InitMsg): (r: bytes)
    ensures |r| == InitMsgSize
  {
    PutU16(order, m.numOutStreams) + PutU16(order, m.maxInStreams)
    + PutU16(order, m.maxAttempts) + PutU16(order, m.maxInitTimeout)
  }

  function UnpackInitMsg(order: ByteOrder, s: bytes): InitMsg
    requires |s| >= InitMsgSize
  {
    InitMsg(GetU16(order, s, 0), GetU16(order, s, 2), GetU16(order, s, 4), GetU16(order, s, 6))
  }

  lemma InitMsgRoundTrip(order: ByteOrder, m: InitMsg)
    ensures UnpackInitMsg(order, PackInitMsg(order, m)) == m
  {
    var s := PackInitMsg(order, m);
    ReadU16(order, s, 0, m.numOutStreams);
    ReadU16(order, s, 2, m.maxInStreams);
    ReadU16(order, s, 4, m.maxAttempts);
    ReadU16(order, s, 6, m.maxInitTimeout);
  }

  // ---------------------------------------------------------------------
  // sctp_peeloff_arg_t and sctp_peeloff_flags_arg_t

  datatype PeelOffArg = PeelOffArg(assocId: int32, sd: int32)

  datatype PeelOffFlagsArg = PeelOffFlagsArg(arg: PeelOffArg, flags: uint32)

  function PackPeelOffArg(order: ByteOrder, p: PeelOffArg): (r: bytes)
    ensures |r| == PeelOffArgSize
  {
    PutI32(order, p.assocId) + PutI32(order, p.sd)
  }

  function UnpackPeelOffArg(order: ByteOrder, s: bytes): PeelOffArg
    requires |s| >= PeelOffArgSize
  {
    PeelOffArg(GetI32(order, s, 0), GetI32(order, s, 4))
  }

  /** The flags variant is the plain argument followed by a 4-byte flags word. */
  function PackPeelOffFlagsArg(order: ByteOrder, p: PeelOffFlagsArg): (r: bytes)
    ensures |r| == PeelOffFlagsArgSize
    ensures r[..PeelOffArgSize] == PackPeelOffArg(order, p.arg)
  {
    PackPeelOffArg(order, p.arg) + PutU32(order, p.flags)
  }

  function UnpackPeelOffFlagsArg(order: ByteOrder, s: bytes): PeelOffFlagsArg
    requires |s| >= PeelOffFlagsArgSize
  {
    PeelOffFlagsArg(UnpackPeelOffArg(order, s), GetU32(order, s, 8))
  }

  lemma PeelOffArgRoundTrip(order: ByteOrder, p: PeelOffArg, q: PeelOffFlagsArg)
    ensures UnpackPeelOffArg(order, PackPeelOffArg(order, p)) == p
    ensures UnpackPeelOffFlagsArg(order, PackPeelOffFlagsArg(order, q)) == q
  {
    var s := PackPeelOffArg(order, p);
    ReadI32(order, s, 0, p.assocId);
    ReadI32(order, s, 4, p.sd);
    var t := PackPeelOffFlagsArg(order, q);
    ReadI32(order, t, 0, q.arg.assocId);
    ReadI32(order, t, 4, q.arg.sd);
    ReadU32(order, t, 8, q.flags);
  }

  // ---------------------------------------------------------------------
  // sockaddr_in (16 bytes) and sockaddr_in6 (28 bytes)

  /** Family and port are stored as host-order u16 words; the port word already holds the htons'd value. */
  datatype SockAddrIn = SockAddrIn(family: uint16, port: uint16, addr: bytes)

  datatype SockAddrIn6 = SockAddrIn6(family: uint16, port: uint16, flowInfo: uint32, addr: bytes, scopeId: uint32)

  /** The 8 zero bytes that pad a sockaddr_in. */
  const SinZero: bytes := [0, 0, 0, 0, 0, 0, 0, 0]

  function PackSockAddrIn(order: ByteOrder, sa: SockAddrIn): (r: bytes)
    requires |sa.addr| == 4
    ensures |r| == SockAddrInSize
    ensures r[8..] == SinZero
  {
    PutU16(order, sa.family) + PutU16(order, sa.port) + sa.addr + SinZero
  }

  function UnpackSockAddrIn(order: ByteOrder, s: bytes, off: nat): (sa: SockAddrIn)
    requires off + SockAddrInSize <= |s|
    ensures |sa.addr| == 4
  {
    SockAddrIn(GetU16(order, s, off), GetU16(order, s, off + 2), s[off + 4..off + 8])
  }

  function PackSockAddrIn6(order: ByteOrder, sa: SockAddrIn6): (r: bytes)
    requires |sa.addr| == 16
    ensures |r| == SockAddrIn6Size
  {
    PutU16(order, sa.family) + PutU16(order, sa.port) + PutU32(order, sa.flowInfo) + sa.addr + PutU32(order, sa.scopeId)
  }

  function UnpackSockAddrIn6(order: ByteOrder, s: bytes, off: nat): (sa: SockAddrIn6)
    requires off + SockAddrIn6Size <= |s|
    ensures |sa.addr| == 16
  {
    SockAddrIn6(GetU16(order, s, off), GetU16(order, s, off + 2), GetU32(order, s, off + 4),
                s[off + 8..off + 24], GetU32(order, s, off + 24))
  }

  lemma SockAddrInRoundTrip(order: ByteOrder, sa: SockAddrIn, a: bytes, b: bytes)
    requires |sa.addr| == 4
    ensures |a + PackSockAddrIn(order, sa) + b| >= |a| + SockAddrInSize
    ensures UnpackSockAddrIn(order, a + PackSockAddrIn(order, sa) + b, |a|) == sa
  {
    var s := a + PackSockAddrIn(order, sa) + b;
    ReadU16(order, s, |a|, sa.family);
    ReadU16(order, s, |a| + 2, sa.port);
    assert s[|a| + 4..|a| + 8] == sa.addr;
  }

  lemma SockAddrIn6RoundTrip(order: ByteOrder, sa: SockAddrIn6, a: bytes, b: bytes)
    requires |sa.addr| == 16
    ensures |a + PackSockAddrIn6(order, sa) + b| >= |a| + SockAddrIn6Size
    ensures UnpackSockAddrIn6(order, a + PackSockAddrIn6(order, sa) + b, |a|) == sa
  {
    var s := a + PackSockAddrIn6(order, sa) + b;
    ReadU16(order, s, |a|, sa.family);
    ReadU16(order, s, |a| + 2, sa.port);
    ReadU32(order, s, |a| + 4, sa.flowInfo);
    assert s[|a| + 8..|a| + 24] == sa.addr;
    ReadU32(order, s, |a| + 24, sa.scopeId);
  }

  // ---------------------------------------------------------------------
  // cmsghdr (64-bit Linux): Len u64, Level i32, Type i32

  datatype Cmsghdr = Cmsghdr(len: uint64, level: int32, typ: int32)

  function PackCmsghdr(order: ByteOrder, h: Cmsghdr): (r: bytes)
    ensures |r| == CmsghdrSize
  {
    PutU64(order, h.len) + PutI32(order, h.level) + PutI32(order, h.typ)
  }

  function UnpackCmsghdr(order: ByteOrder, s: bytes, off: nat): Cmsghdr
    requires off + CmsghdrSize <= |s|
  {
    Cmsghdr(GetU64(order, s, off), GetI32(order, s, off + 8), GetI32(order, s, off + 12))
  }

  lemma CmsghdrRoundTrip(order: ByteOrder, h: Cmsghdr, a: bytes, b: bytes)
    ensures |a + PackCmsghdr(order, h) + b| >= |a| + CmsghdrSize
    ensures UnpackCmsghdr(order, a + PackCmsghdr(order, h) + b, |a|) == h
  {
    var s := a + PackCmsghdr(order, h) + b;
    ReadU64(order, s, |a|, h.len);
    ReadI32(order, s, |a| + 8, h.level);
    ReadI32(order, s, |a| + 12, h.typ);
  }

  // ---------------------------------------------------------------------
  // sctp_getaddrs header: AssocId i32, Num u32, then the address records

  function PackGetAddrsHeader(order: ByteOrder, assocId: int32, num: uint32): (r: bytes)
    ensures |r| == GetAddrsSize
  {
    PutI32(order, assocId) + PutU32(order, num)
  }

  lemma GetAddrsHeaderRoundTrip(order: ByteOrder, assocId: int32, num: uint32, rest: bytes)
    ensures |PackGetAddrsHeader(order, assocId, num) + rest| >= GetAddrsSize
    ensures GetI32(order, PackGetAddrsHeader(order, assocId, num) + rest, 0) == assocId
    ensures GetU32(order, PackGetAddrsHeader(order, assocId, num) + rest, 4) == num
  {
    var s := PackGetAddrsHeader(order, assocId, num) + rest;
    ReadI32(order, s, 0, assocId);
    ReadU32(order, s, 4, num);
  }

  // ---------------------------------------------------------------------
  // sctp_paddrparams: packed field by field, 156 bytes, no padding

  datatype PeerAddrParams = PeerAddrParams(
    assocId: int32, addr: bytes, hbInterval: uint32, pathMaxRxt: uint16,
    pathMtu: uint32, sackDelay: uint32, flags: uint32, ipv6FlowLabel: uint32, dscp: uint8)

  /** The fields laid end to end: AssocId@0, Addr@4, HbInterval@132, PathMaxRxt@136, PathMtu@138, SackDelay@142, Flags@146, Ipv6FlowLabel@150, Dscp@154. */
  function DecodePeerAddrParams(order: ByteOrder, s: bytes): (p: PeerAddrParams)
    requires |s| >= PeerAddrParamsSize
    ensures |p.addr| == 128
  {
    PeerAddrParams(GetI32(order, s, 0), s[4..132], GetU32(order, s, 132), GetU16(order, s, 136),
                   GetU32(order, s, 138), GetU32(order, s, 142), GetU32(order, s, 146),
                   GetU32(order, s, 150), s[154])
  }

  /** The fields laid end to end, then the zero byte for the trailing blank field. */
  function PeerAddrParamsBytes(order: ByteOrder, p: PeerAddrParams): (r: bytes)
    requires |p.addr| == 128
    ensures |r| == PeerAddrParamsSize
  {
    PutI32(order, p.assocId) + p.addr + PutU32(order, p.hbInterval) + PutU16(order, p.pathMaxRxt)
    + PutU32(order, p.pathMtu) + PutU32(order, p.sackDelay) + PutU32(order, p.flags)
    + PutU32(order, p.ipv6FlowLabel) + [p.dscp] + [0]
  }

  /** The first four fields sit at offsets 0, 4, 132 and 136. */
  lemma PeerAddrParamsLowFields(order: ByteOrder, p: PeerAddrParams)
    requires |p.addr| == 128
    ensures var r := PeerAddrParamsBytes(order, p);
      && GetI32(order, r, 0) == p.assocId && r[4..132] == p.addr
      && GetU32(order, r, 132) == p.hbInterval && GetU16(order, r, 136) == p.pathMaxRxt
  {
    var r := PeerAddrParamsBytes(order, p);
    assert r[0..4] == PutI32(order, p.assocId);
    assert r[132..136] == PutU32(order, p.hbInterval);
    assert r[136..138] == PutU16(order, p.pathMaxRxt);
    ReadI32(order, r, 0, p.assocId);
    ReadU32(order, r, 132, p.hbInterval);
    ReadU16(order, r, 136, p.pathMaxRxt);
  }

  /** The last five fields sit at offsets 138, 142, 146, 150 and 154. */
  lemma PeerAddrParamsHighFields(order: ByteOrder, p: PeerAddrParams)
    requires |p.addr| == 128
    ensures var r := PeerAddrParamsBytes(order, p);
      && GetU32(order, r, 138) == p.pathMtu && GetU32(order, r, 142) == p.sackDelay
      && GetU32(order, r, 146) == p.flags && GetU32(order, r, 150) == p.ipv6FlowLabel
      && r[154] == p.dscp && r[155] == 0
  {
    var r := PeerAddrParamsBytes(order, p);
    assert r[138..142] == PutU32(order, p.pathMtu);
    assert r[142..146] == PutU32(order, p.sackDelay);
    assert r[146..150] == PutU32(order, p.flags);
    assert r[150..154] == PutU32(order, p.ipv6FlowLabel);
    ReadU32(order, r, 138, p.pathMtu);
    ReadU32(order, r, 142, p.sackDelay);
    ReadU32(order, r, 146, p.flags);
    ReadU32(order, r, 150, p.ipv6FlowLabel);
  }

  /**
   * `Pack` appends every field in declaration order with `binary.Write`, then
   * one zero byte for the trailing blank field. The result decodes back to
   * the record and is always 156 bytes long.
   */
  method PackPeerAddrParams(order: ByteOrder, p: PeerAddrParams) returns (r: bytes)
    requires |p.addr| == 128
    ensures |r| == PeerAddrParamsSize
    ensures r[PeerAddrParamsSize - 1] == 0
    ensures r == PeerAddrParamsBytes(order, p)
    ensures DecodePeerAddrParams(order, r) == p
  {
    r := [];
    r := r + PutI32(order, p.assocId);
    r := r + p.addr;
    r := r + PutU32(order, p.hbInterval);
    r := r + PutU16(order, p.pathMaxRxt);
    r := r + PutU32(order, p.pathMtu);
    r := r + PutU32(order, p.sackDelay);
    r := r + PutU32(order, p.flags);
    r := r + PutU32(order, p.ipv6FlowLabel);
    r := r + [p.dscp];
    r := r + [0];
    assert r == PeerAddrParamsBytes(order, p);
    PeerAddrParamsLowFields(order, p);
    PeerAddrParamsHighFields(order, p);
  }

  /**
   * `Unpack` as written: each `binary.Read` receives a field's value rather
   * than its address, so nothing is ever stored and the receiver keeps its
   * old contents whatever `data` holds.
   */
  function UnpackPeerAddrParamsAsWritten(order: ByteOrder, p: PeerAddrParams, data: bytes): PeerAddrParams
  {
    p
  }

  /** `Unpack` as evidently intended: a 156-byte buffer replaces every field; any other length changes nothing. */
  function UnpackPeerAddrParams(order: ByteOrder, p: PeerAddrParams, data: bytes): (q: PeerAddrParams)
    ensures |data| != PeerAddrParamsSize ==> q == p
  {
    if |data| == PeerAddrParamsSize then DecodePeerAddrParams(order, data) else p
  }

  /** A buffer that decodes to a different record is ignored by the code as written. */
  lemma UnpackAsWrittenIgnoresData(order: ByteOrder)
    ensures var p := PeerAddrParams(1, Zeros(128), 0, 0, 0, 0, 0, 0, 0);
            var data := Zeros(PeerAddrParamsSize);
            UnpackPeerAddrParamsAsWritten(order, p, data) == p
            && UnpackPeerAddrParams(order, p, data).assocId == 0
            && UnpackPeerAddrParams(order, p, data) != UnpackPeerAddrParamsAsWritten(order, p, data)
  {
    var data := Zeros(PeerAddrParamsSize);
    assert data[0..4] == PutI32(order, 0) by {
      assert LE(0, 4) == [0, 0, 0, 0];
      assert BE(0, 4) == [0, 0, 0, 0];
    }
    ReadI32(order, data, 0, 0);
  }

  /** With the intended `Unpack`, whatever `Pack` produces is read back field for field, over any previous contents. */
  lemma PeerAddrParamsRoundTrip(order: ByteOrder, p: PeerAddrParams)
    requires |p.addr| == 128
    ensures forall previous: PeerAddrParams {:trigger UnpackPeerAddrParams(order, previous, PeerAddrParamsBytes(order, p))} ::
      UnpackPeerAddrParams(order, previous, PeerAddrParamsBytes(order, p)) == p
  {
    PeerAddrParamsLowFields(order, p);
    PeerAddrParamsHighFields(order, p);
  }
}
