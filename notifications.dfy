/**
 * SCTP notifications: the 8-byte header shared by every event, the 13 event
 * bodies, one parser per event, the dispatching parser with its size checks,
 * and the table of canonical event names.
 *
 * A parser copies the fields it needs out of the buffer by value, at the
 * offsets the C structs give them. `PackNotification` is the layout a kernel
 * writes for an event; parsing it back gives the event.
 */
module Notifications {
  import opened Base
  import opened Wire
  import opened Structs

  // Event types: SCTP_SN_TYPE_BASE (0x8000) + 0 .. 12, as in linux/sctp.h.
  const SCTP_DATA_IO_EVENT: uint16 := 0x8000
  const SCTP_ASSOC_CHANGE: uint16 := 0x8001
  const SCTP_PEER_ADDR_CHANGE: uint16 := 0x8002
  const SCTP_SEND_FAILED: uint16 := 0x8003
  const SCTP_REMOTE_ERROR: uint16 := 0x8004
  const SCTP_SHUTDOWN_EVENT: uint16 := 0x8005
  const SCTP_PARTIAL_DELIVERY_EVENT: uint16 := 0x8006
  const SCTP_ADAPTATION_INDICATION: uint16 := 0x8007
  const SCTP_AUTHENTICATION_EVENT: uint16 := 0x8008
  const SCTP_SENDER_DRY_EVENT: uint16 := 0x8009
  const SCTP_STREAM_RESET_EVENT: uint16 := 0x800A
  const SCTP_ASSOC_RESET_EVENT: uint16 := 0x800B
  const SCTP_STREAM_CHANGE_EVENT: uint16 := 0x800C

  // Struct sizes (the C layouts with their natural alignment)
  const NotificationHeaderSize: nat := 8
  const NotificationSize: nat := 148
  const AssocChangeSize: nat := 20
  const PAddrChangeSize: nat := 148
  const RemoteErrorSize: nat := 16
  const SendFailedSize: nat := 48
  const ShutdownEventSize: nat := 12
  const PDApiEventSize: nat := 24
  const AdaptationEventSize: nat := 16
  const AuthKeyEventSize: nat := 20
  const SenderDryEventSize: nat := 12
  const StreamResetEventSize: nat := 12
  const AssocResetEventSize: nat := 20
  const StreamChangeEventSize: nat := 16

  datatype Header = Header(typ: uint16, flags: uint16, length: uint32)

  /** One constructor per event struct; every one begins with the common header. */
  datatype Notification =
    | DataIo(header: Header)
    | AssocChange(header: Header, state: uint16, error: uint16, outboundStreams: uint16,
                  inboundStreams: uint16, assocId: int32)
    | PAddrChange(header: Header, addr: bytes, addrState: int32, addrError: int32, assocId: int32)
    | SendFailed(header: Header, sendError: uint32, info: SndRcvInfo, assocId: int32)
    | RemoteError(header: Header, error: uint16, assocId: int32)
    | ShutdownEvent(header: Header, assocId: int32)
    | PDApiEvent(header: Header, indication: uint32, assocId: int32, stream: uint32, sequence: uint32)
    | AdaptationEvent(header: Header, adaptationInd: uint32, assocId: int32)
    | AuthKeyEvent(header: Header, keyNumber: uint16, altKeyNumber: uint16, indication: uint32, assocId: int32)
    | SenderDryEvent(header: Header, assocId: int32)
    | StreamResetEvent(header: Header, assocId: int32)
    | AssocResetEvent(header: Header, assocId: int32, localTsn: uint32, remoteTsn: uint32)
    | StreamChangeEvent(header: Header, assocId: int32, inStreams: uint16, outStreams: uint16)

  datatype NotificationError = TooSmall | TooLarge | InvalidType

  // The Notification interface: the three header getters.

  function GetType(n: Notification): uint16 { n.header.typ }

  function GetFlags(n: Notification): uint16 { n.header.flags }

  function GetLength(n: Notification): uint32 { n.header.length }

  /** The event type each constructor stands for. */
  function TypeOf(n: Notification): uint16
  {
    match n
    case DataIo(_) => SCTP_DATA_IO_EVENT
    case AssocChange(_, _, _, _, _, _) => SCTP_ASSOC_CHANGE
    case PAddrChange(_, _, _, _, _) => SCTP_PEER_ADDR_CHANGE
    case SendFailed(_, _, _, _) => SCTP_SEND_FAILED
    case RemoteError(_, _, _) => SCTP_REMOTE_ERROR
    case ShutdownEvent(_, _) => SCTP_SHUTDOWN_EVENT
    case PDApiEvent(_, _, _, _, _) => SCTP_PARTIAL_DELIVERY_EVENT
    case AdaptationEvent(_, _, _) => SCTP_ADAPTATION_INDICATION
    case AuthKeyEvent(_, _, _, _, _) => SCTP_AUTHENTICATION_EVENT
    case SenderDryEvent(_, _) => SCTP_SENDER_DRY_EVENT
    case StreamResetEvent(_, _) => SCTP_STREAM_RESET_EVENT
    case AssocResetEvent(_, _, _, _) => SCTP_ASSOC_RESET_EVENT
    case StreamChangeEvent(_, _, _, _) => SCTP_STREAM_CHANGE_EVENT
  }

  /** The size of the C struct behind each constructor. */
  function SizeOf(n: Notification): nat
  {
    match n
    case DataIo(_) => NotificationHeaderSize
    case AssocChange(_, _, _, _, _, _) => AssocChangeSize
    case PAddrChange(_, _, _, _, _) => PAddrChangeSize
    case SendFailed(_, _, _, _) => SendFailedSize
    case RemoteError(_, _, _) => RemoteErrorSize
    case ShutdownEvent(_, _) => ShutdownEventSize
    case PDApiEvent(_, _, _, _, _) => PDApiEventSize
    case AdaptationEvent(_, _, _) => AdaptationEventSize
    case AuthKeyEvent(_, _, _, _, _) => AuthKeyEventSize
    case SenderDryEvent(_, _) => SenderDryEventSize
    case StreamResetEvent(_, _) => StreamResetEventSize
    case AssocResetEvent(_, _, _, _) => AssocResetEventSize
    case StreamChangeEvent(_, _, _, _) => StreamChangeEventSize
  }

  /** A notification as the kernel delivers it: its header names its own type and the address array is full size. */
  predicate WellFormed(n: Notification)
  {
    n.header.typ == TypeOf(n) && (n.PAddrChange? ==> |n.addr| == SockAddrStorageSize)
  }

  // ---------------------------------------------------------------------
  // Layout

  function PackHeader(order: ByteOrder, h: Header): (r: bytes)
    ensures |r| == NotificationHeaderSize
  {
    PutU16(order, h.typ) + PutU16(order, h.flags) + PutU32(order, h.length)
  }

  function ReadHeader(order: ByteOrder, data: bytes): Header
    requires |data| >= NotificationHeaderSize
  {
    Header(GetU16(order, data, 0), GetU16(order, data, 2), GetU32(order, data, 4))
  }

  /** The bytes of an event struct; padding slots are zero. No event is larger than the 148-byte union. */
  function PackNotification(order: ByteOrder, n: Notification): (r: bytes)
    requires WellFormed(n)
    ensures |r| == SizeOf(n) <= NotificationSize
    ensures r[..NotificationHeaderSize] == PackHeader(order, n.header)
  {
    var h := PackHeader(order, n.header);
    match n
    case DataIo(_) => h
    case AssocChange(_, st, err, o, i, a) =>
      h + PutU16(order, st) + PutU16(order, err) + PutU16(order, o) + PutU16(order, i) + PutI32(order, a)
    case PAddrChange(_, addr, st, err, a) =>
      h + addr + PutI32(order, st) + PutI32(order, err) + PutI32(order, a)
    case SendFailed(_, err, info, a) =>
      h + PutU32(order, err) + PackSndRcvInfo(order, info) + PutI32(order, a)
    case RemoteError(_, err, a) =>
      h + PutU16(order, err) + [0, 0] + PutI32(order, a)
    case ShutdownEvent(_, a) => h + PutI32(order, a)
    case PDApiEvent(_, ind, a, st, sq) =>
      h + PutU32(order, ind) + PutI32(order, a) + PutU32(order, st) + PutU32(order, sq)
    case AdaptationEvent(_, ind, a) => h + PutU32(order, ind) + PutI32(order, a)
    case AuthKeyEvent(_, k, alt, ind, a) =>
      h + PutU16(order, k) + PutU16(order, alt) + PutU32(order, ind) + PutI32(order, a)
    case SenderDryEvent(_, a) => h + PutI32(order, a)
    case StreamResetEvent(_, a) => h + PutI32(order, a)
    case AssocResetEvent(_, a, l, r) => h + PutI32(order, a) + PutU32(order, l) + PutU32(order, r)
    case StreamChangeEvent(_, a, i, o) => h + PutI32(order, a) + PutU16(order, i) + PutU16(order, o)
  }

  // ---------------------------------------------------------------------
  // The 13 parsers: each rejects a buffer shorter than its struct and
  // otherwise copies the struct's fields out of the buffer.

  function ParseDataIOEvent(order: ByteOrder, data: bytes): (r: Result<Notification, NotificationError>)
    ensures r.Ok? <==> |data| >= NotificationHeaderSize
    ensures r.Err? ==> r.error == TooSmall
    ensures r.Ok? ==> r.value.DataIo? && r.value.header == ReadHeader(order, data)
  {
    if |data| < NotificationHeaderSize then Err(TooSmall)
    else Ok(DataIo(ReadHeader(order, data)))
  }

  function ParseAssocChangeEvent(order: ByteOrder, data: bytes): (r: Result<Notification, NotificationError>)
    ensures r.Ok? <==> |data| >= AssocChangeSize
    ensures r.Err? ==> r.error == TooSmall
    ensures r.Ok? ==> r.value.AssocChange? && r.value.header == ReadHeader(order, data)
  {
    if |data| < AssocChangeSize then Err(TooSmall)
    else Ok(AssocChange(ReadHeader(order, data), GetU16(order, data, 8), GetU16(order, data, 10),
                        GetU16(order, data, 12), GetU16(order, data, 14), GetI32(order, data, 16)))
  }

  /** The 128-byte address is copied into a fresh array. */
  function ParsePeerAddrChangeEvent(order: ByteOrder, data: bytes): (r: Result<Notification, NotificationError>)
    ensures r.Ok? <==> |data| >= PAddrChangeSize
    ensures r.Err? ==> r.error == TooSmall
    ensures r.Ok? ==> r.value.PAddrChange? && r.value.header == ReadHeader(order, data)
                      && r.value.addr == data[8..136]
  {
    if |data| < PAddrChangeSize then Err(TooSmall)
    else Ok(PAddrChange(ReadHeader(order, data), data[8..136], GetI32(order, data, 136),
                        GetI32(order, data, 140), GetI32(order, data, 144)))
  }

  function ParseSendFailedEvent(order: ByteOrder, data: bytes): (r: Result<Notification, NotificationError>)
    ensures r.Ok? <==> |data| >= SendFailedSize
    ensures r.Err? ==> r.error == TooSmall
    ensures r.Ok? ==> r.value.SendFailed? && r.value.header == ReadHeader(order, data)
  {
    if |data| < SendFailedSize then Err(TooSmall)
    else Ok(SendFailed(ReadHeader(order, data), GetU32(order, data, 8),
                       UnpackSndRcvInfo(order, data, 12), GetI32(order, data, 44)))
  }

  function ParseRemoteErrorEvent(order: ByteOrder, data: bytes): (r: Result<Notification, NotificationError>)
    ensures r.Ok? <==> |data| >= RemoteErrorSize
    ensures r.Err? ==> r.error == TooSmall
    ensures r.Ok? ==> r.value.RemoteError? && r.value.header == ReadHeader(order, data)
  {
    if |data| < RemoteErrorSize then Err(TooSmall)
    else Ok(RemoteError(ReadHeader(order, data), GetU16(order, data, 8), GetI32(order, data, 12)))
  }

  function ParseShutdownEvent(order: ByteOrder, data: bytes): (r: Result<Notification, NotificationError>)
    ensures r.Ok? <==> |data| >= ShutdownEventSize
    ensures r.Err? ==> r.error == TooSmall
    ensures r.Ok? ==> r.value.ShutdownEvent? && r.value.header == ReadHeader(order, data)
  {
    if |data| < ShutdownEventSize then Err(TooSmall)
    else Ok(ShutdownEvent(ReadHeader(order, data), GetI32(order, data, 8)))
  }

  function ParsePartialDeliveryEvent(order: ByteOrder, data: bytes): (r: Result<Notification, NotificationError>)
    ensures r.Ok? <==> |data| >= PDApiEventSize
    ensures r.Err? ==> r.error == TooSmall
    ensures r.Ok? ==> r.value.PDApiEvent? && r.value.header == ReadHeader(order, data)
  {
    if |data| < PDApiEventSize then Err(TooSmall)
    else Ok(PDApiEvent(ReadHeader(order, data), GetU32(order, data, 8), GetI32(order, data, 12),
                       GetU32(order, data, 16), GetU32(order, data, 20)))
  }

  function ParseAdaptationIndicationEvent(order: ByteOrder, data: bytes): (r: Result<Notification, NotificationError>)
    ensures r.Ok? <==> |data| >= AdaptationEventSize
    ensures r.Err? ==> r.error == TooSmall
    ensures r.Ok? ==> r.value.AdaptationEvent? && r.value.header == ReadHeader(order, data)
  {
    if |data| < AdaptationEventSize then Err(TooSmall)
    else Ok(AdaptationEvent(ReadHeader(order, data), GetU32(order, data, 8), GetI32(order, data, 12)))
  }

  function ParseAuthenticationEvent(order: ByteOrder, data: bytes): (r: Result<Notification, NotificationError>)
    ensures r.Ok? <==> |data| >= AuthKeyEventSize
    ensures r.Err? ==> r.error == TooSmall
    ensures r.Ok? ==> r.value.AuthKeyEvent? && r.value.header == ReadHeader(order, data)
  {
    if |data| < AuthKeyEventSize then Err(TooSmall)
    else Ok(AuthKeyEvent(ReadHeader(order, data), GetU16(order, data, 8), GetU16(order, data, 10),
                         GetU32(order, data, 12), GetI32(order, data, 16)))
  }

  function ParseSenderDryEvent(order: ByteOrder, data: bytes): (r: Result<Notification, NotificationError>)
    ensures r.Ok? <==> |data| >= SenderDryEventSize
    ensures r.Err? ==> r.error == TooSmall
    ensures r.Ok? ==> r.value.SenderDryEvent? && r.value.header == ReadHeader(order, data)
  {
    if |data| < SenderDryEventSize then Err(TooSmall)
    else Ok(SenderDryEvent(ReadHeader(order, data), GetI32(order, data, 8)))
  }

  function ParseStreamResetEvent(order: ByteOrder, data: bytes): (r: Result<Notification, NotificationError>)
    ensures r.Ok? <==> |data| >= StreamResetEventSize
    ensures r.Err? ==> r.error == TooSmall
    ensures r.Ok? ==> r.value.StreamResetEvent? && r.value.header == ReadHeader(order, data)
  {
    if |data| < StreamResetEventSize then Err(TooSmall)
    else Ok(StreamResetEvent(ReadHeader(order, data), GetI32(order, data, 8)))
  }

  function ParseAssocResetEvent(order: ByteOrder, data: bytes): (r: Result<Notification, NotificationError>)
    ensures r.Ok? <==> |data| >= AssocResetEventSize
    ensures r.Err? ==> r.error == TooSmall
    ensures r.Ok? ==> r.value.AssocResetEvent? && r.value.header == ReadHeader(order, data)
  {
    if |data| < AssocResetEventSize then Err(TooSmall)
    else Ok(AssocResetEvent(ReadHeader(order, data), GetI32(order, data, 8), GetU32(order, data, 12),
                            GetU32(order, data, 16)))
  }

  function ParseStreamChangeEvent(order: ByteOrder, data: bytes): (r: Result<Notification, NotificationError>)
    ensures r.Ok? <==> |data| >= StreamChangeEventSize
    ensures r.Err? ==> r.error == TooSmall
    ensures r.Ok? ==> r.value.StreamChangeEvent? && r.value.header == ReadHeader(order, data)
  {
    if |data| < StreamChangeEventSize then Err(TooSmall)
    else Ok(StreamChangeEvent(ReadHeader(order, data), GetI32(order, data, 8), GetU16(order, data, 12),
                              GetU16(order, data, 14)))
  }

  // ---------------------------------------------------------------------
  // Names and dispatch

  /** The 13 event types, SCTP_SN_TYPE_BASE + 0 .. 12. */
  predicate IsNotificationType(t: uint16)
  {
    SCTP_DATA_IO_EVENT <= t <= SCTP_STREAM_CHANGE_EVENT
  }

  /** The canonical name of an event type; "" for any other value (a missing map key). */
  function NotificationName(t: uint16): (name: string)
    ensures name != "" <==> IsNotificationType(t)
    ensures IsNotificationType(t) ==> |name| > 5 && name[..5] == "SCTP_"
  {
    if t == SCTP_DATA_IO_EVENT then "SCTP_DATA_IO_EVENT"
    else if t == SCTP_ASSOC_CHANGE then "SCTP_ASSOC_CHANGE"
    else if t == SCTP_PEER_ADDR_CHANGE then "SCTP_PEER_ADDR_CHANGE"
    else if t == SCTP_SEND_FAILED then "SCTP_SEND_FAILED"
    else if t == SCTP_REMOTE_ERROR then "SCTP_REMOTE_ERROR"
    else if t == SCTP_SHUTDOWN_EVENT then "SCTP_SHUTDOWN_EVENT"
    else if t == SCTP_PARTIAL_DELIVERY_EVENT then "SCTP_PARTIAL_DELIVERY_EVENT"
    else if t == SCTP_ADAPTATION_INDICATION then "SCTP_ADAPTATION_INDICATION"
    else if t == SCTP_AUTHENTICATION_EVENT then "SCTP_AUTHENTICATION_EVENT"
    else if t == SCTP_SENDER_DRY_EVENT then "SCTP_SENDER_DRY_EVENT"
    else if t == SCTP_STREAM_RESET_EVENT then "SCTP_STREAM_RESET_EVENT"
    else if t == SCTP_ASSOC_RESET_EVENT then "SCTP_ASSOC_RESET_EVENT"
    else if t == SCTP_STREAM_CHANGE_EVENT then "SCTP_STREAM_CHANGE_EVENT"
    else ""
  }

  /** Different event types never share a name, so the table can be read backwards. */
  lemma NotificationNamesDistinct(t1: uint16, t2: uint16)
    requires IsNotificationType(t1) && IsNotificationType(t2) && t1 != t2
    ensures NotificationName(t1) != NotificationName(t2)
  {
  }

  /** The parser the dispatch table holds for type `t`. */
  function ParserFor(order: ByteOrder, t: uint16, data: bytes): (r: Result<Notification, NotificationError>)
    requires IsNotificationType(t)
    ensures r.Err? ==> r.error == TooSmall
    ensures r.Ok? ==> NotificationHeaderSize <= SizeOf(r.value) <= |data|
                      && TypeOf(r.value) == t && r.value.header == ReadHeader(order, data)
  {
    if t == SCTP_DATA_IO_EVENT then ParseDataIOEvent(order, data)
    else if t == SCTP_ASSOC_CHANGE then ParseAssocChangeEvent(order, data)
    else if t == SCTP_PEER_ADDR_CHANGE then ParsePeerAddrChangeEvent(order, data)
    else if t == SCTP_SEND_FAILED then ParseSendFailedEvent(order, data)
    else if t == SCTP_REMOTE_ERROR then ParseRemoteErrorEvent(order, data)
    else if t == SCTP_SHUTDOWN_EVENT then ParseShutdownEvent(order, data)
    else if t == SCTP_PARTIAL_DELIVERY_EVENT then ParsePartialDeliveryEvent(order, data)
    else if t == SCTP_ADAPTATION_INDICATION then ParseAdaptationIndicationEvent(order, data)
    else if t == SCTP_AUTHENTICATION_EVENT then ParseAuthenticationEvent(order, data)
    else if t == SCTP_SENDER_DRY_EVENT then ParseSenderDryEvent(order, data)
    else if t == SCTP_STREAM_RESET_EVENT then ParseStreamResetEvent(order, data)
    else if t == SCTP_ASSOC_RESET_EVENT then ParseAssocResetEvent(order, data)
    else ParseStreamChangeEvent(order, data)
  }

  /**
   * Both size checks run before the type is read; then the header type picks
   * one of the 13 parsers, and a parsed event is the one its type names, with
   * the buffer's own header.
   */
  function ParseNotification(order: ByteOrder, data: bytes): (r: Result<Notification, NotificationError>)
    ensures |data| < NotificationHeaderSize ==> r == Err(TooSmall)
    ensures |data| > NotificationSize ==> r == Err(TooLarge)
    ensures NotificationHeaderSize <= |data| <= NotificationSize ==>
      (r == Err(InvalidType) <==> NotificationName(GetU16(order, data, 0)) == "")
    ensures r.Ok? ==> (NotificationHeaderSize <= |data| <= NotificationSize
                       && TypeOf(r.value) == GetType(r.value) == GetU16(order, data, 0)
                       && GetFlags(r.value) == GetU16(order, data, 2)
                       && GetLength(r.value) == GetU32(order, data, 4)
                       && SizeOf(r.value) <= |data|)
  {
    if |data| < NotificationHeaderSize then Err(TooSmall)
    else if |data| > NotificationSize then Err(TooLarge)
    else
      var t := GetU16(order, data, 0);
      if IsNotificationType(t) then ParserFor(order, t, data) else Err(InvalidType)
  }

  // ---------------------------------------------------------------------
  // Round trip: an event laid out by the kernel, followed by any slack
  // that keeps it within the union, parses back to the same event.

  lemma HeaderRoundTrip(order: ByteOrder, h: Header, rest: bytes)
    ensures |PackHeader(order, h) + rest| >= NotificationHeaderSize
    ensures ReadHeader(order, PackHeader(order, h) + rest) == h
  {
    var s := PackHeader(order, h) + rest;
    ReadU16(order, s, 0, h.typ);
    ReadU16(order, s, 2, h.flags);
    ReadU32(order, s, 4, h.length);
  }

  // One lemma per event: each field's slice of the buffer is the field's
  // own bytes, so each read gives the field back.

  lemma DataIoRoundTrip(order: ByteOrder, h: Header, pad: bytes)
    requires h.typ == SCTP_DATA_IO_EVENT
    ensures var n := DataIo(h);
      && ParseDataIOEvent(order, PackNotification(order, n) + pad) == Ok(n)
      && ParserFor(order, TypeOf(n), PackNotification(order, n) + pad) == Ok(n)
  {
    HeaderRoundTrip(order, h, pad);
  }

  lemma AssocChangeRoundTrip(order: ByteOrder, h: Header, st: uint16, err: uint16, o: uint16, i: uint16, a: int32, pad: bytes)
    requires h.typ == SCTP_ASSOC_CHANGE
    ensures var n := AssocChange(h, st, err, o, i, a);
      && ParseAssocChangeEvent(order, PackNotification(order, n) + pad) == Ok(n)
      && ParserFor(order, TypeOf(n), PackNotification(order, n) + pad) == Ok(n)
  {
    var s := PackNotification(order, AssocChange(h, st, err, o, i, a)) + pad;
    HeaderRoundTrip(order, h, s[8..]);
    assert s == PackHeader(order, h) + s[8..];
    assert s[8..10] == PutU16(order, st);
    assert s[10..12] == PutU16(order, err);
    assert s[12..14] == PutU16(order, o);
    assert s[14..16] == PutU16(order, i);
    assert s[16..20] == PutI32(order, a);
    ReadU16(order, s, 8, st);
    ReadU16(order, s, 10, err);
    ReadU16(order, s, 12, o);
    ReadU16(order, s, 14, i);
    ReadI32(order, s, 16, a);
  }

  lemma PAddrChangeRoundTrip(order: ByteOrder, h: Header, addr: bytes, st: int32, err: int32, a: int32, pad: bytes)
    requires h.typ == SCTP_PEER_ADDR_CHANGE && |addr| == SockAddrStorageSize
    ensures var n := PAddrChange(h, addr, st, err, a);
      && ParsePeerAddrChangeEvent(order, PackNotification(order, n) + pad) == Ok(n)
      && ParserFor(order, TypeOf(n), PackNotification(order, n) + pad) == Ok(n)
  {
    var s := PackNotification(order, PAddrChange(h, addr, st, err, a)) + pad;
    HeaderRoundTrip(order, h, s[8..]);
    assert s == PackHeader(order, h) + s[8..];
    assert s[8..136] == addr;
    assert s[136..140] == PutI32(order, st);
    assert s[140..144] == PutI32(order, err);
    assert s[144..148] == PutI32(order, a);
    ReadI32(order, s, 136, st);
    ReadI32(order, s, 140, err);
    ReadI32(order, s, 144, a);
  }

  /** The send-failed layout: header, error word, the 32-byte SndRcvInfo at 12, association id at 44. */
  lemma SendFailedFields(order: ByteOrder, h: Header, err: uint32, info: SndRcvInfo, a: int32, pad: bytes)
    ensures var s := PackHeader(order, h) + PutU32(order, err) + PackSndRcvInfo(order, info) + PutI32(order, a) + pad;
      && |s| >= SendFailedSize
      && ReadHeader(order, s) == h && GetU32(order, s, 8) == err
      && UnpackSndRcvInfo(order, s, 12) == info && GetI32(order, s, 44) == a
  {
    var pre := PackHeader(order, h) + PutU32(order, err);
    var post := PutI32(order, a) + pad;
    var s := pre + PackSndRcvInfo(order, info) + PutI32(order, a) + pad;
    assert ReadHeader(order, s) == h && GetU32(order, s, 8) == err && GetI32(order, s, 44) == a by {
      HeaderRoundTrip(order, h, s[8..]);
      assert s == PackHeader(order, h) + s[8..];
      assert s[8..12] == PutU32(order, err);
      assert s[44..48] == PutI32(order, a);
      ReadU32(order, s, 8, err);
      ReadI32(order, s, 44, a);
    }
    assert UnpackSndRcvInfo(order, s, 12) == info by {
      assert s == pre + PackSndRcvInfo(order, info) + post;
      SndRcvInfoRoundTrip(order, info, pre, post);
    }
  }

  lemma SendFailedRoundTrip(order: ByteOrder, h: Header, err: uint32, info: SndRcvInfo, a: int32, pad: bytes)
    requires h.typ == SCTP_SEND_FAILED
    ensures var n := SendFailed(h, err, info, a);
      && ParseSendFailedEvent(order, PackNotification(order, n) + pad) == Ok(n)
      && ParserFor(order, TypeOf(n), PackNotification(order, n) + pad) == Ok(n)
  {
    var n := SendFailed(h, err, info, a);
    var s := PackHeader(order, h) + PutU32(order, err) + PackSndRcvInfo(order, info) + PutI32(order, a) + pad;
    assert PackNotification(order, n) + pad == s;
    SendFailedFields(order, h, err, info, a, pad);
    assert ParseSendFailedEvent(order, s) == Ok(n);
  }

  lemma RemoteErrorRoundTrip(order: ByteOrder, h: Header, err: uint16, a: int32, pad: bytes)
    requires h.typ == SCTP_REMOTE_ERROR
    ensures var n := RemoteError(h, err, a);
      && ParseRemoteErrorEvent(order, PackNotification(order, n) + pad) == Ok(n)
      && ParserFor(order, TypeOf(n), PackNotification(order, n) + pad) == Ok(n)
  {
    var s := PackNotification(order, RemoteError(h, err, a)) + pad;
    HeaderRoundTrip(order, h, s[8..]);
    assert s == PackHeader(order, h) + s[8..];
    assert s[8..10] == PutU16(order, err);
    assert s[12..16] == PutI32(order, a);
    ReadU16(order, s, 8, err);
    ReadI32(order, s, 12, a);
  }

  /** The three events whose body is just the association id share one layout. */
  lemma AssocIdBody(order: ByteOrder, h: Header, a: int32, pad: bytes)
    ensures |PackHeader(order, h) + PutI32(order, a) + pad| >= 12
    ensures var s := PackHeader(order, h) + PutI32(order, a) + pad;
      ReadHeader(order, s) == h && GetI32(order, s, 8) == a
  {
    var s := PackHeader(order, h) + PutI32(order, a) + pad;
    HeaderRoundTrip(order, h, s[8..]);
    assert s == PackHeader(order, h) + s[8..];
    assert s[8..12] == PutI32(order, a);
    ReadI32(order, s, 8, a);
  }

  lemma ShutdownRoundTrip(order: ByteOrder, h: Header, a: int32, pad: bytes)
    requires h.typ == SCTP_SHUTDOWN_EVENT
    ensures var n := ShutdownEvent(h, a);
      && ParseShutdownEvent(order, PackNotification(order, n) + pad) == Ok(n)
      && ParserFor(order, TypeOf(n), PackNotification(order, n) + pad) == Ok(n)
  {
    AssocIdBody(order, h, a, pad);
  }

  lemma SenderDryRoundTrip(order: ByteOrder, h: Header, a: int32, pad: bytes)
    requires h.typ == SCTP_SENDER_DRY_EVENT
    ensures var n := SenderDryEvent(h, a);
      && ParseSenderDryEvent(order, PackNotification(order, n) + pad) == Ok(n)
      && ParserFor(order, TypeOf(n), PackNotification(order, n) + pad) == Ok(n)
  {
    AssocIdBody(order, h, a, pad);
  }

  lemma StreamResetRoundTrip(order: ByteOrder, h: Header, a: int32, pad: bytes)
    requires h.typ == SCTP_STREAM_RESET_EVENT
    ensures var n := StreamResetEvent(h, a);
      && ParseStreamResetEvent(order, PackNotification(order, n) + pad) == Ok(n)
      && ParserFor(order, TypeOf(n), PackNotification(order, n) + pad) == Ok(n)
  {
    AssocIdBody(order, h, a, pad);
  }

  lemma PDApiRoundTrip(order: ByteOrder, h: Header, ind: uint32, a: int32, st: uint32, sq: uint32, pad: bytes)
    requires h.typ == SCTP_PARTIAL_DELIVERY_EVENT
    ensures var n := PDApiEvent(h, ind, a, st, sq);
      && ParsePartialDeliveryEvent(order, PackNotification(order, n) + pad) == Ok(n)
      && ParserFor(order, TypeOf(n), PackNotification(order, n) + pad) == Ok(n)
  {
    var s := PackNotification(order, PDApiEvent(h, ind, a, st, sq)) + pad;
    HeaderRoundTrip(order, h, s[8..]);
    assert s == PackHeader(order, h) + s[8..];
    assert s[8..12] == PutU32(order, ind);
    assert s[12..16] == PutI32(order, a);
    assert s[16..20] == PutU32(order, st);
    assert s[20..24] == PutU32(order, sq);
    ReadU32(order, s, 8, ind);
    ReadI32(order, s, 12, a);
    ReadU32(order, s, 16, st);
    ReadU32(order, s, 20, sq);
  }

  lemma AdaptationRoundTrip(order: ByteOrder, h: Header, ind: uint32, a: int32, pad: bytes)
    requires h.typ == SCTP_ADAPTATION_INDICATION
    ensures var n := AdaptationEvent(h, ind, a);
      && ParseAdaptationIndicationEvent(order, PackNotification(order, n) + pad) == Ok(n)
      && ParserFor(order, TypeOf(n), PackNotification(order, n) + pad) == Ok(n)
  {
    var s := PackNotification(order, AdaptationEvent(h, ind, a)) + pad;
    HeaderRoundTrip(order, h, s[8..]);
    assert s == PackHeader(order, h) + s[8..];
    assert s[8..12] == PutU32(order, ind);
    assert s[12..16] == PutI32(order, a);
    ReadU32(order, s, 8, ind);
    ReadI32(order, s, 12, a);
  }

  lemma AuthKeyRoundTrip(order: ByteOrder, h: Header, k: uint16, alt: uint16, ind: uint32, a: int32, pad: bytes)
    requires h.typ == SCTP_AUTHENTICATION_EVENT
    ensures var n := AuthKeyEvent(h, k, alt, ind, a);
      && ParseAuthenticationEvent(order, PackNotification(order, n) + pad) == Ok(n)
      && ParserFor(order, TypeOf(n), PackNotification(order, n) + pad) == Ok(n)
  {
    var s := PackNotification(order, AuthKeyEvent(h, k, alt, ind, a)) + pad;
    HeaderRoundTrip(order, h, s[8..]);
    assert s == PackHeader(order, h) + s[8..];
    assert s[8..10] == PutU16(order, k);
    assert s[10..12] == PutU16(order, alt);
    assert s[12..16] == PutU32(order, ind);
    assert s[16..20] == PutI32(order, a);
    ReadU16(order, s, 8, k);
    ReadU16(order, s, 10, alt);
    ReadU32(order, s, 12, ind);
    ReadI32(order, s, 16, a);
  }

  lemma AssocResetRoundTrip(order: ByteOrder, h: Header, a: int32, l: uint32, r: uint32, pad: bytes)
    requires h.typ == SCTP_ASSOC_RESET_EVENT
    ensures var n := AssocResetEvent(h, a, l, r);
      && ParseAssocResetEvent(order, PackNotification(order, n) + pad) == Ok(n)
      && ParserFor(order, TypeOf(n), PackNotification(order, n) + pad) == Ok(n)
  {
    var s := PackNotification(order, AssocResetEvent(h, a, l, r)) + pad;
    HeaderRoundTrip(order, h, s[8..]);
    assert s == PackHeader(order, h) + s[8..];
    assert s[8..12] == PutI32(order, a);
    assert s[12..16] == PutU32(order, l);
    assert s[16..20] == PutU32(order, r);
    ReadI32(order, s, 8, a);
    ReadU32(order, s, 12, l);
    ReadU32(order, s, 16, r);
  }

  lemma StreamChangeRoundTrip(order: ByteOrder, h: Header, a: int32, i: uint16, o: uint16, pad: bytes)
    requires h.typ == SCTP_STREAM_CHANGE_EVENT
    ensures var n := StreamChangeEvent(h, a, i, o);
      && ParseStreamChangeEvent(order, PackNotification(order, n) + pad) == Ok(n)
      && ParserFor(order, TypeOf(n), PackNotification(order, n) + pad) == Ok(n)
  {
    var s := PackNotification(order, StreamChangeEvent(h, a, i, o)) + pad;
    HeaderRoundTrip(order, h, s[8..]);
    assert s == PackHeader(order, h) + s[8..];
    assert s[8..12] == PutI32(order, a);
    assert s[12..14] == PutU16(order, i);
    assert s[14..16] == PutU16(order, o);
    ReadI32(order, s, 8, a);
    ReadU16(order, s, 12, i);
    ReadU16(order, s, 14, o);
  }

  /** Within the size bounds, a buffer whose header carries one of the 13 types goes to that type's parser. */
  lemma ParseNotificationDispatch(order: ByteOrder, data: bytes)
    requires NotificationHeaderSize <= |data| <= NotificationSize
    requires IsNotificationType(GetU16(order, data, 0))
    ensures ParseNotification(order, data) == ParserFor(order, GetU16(order, data, 0), data)
  {
  }

  lemma TypeFieldRoundTrip(order: ByteOrder, n: Notification, pad: bytes)
    requires WellFormed(n)
    ensures |PackNotification(order, n) + pad| >= NotificationHeaderSize
    ensures GetU16(order, PackNotification(order, n) + pad, 0) == TypeOf(n)
  {
    var s := PackNotification(order, n) + pad;
    assert s == PackHeader(order, n.header) + s[8..];
    HeaderRoundTrip(order, n.header, s[8..]);
  }

  /** The parser for an event's own type reads back what the kernel wrote for it. */
  lemma ParserForRoundTrip(order: ByteOrder, n: Notification, pad: bytes)
    requires WellFormed(n)
    ensures IsNotificationType(TypeOf(n))
    ensures ParserFor(order, TypeOf(n), PackNotification(order, n) + pad) == Ok(n)
  {
    match n
    case DataIo(h) => DataIoRoundTrip(order, h, pad);
    case AssocChange(h, st, err, o, i, a) => AssocChangeRoundTrip(order, h, st, err, o, i, a, pad);
    case PAddrChange(h, addr, st, err, a) => PAddrChangeRoundTrip(order, h, addr, st, err, a, pad);
    case SendFailed(h, err, info, a) => SendFailedRoundTrip(order, h, err, info, a, pad);
    case RemoteError(h, err, a) => RemoteErrorRoundTrip(order, h, err, a, pad);
    case ShutdownEvent(h, a) => ShutdownRoundTrip(order, h, a, pad);
    case PDApiEvent(h, ind, a, st, sq) => PDApiRoundTrip(order, h, ind, a, st, sq, pad);
    case AdaptationEvent(h, ind, a) => AdaptationRoundTrip(order, h, ind, a, pad);
    case AuthKeyEvent(h, k, alt, ind, a) => AuthKeyRoundTrip(order, h, k, alt, ind, a, pad);
    case SenderDryEvent(h, a) => SenderDryRoundTrip(order, h, a, pad);
    case StreamResetEvent(h, a) => StreamResetRoundTrip(order, h, a, pad);
    case AssocResetEvent(h, a, l, r) => AssocResetRoundTrip(order, h, a, l, r, pad);
    case StreamChangeEvent(h, a, i, o) => StreamChangeRoundTrip(order, h, a, i, o, pad);
  }

  /** Parsing what the kernel wrote for an event, plus slack up to the union size, gives that event back. */
  lemma ParseNotificationRoundTrip(order: ByteOrder, n: Notification, pad: bytes)
    requires WellFormed(n)
    requires SizeOf(n) + |pad| <= NotificationSize
    ensures ParseNotification(order, PackNotification(order, n) + pad) == Ok(n)
  {
    var s := PackNotification(order, n) + pad;
    TypeFieldRoundTrip(order, n, pad);
    ParserForRoundTrip(order, n, pad);
    ParseNotificationDispatch(order, s);
  }
}
