/**
 * The thin layer over the SCTP socket options: creating and binding a
 * socket, the connect call with its legacy fallback, sending a message with
 * ancillary data, and reading the send/receive info out of received
 * ancillary data. Every kernel interaction goes through a `Kernel`.
 */
module Sctp {
  import opened Base
  import opened Wire
  import opened Structs
  import opened Addr
  import opened Syscall

  const IPPROTO_SCTP: int := 132
  const SOL_SCTP: int := 132

  // socket options at level SOL_SCTP
  const SCTP_INITMSG: int := 2
  const SCTP_DEFAULT_SEND_PARAM: int := 10
  const SCTP_EVENTS: int := 11
  const SCTP_SOCKOPT_BINDX_ADD: int := 100
  const SCTP_SOCKOPT_BINDX_REM: int := 101
  const SCTP_SOCKOPT_PEELOFF: int := 102
  const SCTP_SOCKOPT_CONNECTX: int := 110
  const SCTP_SOCKOPT_CONNECTX3: int := 111
  const SCTP_SOCKOPT_PEELOFF_FLAGS: int := 122

  // SCTPBind flags
  const SCTP_BINDX_ADD_ADDR: int := 1
  const SCTP_BINDX_REM_ADDR: int := 2

  // the cmsg type of sctp_sndrcvinfo, and send/receive flags
  const SCTP_SNDRCV: int := 1
  const SCTP_ABORT: uint16 := 4
  const SCTP_EOF: uint16 := 0x200
  const SCTP_MSG_NOTIFICATION: int := 0x8000

  /** The optlen SCTPConnect passes: the size of the Go SCTPAddr struct (a slice and an int). */
  const SCTPAddrStructSize: int := 32

  // ---------------------------------------------------------------------
  // Address family

  predicate EndsWith4(network: string)
  {
    |network| > 0 && network[|network| - 1] == '4'
  }

  /** AddrFamily (and DetectAddrFamily, its twin): IPv4 for a network ending in "4", IPv6 otherwise. */
  function AddrFamily(network: string): (f: int)
    ensures f == AF_INET as int || f == AF_INET6 as int
    ensures f == AF_INET as int <==> EndsWith4(network)
  {
    if EndsWith4(network) then AF_INET as int else AF_INET6 as int
  }

  /** Of the three SCTP networks only "sctp4" selects IPv4. */
  lemma FamilyOfNetwork(net: Network)
    ensures AddrFamily(NetworkName(net)) == if net == Sctp4 then AF_INET as int else AF_INET6 as int
  {
    match net
    case Sctp => assert NetworkName(net)[3] == 'p';
    case Sctp4 => assert NetworkName(net)[4] == '4';
    case Sctp6 => assert NetworkName(net)[4] == '6';
  }

  // ---------------------------------------------------------------------
  // SCTPSocket, SCTPBind

  /** A socket of the given type, IPv4 when asked for AF_INET and IPv6 for every other family. */
  method SCTPSocket(k: Kernel, family: int, flag: int) returns (fd: int, err: Option<Error>)
    modifies k
    ensures var c := Socket(if family == AF_INET as int then AF_INET as int else AF_INET6 as int, flag, IPPROTO_SCTP);
            var r := k.answer(old(k.trace), c);
            k.trace == old(k.trace) + [c] && fd == Ret(r) && err == ErrOf(r)
  {
    var r;
    if family == AF_INET as int {
      r := k.Invoke(Socket(AF_INET as int, flag, IPPROTO_SCTP));
    } else {
      r := k.Invoke(Socket(AF_INET6 as int, flag, IPPROTO_SCTP));
    }
    fd, err := Ret(r), ErrOf(r);
  }

  /** The option code for a bind flag: add or remove; any other flag has none. */
  function BindOption(flags: int): (o: Option<int>)
    ensures o.Some? <==> flags == SCTP_BINDX_ADD_ADDR || flags == SCTP_BINDX_REM_ADDR
    ensures flags == SCTP_BINDX_ADD_ADDR ==> o == Some(SCTP_SOCKOPT_BINDX_ADD)
    ensures flags == SCTP_BINDX_REM_ADDR ==> o == Some(SCTP_SOCKOPT_BINDX_REM)
  {
    if flags == SCTP_BINDX_ADD_ADDR then Some(SCTP_SOCKOPT_BINDX_ADD)
    else if flags == SCTP_BINDX_REM_ADDR then Some(SCTP_SOCKOPT_BINDX_REM)
    else None
  }

  /** An address holds a valid IP, i.e. packs into at least one record. */
  predicate HasValidAddress(addr: SCTPAddr)
  {
    exists i :: 0 <= i < |addr.addresses| && To16(addr.addresses[i]).Some?
  }

  /** The packed records are empty exactly when no address is a valid IP. */
  lemma {:induction false} NoRecordsIffNoValidAddress(order: ByteOrder, addresses: seq<IP>, port: int)
    ensures SockaddrBytes(order, addresses, port) == [] <==> forall i :: 0 <= i < |addresses| ==> To16(addresses[i]).None?
  {
    SockaddrBytesLength(order, addresses, port);
    if addresses != [] {
      NoRecordsIffNoValidAddress(order, addresses[1..], port);
      SockaddrBytesLength(order, addresses[1..], port);
      if To4(addresses[0]).Some? {
        To4To16(addresses[0]);
      }
      assert forall i :: 1 <= i < |addresses| ==> addresses[i] == addresses[1..][i - 1];
    }
  }

  /**
   * What a step made of several calls comes to: the calls it issued, up to
   * the first failure, and the value and error it returns.
   */
  datatype Outcome = Outcome(calls: seq<Call>, value: int, err: Option<Error>)

  /** No call in `cs` closes a descriptor. */
  predicate ClosesNothing(cs: seq<Call>)
  {
    forall i :: 0 <= i < |cs| ==> !cs[i].Close?
  }

  lemma ClosesNothingConcat(a: seq<Call>, b: seq<Call>)
    requires ClosesNothing(a) && ClosesNothing(b)
    ensures ClosesNothing(a + b)
  {
    forall i | 0 <= i < |a + b|
      ensures !(a + b)[i].Close?
    {
      if i >= |a| {
        assert (a + b)[i] == b[i - |a|];
      }
    }
  }

  /** The setsockopt SCTPBind issues to add the addresses of `addr` to `sock`. */
  function BindAddCall(order: ByteOrder, sock: int, addr: SCTPAddr): Call
  {
    SetSockOpt(sock, SOL_SCTP, SCTP_SOCKOPT_BINDX_ADD, Some(SockaddrBytes(order, addr.addresses, addr.port)))
  }

  /** SCTPBind as an outcome: no call and EINVAL for an unknown flag or no valid address, else one setsockopt. */
  function BindOutcome(answer: (seq<Call>, Call) -> Reply, order: ByteOrder, t: seq<Call>, sock: int, addr: SCTPAddr, flags: int): Outcome
  {
    var option := BindOption(flags);
    if option.None? || !HasValidAddress(addr) then Outcome([], 0, Some(Errno(EINVAL)))
    else
      var c := SetSockOpt(sock, SOL_SCTP, option.value, Some(SockaddrBytes(order, addr.addresses, addr.port)));
      Outcome([c], 0, ErrOf(answer(t, c)))
  }

  /**
   * SCTPBind issues at most one call, a setsockopt on `sock`, exactly when
   * the flag is known and some address is valid, and returns its error;
   * otherwise EINVAL. With the add flag that call is the add-address one.
   */
  lemma BindOutcomeFacts(answer: (seq<Call>, Call) -> Reply, order: ByteOrder, t: seq<Call>, sock: int, addr: SCTPAddr, flags: int)
    ensures var o := BindOutcome(answer, order, t, sock, addr, flags);
            && o.value == 0 && |o.calls| <= 1 && ClosesNothing(o.calls)
            && (o.calls != [] <==> BindOption(flags).Some? && HasValidAddress(addr))
            && (o.calls == [] ==> o.err == Some(Errno(EINVAL)))
            && (o.calls != [] ==> o.calls[0].SetSockOpt? && o.calls[0].fd == sock && o.err == ErrOf(answer(t, o.calls[0])))
            && (flags == SCTP_BINDX_ADD_ADDR && o.calls != [] ==> o.calls == [BindAddCall(order, sock, addr)])
  {
  }

  /**
   * SCTPBind: an unknown flag, or an address without a valid IP, is EINVAL
   * before any call; otherwise one setsockopt with the packed records.
   */
  method SCTPBind(k: Kernel, sock: int, addr: SCTPAddr, flags: int) returns (err: Option<Error>)
    modifies k
    ensures BindOption(flags).None? ==> err == Some(Errno(EINVAL)) && k.trace == old(k.trace)
    ensures BindOption(flags).Some? && !HasValidAddress(addr) ==> err == Some(Errno(EINVAL)) && k.trace == old(k.trace)
    ensures BindOption(flags).Some? && HasValidAddress(addr) ==>
              var c := SetSockOpt(sock, SOL_SCTP, BindOption(flags).value, Some(SockaddrBytes(k.order, addr.addresses, addr.port)));
              k.trace == old(k.trace) + [c] && err == ErrOf(k.answer(old(k.trace), c))
    ensures var o := BindOutcome(k.answer, k.order, old(k.trace), sock, addr, flags);
            k.trace == old(k.trace) + o.calls && err == o.err
  {
    var option := BindOption(flags);
    if option.None? {
      return Some(Errno(EINVAL));
    }
    var buffer := MakeSockaddr(k.order, addr);
    NoRecordsIffNoValidAddress(k.order, addr.addresses, addr.port);
    if |buffer| == 0 {
      return Some(Errno(EINVAL));
    }
    var r := k.Invoke(SetSockOpt(sock, SOL_SCTP, option.value, Some(buffer)));
    err := ErrOf(r);
  }

  // ---------------------------------------------------------------------
  // SCTPConnect

  /** The legacy sctp_getaddrs_old record CONNECTX3 takes: AssocId 0 and Num = the byte length of the records. */
  function ConnectArg(order: ByteOrder, buffer: bytes): (arg: bytes)
    ensures |arg| == GetAddrsSize
    ensures |buffer| < 0x8000_0000 ==> GetI32(order, arg, 0) == 0 && GetI32(order, arg, 4) == |buffer|
  {
    var arg := PutI32(order, 0) + PutI32(order, WrapInt32(|buffer|));
    GetPutI32(order, 0, [], PutI32(order, WrapInt32(|buffer|)));
    GetPutI32(order, WrapInt32(|buffer|), PutI32(order, 0), []);
    assert PutI32(order, 0) + PutI32(order, WrapInt32(|buffer|)) + [] == arg;
    arg
  }

  function ConnectX3Call(order: ByteOrder, sock: int, buffer: bytes): Call
  {
    GetSockOpt(sock, IPPROTO_SCTP, SCTP_SOCKOPT_CONNECTX3, ConnectArg(order, buffer), buffer, SCTPAddrStructSize)
  }

  function ConnectXCall(sock: int, buffer: bytes): Call
  {
    SetSockOpt(sock, IPPROTO_SCTP, SCTP_SOCKOPT_CONNECTX, Some(buffer))
  }

  /** The association id CONNECTX3 leaves in its record. */
  function WrittenAssoc(order: ByteOrder, buffer: bytes, r: Reply): int32
  {
    GetI32(order, WrittenBack(ConnectArg(order, buffer), r), 0)
  }

  /**
   * SCTPConnect as an outcome: no call and EINVAL without a valid address;
   * otherwise CONNECTX3, and CONNECTX after it only when CONNECTX3 reports
   * ENOPROTOOPT. A failure returns association id 0 and the errno of the
   * last call.
   */
  function ConnectOutcome(answer: (seq<Call>, Call) -> Reply, order: ByteOrder, t: seq<Call>, sock: int, addr: SCTPAddr): Outcome
  {
    if !HasValidAddress(addr) then Outcome([], 0, Some(Errno(EINVAL)))
    else
      var buffer := SockaddrBytes(order, addr.addresses, addr.port);
      var first := answer(t, ConnectX3Call(order, sock, buffer));
      if first.errno == 0 || first.errno == EINPROGRESS then
        Outcome([ConnectX3Call(order, sock, buffer)], WrittenAssoc(order, buffer, first), None)
      else if first.errno != ENOPROTOOPT then
        Outcome([ConnectX3Call(order, sock, buffer)], 0, Some(Errno(first.errno)))
      else
        var second := answer(t + [ConnectX3Call(order, sock, buffer)], ConnectXCall(sock, buffer));
        if second.errno != 0 then Outcome([ConnectX3Call(order, sock, buffer), ConnectXCall(sock, buffer)], 0, Some(Errno(second.errno)))
        else Outcome([ConnectX3Call(order, sock, buffer), ConnectXCall(sock, buffer)], second.ret, None)
  }

  /**
   * SCTPConnect closes nothing; it issues no call exactly when no address is
   * valid, and then fails with EINVAL; otherwise it starts with CONNECTX3
   * and adds CONNECTX exactly when CONNECTX3 reports ENOPROTOOPT; a failure
   * after a call is association id 0 and the error of the last call.
   */
  lemma ConnectOutcomeFacts(answer: (seq<Call>, Call) -> Reply, order: ByteOrder, t: seq<Call>, sock: int, addr: SCTPAddr)
    ensures var o := ConnectOutcome(answer, order, t, sock, addr);
            && |o.calls| <= 2 && ClosesNothing(o.calls)
            && (o.calls == [] <==> !HasValidAddress(addr))
            && (o.calls == [] ==> o.err == Some(Errno(EINVAL)) && o.value == 0)
            && (o.calls != [] ==> o.calls[0] == ConnectX3Call(order, sock, SockaddrBytes(order, addr.addresses, addr.port)))
            && (o.calls != [] && o.err.Some? ==>
                  o.value == 0 && o.err == ErrOf(answer(t + o.calls[..|o.calls| - 1], o.calls[|o.calls| - 1])))
            && (|o.calls| == 2 <==> o.calls != [] && answer(t, o.calls[0]).errno == ENOPROTOOPT)
  {
    if HasValidAddress(addr) {
      var c := ConnectX3Call(order, sock, SockaddrBytes(order, addr.addresses, addr.port));
      assert t + [c][..0] == t;
      assert [c, ConnectXCall(sock, SockaddrBytes(order, addr.addresses, addr.port))][..1] == [c];
    }
  }

  /**
   * SCTPConnect: EINVAL without a call when no address is valid; CONNECTX3
   * success or EINPROGRESS yields the id it wrote back; ENOPROTOOPT falls
   * back to CONNECTX, whose value or error is the answer; any other errno is
   * returned as it is.
   */
  method SCTPConnect(k: Kernel, sock: int, addr: SCTPAddr) returns (assoc: int, err: Option<Error>)
    modifies k
    ensures !HasValidAddress(addr) ==> assoc == 0 && err == Some(Errno(EINVAL)) && k.trace == old(k.trace)
    ensures HasValidAddress(addr) ==>
              var buffer := SockaddrBytes(k.order, addr.addresses, addr.port);
              var first := k.answer(old(k.trace), ConnectX3Call(k.order, sock, buffer));
              var second := k.answer(old(k.trace) + [ConnectX3Call(k.order, sock, buffer)], ConnectXCall(sock, buffer));
              && (first.errno == 0 || first.errno == EINPROGRESS ==>
                    k.trace == old(k.trace) + [ConnectX3Call(k.order, sock, buffer)]
                    && assoc == WrittenAssoc(k.order, buffer, first) && err == None)
              && (first.errno != 0 && first.errno != EINPROGRESS && first.errno != ENOPROTOOPT ==>
                    k.trace == old(k.trace) + [ConnectX3Call(k.order, sock, buffer)]
                    && assoc == 0 && err == Some(Errno(first.errno)))
              && (first.errno == ENOPROTOOPT ==>
                    k.trace == old(k.trace) + [ConnectX3Call(k.order, sock, buffer), ConnectXCall(sock, buffer)]
                    && (second.errno != 0 ==> assoc == 0 && err == Some(Errno(second.errno)))
                    && (second.errno == 0 ==> assoc == second.ret && err == None))
    ensures var o := ConnectOutcome(k.answer, k.order, old(k.trace), sock, addr);
            k.trace == old(k.trace) + o.calls && assoc == o.value && err == o.err
  {
    var buffer := MakeSockaddr(k.order, addr);
    NoRecordsIffNoValidAddress(k.order, addr.addresses, addr.port);
    if |buffer| == 0 {
      return 0, Some(Errno(EINVAL));
    }
    var r := k.Invoke(ConnectX3Call(k.order, sock, buffer));
    if r.errno == 0 || r.errno == EINPROGRESS {
      return WrittenAssoc(k.order, buffer, r), None;
    }
    if r.errno != ENOPROTOOPT {
      return 0, Some(Errno(r.errno));
    }
    var fallback := k.Invoke(ConnectXCall(sock, buffer));
    if fallback.errno != 0 {
      return 0, Some(Errno(fallback.errno));
    }
    return Ret(fallback), None;
  }

  // ---------------------------------------------------------------------
  // SCTPSendMsg

  /**
   * The value SCTPSendMsg reports for a kernel answer: 0 on failure, 0 for a
   * control-only message, the kernel's byte count otherwise.
   */
  function SentCount(data: bytes, control: bytes, r: Reply): (n: int)
    ensures r.errno != 0 ==> n == 0
    ensures r.errno == 0 && |control| > 0 && |data| == 0 ==> n == 0
    ensures r.errno == 0 && (|control| == 0 || |data| > 0) ==> n == r.ret
  {
    if r.errno != 0 then 0
    else if |control| > 0 && |data| == 0 then 0
    else r.ret
  }

  /** One sendmsg call with no destination address. */
  method SCTPSendMsg(k: Kernel, sock: int, data: bytes, control: bytes, flags: int) returns (n: int, err: Option<Error>)
    modifies k
    ensures var c := SendMsg(sock, data, control, flags);
            var r := k.answer(old(k.trace), c);
            k.trace == old(k.trace) + [c] && n == SentCount(data, control, r) && err == ErrOf(r)
  {
    var r := k.Invoke(SendMsg(sock, data, control, flags));
    if r.errno != 0 {
      return 0, Some(Errno(r.errno));
    }
    if |control| > 0 && |data| == 0 {
      return 0, None;
    }
    return Ret(r), None;
  }

  // ---------------------------------------------------------------------
  // Send/receive info in ancillary data

  /** The header SendMsg puts before a packed sctp_sndrcvinfo: its length is CmsgSpace(32) = 48. */
  const SndRcvHeader: Cmsghdr := Cmsghdr(48, IPPROTO_SCTP, SCTP_SNDRCV)

  /** The ancillary data carrying `info`: the cmsghdr, then the packed info. */
  function SndRcvControl(order: ByteOrder, info: SndRcvInfo): (b: bytes)
    ensures SndRcvHeader.len == CmsgSpace(SndRcvInfoSize) == |b|
  {
    assert CmsgAlign(SndRcvInfoSize) == 32;
    PackCmsghdr(order, SndRcvHeader) + PackSndRcvInfo(order, info)
  }

  /** The control bytes start with the SCTP_SNDRCV header and carry the packed info behind it. */
  lemma SndRcvControlLayout(order: ByteOrder, info: SndRcvInfo)
    ensures UnpackCmsghdr(order, SndRcvControl(order, info), 0) == SndRcvHeader
    ensures SndRcvControl(order, info)[CmsghdrSize..] == PackSndRcvInfo(order, info)
  {
    var h, p := PackCmsghdr(order, SndRcvHeader), PackSndRcvInfo(order, info);
    CmsghdrRoundTrip(order, SndRcvHeader, [], p);
    assert [] + h == h;
    assert (h + p)[|h|..] == p;
  }

  predicate IsSndRcv(m: ControlMessage)
  {
    m.header.level == IPPROTO_SCTP && m.header.typ == SCTP_SNDRCV
  }

  /** The source casts the payload without a length check; the model asks for a whole record. */
  predicate SndRcvPayloadsFit(order: ByteOrder, data: bytes)
  {
    ParseSocketControlMessage(order, data).Ok? ==>
      forall m :: m in ParseSocketControlMessage(order, data).value && IsSndRcv(m) ==> |m.data| >= SndRcvInfoSize
  }

  /** The position of the first SCTP_SNDRCV message, |ms| when there is none. */
  function FirstSndRcvIndex(ms: seq<ControlMessage>): (i: nat)
    ensures i <= |ms|
    ensures forall j :: 0 <= j < i ==> !IsSndRcv(ms[j])
    ensures i < |ms| ==> IsSndRcv(ms[i])
  {
    if ms == [] || IsSndRcv(ms[0]) then 0 else 1 + FirstSndRcvIndex(ms[1..])
  }

  /** The info in the first SCTP_SNDRCV message, if any. */
  function FirstSndRcv(order: ByteOrder, ms: seq<ControlMessage>): (r: Option<SndRcvInfo>)
    requires forall m :: m in ms && IsSndRcv(m) ==> |m.data| >= SndRcvInfoSize
    ensures r.None? <==> forall m :: m in ms ==> !IsSndRcv(m)
  {
    var i := FirstSndRcvIndex(ms);
    if i < |ms| then Some(UnpackSndRcvInfo(order, ms[i].data, 0)) else None
  }

  /**
   * What `*info` holds after ParseSndRcvInfo: unchanged for a nil pointer,
   * empty data, data that does not parse or no SCTP_SNDRCV message;
   * otherwise the first such message's record.
   */
  function SndRcvInfoAfter(order: ByteOrder, info: Option<SndRcvInfo>, data: bytes): (r: Option<SndRcvInfo>)
    requires SndRcvPayloadsFit(order, data)
    ensures info.None? ==> r.None?
    ensures |data| == 0 || ParseSocketControlMessage(order, data).Err? ==> r == info
  {
    if info.None? || |data| == 0 then info
    else match ParseSocketControlMessage(order, data)
      case Err(_) => info
      case Ok(ms) => if FirstSndRcv(order, ms).Some? then FirstSndRcv(order, ms) else info
  }

  /** The loop of ParseSndRcvInfo: the first SCTP_SNDRCV message's record, found front to back. */
  method FindSndRcv(order: ByteOrder, messages: seq<ControlMessage>) returns (found: Option<SndRcvInfo>)
    requires forall m :: m in messages && IsSndRcv(m) ==> |m.data| >= SndRcvInfoSize
    ensures found == FirstSndRcv(order, messages)
  {
    for i := 0 to |messages|
      invariant forall j :: 0 <= j < i ==> !IsSndRcv(messages[j])
    {
      if IsSndRcv(messages[i]) {
        assert FirstSndRcvIndex(messages) == i;
        return Some(UnpackSndRcvInfo(order, messages[i].data, 0));
      }
    }
    assert FirstSndRcvIndex(messages) == |messages|;
    return None;
  }

  /** ParseSndRcvInfo: nothing to do for a nil pointer, empty or malformed data; else the first info found replaces `*info`. */
  method ParseSndRcvInfo(order: ByteOrder, info: Option<SndRcvInfo>, data: bytes) returns (out: Option<SndRcvInfo>)
    requires SndRcvPayloadsFit(order, data)
    ensures out == SndRcvInfoAfter(order, info, data)
  {
    out := info;
    if info.None? || |data| == 0 {
      return;
    }
    var parsed := ParseSocketControlMessage(order, data);
    if parsed.Err? {
      return;
    }
    var found := FindSndRcv(order, parsed.value);
    if found.Some? {
      out := found;
    }
  }

  /** The control bytes SendMsg builds parse back into exactly one message carrying the info. */
  lemma SndRcvControlParses(order: ByteOrder, info: SndRcvInfo)
    ensures ParseSocketControlMessage(order, SndRcvControl(order, info))
         == Ok([ControlMessage(SndRcvHeader, PackSndRcvInfo(order, info))])
  {
    var b := SndRcvControl(order, info);
    SndRcvControlLayout(order, info);
    assert b[CmsghdrSize..48] == PackSndRcvInfo(order, info);
    assert CmsgAlign(48) == 48;
    assert ParseSocketControlMessage(order, b[48..]) == Ok([]);
    var m := ControlMessage(SndRcvHeader, PackSndRcvInfo(order, info));
    assert [m] + [] == [m];
  }

  /** What a sender puts in ancillary data is what the receiver's ParseSndRcvInfo reads. */
  lemma SndRcvControlRoundTrip(order: ByteOrder, info: SndRcvInfo, before: SndRcvInfo)
    ensures SndRcvPayloadsFit(order, SndRcvControl(order, info))
    ensures SndRcvInfoAfter(order, Some(before), SndRcvControl(order, info)) == Some(info)
  {
    var m := ControlMessage(SndRcvHeader, PackSndRcvInfo(order, info));
    SndRcvControlParses(order, info);
    FirstSndRcvOfRecord(order, info);
    SingleMessage(order, SndRcvControl(order, info), m, Some(before));
  }

  /** Data that parses into a single whole SCTP_SNDRCV message yields that message's record. */
  lemma SingleMessage(order: ByteOrder, data: bytes, m: ControlMessage, before: Option<SndRcvInfo>)
    requires |data| > 0 && before.Some?
    requires ParseSocketControlMessage(order, data) == Ok([m])
    requires IsSndRcv(m) && |m.data| >= SndRcvInfoSize
    ensures SndRcvPayloadsFit(order, data)
    ensures SndRcvInfoAfter(order, before, data) == FirstSndRcv(order, [m])
  {
    assert forall x :: x in [m] ==> x == m;
  }

  lemma FirstSndRcvOfRecord(order: ByteOrder, info: SndRcvInfo)
    ensures FirstSndRcv(order, [ControlMessage(SndRcvHeader, PackSndRcvInfo(order, info))]) == Some(info)
  {
    var p := PackSndRcvInfo(order, info);
    var m := ControlMessage(SndRcvHeader, p);
    SndRcvInfoUnpackPack(order, info);
    assert FirstSndRcvIndex([m]) == 0;
    assert FirstSndRcv(order, [m]) == Some(UnpackSndRcvInfo(order, p, 0));
  }
}
