/**
 * The listening side: a one-to-many SCTP socket that accepts or peels off
 * associations, sends and receives on any of them, and is set up by
 * ListenSCTP. A listener never changes its descriptor (Close leaves it as
 * it was), so it is a value; every method refuses a descriptor that is not
 * positive with the error "invalid listener".
 */
module Listener {
  import opened Base
  import opened Wire
  import opened Structs
  import opened Addr
  import opened Syscall
  import opened Sctp
  import opened Conn

  const InvalidListener: Error := Failure("invalid listener")

  /** The info Abort sends: the abort flag and the association id. */
  function AbortInfo(assoc: int): (i: SndRcvInfo)
    ensures i.flags == SCTP_ABORT && i.assocId == WrapInt32(assoc)
  {
    NoSndRcvInfo.(flags := SCTP_ABORT, assocId := WrapInt32(assoc))
  }

  /** The info Disconnect sends: the EOF flag and the association id. */
  function DisconnectInfo(assoc: int): (i: SndRcvInfo)
    ensures i.flags == SCTP_EOF && i.assocId == WrapInt32(assoc)
  {
    NoSndRcvInfo.(flags := SCTP_EOF, assocId := WrapInt32(assoc))
  }

  /** The ancillary data Abort and Disconnect send reads back as their info, for the association they name. */
  lemma ShutdownInfoReadsBack(order: ByteOrder, assoc: int, before: SndRcvInfo)
    ensures SndRcvPayloadsFit(order, SndRcvControl(order, AbortInfo(assoc)))
    ensures SndRcvInfoAfter(order, Some(before), SndRcvControl(order, AbortInfo(assoc))) == Some(AbortInfo(assoc))
    ensures SndRcvPayloadsFit(order, SndRcvControl(order, DisconnectInfo(assoc)))
    ensures SndRcvInfoAfter(order, Some(before), SndRcvControl(order, DisconnectInfo(assoc))) == Some(DisconnectInfo(assoc))
  {
    SndRcvControlRoundTrip(order, AbortInfo(assoc), before);
    SndRcvControlRoundTrip(order, DisconnectInfo(assoc), before);
  }

  /** The flags a listener's receive passes to the kernel: the caller's word, 0 for nil. */
  function FlagsWord(flags: Option<int>): int
  {
    if flags.Some? then flags.value else 0
  }

  datatype SCTPListener = SCTPListener(sock: int)
  {
    /** The guard every method starts with. */
    predicate Valid()
    {
      sock > 0
    }

    /** Connect: SCTPConnect on the listener's socket. */
    method Connect(k: Kernel, remote: SCTPAddr) returns (assoc: int, err: Option<Error>)
      modifies k
      ensures !Valid() ==> assoc == 0 && err == Some(InvalidListener) && k.trace == old(k.trace)
      ensures Valid() && !HasValidAddress(remote) ==> assoc == 0 && err == Some(Errno(EINVAL)) && k.trace == old(k.trace)
      ensures Valid() && HasValidAddress(remote) ==>
                var buffer := SockaddrBytes(k.order, remote.addresses, remote.port);
                var first := k.answer(old(k.trace), ConnectX3Call(k.order, sock, buffer));
                var second := k.answer(old(k.trace) + [ConnectX3Call(k.order, sock, buffer)], ConnectXCall(sock, buffer));
                && (first.errno == 0 || first.errno == EINPROGRESS ==>
                      k.trace == old(k.trace) + [ConnectX3Call(k.order, sock, buffer)]
                      && assoc == WrittenAssoc(k.order, buffer, first) && err == None)
                && (first.errno != 0 && first.errno != EINPROGRESS && first.errno != ENOPROTOOPT ==>
                      k.trace == old(k.trace) + [ConnectX3Call(k.order, sock, buffer)]
                      && assoc == 0 && err == Some(Errno(first.errno)))
                && (first.errno == ENOPROTOOPT ==>
                      k.trace == old(k.trace) + [ConnectX3Call(k.order, sock, buffer), ConnectXCall(sock, buffer)]
                      && (second.errno != 0 ==> assoc == 0 && err == Some(Errno(second.errno)))
                      && (second.errno == 0 ==> assoc == second.ret && err == None))
    {
      if !Valid() {
        return 0, Some(InvalidListener);
      }
      assoc, err := SCTPConnect(k, sock, remote);
    }

    /** Abort: an empty message whose info carries SCTP_ABORT for the association. */
    method Abort(k: Kernel, assoc: int) returns (err: Option<Error>)
      modifies k
      ensures !Valid() ==> err == Some(InvalidListener) && k.trace == old(k.trace)
      ensures Valid() ==>
                var c := Syscall.SendMsg(sock, [], SndRcvControl(k.order, AbortInfo(assoc)), 0);
                k.trace == old(k.trace) + [c] && err == ErrOf(k.answer(old(k.trace), c))
    {
      if !Valid() {
        return Some(InvalidListener);
      }
      var _, e := SendMsg(k, [], Some(AbortInfo(assoc)));
      err := e;
    }

    /** Disconnect: an empty message whose info carries SCTP_EOF for the association. */
    method Disconnect(k: Kernel, assoc: int) returns (err: Option<Error>)
      modifies k
      ensures !Valid() ==> err == Some(InvalidListener) && k.trace == old(k.trace)
      ensures Valid() ==>
                var c := Syscall.SendMsg(sock, [], SndRcvControl(k.order, DisconnectInfo(assoc)), 0);
                k.trace == old(k.trace) + [c] && err == ErrOf(k.answer(old(k.trace), c))
    {
      if !Valid() {
        return Some(InvalidListener);
      }
      var _, e := SendMsg(k, [], Some(DisconnectInfo(assoc)));
      err := e;
    }

    /** PeelOff: SCTPPeelOff on the listener's socket. */
    method PeelOff(k: Kernel, assoc: int) returns (conn: SCTPConn?, err: Option<Error>)
      modifies k
      ensures !Valid() ==> conn == null && err == Some(InvalidListener) && k.trace == old(k.trace)
      ensures Valid() ==>
                var arg := PeelOffRecord(k.order, assoc);
                var c := GetSockOpt(sock, IPPROTO_SCTP, SCTP_SOCKOPT_PEELOFF, arg, [], PeelOffArgSize);
                var r := k.answer(old(k.trace), c);
                && k.trace == old(k.trace) + [c] && err == ErrOf(r)
                && (r.errno != 0 ==> conn == null)
                && (r.errno == 0 ==> conn != null && fresh(conn)
                                     && conn.sock == PeeledDescriptor(k.order, arg, r) && conn.assoc == 0)
    {
      if !Valid() {
        return null, Some(InvalidListener);
      }
      conn, err := SCTPPeelOff(k, sock, assoc);
    }

    /** PeelOffFlags: SCTPPeelOffFlag on the listener's socket. */
    method PeelOffFlags(k: Kernel, assoc: int, flags: int) returns (conn: SCTPConn?, err: Option<Error>)
      modifies k
      ensures !Valid() ==> conn == null && err == Some(InvalidListener) && k.trace == old(k.trace)
      ensures Valid() ==>
                var arg := if flags == 0 then PeelOffRecord(k.order, assoc) else PeelOffFlagsRecord(k.order, assoc, flags);
                var c := if flags == 0 then GetSockOpt(sock, IPPROTO_SCTP, SCTP_SOCKOPT_PEELOFF, arg, [], PeelOffArgSize)
                         else GetSockOpt(sock, IPPROTO_SCTP, SCTP_SOCKOPT_PEELOFF_FLAGS, arg, [], PeelOffFlagsArgSize);
                var r := k.answer(old(k.trace), c);
                && k.trace == old(k.trace) + [c] && err == ErrOf(r)
                && (r.errno != 0 ==> conn == null)
                && (r.errno == 0 ==> conn != null && fresh(conn)
                                     && conn.sock == PeeledDescriptor(k.order, arg, r) && conn.assoc == 0)
    {
      if !Valid() {
        return null, Some(InvalidListener);
      }
      conn, err := SCTPPeelOffFlag(k, sock, assoc, flags);
    }

    /** AcceptSCTP: accept4 without flags; a conn on the accepted descriptor, or nil and the errno. */
    method AcceptSCTP(k: Kernel) returns (conn: SCTPConn?, err: Option<Error>)
      modifies k
      ensures !Valid() ==> conn == null && err == Some(InvalidListener) && k.trace == old(k.trace)
      ensures Valid() ==>
                var r := k.answer(old(k.trace), Accept4(sock, 0));
                && k.trace == old(k.trace) + [Accept4(sock, 0)] && err == ErrOf(r)
                && (r.errno != 0 ==> conn == null)
                && (r.errno == 0 ==> conn != null && fresh(conn) && conn.sock == r.ret && conn.assoc == 0)
    {
      if !Valid() {
        return null, Some(InvalidListener);
      }
      var r := k.Invoke(Accept4(sock, 0));
      if r.errno != 0 {
        return null, Some(Errno(r.errno));
      }
      conn := new SCTPConn(Ret(r));
      err := None;
    }

    /** Accept: AcceptSCTP behind the generic interface. */
    method Accept(k: Kernel) returns (conn: SCTPConn?, err: Option<Error>)
      modifies k
      ensures !Valid() ==> conn == null && err == Some(InvalidListener) && k.trace == old(k.trace)
      ensures Valid() ==>
                var r := k.answer(old(k.trace), Accept4(sock, 0));
                && k.trace == old(k.trace) + [Accept4(sock, 0)] && err == ErrOf(r)
                && (r.errno != 0 ==> conn == null)
                && (r.errno == 0 ==> conn != null && fresh(conn) && conn.sock == r.ret && conn.assoc == 0)
    {
      conn, err := AcceptSCTP(k);
    }

    /** Close: shutdown (its result ignored), then close; the listener keeps its descriptor. */
    method Close(k: Kernel) returns (err: Option<Error>)
      modifies k
      ensures !Valid() ==> err == Some(InvalidListener) && k.trace == old(k.trace)
      ensures Valid() ==>
                && k.trace == old(k.trace) + [Shutdown(sock, SHUT_RDWR), Syscall.Close(sock)]
                && err == ErrOf(k.answer(old(k.trace) + [Shutdown(sock, SHUT_RDWR)], Syscall.Close(sock)))
    {
      if !Valid() {
        return Some(InvalidListener);
      }
      var _ := k.Invoke(Shutdown(sock, SHUT_RDWR));
      var r := k.Invoke(Syscall.Close(sock));
      err := ErrOf(r);
    }

    /** SetEventSubscribe: nil is refused before the call; otherwise SCTP_EVENTS is set. */
    method SetEventSubscribe(k: Kernel, events: Option<EventSubscribe>) returns (err: Option<Error>)
      modifies k
      ensures !Valid() ==> err == Some(InvalidListener) && k.trace == old(k.trace)
      ensures Valid() && events.None? ==> err == Some(Failure("events cannot be nil")) && k.trace == old(k.trace)
      ensures Valid() && events.Some? ==>
                var c := SetSockOpt(sock, SOL_SCTP, SCTP_EVENTS, Some(PackEventSubscribe(events.value)));
                k.trace == old(k.trace) + [c] && err == ErrOf(k.answer(old(k.trace), c))
    {
      if !Valid() {
        return Some(InvalidListener);
      }
      if events.None? {
        return Some(Failure("events cannot be nil"));
      }
      var r := k.Invoke(SetSockOpt(sock, SOL_SCTP, SCTP_EVENTS, Some(PackEventSubscribe(events.value))));
      err := ErrOf(r);
    }

    /** GetEventSubscribe: SCTP_EVENTS read back into a zeroed record; nil and the errno on failure. */
    method GetEventSubscribe(k: Kernel) returns (events: Option<EventSubscribe>, err: Option<Error>)
      modifies k
      ensures !Valid() ==> events.None? && err == Some(InvalidListener) && k.trace == old(k.trace)
      ensures Valid() ==>
                var c := GetSockOpt(sock, SOL_SCTP, SCTP_EVENTS, Zeros(EventSubscribeSize), [], EventSubscribeSize);
                var r := k.answer(old(k.trace), c);
                && k.trace == old(k.trace) + [c] && err == ErrOf(r)
                && (r.errno != 0 ==> events.None?)
                && (r.errno == 0 ==> events == Some(UnpackEventSubscribe(WrittenBack(Zeros(EventSubscribeSize), r))))
                && (r.errno == 0 && |r.data| == EventSubscribeSize ==> PackEventSubscribe(events.value) == r.data)
    {
      if !Valid() {
        return None, Some(InvalidListener);
      }
      var arg := Zeros(EventSubscribeSize);
      var r := k.Invoke(GetSockOpt(sock, SOL_SCTP, SCTP_EVENTS, arg, [], EventSubscribeSize));
      if r.errno != 0 {
        return None, Some(Errno(r.errno));
      }
      var written := WrittenBack(arg, r);
      EventSubscribeRoundTrip(UnpackEventSubscribe(written), written);
      return Some(UnpackEventSubscribe(written)), None;
    }

    /**
     * RecvMsg: one syscall.Recvmsg into `b` with the caller's flags word (0
     * for nil). A failure leaves the buffer, the flags and the info alone; a
     * success fills the buffer, stores the kernel's flags through the
     * pointer, which must then not be nil, and the info found in the
     * ancillary data when there is any.
     */
    method RecvMsg(k: Kernel, b: bytes, info: Option<SndRcvInfo>, flags: Option<int>)
        returns (n: int, err: Option<Error>, filled: bytes, infoOut: Option<SndRcvInfo>, flagsOut: Option<int>)
      requires WholeSndRcvInfo(k)
      requires Valid() && flags.None? ==> RecvmsgOutcome(k.answer, k.order, k.trace, sock, |b|, 0).err.Some?
      modifies k
      ensures !Valid() ==> n == 0 && err == Some(InvalidListener) && k.trace == old(k.trace)
                           && filled == b && infoOut == info && flagsOut == flags
      ensures Valid() ==>
                var r := RecvmsgOutcome(k.answer, k.order, old(k.trace), sock, |b|, FlagsWord(flags));
                && k.trace == old(k.trace) + r.calls && n == r.n && err == r.err
                && filled == BufferAfter(b, r) && infoOut == InfoAfter(k.order, info, r)
                && flagsOut == if Delivered(r) then Some(r.reply.flags) else flags
    {
      infoOut, flagsOut, filled := info, flags, b;
      if !Valid() {
        return 0, Some(InvalidListener), filled, infoOut, flagsOut;
      }
      ghost var t := k.trace;
      var r := Recvmsg(k, sock, |b|, FlagsWord(flags));
      n, err := r.n, r.err;
      if r.err.Some? {
        return;
      }
      flagsOut := Some(r.reply.flags);
      filled := Deliver(b, r.reply.data);
      var oob := Received(r.reply.oob, OobCapacity);
      assert oob == ReceivedOob(k.answer, t + r.calls[..|r.calls| - 1], r.calls[|r.calls| - 1]);
      if |oob| > 0 {
        infoOut := ParseSndRcvInfo(k.order, info, oob);
      }
    }

    /** SendMsg: one send, with the info packed behind an SCTP_SNDRCV header when given. */
    method SendMsg(k: Kernel, data: bytes, info: Option<SndRcvInfo>) returns (n: int, err: Option<Error>)
      modifies k
      ensures !Valid() ==> n == 0 && err == Some(InvalidListener) && k.trace == old(k.trace)
      ensures Valid() ==>
                var control := if info.Some? then SndRcvControl(k.order, info.value) else [];
                var c := Syscall.SendMsg(sock, data, control, 0);
                var r := k.answer(old(k.trace), c);
                k.trace == old(k.trace) + [c] && n == SentCount(data, control, r) && err == ErrOf(r)
    {
      if !Valid() {
        return 0, Some(InvalidListener);
      }
      var control := if info.Some? then SndRcvControl(k.order, info.value) else [];
      n, err := SCTPSendMsg(k, sock, data, control, 0);
    }

    /** SetInitMsg: nil is refused before the call; otherwise SCTP_INITMSG is set. */
    method SetInitMsg(k: Kernel, init: Option<InitMsg>) returns (err: Option<Error>)
      modifies k
      ensures !Valid() ==> err == Some(InvalidListener) && k.trace == old(k.trace)
      ensures Valid() && init.None? ==> err == Some(Failure("init cannot be nil")) && k.trace == old(k.trace)
      ensures Valid() && init.Some? ==>
                var c := SetSockOpt(sock, SOL_SCTP, SCTP_INITMSG, Some(PackInitMsg(k.order, init.value)));
                k.trace == old(k.trace) + [c] && err == ErrOf(k.answer(old(k.trace), c))
    {
      if !Valid() {
        return Some(InvalidListener);
      }
      if init.None? {
        return Some(Failure("init cannot be nil"));
      }
      var r := k.Invoke(SetSockOpt(sock, SOL_SCTP, SCTP_INITMSG, Some(PackInitMsg(k.order, init.value))));
      err := ErrOf(r);
    }

    /** SetNonblock: the descriptor switched to non-blocking mode. */
    method SetNonblock(k: Kernel) returns (err: Option<Error>)
      modifies k
      ensures !Valid() ==> err == Some(InvalidListener) && k.trace == old(k.trace)
      ensures Valid() ==>
                k.trace == old(k.trace) + [Syscall.SetNonblock(sock)] && err == ErrOf(k.answer(old(k.trace), Syscall.SetNonblock(sock)))
    {
      if !Valid() {
        return Some(InvalidListener);
      }
      var r := k.Invoke(Syscall.SetNonblock(sock));
      err := ErrOf(r);
    }
  }

  // ---------------------------------------------------------------------
  // ListenSCTP

  /**
   * Issuing `calls` one after another until one fails: the log afterwards
   * and the errno of the failed call, None when every call succeeded.
   */
  ghost function Issue(answer: (seq<Call>, Call) -> Reply, t: seq<Call>, calls: seq<Call>): (seq<Call>, Option<nat>)
    decreases |calls|
  {
    if calls == [] then (t, None)
    else
      var reply := answer(t, calls[0]);
      if reply.errno != 0 then (t + [calls[0]], Some(reply.errno))
      else Issue(answer, t + [calls[0]], calls[1..])
  }

  /** The first call of a non-empty list, issued by itself. */
  lemma IssueFirst(answer: (seq<Call>, Call) -> Reply, t: seq<Call>, c: Call, rest: seq<Call>)
    ensures Issue(answer, t, [c] + rest) ==
              if answer(t, c).errno != 0 then (t + [c], Some(answer(t, c).errno)) else Issue(answer, t + [c], rest)
  {
    assert ([c] + rest)[0] == c && ([c] + rest)[1..] == rest;
  }

  /**
   * Issue succeeds exactly when every call succeeds given the calls before
   * it, and then the log has gained all of them, in order.
   */
  lemma {:induction false} IssueSucceedsIffAllSucceed(answer: (seq<Call>, Call) -> Reply, t: seq<Call>, calls: seq<Call>)
    ensures Issue(answer, t, calls).1.None? <==> forall j :: 0 <= j < |calls| ==> answer(t + calls[..j], calls[j]).errno == 0
    ensures Issue(answer, t, calls).1.None? ==> Issue(answer, t, calls).0 == t + calls
    decreases |calls|
  {
    if calls != [] {
      var c, rest := calls[0], calls[1..];
      IssueSucceedsIffAllSucceed(answer, t + [c], rest);
      assert calls[..0] == [] && t + [] == t;
      forall j | 0 < j < |calls|
        ensures t + calls[..j] == t + [c] + rest[..j - 1] && calls[j] == rest[j - 1]
      {
        assert calls[..j] == [c] + rest[..j - 1];
      }
      if Issue(answer, t, calls).1.None? {
        assert t + [c] + rest == t + calls;
      }
    }
  }

  /** The socket options ListenSCTP sets, in order: IPV6_V6ONLY off, SO_BROADCAST on, SO_REUSEADDR on, the init message. */
  function ListenOptionCalls(order: ByteOrder, fd: int, init: InitMsg): (cs: seq<Call>)
    ensures |cs| == 4
  {
    [SetSockOpt(fd, IPPROTO_IPV6, IPV6_V6ONLY, Some(PutI32(order, 0))),
     SetSockOpt(fd, SOL_SOCKET, SO_BROADCAST, Some(PutI32(order, 1))),
     SetSockOpt(fd, SOL_SOCKET, SO_REUSEADDR, Some(PutI32(order, 1))),
     SetSockOpt(fd, SOL_SCTP, SCTP_INITMSG, Some(PackInitMsg(order, init)))]
  }

  /** The bind that adds the local address and the listen with the system's backlog. */
  function ListenBindCalls(order: ByteOrder, fd: int, local: SCTPAddr): (cs: seq<Call>)
    ensures |cs| == 2
  {
    [BindAddCall(order, fd, local), Listen(fd, SOMAXCONN)]
  }

  /** The descriptor is closed after a failure only when it is positive. */
  function CloseIfOpen(fd: int): seq<Call>
  {
    if fd > 0 then [Syscall.Close(fd)] else []
  }

  /** The socket ListenSCTP opens: the network's family and the caller's socket type. */
  function ListenSocketCall(network: string, socketType: int): Call
  {
    Socket(AddrFamily(network), socketType, IPPROTO_SCTP)
  }

  /**
   * ListenSCTP: a nil local address or init message, or an unknown network,
   * is refused before any call. Otherwise the socket is opened and
   * configured, the address bound and the socket put to listen, stopping at
   * the first failure and closing a positive descriptor then; the listener
   * is returned only when every step succeeded.
   */
  method ListenSCTP(k: Kernel, network: string, socketType: int, local: Option<SCTPAddr>, init: Option<InitMsg>)
      returns (listener: Option<SCTPListener>, err: Option<Error>)
    modifies k
    ensures listener.Some? <==> err.None?
    ensures local.None? ==> err == Some(Failure("local address cannot be nil")) && k.trace == old(k.trace)
    ensures local.Some? && init.None? ==> err == Some(Failure("init message cannot be nil")) && k.trace == old(k.trace)
    ensures local.Some? && init.Some? && !SctpNetwork(network) ==>
              && err == Some(OpError("listen", network, local, None, AddrFailure(UnknownNetworkError(network))))
              && k.trace == old(k.trace)
    ensures local.Some? && init.Some? && SctpNetwork(network) ==>
              var c := ListenSocketCall(network, socketType);
              var r := k.answer(old(k.trace), c);
              var fd := r.ret;
              var options := Issue(k.answer, old(k.trace) + [c], ListenOptionCalls(k.order, fd, init.value));
              var bound := Issue(k.answer, options.0, ListenBindCalls(k.order, fd, local.value));
              && (r.errno != 0 ==> k.trace == old(k.trace) + [c] && err == Some(Errno(r.errno)))
              && (r.errno == 0 && options.1.Some? ==>
                    k.trace == options.0 + CloseIfOpen(fd) && err == Some(Errno(options.1.value)))
              && (r.errno == 0 && options.1.None? && !HasValidAddress(local.value) ==>
                    k.trace == options.0 + CloseIfOpen(fd) && err == Some(Errno(EINVAL)))
              && (r.errno == 0 && options.1.None? && HasValidAddress(local.value) && bound.1.Some? ==>
                    k.trace == bound.0 + CloseIfOpen(fd) && err == Some(Errno(bound.1.value)))
              && (r.errno == 0 && options.1.None? && HasValidAddress(local.value) && bound.1.None? ==>
                    k.trace == bound.0 && listener == Some(SCTPListener(fd)))
  {
    if local.None? {
      return None, Some(Failure("local address cannot be nil"));
    }
    if init.None? {
      return None, Some(Failure("init message cannot be nil"));
    }
    if !SctpNetwork(network) {
      return None, Some(OpError("listen", network, local, None, AddrFailure(UnknownNetworkError(network))));
    }
    var sock;
    sock, err := SCTPSocket(k, AddrFamily(network), socketType);
    if err.Some? {
      return None, err;
    }
    err := ListenSetup(k, sock, local.value, init.value);
    if err.Some? {
      if sock > 0 {
        var _ := k.Invoke(Syscall.Close(sock));
      }
      return None, err;
    }
    listener := Some(SCTPListener(sock));
  }

  /** Everything ListenSCTP does between opening the socket and returning: options, bind, listen. */
  method ListenSetup(k: Kernel, fd: int, local: SCTPAddr, init: InitMsg) returns (err: Option<Error>)
    modifies k
    ensures var options := Issue(k.answer, old(k.trace), ListenOptionCalls(k.order, fd, init));
            var bound := Issue(k.answer, options.0, ListenBindCalls(k.order, fd, local));
            && (options.1.Some? ==> k.trace == options.0 && err == Some(Errno(options.1.value)))
            && (options.1.None? && !HasValidAddress(local) ==> k.trace == options.0 && err == Some(Errno(EINVAL)))
            && (options.1.None? && HasValidAddress(local) ==>
                  k.trace == bound.0 && (bound.1.None? <==> err.None?) && (bound.1.Some? ==> err == Some(Errno(bound.1.value))))
  {
    err := ListenOptions(k, fd, init);
    if err.Some? {
      return;
    }
    err := ListenBind(k, fd, local);
  }

  /** The four socket options, stopping at the first failure. */
  method ListenOptions(k: Kernel, fd: int, init: InitMsg) returns (err: Option<Error>)
    modifies k
    ensures var options := Issue(k.answer, old(k.trace), ListenOptionCalls(k.order, fd, init));
            k.trace == options.0 && (options.1.None? <==> err.None?) && (options.1.Some? ==> err == Some(Errno(options.1.value)))
  {
    var calls := ListenOptionCalls(k.order, fd, init);
    assert calls == [calls[0]] + ([calls[1]] + ([calls[2]] + ([calls[3]] + [])));
    ghost var t := k.trace;
    err := SetSockOptInt(k, fd, IPPROTO_IPV6, IPV6_V6ONLY, 0);
    IssueFirst(k.answer, t, calls[0], [calls[1]] + ([calls[2]] + ([calls[3]] + [])));
    if err.Some? {
      return;
    }
    t := k.trace;
    err := SetSockOptInt(k, fd, SOL_SOCKET, SO_BROADCAST, 1);
    IssueFirst(k.answer, t, calls[1], [calls[2]] + ([calls[3]] + []));
    if err.Some? {
      return;
    }
    t := k.trace;
    err := SetSockOptInt(k, fd, SOL_SOCKET, SO_REUSEADDR, 1);
    IssueFirst(k.answer, t, calls[2], [calls[3]] + []);
    if err.Some? {
      return;
    }
    t := k.trace;
    var r := k.Invoke(SetSockOpt(fd, SOL_SCTP, SCTP_INITMSG, Some(PackInitMsg(k.order, init))));
    IssueFirst(k.answer, t, calls[3], []);
    err := ErrOf(r);
  }

  /** The bind and the listen, stopping at the first failure; an address without a valid IP is EINVAL before any call. */
  method ListenBind(k: Kernel, fd: int, local: SCTPAddr) returns (err: Option<Error>)
    modifies k
    ensures !HasValidAddress(local) ==> k.trace == old(k.trace) && err == Some(Errno(EINVAL))
    ensures HasValidAddress(local) ==>
              var bound := Issue(k.answer, old(k.trace), ListenBindCalls(k.order, fd, local));
              k.trace == bound.0 && (bound.1.None? <==> err.None?) && (bound.1.Some? ==> err == Some(Errno(bound.1.value)))
  {
    var calls := ListenBindCalls(k.order, fd, local);
    assert calls == [calls[0]] + ([calls[1]] + []);
    ghost var t := k.trace;
    err := SCTPBind(k, fd, local, SCTP_BINDX_ADD_ADDR);
    if !HasValidAddress(local) {
      return;
    }
    IssueFirst(k.answer, t, calls[0], [calls[1]] + []);
    if err.Some? {
      return;
    }
    t := k.trace;
    var r := k.Invoke(Listen(fd, SOMAXCONN));
    IssueFirst(k.answer, t, calls[1], []);
    err := ErrOf(r);
  }
}
