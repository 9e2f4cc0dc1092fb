/**
 * An SCTP association as a connection object: a descriptor and an
 * association id. The descriptor is swapped to -1 by Close and Abort, and
 * every guarded method refuses a descriptor that is not positive. Peeling an
 * association off a one-to-many socket also yields one of these.
 */
module Conn {
  import opened Base
  import opened Wire
  import opened Structs
  import opened Addr
  import opened Syscall
  import opened Sctp

  /** The receive buffer for ancillary data: room for one sctp_sndrcvinfo. */
  const OobCapacity: nat := 48

  /** The calls a conn's Close issues on descriptor `fd`: an EOF message, a shutdown, the close. */
  function CloseCalls(order: ByteOrder, fd: int): (cs: seq<Call>)
    ensures |cs| == 3 && cs[2] == Close(fd)
  {
    [EofCall(order, fd), Shutdown(fd, SHUT_RDWR), Close(fd)]
  }

  /** The EOF message Close sends first: no payload, the EOF info as ancillary data. */
  function EofCall(order: ByteOrder, fd: int): Call
  {
    SendMsg(fd, [], SndRcvControl(order, EofInfo), 0)
  }

  /** The info Close sends: only the EOF flag set. */
  const EofInfo: SndRcvInfo := NoSndRcvInfo.(flags := SCTP_EOF)

  /** SO_LINGER {Onoff: 1, Linger: 0}: close drops the association at once. */
  function LingerAbort(order: ByteOrder): bytes
  {
    PutI32(order, 1) + PutI32(order, 0)
  }

  /** The notification bit of a receive's flags (MSG_NOTIFICATION, bit 15). */
  predicate IsNotification(flags: int)
  {
    flags % 0x1_0000 >= 0x8000
  }

  /** The kernel never hands back an SCTP_SNDRCV message too short for the record. */
  ghost predicate WholeSndRcvInfo(k: Kernel)
  {
    forall t, c :: SndRcvPayloadsFit(k.order, ReceivedOob(k.answer, t, c))
  }

  /** The ancillary data a receive keeps: what fits the control buffer. */
  ghost function ReceivedOob(answer: (seq<Call>, Call) -> Reply, t: seq<Call>, c: Call): bytes
  {
    Received(answer(t, c).oob, OobCapacity)
  }

  /** The receive a conn on `fd` issues for a buffer of `capacity` bytes. */
  function RecvCall(fd: int, capacity: nat): Call
  {
    RecvMsg(fd, capacity, OobCapacity, 0)
  }

  /** The SO_TYPE query Go's syscall.Recvmsg makes before receiving into an empty buffer. */
  function SockTypeCall(order: ByteOrder, fd: int): Call
  {
    GetSockOpt(fd, SOL_SOCKET, SO_TYPE, PutI32(order, 0), [], 4)
  }

  /** The buffer syscall.Recvmsg receives into when `b` is empty: none for a datagram socket, else a one-byte dummy. */
  function DummyCapacity(order: ByteOrder, query: Reply): nat
  {
    if GetI32(order, WrittenBack(PutI32(order, 0), query), 0) != SOCK_DGRAM then 1 else 0
  }

  /**
   * What one syscall.Recvmsg comes to: the calls it issued, the count and
   * error it returns, and the kernel's reply that decided them.
   */
  datatype Receipt = Receipt(calls: seq<Call>, n: int, err: Option<Error>, reply: Reply)

  /**
   * syscall.Recvmsg(fd, b, oob, flags) with a non-empty `oob`, for a `b` of
   * `capacity` bytes. A non-empty `b` is received into directly. An empty
   * one makes it ask for SO_TYPE first: if that fails it returns 0 and the
   * error; otherwise the receive goes into a one-byte dummy unless the
   * socket is a datagram socket.
   */
  function RecvmsgOutcome(answer: (seq<Call>, Call) -> Reply, order: ByteOrder, t: seq<Call>, fd: int, capacity: nat, flags: int): (r: Receipt)
    ensures 0 < |r.calls| <= 2
    ensures r.reply == answer(t + r.calls[..|r.calls| - 1], r.calls[|r.calls| - 1])
    ensures r.err == ErrOf(r.reply)
    ensures r.err.Some? ==> r.n <= 0
    ensures capacity > 0 ==> r.calls == [RecvMsg(fd, capacity, OobCapacity, flags)] && r.n == Ret(r.reply)
    ensures capacity == 0 ==>
              var query := answer(t, SockTypeCall(order, fd));
              && r.calls[0] == SockTypeCall(order, fd)
              && (query.errno != 0 <==> |r.calls| == 1)
              && (query.errno != 0 ==> r.n == 0 && r.reply == query)
              && (query.errno == 0 ==> r.calls[1] == RecvMsg(fd, DummyCapacity(order, query), OobCapacity, flags) && r.n == Ret(r.reply))
  {
    if capacity > 0 then
      var c := RecvMsg(fd, capacity, OobCapacity, flags);
      var reply := answer(t, c);
      assert t + [c][..0] == t;
      Receipt([c], Ret(reply), ErrOf(reply), reply)
    else
      var q := SockTypeCall(order, fd);
      var query := answer(t, q);
      if query.errno != 0 then
        assert t + [q][..0] == t;
        Receipt([q], 0, ErrOf(query), query)
      else
        var c := RecvMsg(fd, DummyCapacity(order, query), OobCapacity, flags);
        var reply := answer(t + [q], c);
        assert [q, c][..1] == [q];
        Receipt([q, c], Ret(reply), ErrOf(reply), reply)
  }

  /** syscall.Recvmsg as issued: the query (for an empty buffer) and the receive, until one fails. */
  method Recvmsg(k: Kernel, fd: int, capacity: nat, flags: int) returns (r: Receipt)
    modifies k
    ensures k.trace == old(k.trace) + r.calls
    ensures r == RecvmsgOutcome(k.answer, k.order, old(k.trace), fd, capacity, flags)
  {
    if capacity > 0 {
      var reply := k.Invoke(RecvMsg(fd, capacity, OobCapacity, flags));
      return Receipt([RecvMsg(fd, capacity, OobCapacity, flags)], Ret(reply), ErrOf(reply), reply);
    }
    // GetsockoptInt(fd, SOL_SOCKET, SO_TYPE)
    var query := k.Invoke(SockTypeCall(k.order, fd));
    if query.errno != 0 {
      return Receipt([SockTypeCall(k.order, fd)], 0, ErrOf(query), query);
    }
    var c := RecvMsg(fd, DummyCapacity(k.order, query), OobCapacity, flags);
    var reply := k.Invoke(c);
    r := Receipt([SockTypeCall(k.order, fd), c], Ret(reply), ErrOf(reply), reply);
  }

  /** A receive delivered a message exactly when its error is nil. */
  predicate Delivered(r: Receipt)
  {
    r.err.None?
  }

  /**
   * The caller's buffer after a receive: the delivered bytes over its front,
   * as many as fit, and the rest as it was.
   */
  function Deliver(b: bytes, data: bytes): (s: bytes)
    ensures |s| == |b|
    ensures forall i :: 0 <= i < |s| ==> s[i] == if i < |data| then data[i] else b[i]
  {
    var front := Received(data, |b|);
    front + b[|front|..]
  }

  /** The buffer after a receive: filled on success, untouched on failure. */
  function BufferAfter(b: bytes, r: Receipt): (s: bytes)
    ensures |s| == |b|
  {
    if Delivered(r) then Deliver(b, r.reply.data) else b
  }

  /**
   * The info after a receive: what the ancillary data it kept says, when it
   * delivered some; otherwise, or when that data is not whole records (which
   * WholeSndRcvInfo rules out), the earlier info.
   */
  function InfoAfter(order: ByteOrder, info: Option<SndRcvInfo>, r: Receipt): Option<SndRcvInfo>
  {
    var oob := Received(r.reply.oob, OobCapacity);
    if Delivered(r) && |oob| > 0 && SndRcvPayloadsFit(order, oob) then SndRcvInfoAfter(order, info, oob) else info
  }

  /** The flags a receive leaves behind: the kernel's on success, the earlier ones on failure. */
  function FlagsAfter(r: Receipt, flags: int): int
  {
    if Delivered(r) then r.reply.flags else flags
  }

  /** Where a read loop stopped: the log, the last receive, and the caller's buffer. */
  datatype ReadEnd = ReadEnd(trace: seq<Call>, last: Receipt, buffer: bytes)

  /** The calls a conn's receive into a `capacity`-byte buffer may issue. */
  predicate ReceiveStep(order: ByteOrder, fd: int, capacity: nat, c: Call)
  {
    c == RecvCall(fd, capacity) || (capacity == 0 && (c == SockTypeCall(order, fd) || c == RecvCall(fd, 1)))
  }

  /**
   * The receive loop of Read as written, over the caller's buffer `b`: the
   * loop's end, or None when it has not stopped within `fuel` receives. It
   * stops once the flags left behind lack the notification bit.
   */
  function ReadLoop(answer: (seq<Call>, Call) -> Reply, order: ByteOrder, t: seq<Call>, fd: int, b: bytes, flags: int, fuel: nat): (r: Option<ReadEnd>)
    decreases fuel
    ensures r.Some? ==> |r.value.buffer| == |b|
  {
    if fuel == 0 then None
    else
      var step := RecvmsgOutcome(answer, order, t, fd, |b|, 0);
      var f := FlagsAfter(step, flags);
      var b' := BufferAfter(b, step);
      if !IsNotification(f) then Some(ReadEnd(t + step.calls, step, b'))
      else ReadLoop(answer, order, t + step.calls, fd, b', f, fuel - 1)
  }

  /** One receive's calls are receive steps on the conn's descriptor. */
  lemma RecvmsgSteps(answer: (seq<Call>, Call) -> Reply, order: ByteOrder, t: seq<Call>, fd: int, capacity: nat)
    ensures var calls := RecvmsgOutcome(answer, order, t, fd, capacity, 0).calls;
            forall i :: 0 <= i < |calls| ==> ReceiveStep(order, fd, capacity, calls[i])
  {
  }

  /** Appending calls after a prefix keeps the prefix. */
  lemma PrefixKept(t: seq<Call>, calls: seq<Call>, t': seq<Call>)
    requires |t'| >= |t + calls| && t'[..|t + calls|] == t + calls
    ensures t'[..|t|] == t
  {
    assert t'[..|t|] == t'[..|t + calls|][..|t|];
  }

  /** The loop as written only adds calls to the log, at least one, each a receive step on `fd`. */
  lemma {:induction false} ReadLoopAppends(answer: (seq<Call>, Call) -> Reply, order: ByteOrder, t: seq<Call>, fd: int, b: bytes, flags: int, fuel: nat)
    requires ReadLoop(answer, order, t, fd, b, flags, fuel).Some?
    ensures var t' := ReadLoop(answer, order, t, fd, b, flags, fuel).value.trace;
            |t'| > |t| && t'[..|t|] == t && forall i :: |t| <= i < |t'| ==> ReceiveStep(order, fd, |b|, t'[i])
    decreases fuel
  {
    var step := RecvmsgOutcome(answer, order, t, fd, |b|, 0);
    RecvmsgSteps(answer, order, t, fd, |b|);
    var f := FlagsAfter(step, flags);
    var t' := ReadLoop(answer, order, t, fd, b, flags, fuel).value.trace;
    if IsNotification(f) {
      var b' := BufferAfter(b, step);
      ReadLoopAppends(answer, order, t + step.calls, fd, b', f, fuel - 1);
      PrefixKept(t, step.calls, t');
      forall i | |t| <= i < |t'|
        ensures ReceiveStep(order, fd, |b|, t'[i])
      {
        if i < |t + step.calls| {
          assert t'[i] == (t + step.calls)[i] == step.calls[i - |t|];
        }
      }
    } else {
      assert t' == t + step.calls;
    }
  }

  /**
   * The receive loop with errors reported: it stops at the first failed
   * receive, and otherwise once the flags lack the notification bit.
   */
  function ReadLoopReportingErrors(answer: (seq<Call>, Call) -> Reply, order: ByteOrder, t: seq<Call>, fd: int, b: bytes, fuel: nat): (r: Option<ReadEnd>)
    decreases fuel
    ensures r.Some? ==> |r.value.buffer| == |b|
    ensures r.Some? ==> r.value.last.err.Some? || !IsNotification(r.value.last.reply.flags)
  {
    if fuel == 0 then None
    else
      var step := RecvmsgOutcome(answer, order, t, fd, |b|, 0);
      var b' := BufferAfter(b, step);
      if !Delivered(step) || !IsNotification(step.reply.flags) then Some(ReadEnd(t + step.calls, step, b'))
      else ReadLoopReportingErrors(answer, order, t + step.calls, fd, b', fuel - 1)
  }

  /** The corrected loop only adds calls to the log, at least one, each a receive step on `fd`. */
  lemma {:induction false} ReadLoopReportingErrorsAppends(answer: (seq<Call>, Call) -> Reply, order: ByteOrder, t: seq<Call>, fd: int, b: bytes, fuel: nat)
    requires ReadLoopReportingErrors(answer, order, t, fd, b, fuel).Some?
    ensures var t' := ReadLoopReportingErrors(answer, order, t, fd, b, fuel).value.trace;
            |t'| > |t| && t'[..|t|] == t && forall i :: |t| <= i < |t'| ==> ReceiveStep(order, fd, |b|, t'[i])
    decreases fuel
  {
    var step := RecvmsgOutcome(answer, order, t, fd, |b|, 0);
    RecvmsgSteps(answer, order, t, fd, |b|);
    var t' := ReadLoopReportingErrors(answer, order, t, fd, b, fuel).value.trace;
    if Delivered(step) && IsNotification(step.reply.flags) {
      var b' := BufferAfter(b, step);
      ReadLoopReportingErrorsAppends(answer, order, t + step.calls, fd, b', fuel - 1);
      PrefixKept(t, step.calls, t');
      forall i | |t| <= i < |t'|
        ensures ReceiveStep(order, fd, |b|, t'[i])
      {
        if i < |t + step.calls| {
          assert t'[i] == (t + step.calls)[i] == step.calls[i - |t|];
        }
      }
    } else {
      assert t' == t + step.calls;
    }
  }

  /** When no call fails, the loop as written and the corrected loop are the same loop. */
  lemma {:induction false} ReadLoopsAgreeWithoutErrors(answer: (seq<Call>, Call) -> Reply, order: ByteOrder, t: seq<Call>, fd: int, b: bytes, flags: int, fuel: nat)
    requires forall t', c' :: answer(t', c').errno == 0
    ensures ReadLoop(answer, order, t, fd, b, flags, fuel) == ReadLoopReportingErrors(answer, order, t, fd, b, fuel)
    decreases fuel
  {
    if fuel > 0 {
      var step := RecvmsgOutcome(answer, order, t, fd, |b|, 0);
      ReadLoopsAgreeWithoutErrors(answer, order, t + step.calls, fd, BufferAfter(b, step), step.reply.flags, fuel - 1);
    }
  }

  /** A kernel that delivers one empty notification and then fails every call with ECONNRESET (104). */
  function NotifyThenFail(t: seq<Call>, c: Call): Reply
  {
    if |t| == 0 then Reply(0, 0, [], [], 0x8000, [])
    else Reply(-1, 104, [], [], 0, [])
  }

  /** Once the flags carry the notification bit, failed receives keep the loop as written going. */
  lemma {:induction false} ReadLoopKeepsFailing(order: ByteOrder, t: seq<Call>, fd: int, b: bytes, flags: int, fuel: nat)
    requires |t| > 0 && |b| > 0 && IsNotification(flags)
    ensures ReadLoop(NotifyThenFail, order, t, fd, b, flags, fuel) == None
    decreases fuel
  {
    if fuel > 0 {
      var step := RecvmsgOutcome(NotifyThenFail, order, t, fd, |b|, 0);
      ReadLoopKeepsFailing(order, t + step.calls, fd, b, flags, fuel - 1);
    }
  }

  /**
   * The loop as written never returns the failure that follows a
   * notification, however many receives it is allowed; the corrected loop
   * returns it on the second receive, with the buffer as it was.
   */
  lemma ReadLoopSwallowsError(order: ByteOrder, fd: int, b: bytes, fuel: nat)
    requires |b| > 0
    ensures ReadLoop(NotifyThenFail, order, [], fd, b, 0, fuel) == None
    ensures var c := RecvCall(fd, |b|);
            fuel >= 2 ==> ReadLoopReportingErrors(NotifyThenFail, order, [], fd, b, fuel)
                          == Some(ReadEnd([c, c], Receipt([c], -1, Some(Errno(104)), NotifyThenFail([c], c)), b))
  {
    var c := RecvCall(fd, |b|);
    assert Deliver(b, []) == b;
    if fuel > 0 {
      assert IsNotification(0x8000) && [] + [c] == [c];
      ReadLoopKeepsFailing(order, [c], fd, b, 0x8000, fuel - 1);
    }
    if fuel >= 2 {
      assert [] + [c] + [c] == [c, c];
    }
  }

  class SCTPConn {
    var sock: int
    var assoc: int

    /** NewSCTPConn: a conn on the descriptor, association id 0. */
    constructor (sock: int)
      ensures this.sock == sock && assoc == 0
    {
      this.sock := sock;
      assoc := 0;
    }

    /** ok(): the descriptor is still open. */
    predicate Ok()
      reads this
    {
      sock > 0
    }

    /**
     * RecvMsg: EINVAL on a closed conn; otherwise one syscall.Recvmsg into
     * `b` with no flags. A failure returns its count and error and leaves
     * the buffer, the flags and the info alone; a success fills the buffer,
     * returns the count and the kernel's flags, and the info found in the
     * ancillary data when there is any.
     */
    method RecvMsg(k: Kernel, b: bytes, info: Option<SndRcvInfo>, flags: int)
        returns (n: int, err: Option<Error>, filled: bytes, infoOut: Option<SndRcvInfo>, flagsOut: int)
      requires WholeSndRcvInfo(k)
      modifies k
      ensures !Ok() ==> n == 0 && err == Some(Errno(EINVAL)) && k.trace == old(k.trace)
                        && filled == b && infoOut == info && flagsOut == flags
      ensures Ok() ==>
                var r := RecvmsgOutcome(k.answer, k.order, old(k.trace), sock, |b|, 0);
                && k.trace == old(k.trace) + r.calls && n == r.n && err == r.err
                && flagsOut == FlagsAfter(r, flags) && filled == BufferAfter(b, r) && infoOut == InfoAfter(k.order, info, r)
    {
      infoOut, flagsOut, filled := info, flags, b;
      if !Ok() {
        return 0, Some(Errno(EINVAL)), filled, infoOut, flagsOut;
      }
      ghost var t := k.trace;
      var r := Recvmsg(k, sock, |b|, 0);
      n, err := r.n, r.err;
      if r.err.Some? {
        return;
      }
      flagsOut := r.reply.flags;
      filled := Deliver(b, r.reply.data);
      var oob := Received(r.reply.oob, OobCapacity);
      assert oob == ReceivedOob(k.answer, t + r.calls[..|r.calls| - 1], r.calls[|r.calls| - 1]);
      if |oob| > 0 {
        infoOut := ParseSndRcvInfo(k.order, info, oob);
      }
    }

    /**
     * Read, corrected: receives into `b` until a message that is not a
     * notification arrives or a receive fails, and returns that receive's
     * result and the buffer as the receives left it. At most `fuel` receives
     * are issued; `done` is false when they were not enough.
     */
    method Read(k: Kernel, b: bytes, fuel: nat) returns (n: int, err: Option<Error>, filled: bytes, done: bool)
      requires WholeSndRcvInfo(k)
      modifies k
      ensures !Ok() ==> n == 0 && err == Some(Errno(EINVAL)) && filled == b && done && k.trace == old(k.trace)
      ensures Ok() ==>
                var loop := ReadLoopReportingErrors(k.answer, k.order, old(k.trace), sock, b, fuel);
                && (loop.Some? <==> done)
                && (loop.Some? ==> k.trace == loop.value.trace && n == loop.value.last.n && err == loop.value.last.err
                                   && filled == loop.value.buffer)
    {
      if !Ok() {
        return 0, Some(Errno(EINVAL)), b, true;
      }
      var flags, info := 0, Some(NoSndRcvInfo);
      var left: nat := fuel;
      done := false;
      n, err, filled := 0, None, b;
      ghost var whole := ReadLoopReportingErrors(k.answer, k.order, k.trace, sock, b, fuel);
      while left > 0
        invariant left <= fuel && Ok() && |filled| == |b|
        invariant whole == ReadLoopReportingErrors(k.answer, k.order, k.trace, sock, filled, left)
        decreases left
      {
        n, err, filled, info, flags := RecvMsg(k, filled, info, flags);
        if err.Some? || !IsNotification(flags) {
          return n, err, filled, true;
        }
        left := left - 1;
      }
    }

    /**
     * Read as the source writes it: the loop tests only the flags, which a
     * failed receive leaves alone, so a failure right after a notification
     * receives again instead of returning.
     */
    method ReadAsWritten(k: Kernel, b: bytes, fuel: nat) returns (n: int, err: Option<Error>, filled: bytes, done: bool)
      requires WholeSndRcvInfo(k)
      modifies k
      ensures !Ok() ==> n == 0 && err == Some(Errno(EINVAL)) && filled == b && done && k.trace == old(k.trace)
      ensures Ok() ==>
                var loop := ReadLoop(k.answer, k.order, old(k.trace), sock, b, 0, fuel);
                && (loop.Some? <==> done)
                && (loop.Some? ==> k.trace == loop.value.trace && n == loop.value.last.n && err == loop.value.last.err
                                   && filled == loop.value.buffer)
    {
      if !Ok() {
        return 0, Some(Errno(EINVAL)), b, true;
      }
      var flags, info := 0, Some(NoSndRcvInfo);
      var left: nat := fuel;
      done := false;
      n, err, filled := 0, None, b;
      ghost var whole := ReadLoop(k.answer, k.order, k.trace, sock, b, 0, fuel);
      while left > 0
        invariant left <= fuel && Ok() && |filled| == |b|
        invariant whole == ReadLoop(k.answer, k.order, k.trace, sock, filled, flags, left)
        decreases left
      {
        n, err, filled, info, flags := RecvMsg(k, filled, info, flags);
        if !IsNotification(flags) {
          return n, err, filled, true;
        }
        left := left - 1;
      }
    }

    /**
     * SendMsg: EINVAL on a closed conn; otherwise one send, with the info
     * packed behind an SCTP_SNDRCV header as ancillary data when given.
     */
    method SendMsg(k: Kernel, data: bytes, info: Option<SndRcvInfo>) returns (n: int, err: Option<Error>)
      modifies k
      ensures !Ok() ==> n == 0 && err == Some(Errno(EINVAL)) && k.trace == old(k.trace)
      ensures Ok() ==>
                var control := if info.Some? then SndRcvControl(k.order, info.value) else [];
                var c := Syscall.SendMsg(sock, data, control, 0);
                var r := k.answer(old(k.trace), c);
                k.trace == old(k.trace) + [c] && n == SentCount(data, control, r) && err == ErrOf(r)
    {
      if !Ok() {
        return 0, Some(Errno(EINVAL));
      }
      var control := if info.Some? then SndRcvControl(k.order, info.value) else [];
      n, err := SCTPSendMsg(k, sock, data, control, 0);
    }

    /** Write: SendMsg without info. */
    method Write(k: Kernel, data: bytes) returns (n: int, err: Option<Error>)
      modifies k
      ensures !Ok() ==> n == 0 && err == Some(Errno(EINVAL)) && k.trace == old(k.trace)
      ensures Ok() ==>
                var c := Syscall.SendMsg(sock, data, [], 0);
                var r := k.answer(old(k.trace), c);
                k.trace == old(k.trace) + [c] && n == SentCount(data, [], r) && err == ErrOf(r)
    {
      n, err := SendMsg(k, data, None);
    }

    /**
     * Abort: the descriptor becomes -1 whatever it was; an open one gets a
     * zero linger and is closed, which drops the association; a closed one
     * gives EBADFD.
     */
    method Abort(k: Kernel) returns (err: Option<Error>)
      modifies this, k
      ensures sock == -1 && assoc == old(assoc)
      ensures old(sock) <= 0 ==> err == Some(Errno(EBADFD)) && k.trace == old(k.trace)
      ensures old(sock) > 0 ==>
                var linger := SetSockOpt(old(sock), SOL_SOCKET, SO_LINGER, Some(LingerAbort(k.order)));
                k.trace == old(k.trace) + [linger, Syscall.Close(old(sock))]
                && err == ErrOf(k.answer(old(k.trace) + [linger], Syscall.Close(old(sock))))
    {
      var fd := sock;
      sock := -1;
      if fd > 0 {
        var _ := k.Invoke(SetSockOpt(fd, SOL_SOCKET, SO_LINGER, Some(LingerAbort(k.order))));
        var r := k.Invoke(Syscall.Close(fd));
        assert k.trace == old(k.trace) + [SetSockOpt(fd, SOL_SOCKET, SO_LINGER, Some(LingerAbort(k.order))), Syscall.Close(fd)];
        return ErrOf(r);
      }
      return Some(Errno(EBADFD));
    }

    /**
     * Close: EINVAL on a closed conn; otherwise an EOF message (its result
     * ignored), the descriptor swapped to -1, a shutdown and the close, whose
     * result is returned.
     */
    method Close(k: Kernel) returns (err: Option<Error>)
      modifies this, k
      ensures assoc == old(assoc)
      ensures !old(Ok()) ==> err == Some(Errno(EINVAL)) && k.trace == old(k.trace) && sock == old(sock)
      ensures old(Ok()) ==>
                && sock == -1
                && k.trace == old(k.trace) + CloseCalls(k.order, old(sock))
                && err == ErrOf(k.answer(old(k.trace) + [EofCall(k.order, old(sock)), Shutdown(old(sock), SHUT_RDWR)], Syscall.Close(old(sock))))
    {
      if !Ok() {
        return Some(Errno(EINVAL));
      }
      ghost var t0 := k.trace;
      var _, _ := SendMsg(k, [], Some(EofInfo));
      var fd := sock;
      ghost var eof := EofCall(k.order, fd);
      assert k.trace == t0 + [eof];
      sock := -1;
      var _ := k.Invoke(Shutdown(fd, SHUT_RDWR));
      ghost var t := k.trace;
      assert t == t0 + [eof, Shutdown(fd, SHUT_RDWR)];
      var r := k.Invoke(Syscall.Close(fd));
      assert CloseCalls(k.order, fd) == [eof, Shutdown(fd, SHUT_RDWR)] + [Syscall.Close(fd)];
      err := ErrOf(r);
    }

    /** Deadlines are not supported: ENOPROTOOPT, nothing changes. */
    method SetDeadline(deadline: int) returns (err: Option<Error>)
      ensures err == Some(Errno(ENOPROTOOPT))
    {
      return Some(Errno(ENOPROTOOPT));
    }

    method SetReadDeadline(deadline: int) returns (err: Option<Error>)
      ensures err == Some(Errno(ENOPROTOOPT))
    {
      return Some(Errno(ENOPROTOOPT));
    }

    method SetWriteDeadline(deadline: int) returns (err: Option<Error>)
      ensures err == Some(Errno(ENOPROTOOPT))
    {
      return Some(Errno(ENOPROTOOPT));
    }

    /** SetsockoptInt on SO_SNDBUF (no ok() guard): the size as a 32-bit int. */
    method SetWriteBufferSize(k: Kernel, size: int) returns (err: Option<Error>)
      modifies k
      ensures var c := SetSockOpt(sock, SOL_SOCKET, SO_SNDBUF, Some(PutI32(k.order, WrapInt32(size))));
              k.trace == old(k.trace) + [c] && err == ErrOf(k.answer(old(k.trace), c))
    {
      err := SetSockOptInt(k, sock, SOL_SOCKET, SO_SNDBUF, size);
    }

    /** GetsockoptInt on SO_SNDBUF: the 32-bit value in the kernel's record, returned even with an error. */
    method GetWriteBufferSize(k: Kernel) returns (size: int, err: Option<Error>)
      modifies k
      ensures var c := GetSockOpt(sock, SOL_SOCKET, SO_SNDBUF, PutI32(k.order, 0), [], 4);
              var r := k.answer(old(k.trace), c);
              k.trace == old(k.trace) + [c] && err == ErrOf(r)
              && size == GetI32(k.order, WrittenBack(PutI32(k.order, 0), r), 0)
    {
      size, err := GetSockOptInt(k, sock, SO_SNDBUF);
    }

    method SetReadBufferSize(k: Kernel, size: int) returns (err: Option<Error>)
      modifies k
      ensures var c := SetSockOpt(sock, SOL_SOCKET, SO_RCVBUF, Some(PutI32(k.order, WrapInt32(size))));
              k.trace == old(k.trace) + [c] && err == ErrOf(k.answer(old(k.trace), c))
    {
      err := SetSockOptInt(k, sock, SOL_SOCKET, SO_RCVBUF, size);
    }

    method GetReadBufferSize(k: Kernel) returns (size: int, err: Option<Error>)
      modifies k
      ensures var c := GetSockOpt(sock, SOL_SOCKET, SO_RCVBUF, PutI32(k.order, 0), [], 4);
              var r := k.answer(old(k.trace), c);
              k.trace == old(k.trace) + [c] && err == ErrOf(r)
              && size == GetI32(k.order, WrittenBack(PutI32(k.order, 0), r), 0)
    {
      size, err := GetSockOptInt(k, sock, SO_RCVBUF);
    }

    /** SCTP_EVENTS set without an ok() guard; a nil argument reaches the kernel as a NULL pointer. */
    method SetEventSubscribe(k: Kernel, events: Option<EventSubscribe>) returns (err: Option<Error>)
      modifies k
      ensures var c := SetSockOpt(sock, SOL_SCTP, SCTP_EVENTS, if events.Some? then Some(PackEventSubscribe(events.value)) else None);
              k.trace == old(k.trace) + [c] && err == ErrOf(k.answer(old(k.trace), c))
    {
      var value := if events.Some? then Some(PackEventSubscribe(events.value)) else None;
      var r := k.Invoke(SetSockOpt(sock, SOL_SCTP, SCTP_EVENTS, value));
      err := ErrOf(r);
    }

    /** SCTP_EVENTS read back into a zeroed record: nil and the error on failure. */
    method GetEventSubscribe(k: Kernel) returns (events: Option<EventSubscribe>, err: Option<Error>)
      modifies k
      ensures !Ok() ==> events.None? && err == Some(Errno(EINVAL)) && k.trace == old(k.trace)
      ensures Ok() ==>
                var c := GetSockOpt(sock, SOL_SCTP, SCTP_EVENTS, Zeros(EventSubscribeSize), [], EventSubscribeSize);
                var r := k.answer(old(k.trace), c);
                && k.trace == old(k.trace) + [c] && err == ErrOf(r)
                && (r.errno != 0 ==> events.None?)
                && (r.errno == 0 ==> events == Some(UnpackEventSubscribe(WrittenBack(Zeros(EventSubscribeSize), r))))
                && (r.errno == 0 && |r.data| == EventSubscribeSize ==> PackEventSubscribe(events.value) == r.data)
    {
      if !Ok() {
        return None, Some(Errno(EINVAL));
      }
      var arg := Zeros(EventSubscribeSize);
      var r := k.Invoke(GetSockOpt(sock, SOL_SCTP, SCTP_EVENTS, arg, [], EventSubscribeSize));
      if r.errno != 0 {
        return None, Some(Errno(r.errno));
      }
      var written := WrittenBack(arg, r);
      EventSubscribeRoundTrip(UnpackEventSubscribe(written), written);
      return Some(UnpackEventSubscribe(written)), None;
    }

    /** SCTP_INITMSG set behind the ok() guard; a nil argument reaches the kernel as a NULL pointer. */
    method SetInitMsg(k: Kernel, init: Option<InitMsg>) returns (err: Option<Error>)
      modifies k
      ensures !Ok() ==> err == Some(Errno(EINVAL)) && k.trace == old(k.trace)
      ensures Ok() ==>
                var c := SetSockOpt(sock, SOL_SCTP, SCTP_INITMSG, if init.Some? then Some(PackInitMsg(k.order, init.value)) else None);
                k.trace == old(k.trace) + [c] && err == ErrOf(k.answer(old(k.trace), c))
    {
      if !Ok() {
        return Some(Errno(EINVAL));
      }
      var value := if init.Some? then Some(PackInitMsg(k.order, init.value)) else None;
      var r := k.Invoke(SetSockOpt(sock, SOL_SCTP, SCTP_INITMSG, value));
      err := ErrOf(r);
    }

    /** SCTP_INITMSG read back into a zeroed record: nil and the error on failure. */
    method GetInitMsg(k: Kernel) returns (init: Option<InitMsg>, err: Option<Error>)
      modifies k
      ensures !Ok() ==> init.None? && err == Some(Errno(EINVAL)) && k.trace == old(k.trace)
      ensures Ok() ==>
                var c := GetSockOpt(sock, SOL_SCTP, SCTP_INITMSG, Zeros(InitMsgSize), [], InitMsgSize);
                var r := k.answer(old(k.trace), c);
                && k.trace == old(k.trace) + [c] && err == ErrOf(r)
                && (r.errno != 0 ==> init.None?)
                && (r.errno == 0 ==> init == Some(UnpackInitMsg(k.order, WrittenBack(Zeros(InitMsgSize), r))))
    {
      if !Ok() {
        return None, Some(Errno(EINVAL));
      }
      var arg := Zeros(InitMsgSize);
      var r := k.Invoke(GetSockOpt(sock, SOL_SCTP, SCTP_INITMSG, arg, [], InitMsgSize));
      if r.errno != 0 {
        return None, Some(Errno(r.errno));
      }
      return Some(UnpackInitMsg(k.order, WrittenBack(arg, r))), None;
    }

    /** SCTP_DEFAULT_SEND_PARAM set behind the ok() guard. */
    method SetDefaultSendParam(k: Kernel, param: Option<SndRcvInfo>) returns (err: Option<Error>)
      modifies k
      ensures !Ok() ==> err == Some(Errno(EINVAL)) && k.trace == old(k.trace)
      ensures Ok() ==>
                var c := SetSockOpt(sock, SOL_SCTP, SCTP_DEFAULT_SEND_PARAM, if param.Some? then Some(PackSndRcvInfo(k.order, param.value)) else None);
                k.trace == old(k.trace) + [c] && err == ErrOf(k.answer(old(k.trace), c))
    {
      if !Ok() {
        return Some(Errno(EINVAL));
      }
      var value := if param.Some? then Some(PackSndRcvInfo(k.order, param.value)) else None;
      var r := k.Invoke(SetSockOpt(sock, SOL_SCTP, SCTP_DEFAULT_SEND_PARAM, value));
      err := ErrOf(r);
    }

    /** SCTP_DEFAULT_SEND_PARAM read back into a zeroed record: nil and the error on failure. */
    method GetDefaultSendParam(k: Kernel) returns (param: Option<SndRcvInfo>, err: Option<Error>)
      modifies k
      ensures !Ok() ==> param.None? && err == Some(Errno(EINVAL)) && k.trace == old(k.trace)
      ensures Ok() ==>
                var c := GetSockOpt(sock, SOL_SCTP, SCTP_DEFAULT_SEND_PARAM, Zeros(SndRcvInfoSize), [], SndRcvInfoSize);
                var r := k.answer(old(k.trace), c);
                && k.trace == old(k.trace) + [c] && err == ErrOf(r)
                && (r.errno != 0 ==> param.None?)
                && (r.errno == 0 ==> param == Some(UnpackSndRcvInfo(k.order, WrittenBack(Zeros(SndRcvInfoSize), r), 0)))
    {
      if !Ok() {
        return None, Some(Errno(EINVAL));
      }
      var arg := Zeros(SndRcvInfoSize);
      var r := k.Invoke(GetSockOpt(sock, SOL_SCTP, SCTP_DEFAULT_SEND_PARAM, arg, [], SndRcvInfoSize));
      if r.errno != 0 {
        return None, Some(Errno(r.errno));
      }
      return Some(UnpackSndRcvInfo(k.order, WrittenBack(arg, r), 0)), None;
    }
  }

  /** syscall.SetsockoptInt: the value as a 4-byte int32. */
  method SetSockOptInt(k: Kernel, fd: int, level: int, name: int, value: int) returns (err: Option<Error>)
    modifies k
    ensures var c := SetSockOpt(fd, level, name, Some(PutI32(k.order, WrapInt32(value))));
            k.trace == old(k.trace) + [c] && err == ErrOf(k.answer(old(k.trace), c))
  {
    var r := k.Invoke(SetSockOpt(fd, level, name, Some(PutI32(k.order, WrapInt32(value)))));
    err := ErrOf(r);
  }

  /** syscall.GetsockoptInt: a zeroed int32 the kernel may overwrite, returned whatever the error. */
  method GetSockOptInt(k: Kernel, fd: int, name: int) returns (value: int, err: Option<Error>)
    modifies k
    ensures var c := GetSockOpt(fd, SOL_SOCKET, name, PutI32(k.order, 0), [], 4);
            var r := k.answer(old(k.trace), c);
            k.trace == old(k.trace) + [c] && err == ErrOf(r)
            && value == GetI32(k.order, WrittenBack(PutI32(k.order, 0), r), 0)
  {
    var arg := PutI32(k.order, 0);
    var r := k.Invoke(GetSockOpt(fd, SOL_SOCKET, name, arg, [], 4));
    return GetI32(k.order, WrittenBack(arg, r), 0), ErrOf(r);
  }

  // ---------------------------------------------------------------------
  // Peeling an association off a one-to-many socket

  /** The sctp_peeloff_arg_t SCTPPeelOff hands the kernel: the association id, Sd 0. */
  function PeelOffRecord(order: ByteOrder, assoc: int): (arg: bytes)
    ensures |arg| == PeelOffArgSize
  {
    PackPeelOffArg(order, PeelOffArg(WrapInt32(assoc), 0))
  }

  /** The sctp_peeloff_flags_arg_t SCTPPeelOffFlag hands the kernel: the plain record and the flags. */
  function PeelOffFlagsRecord(order: ByteOrder, assoc: int, flags: int): (arg: bytes)
    ensures |arg| == PeelOffFlagsArgSize
  {
    PackPeelOffFlagsArg(order, PeelOffFlagsArg(PeelOffArg(WrapInt32(assoc), 0), WrapUint32(flags)))
  }

  /** The Sd field of the record after getsockopt: the new descriptor. */
  function PeeledDescriptor(order: ByteOrder, arg: bytes, r: Reply): int32
    requires |arg| >= PeelOffArgSize
  {
    UnpackPeelOffArg(order, WrittenBack(arg, r)).sd
  }

  /**
   * The peeled conn gets exactly the descriptor the kernel writes into Sd,
   * and 0, the Sd the record started with, when the kernel writes nothing.
   */
  lemma PeeledDescriptorRule(order: ByteOrder, assoc: int, flags: int, r: Reply, id: int32, sd: int32, f: uint32)
    ensures |r.data| != PeelOffArgSize ==> PeeledDescriptor(order, PeelOffRecord(order, assoc), r) == 0
    ensures r.data == PackPeelOffArg(order, PeelOffArg(id, sd)) ==> PeeledDescriptor(order, PeelOffRecord(order, assoc), r) == sd
    ensures |r.data| != PeelOffFlagsArgSize ==> PeeledDescriptor(order, PeelOffFlagsRecord(order, assoc, flags), r) == 0
    ensures r.data == PackPeelOffFlagsArg(order, PeelOffFlagsArg(PeelOffArg(id, sd), f)) ==>
              PeeledDescriptor(order, PeelOffFlagsRecord(order, assoc, flags), r) == sd
  {
    var q := PeelOffFlagsArg(PeelOffArg(WrapInt32(assoc), 0), WrapUint32(flags));
    PeelOffArgRoundTrip(order, PeelOffArg(WrapInt32(assoc), 0), q);
    PeelOffArgRoundTrip(order, PeelOffArg(id, sd), PeelOffFlagsArg(PeelOffArg(id, sd), f));
  }

  /** SCTPPeelOff: one getsockopt; nil and the errno on failure, else a conn on the new descriptor. */
  method SCTPPeelOff(k: Kernel, sock: int, assoc: int) returns (conn: SCTPConn?, err: Option<Error>)
    modifies k
    ensures var arg := PeelOffRecord(k.order, assoc);
            var c := GetSockOpt(sock, IPPROTO_SCTP, SCTP_SOCKOPT_PEELOFF, arg, [], PeelOffArgSize);
            var r := k.answer(old(k.trace), c);
            && k.trace == old(k.trace) + [c] && err == ErrOf(r)
            && (r.errno != 0 ==> conn == null)
            && (r.errno == 0 ==> conn != null && fresh(conn)
                                 && conn.sock == PeeledDescriptor(k.order, arg, r) && conn.assoc == 0)
  {
    var arg := PeelOffRecord(k.order, assoc);
    var r := k.Invoke(GetSockOpt(sock, IPPROTO_SCTP, SCTP_SOCKOPT_PEELOFF, arg, [], PeelOffArgSize));
    if r.errno != 0 {
      return null, Some(Errno(r.errno));
    }
    conn := new SCTPConn(PeeledDescriptor(k.order, arg, r));
    err := None;
  }

  /** SCTPPeelOffFlag: flags 0 is SCTPPeelOff; otherwise the flags variant of the same call. */
  method SCTPPeelOffFlag(k: Kernel, sock: int, assoc: int, flags: int) returns (conn: SCTPConn?, err: Option<Error>)
    modifies k
    ensures flags == 0 ==>
              var arg := PeelOffRecord(k.order, assoc);
              var c := GetSockOpt(sock, IPPROTO_SCTP, SCTP_SOCKOPT_PEELOFF, arg, [], PeelOffArgSize);
              var r := k.answer(old(k.trace), c);
              && k.trace == old(k.trace) + [c] && err == ErrOf(r)
              && (r.errno != 0 ==> conn == null)
              && (r.errno == 0 ==> conn != null && fresh(conn)
                                   && conn.sock == PeeledDescriptor(k.order, arg, r) && conn.assoc == 0)
    ensures flags != 0 ==>
              var arg := PeelOffFlagsRecord(k.order, assoc, flags);
              var c := GetSockOpt(sock, IPPROTO_SCTP, SCTP_SOCKOPT_PEELOFF_FLAGS, arg, [], PeelOffFlagsArgSize);
              var r := k.answer(old(k.trace), c);
              && k.trace == old(k.trace) + [c] && err == ErrOf(r)
              && (r.errno != 0 ==> conn == null)
              && (r.errno == 0 ==> conn != null && fresh(conn)
                                   && conn.sock == PeeledDescriptor(k.order, arg, r) && conn.assoc == 0)
  {
    if flags == 0 {
      conn, err := SCTPPeelOff(k, sock, assoc);
      return;
    }
    var arg := PeelOffFlagsRecord(k.order, assoc, flags);
    var r := k.Invoke(GetSockOpt(sock, IPPROTO_SCTP, SCTP_SOCKOPT_PEELOFF_FLAGS, arg, [], PeelOffFlagsArgSize));
    if r.errno != 0 {
      return null, Some(Errno(r.errno));
    }
    conn := new SCTPConn(PeeledDescriptor(k.order, arg, r));
    err := None;
  }

  // ---------------------------------------------------------------------
  // DialSCTP

  /** The networks DialSCTP and ListenSCTP accept. */
  predicate SctpNetwork(network: string)
  {
    network == "sctp" || network == "sctp4" || network == "sctp6"
  }

  /** The socket DialSCTP opens: a stream socket of the network's family. */
  function DialSocketCall(network: string): Call
  {
    Socket(AddrFamily(network), SOCK_STREAM, IPPROTO_SCTP)
  }

  /** The two options every dialled socket gets first: SO_BROADCAST on, then the init message. */
  function DialOptionCalls(order: ByteOrder, fd: int, init: Option<InitMsg>): (cs: seq<Call>)
    ensures |cs| == 2 && !cs[0].Close? && !cs[1].Close?
  {
    [SetSockOpt(fd, SOL_SOCKET, SO_BROADCAST, Some(PutI32(order, 1))),
     SetSockOpt(fd, SOL_SCTP, SCTP_INITMSG, if init.Some? then Some(PackInitMsg(order, init.value)) else None)]
  }

  /** The bind a dial issues: the add-address setsockopt when a local address is given, else none. */
  function DialBindCalls(order: ByteOrder, fd: int, local: Option<SCTPAddr>): seq<Call>
  {
    if local.Some? then [BindAddCall(order, fd, local.value)] else []
  }

  /** The calls that close a failed dial's conn: those of the conn's Close, which has nothing to do on a descriptor that is not positive. */
  function ClosingCalls(order: ByteOrder, fd: int): seq<Call>
  {
    if fd > 0 then CloseCalls(order, fd) else []
  }

  /**
   * Every failure of an outcome is EINVAL found before any call, or the
   * error of the last call it issued, given the calls before it.
   */
  ghost predicate FailsAtLastCall(answer: (seq<Call>, Call) -> Reply, t: seq<Call>, o: Outcome)
  {
    o.err.Some? ==>
      o.err == Some(Errno(EINVAL)) || (|o.calls| > 0 && o.err == ErrOf(answer(t + o.calls[..|o.calls| - 1], o.calls[|o.calls| - 1])))
  }

  lemma AppendAssoc(a: seq<Call>, b: seq<Call>, c: seq<Call>)
    ensures a + b + c == a + (b + c)
  {
  }

  /** Issuing `before` and then `after`'s calls leaves `after`'s last call in the same place. */
  lemma LastCallAfter(t: seq<Call>, before: seq<Call>, after: seq<Call>)
    ensures var all := before + after;
            |after| > 0 ==> all[|all| - 1] == after[|after| - 1] && t + all[..|all| - 1] == t + before + after[..|after| - 1]
  {
    if |after| > 0 {
      assert (before + after)[..|before + after| - 1] == before + after[..|after| - 1];
    }
  }

  /**
   * SO_BROADCAST, then the init message behind the conn's ok() guard, up to
   * the first failure.
   */
  ghost function ConfigureOutcome(answer: (seq<Call>, Call) -> Reply, order: ByteOrder, t: seq<Call>, fd: int, init: Option<InitMsg>): Outcome
  {
    var options := DialOptionCalls(order, fd, init);
    var broadcast := answer(t, options[0]);
    if broadcast.errno != 0 then Outcome(options[..1], 0, ErrOf(broadcast))
    else if fd <= 0 then Outcome(options[..1], 0, Some(Errno(EINVAL)))
    else Outcome(options, 0, ErrOf(answer(t + options[..1], options[1])))
  }

  /**
   * The configuration issues SO_BROADCAST and then the init message, closes
   * nothing, succeeds only on an open descriptor with both calls issued, and
   * fails with EINVAL or the error of its last call.
   */
  lemma ConfigureOutcomeFacts(answer: (seq<Call>, Call) -> Reply, order: ByteOrder, t: seq<Call>, fd: int, init: Option<InitMsg>)
    ensures var o := ConfigureOutcome(answer, order, t, fd, init);
            && o.value == 0 && 0 < |o.calls| <= 2 && o.calls == DialOptionCalls(order, fd, init)[..|o.calls|]
            && ClosesNothing(o.calls)
            && (o.err.None? ==> fd > 0 && o.calls == DialOptionCalls(order, fd, init))
            && FailsAtLastCall(answer, t, o)
  {
    var options := DialOptionCalls(order, fd, init);
    assert t + options[..1][..0] == t && options[..2] == options;
  }

  /** The bind, when a local address is given, and the connect, up to the first failure. */
  ghost function AttachOutcome(answer: (seq<Call>, Call) -> Reply, order: ByteOrder, t: seq<Call>, fd: int, local: Option<SCTPAddr>, remote: SCTPAddr): Outcome
  {
    var bind := if local.Some? then BindOutcome(answer, order, t, fd, local.value, SCTP_BINDX_ADD_ADDR) else Outcome([], 0, None);
    if bind.err.Some? then bind
    else
      var connect := ConnectOutcome(answer, order, t + bind.calls, fd, remote);
      Outcome(bind.calls + connect.calls, connect.value, connect.err)
  }

  /**
   * The attach closes nothing and fails with EINVAL or the error of its last
   * call; when it succeeds it issued the bind (for a local address) and then
   * a connect that succeeded, whose association id it returns.
   */
  lemma AttachOutcomeFacts(answer: (seq<Call>, Call) -> Reply, order: ByteOrder, t: seq<Call>, fd: int, local: Option<SCTPAddr>, remote: SCTPAddr)
    ensures var o := AttachOutcome(answer, order, t, fd, local, remote);
            && ClosesNothing(o.calls)
            && FailsAtLastCall(answer, t, o)
            && (o.err.None? ==>
                  var connect := ConnectOutcome(answer, order, t + DialBindCalls(order, fd, local), fd, remote);
                  && o.calls == DialBindCalls(order, fd, local) + connect.calls
                  && connect.err.None? && connect.calls != [] && o.value == connect.value)
  {
    var bind := if local.Some? then BindOutcome(answer, order, t, fd, local.value, SCTP_BINDX_ADD_ADDR) else Outcome([], 0, None);
    if local.Some? {
      BindOutcomeFacts(answer, order, t, fd, local.value, SCTP_BINDX_ADD_ADDR);
    }
    var o := AttachOutcome(answer, order, t, fd, local, remote);
    if bind.err.Some? {
      assert o == bind;
      if bind.calls != [] {
        assert t + bind.calls[..0] == t;
      }
    } else {
      assert bind.calls == DialBindCalls(order, fd, local);
      var connect := ConnectOutcome(answer, order, t + bind.calls, fd, remote);
      ConnectOutcomeFacts(answer, order, t + bind.calls, fd, remote);
      assert o == Outcome(bind.calls + connect.calls, connect.value, connect.err);
      LastCallAfter(t, bind.calls, connect.calls);
      ClosesNothingConcat(bind.calls, connect.calls);
    }
  }

  /**
   * DialSCTP after the socket `fd` is open, up to the first failure and
   * before the conn is closed: SO_BROADCAST, the init message, the bind when
   * a local address is given, the connect.
   */
  ghost function DialSteps(answer: (seq<Call>, Call) -> Reply, order: ByteOrder, t: seq<Call>, fd: int,
                           local: Option<SCTPAddr>, remote: SCTPAddr, init: Option<InitMsg>): Outcome
  {
    var configure := ConfigureOutcome(answer, order, t, fd, init);
    if configure.err.Some? then configure
    else
      var attach := AttachOutcome(answer, order, t + configure.calls, fd, local, remote);
      Outcome(configure.calls + attach.calls, attach.value, attach.err)
  }

  /**
   * Nothing in a dial's steps closes a descriptor; a failure is EINVAL or
   * the error of the last call issued; a success is every call in order,
   * on an open descriptor, with the association id the connect returned.
   */
  lemma DialStepsFacts(answer: (seq<Call>, Call) -> Reply, order: ByteOrder, t: seq<Call>, fd: int,
                       local: Option<SCTPAddr>, remote: SCTPAddr, init: Option<InitMsg>)
    ensures var o := DialSteps(answer, order, t, fd, local, remote, init);
            && ClosesNothing(o.calls)
            && FailsAtLastCall(answer, t, o)
            && (o.err.None? ==>
                  var before := t + DialOptionCalls(order, fd, init) + DialBindCalls(order, fd, local);
                  var connect := ConnectOutcome(answer, order, before, fd, remote);
                  && fd > 0
                  && o.calls == DialOptionCalls(order, fd, init) + DialBindCalls(order, fd, local) + connect.calls
                  && connect.err.None? && connect.calls != [] && o.value == connect.value)
  {
    var configure := ConfigureOutcome(answer, order, t, fd, init);
    ConfigureOutcomeFacts(answer, order, t, fd, init);
    if configure.err.None? {
      var attach := AttachOutcome(answer, order, t + configure.calls, fd, local, remote);
      AttachOutcomeFacts(answer, order, t + configure.calls, fd, local, remote);
      LastCallAfter(t, configure.calls, attach.calls);
      ClosesNothingConcat(configure.calls, attach.calls);
    }
  }

  /**
   * DialSCTP: an unknown network or a nil remote address is an OpError
   * before any call. Otherwise a socket is created; if that fails its errno
   * is the answer. Then come the steps of DialSteps; the first failure
   * closes the conn through its Close and returns that step's error, and a
   * conn is returned only when every step succeeded, holding the new
   * descriptor and the association id of the connect.
   */
  method DialSCTP(k: Kernel, network: string, local: Option<SCTPAddr>, remote: Option<SCTPAddr>, init: Option<InitMsg>)
      returns (conn: SCTPConn?, err: Option<Error>)
    modifies k
    ensures conn != null <==> err.None?
    ensures !SctpNetwork(network) ==>
              && err == Some(OpError("dial", network, local, remote, AddrFailure(UnknownNetworkError(network))))
              && k.trace == old(k.trace)
    ensures SctpNetwork(network) && remote.None? ==>
              && err == Some(OpError("dial", network, local, None, AddrFailure(InvalidAddrError("invalid remote addr"))))
              && k.trace == old(k.trace)
    ensures SctpNetwork(network) && remote.Some? ==>
              var t := old(k.trace) + [DialSocketCall(network)];
              var r := k.answer(old(k.trace), DialSocketCall(network));
              var o := DialSteps(k.answer, k.order, t, r.ret, local, remote.value, init);
              && (r.errno != 0 ==> k.trace == t && err == Some(Errno(r.errno)))
              && (r.errno == 0 && o.err.Some? ==> k.trace == t + o.calls + ClosingCalls(k.order, r.ret) && err == o.err)
              && (r.errno == 0 && o.err.None? ==>
                    && k.trace == t + o.calls && fresh(conn) && conn.sock == r.ret && conn.assoc == o.value)
  {
    if !SctpNetwork(network) {
      return null, Some(OpError("dial", network, local, remote, AddrFailure(UnknownNetworkError(network))));
    }
    if remote.None? {
      return null, Some(OpError("dial", network, local, remote, AddrFailure(InvalidAddrError("invalid remote addr"))));
    }
    var sock;
    sock, err := SCTPSocket(k, AddrFamily(network), SOCK_STREAM);
    if err.Some? {
      return null, err;
    }
    conn, err := DialOpened(k, sock, local, remote.value, init);
  }

  /** DialSCTP once the socket is open: the steps, and the conn's Close after a failed one. */
  method DialOpened(k: Kernel, sock: int, local: Option<SCTPAddr>, remote: SCTPAddr, init: Option<InitMsg>)
      returns (conn: SCTPConn?, err: Option<Error>)
    modifies k
    ensures var o := DialSteps(k.answer, k.order, old(k.trace), sock, local, remote, init);
            && err == o.err
            && (o.err.Some? ==> conn == null && k.trace == old(k.trace) + o.calls + ClosingCalls(k.order, sock))
            && (o.err.None? ==> conn != null && fresh(conn) && conn.sock == sock && conn.assoc == o.value
                                && k.trace == old(k.trace) + o.calls)
  {
    conn := new SCTPConn(sock);
    err := DialSetUp(k, conn, local, remote, init);
    if err.Some? {
      CloseFailed(k, conn);
      return null, err;
    }
  }

  /** The steps on the open conn: the configuration, then the bind and the connect unless it failed. */
  method DialSetUp(k: Kernel, conn: SCTPConn, local: Option<SCTPAddr>, remote: SCTPAddr, init: Option<InitMsg>) returns (err: Option<Error>)
    modifies k, conn
    ensures conn.sock == old(conn.sock)
    ensures var o := DialSteps(k.answer, k.order, old(k.trace), conn.sock, local, remote, init);
            k.trace == old(k.trace) + o.calls && err == o.err && (err.None? ==> conn.assoc == o.value)
  {
    ghost var t := k.trace;
    ghost var configure := ConfigureOutcome(k.answer, k.order, t, conn.sock, init);
    err := DialConfigure(k, conn, init);
    if err.Some? {
      return;
    }
    ghost var configured := k.trace;
    ghost var attach := AttachOutcome(k.answer, k.order, configured, conn.sock, local, remote);
    err := DialAttach(k, conn, local, remote);
    AppendAssoc(t, configure.calls, attach.calls);
  }

  /** `_ = conn.Close()` after a failed step: the calls of Close, its result dropped. */
  method CloseFailed(k: Kernel, conn: SCTPConn)
    modifies k, conn
    ensures k.trace == old(k.trace) + ClosingCalls(k.order, old(conn.sock))
  {
    var _ := conn.Close(k);
  }

  /** SO_BROADCAST, then the init message through the conn's SetInitMsg. */
  method DialConfigure(k: Kernel, conn: SCTPConn, init: Option<InitMsg>) returns (err: Option<Error>)
    modifies k
    ensures var o := ConfigureOutcome(k.answer, k.order, old(k.trace), conn.sock, init);
            k.trace == old(k.trace) + o.calls && err == o.err
  {
    ghost var options := DialOptionCalls(k.order, conn.sock, init);
    err := SetSockOptInt(k, conn.sock, SOL_SOCKET, SO_BROADCAST, 1);
    assert options[..1] == [options[0]];
    if err.Some? {
      return;
    }
    err := conn.SetInitMsg(k, init);
    assert options[..2] == options;
  }

  /** The bind (when a local address is given) and the connect, whose association id the conn keeps. */
  method DialAttach(k: Kernel, conn: SCTPConn, local: Option<SCTPAddr>, remote: SCTPAddr) returns (err: Option<Error>)
    modifies k, conn
    ensures conn.sock == old(conn.sock)
    ensures var o := AttachOutcome(k.answer, k.order, old(k.trace), conn.sock, local, remote);
            k.trace == old(k.trace) + o.calls && err == o.err && (err.None? ==> conn.assoc == o.value)
  {
    ghost var t := k.trace;
    ghost var bind := if local.Some? then BindOutcome(k.answer, k.order, t, conn.sock, local.value, SCTP_BINDX_ADD_ADDR) else Outcome([], 0, None);
    if local.Some? {
      err := SCTPBind(k, conn.sock, local.value, SCTP_BINDX_ADD_ADDR);
      if err.Some? {
        return;
      }
    }
    ghost var bound := k.trace;
    assert bound == t + bind.calls;
    ghost var connect := ConnectOutcome(k.answer, k.order, bound, conn.sock, remote);
    conn.assoc, err := SCTPConnect(k, conn.sock, remote);
    AppendAssoc(t, bind.calls, connect.calls);
  }
}
