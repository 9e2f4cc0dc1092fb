/**
 * The operating system underneath the binding, as Go's `syscall` package
 * presents it. The kernel is an oracle: every system call is appended to a
 * log and answered by a fixed function of the log so far, so each code path
 * above it can be followed whatever the kernel decides. Errors travel as Go
 * `error` values, `None` standing for nil.
 *
 * Constants are the Linux x86-64 values.
 */
module Syscall {
  import opened Base
  import opened Wire
  import opened Structs
  import opened Addr

  // errno values
  const EINTR: nat := 4
  const EINVAL: nat := 22
  const EBADFD: nat := 77
  const ENOPROTOOPT: nat := 92
  const EINPROGRESS: nat := 115

  // socket(2) and setsockopt(2) vocabulary
  const SOCK_STREAM: int := 1
  const SOCK_DGRAM: int := 2
  const SOL_SOCKET: int := 1
  const SO_REUSEADDR: int := 2
  const SO_TYPE: int := 3
  const SO_BROADCAST: int := 6
  const SO_SNDBUF: int := 7
  const SO_RCVBUF: int := 8
  const SO_LINGER: int := 13
  const IPPROTO_IPV6: int := 41
  const IPV6_V6ONLY: int := 26
  const SHUT_RDWR: int := 2
  const SOMAXCONN: int := 128

  // epoll(7) vocabulary
  const EPOLL_CTL_ADD: int := 1
  const EPOLL_CTL_DEL: int := 2
  const EPOLLIN: int := 1

  /**
   * One system call with the arguments the kernel sees. A pointer argument
   * appears as the bytes it points to, `None` being the NULL pointer; for
   * getsockopt, `arg` is the record the kernel may overwrite and `pointee`
   * the memory a pointer inside that record refers to.
   */
  datatype Call =
    | Socket(family: int, typ: int, protocol: int)
    | SetSockOpt(fd: int, level: int, name: int, value: Option<bytes>)
    | GetSockOpt(fd: int, level: int, name: int, arg: bytes, pointee: bytes, optlen: int)
    | SendMsg(fd: int, data: bytes, control: bytes, flags: int)
    | RecvMsg(fd: int, capacity: nat, oobCapacity: nat, flags: int)
    | Accept4(fd: int, flags: int)
    | Listen(fd: int, backlog: int)
    | Shutdown(fd: int, how: int)
    | Close(fd: int)
    | SetNonblock(fd: int)
    | EpollCreate1(flags: int)
    | EpollCtl(epfd: int, op: int, fd: int, events: int)
    | EpollWait(epfd: int, maxEvents: nat, timeoutMs: int)

  /**
   * The kernel's answer: the return register and errno (0 on success), the
   * bytes it wrote back (getsockopt record, received data, received control
   * data), the received message flags and the ready descriptors of a wait.
   */
  datatype Reply = Reply(ret: int, errno: nat, data: bytes, oob: bytes, flags: int, ready: seq<int>)

  /**
   * A Go `error`: a bare errno, an `errors.New` text, an address error from
   * the net package, or a `net.OpError` naming the operation, the network and
   * the local and remote addresses involved.
   */
  datatype Error =
    | Errno(code: nat)
    | Failure(text: string)
    | AddrFailure(reason: AddrError)
    | OpError(op: string, network: string, source: Option<SCTPAddr>, addr: Option<SCTPAddr>, cause: Error)

  class Kernel {
    /** Every call issued so far, oldest first. */
    var trace: seq<Call>
    /** How the kernel answers a call, given the calls before it. */
    const answer: (seq<Call>, Call) -> Reply
    /** The host byte order. */
    const order: ByteOrder

    constructor (order: ByteOrder, answer: (seq<Call>, Call) -> Reply)
      ensures this.order == order && this.answer == answer && trace == []
    {
      this.order := order;
      this.answer := answer;
      trace := [];
    }

    /** Issues one call: it joins the log and the oracle answers it. */
    method Invoke(c: Call) returns (r: Reply)
      modifies this
      ensures trace == old(trace) + [c]
      ensures r == answer(old(trace), c)
    {
      r := answer(trace, c);
      trace := trace + [c];
    }
  }

  /** What the raw call hands back in its first register: -1 on failure. */
  function Ret(r: Reply): (v: int)
    ensures r.errno != 0 ==> v == -1
    ensures r.errno == 0 ==> v == r.ret
  {
    if r.errno != 0 then -1 else r.ret
  }

  /** The `error` a wrapper returns: nil exactly when errno is 0. */
  function ErrOf(r: Reply): (e: Option<Error>)
    ensures e.None? <==> r.errno == 0
    ensures e.Some? ==> e.value == Errno(r.errno)
  {
    if r.errno != 0 then Some(Errno(r.errno)) else None
  }

  /** The record after getsockopt: the kernel's bytes when it wrote a full record, else what was there. */
  function WrittenBack(arg: bytes, r: Reply): (s: bytes)
    ensures |s| == |arg|
    ensures s == arg || s == r.data
  {
    if |r.data| == |arg| then r.data else arg
  }

  /** The first `capacity` bytes of what the kernel delivered: all that fits the caller's buffer. */
  function Received(delivered: bytes, capacity: nat): (s: bytes)
    ensures |s| <= capacity && s <= delivered
    ensures |delivered| <= capacity ==> s == delivered
  {
    if |delivered| <= capacity then delivered else delivered[..capacity]
  }

  // ---------------------------------------------------------------------
  // Ancillary data (64-bit Linux: 16-byte cmsghdr, 8-byte alignment)

  /** cmsgAlignOf: rounds up to a multiple of 8. */
  function CmsgAlign(n: nat): (a: nat)
    ensures n <= a < n + 8 && a % 8 == 0
  {
    (n + 7) / 8 * 8
  }

  /** CmsgSpace: room for a header and an `n`-byte payload. */
  function CmsgSpace(n: nat): (s: nat)
    ensures s == CmsghdrSize + CmsgAlign(n)
  {
    CmsgAlign(CmsghdrSize) + CmsgAlign(n)
  }

  datatype ControlMessage = ControlMessage(header: Cmsghdr, data: bytes)

  /**
   * ParseSocketControlMessage: while a whole header fits, read it; a length
   * below the header size or past the buffer is EINVAL; the payload runs from
   * the header to its length, and the next header starts at the aligned
   * length.
   */
  function ParseSocketControlMessage(order: ByteOrder, b: bytes): (r: Result<seq<ControlMessage>, Error>)
    decreases |b|
    ensures r.Err? ==> r.error == Errno(EINVAL)
    ensures |b| < CmsghdrSize ==> r == Ok([])
    ensures r.Ok? && r.value != [] ==> r.value[0].header == UnpackCmsghdr(order, b, 0)
    ensures r.Ok? ==> forall m :: m in r.value ==> |m.data| + CmsghdrSize == m.header.len
  {
    if |b| < CmsghdrSize then Ok([])
    else
      var h := UnpackCmsghdr(order, b, 0);
      if h.len < CmsghdrSize || h.len > |b| then Err(Errno(EINVAL))
      else
        var m := ControlMessage(h, b[CmsghdrSize..h.len]);
        var next := CmsgAlign(h.len);
        var rest := if next <= |b| then b[next..] else [];
        match ParseSocketControlMessage(order, rest)
        case Err(e) => Err(e)
        case Ok(ms) => Ok([m] + ms)
  }
}
