# sctp-go in Dafny

A model of `sctp_go`, a Go binding to the Linux SCTP socket API
(one-to-one and one-to-many sockets, `sctp_bindx`, `sctp_connectx`,
peel-off, SCTP notifications and the `SCTP_SNDRCV` ancillary data), together
with the small epoll poller shipped beside it.

The binding is a thin layer over system calls and over the binary layout of
the kernel's C records, and the model follows that split:

- `Base`, `Wire` — fixed-width integers, byte sequences, and encoding
  integers in a byte order (Go's `binary.Write`/`binary.Read` with the
  package's `endian`). The host byte order is a parameter (`ByteOrder`),
  so every property holds on little- and big-endian hosts alike.
- `Endian` — `endian.go` and `htons`/`ntohs`.
- `Structs` — the C records of `sctp_structs.go` as datatypes with
  pack/unpack pairs, including `SCTPPeerAddrParams.Pack`/`Unpack`.
- `Addr` — `sctp_addr.go`: `SCTPAddr`, its parsing from `"host/host:port"`
  text, its encoding into the packed `sockaddr` array handed to
  `sctp_bindx`/`sctp_connectx`, and its decoding from `sctp_getladdrs`-style
  buffers and from `sockaddr_storage`.
- `Notifications` — the thirteen notification records and
  `ParseNotification`/`NotificationName`.
- `Syscall` — the kernel as seen through Go's `syscall` package. The kernel
  is an oracle: the class `Kernel` keeps the log of every call issued
  (`trace`) and answers each call with a fixed function of the log so far,
  so every code path above it is followed whatever the kernel decides.
  It also holds `ParseSocketControlMessage`, the standard-library parser
  that `ParseSndRcvInfo` relies on.
- `Sctp` — the free functions of `sctp.go` (`SCTPSocket`, `SCTPBind`,
  `SCTPConnect`, `SCTPSendMsg`, `ParseSndRcvInfo`, `AddrFamily`).
- `Conn` — `sctp_conn.go`: the class `SCTPConn` whose descriptor `Abort`
  and `Close` swap to -1, its message and option methods, the peel-off
  functions and `DialSCTP`.
- `Listener` — `sctp_listener.go`: `SCTPListener` (a value: none of its
  methods changes it) and `ListenSCTP`.
- `Epoll` — `epoll.go`: the class `Poller` with its descriptor, its
  descriptor-to-callback registry and a record of the callbacks run.

Every system call wrapper states the exact call appended to the kernel's
log and how the reply becomes the Go results (`Ret` is -1 on failure,
`ErrOf` is nil exactly when errno is 0). Multi-step operations (`DialSCTP`,
`ListenSCTP`) state the exact calls issued up to the first failure, the
error returned (that of the failing call, or EINVAL found before a call),
the calls that close a descriptor opened on the way, and on success what
the returned object holds. Receives state the bytes delivered into the
caller's buffer as well as the count, flags and `sctp_sndrcvinfo`.

## Model

| member | source | states |
|---|---|---|
| Base.WrapInt32 | sctp_conn.go:220-222 | Go's `int` to C `int` truncation: identity on the 32-bit range, and always congruent modulo 2^32 |
| Base.WrapUint32 | sctp_structs.go:151-155 | truncation to `uint32`: identity in range, congruent modulo 2^32 |
| Base.WrapUint16 | sctp_addr.go:86-108 | `uint16(addr.port)`: identity on 0..65535, congruent modulo 2^16 |
| Wire.LERoundTrip | sctp.go:53-59 | reading back a little-endian encoding of a value that fits gives the value |
| Wire.BERoundTrip | sctp.go:53-59 | same for big-endian |
| Wire.LEOfFromLE | sctp.go:53-59 | re-encoding what was read from any byte string gives the same bytes |
| Wire.BEOfFromBE | sctp.go:53-59 | same for big-endian |
| Wire.LESplit | sctp.go:53-59 | the encoding of a wide value is the low part's encoding followed by the high part's |
| Wire.BESplit | sctp.go:53-59 | for big-endian the high part comes first |
| Wire.BEIsReversedLE | sctp.go:53-59 | the big-endian bytes are the little-endian bytes reversed |
| Wire.EncodeDecode | sctp.go:53-59 | `binary.Read` undoes `binary.Write` in either byte order |
| Wire.DecodeEncode | sctp.go:53-59 | `binary.Write` undoes `binary.Read` on any byte string |
| Wire.Int32OfUnsigned | sctp.go:53-59 | two's complement: the signed value whose unsigned image is the given word |
| Wire.GetPutU16 | sctp.go:53-59 | a 16-bit field written anywhere in a buffer reads back unchanged |
| Wire.GetPutU32 | sctp.go:53-59 | same for 32-bit fields |
| Wire.GetPutU64 | sctp.go:53-59 | same for 64-bit fields |
| Wire.GetPutI32 | sctp.go:53-59 | same for signed 32-bit fields |
| Wire.PutGetU16 | sctp.go:53-59 | re-writing a field read from a buffer reproduces those bytes |
| Wire.PutGetU32 | sctp.go:53-59 | same for 32-bit fields |
| Wire.PutGetI32 | sctp.go:53-59 | same for signed 32-bit fields |
| Endian.Swap16Involution | endian.go:7-12 | swapping the two bytes twice is the identity |
| Endian.Swap16Bytes | endian.go:7-12 | the swapped value's little-endian bytes are the value's big-endian bytes |
| Endian.HostToNetworkShortBytes | endian.go:7-12 | on either host the result, stored in host order, is the value in network order |
| Endian.ShortRoundTrip | endian.go:14-19 | NetworkToHostShort and HostToNetworkShort are inverse to each other |
| Endian.HtonsNtohs | sctp.go:21-33 | `htons` is HostToNetworkShort, `ntohs` undoes it both ways, and the port lands in network order |
| Endian.HostToNetworkBytes | endian.go:21-26 | a 32-bit value stored in host order after HostToNetwork is its network-order encoding |
| Endian.HostToNetworkReverses | endian.go:21-26 | on a little-endian host HostToNetwork reverses the four bytes |
| Endian.LongRoundTrip32 | endian.go:28-33 | NetworkToHost undoes HostToNetwork |
| Endian.HostToNetworkLongBytes | endian.go:35-40 | a 64-bit value stored in host order after HostToNetworkLong is its network-order encoding |
| Endian.HostToNetworkLongReverses | endian.go:35-40 | on a little-endian host HostToNetworkLong reverses the eight bytes |
| Endian.NetworkToHostShortIsSwap | endian.go:14-19 | the 16-bit conversions are the same function in both directions |
| Endian.NetworkToHostIsSwap | endian.go:28-33 | the 32-bit conversions are the same function in both directions |
| Endian.NetworkToHostLongIsSwap | endian.go:42-47 | the 64-bit conversions are the same function in both directions |
| Endian.SameBytesSameLong | endian.go:35-40 | two 64-bit values with the same bytes are equal |
| Endian.LongBytesRoundTrip | endian.go:35-40 | swapping a 64-bit value twice gives back its bytes |
| Endian.LongRoundTrip64 | endian.go:42-47 | NetworkToHostLong undoes HostToNetworkLong |
| Endian.BigEndianIdentity | endian.go:7-47 | on a big-endian host all six conversions are the identity |
| Structs.PackSndRcvInfo | sctp_structs.go:86-97 | the record is 32 bytes and the two padding bytes after `flags` are zero |
| Structs.SndRcvInfoRoundTrip | sctp_structs.go:86-97 | a packed `sctp_sndrcvinfo` embedded anywhere in a buffer reads back field for field |
| Structs.SndRcvInfoUnpackPack | sctp_structs.go:86-97 | unpacking a packed record gives the record |
| Structs.SndRcvInfoBytes | sctp_structs.go:86-97 | any 32 bytes with zero padding are the packing of what they unpack to |
| Structs.EventSubscribeRoundTrip | sctp_structs.go:158-172 | the 13 one-byte switches pack and unpack as inverses in both directions |
| Structs.InitMsgRoundTrip | sctp_structs.go:78-83 | `sctp_initmsg` reads back after packing |
| Structs.PackPeelOffFlagsArg | sctp_structs.go:193-196 | the flags record starts with the plain peel-off record |
| Structs.PeelOffArgRoundTrip | sctp_structs.go:187-196 | both peel-off records read back after packing |
| Structs.SockAddrInRoundTrip | sctp_structs.go:54-59 | a packed `sockaddr_in` reads back anywhere in a buffer |
| Structs.SockAddrIn6RoundTrip | sctp_structs.go:45-52 | a packed `sockaddr_in6` reads back anywhere in a buffer |
| Structs.CmsghdrRoundTrip | sctp_structs.go:28-32 | a packed `cmsghdr` reads back anywhere in a buffer |
| Structs.GetAddrsHeaderRoundTrip | sctp_structs.go:151-155 | the association id and address count of an `sctp_getaddrs` header read back |
| Structs.PackPeerAddrParams | sctp_structs.go:587-600 | `Pack` yields 156 bytes with a zero last byte, and the full decoder reads back every field |
| Structs.UnpackPeerAddrParams | sctp_structs.go:603-616 | the intended `Unpack`: a buffer of the wrong length leaves the record unchanged |
| Structs.PeerAddrParamsRoundTrip | sctp_structs.go:587-616 | the intended `Unpack` of the 156 bytes that `Pack` produces (`PeerAddrParamsBytes`, independent of the decoder) gives back the packed record, whatever record it starts from |
| Structs.UnpackAsWrittenIgnoresData | sctp_structs.go:603-616 | as written, `Unpack` leaves the record unchanged even when given a buffer encoding a different record |
| Addr.To16 | sctp_addr.go:38-45 | `net.IP.To16` succeeds exactly on 4- and 16-byte addresses and yields 16 bytes |
| Addr.To4Accepts | sctp_addr.go:47-54 | `To4` succeeds exactly on 4-byte and IPv4-mapped addresses and yields the last four bytes |
| Addr.To4To16 | sctp_addr.go:86-108 | for IPv4 addresses `To4` and `To16` agree with each other |
| Addr.IPv4zeroIsV4 | sctp_addr.go:207-215 | `IPv4zero` is IPv4, `IPv6zero` is not, and both have a 16-byte form |
| Addr.IsV6Only | sctp_addr.go:38-45 | true exactly when every address has a 16-byte form |
| Addr.IsV4Only | sctp_addr.go:47-54 | true exactly when every address has a 4-byte form |
| Addr.LastIndex | sctp_addr.go:187 | `strings.LastIndex`: -1 exactly when the character is absent, else its last position |
| Addr.Split | sctp_addr.go:188 | `strings.Split`: at least one piece, no piece holds the separator, and joining gives the input back |
| Addr.DecimalValue | sctp_addr.go:199 | the decimal digits of a number read back as the number |
| Addr.LookupPort | sctp_addr.go:199-204 | `net.LookupPort` on numbers: an empty service is port 0, a result is within 0..65535, and a service lookup (refused: `UnknownNetwork`) is asked for exactly when a character other than a leading sign is not a digit |
| Addr.LookupPortDecimal | sctp_addr.go:199 | every port number written in decimal is accepted as that port |
| Addr.NormalizeNetwork | sctp_addr.go:168-177 | `""` means `sctp`, the three SCTP networks are kept, anything else is unknown |
| Addr.NormalizeNetworkName | sctp_addr.go:168-177 | each network's name normalises to itself |
| Addr.KeepSegment | sctp_addr.go:205-222 | an empty segment is the wildcard of the network; otherwise the parsed address survives only when it fits the network |
| Addr.SurvivorsFit | sctp_addr.go:205-222 | at most one address per segment survives and every survivor fits the network |
| Addr.SurvivorsAppend | sctp_addr.go:205-222 | segments are filtered independently, in order |
| Addr.CollectSurvivors | sctp_addr.go:205-222 | the loop collects exactly the surviving addresses |
| Addr.MakeSCTPAddr | sctp_addr.go:167-234 | the result is the parse defined by the rules below |
| Addr.UnknownNetworkRule | sctp_addr.go:168-177 | an unknown network is an `UnknownNetworkError` whatever the address |
| Addr.MissingPortRule | sctp_addr.go:179-184 | with a known network, the error is "missing port" exactly when there is no `:` |
| Addr.ParsedAddrShape | sctp_addr.go:167-234 | a successful parse has a `:`, a valid port and at least one address, each fitting the network |
| Addr.InvalidAddrRule | sctp_addr.go:227-229 | with a valid port, `InvalidAddrError` exactly when no segment survives |
| Addr.OneSegmentParse | sctp_addr.go:167-234 | `host:service` with a fitting host parses to that one address and port |
| Addr.TwoSegmentParse | sctp_addr.go:167-234 | `a/b:service` with two fitting hosts parses to both, in order |
| Addr.SockaddrBytesLength | sctp_addr.go:86-108 | the packed array is 16 bytes per IPv4 and 28 per IPv6 address |
| Addr.MakeSockaddr | sctp_addr.go:86-108 | the loop produces the concatenation of one `sockaddr` record per usable address |
| Addr.SockaddrRecordFields | sctp_addr.go:86-108 | each record carries the right family, the port in network order and the address |
| Addr.ReadRecord | sctp_addr.go:143-160 | a record read has the size of `sockaddr_in` or `sockaddr_in6` and fits in the buffer |
| Addr.FromSCTPGetAddrs | sctp_addr.go:137-165 | nil gives nil; otherwise the walk decodes `Num` records, failing on an unknown family |
| Addr.ReadRecordOfRecord | sctp_addr.go:143-160 | a record written by `MakeSockaddr` reads back as its address and port |
| Addr.DecodeSockaddrBytes | sctp_addr.go:137-165 | the decoder reads back the whole `MakeSockaddr` array, each address in canonical form |
| Addr.FromSCTPGetAddrsRoundTrip | sctp_addr.go:137-165 | an `sctp_getaddrs` buffer holding `MakeSockaddr`'s array decodes to the same addresses and port |
| Addr.CanonicalSameAddress | sctp_addr.go:137-165 | the canonical form is the same address |
| Addr.FromSockAddrStorage | sctp_addr.go:110-135 | nil or an unknown family gives nil; IPv4 and IPv6 give one address, read at the family's offset, and a port in range |
| Addr.FromSockAddrStorageRoundTrip | sctp_addr.go:110-135 | a record written by `MakeSockaddr`, placed in a `sockaddr_storage`, reads back as its address and port |
| Addr.FromSockAddrStorageAsWritten | sctp_addr.go:110-135 | as written: same result, but the shared `IPv6zero` is changed whenever an IPv6 address is read |
| Addr.IPv6zeroOverwritten | sctp_addr.go:124-126 | reading `::1` leaves `IPv6zero` holding `::1` |
| Notifications.PackHeader | sctp_structs.go:209-213 | the notification header is 8 bytes |
| Notifications.PackNotification | sctp_structs.go:199 | every notification fits the 148-byte `sctp_notification` union and begins with its header |
| Notifications.ParseDataIOEvent | sctp.go:233-243 | succeeds exactly when the header fits, else `TooSmall`; the header is read from the data |
| Notifications.ParseAssocChangeEvent | sctp.go:246-261 | succeeds exactly when the record fits, else `TooSmall`; kind and header as read |
| Notifications.ParsePeerAddrChangeEvent | sctp.go:264-282 | same for `sctp_paddr_change` |
| Notifications.ParseSendFailedEvent | sctp.go:285-298 | same for `sctp_send_failed` |
| Notifications.ParseRemoteErrorEvent | sctp.go:301-313 | same for `sctp_remote_error` |
| Notifications.ParseShutdownEvent | sctp.go:316-327 | same for `sctp_shutdown_event` |
| Notifications.ParsePartialDeliveryEvent | sctp.go:330-344 | same for `sctp_pdapi_event` |
| Notifications.ParseAdaptationIndicationEvent | sctp.go:347-359 | same for `sctp_adaptation_event` |
| Notifications.ParseAuthenticationEvent | sctp.go:362-376 | same for `sctp_authkey_event` |
| Notifications.ParseSenderDryEvent | sctp.go:379-390 | same for `sctp_sender_dry_event` |
| Notifications.ParseStreamResetEvent | sctp.go:393-404 | same for `sctp_stream_reset_event` |
| Notifications.ParseAssocResetEvent | sctp.go:407-420 | same for `sctp_assoc_reset_event` |
| Notifications.ParseStreamChangeEvent | sctp.go:423-436 | same for `sctp_stream_change_event` |
| Notifications.NotificationName | sctp.go:439-456 | empty exactly for unknown types; known types have an `SCTP_` name |
| Notifications.NotificationNamesDistinct | sctp.go:439-456 | different known types have different names |
| Notifications.ParserFor | sctp.go:459-486 | the per-type parser fails only with `TooSmall` and its result fits the data |
| Notifications.ParseNotification | sctp.go:459-486 | shorter than a header is `TooSmall`, longer than 148 bytes is `TooLarge`, an unknown type is `InvalidType`, else the type's parser |
| Notifications.HeaderRoundTrip | sctp_structs.go:209-213 | a packed header reads back |
| Notifications.AssocChangeRoundTrip | sctp.go:246-261 | a packed `sctp_assoc_change` parses back to itself |
| Notifications.PAddrChangeRoundTrip | sctp.go:264-282 | a packed `sctp_paddr_change` parses back to itself |
| Notifications.SendFailedRoundTrip | sctp.go:285-298 | a packed `sctp_send_failed` parses back to itself |
| Notifications.RemoteErrorRoundTrip | sctp.go:301-313 | a packed `sctp_remote_error` parses back to itself |
| Notifications.ShutdownRoundTrip | sctp.go:316-327 | a packed `sctp_shutdown_event` parses back to itself |
| Notifications.PDApiRoundTrip | sctp.go:330-344 | a packed `sctp_pdapi_event` parses back to itself |
| Notifications.AdaptationRoundTrip | sctp.go:347-359 | a packed `sctp_adaptation_event` parses back to itself |
| Notifications.AuthKeyRoundTrip | sctp.go:362-376 | a packed `sctp_authkey_event` parses back to itself |
| Notifications.SenderDryRoundTrip | sctp.go:379-390 | a packed `sctp_sender_dry_event` parses back to itself |
| Notifications.StreamResetRoundTrip | sctp.go:393-404 | a packed `sctp_stream_reset_event` parses back to itself |
| Notifications.AssocResetRoundTrip | sctp.go:407-420 | a packed `sctp_assoc_reset_event` parses back to itself |
| Notifications.StreamChangeRoundTrip | sctp.go:423-436 | a packed `sctp_stream_change_event` parses back to itself |
| Notifications.DataIoRoundTrip | sctp.go:233-243 | a packed data-io header parses back to itself |
| Notifications.ParseNotificationDispatch | sctp.go:459-486 | a buffer of acceptable size with a known type goes to that type's parser |
| Notifications.TypeFieldRoundTrip | sctp.go:459-486 | the first field of a packed notification is its type |
| Notifications.ParserForRoundTrip | sctp.go:459-486 | every packed notification, padded, parses back to itself through its type's parser |
| Notifications.ParseNotificationRoundTrip | sctp.go:459-486 | every packed notification whose padding keeps it within 148 bytes parses back to itself |
| Syscall.Kernel.Invoke | sctp.go:62-67 | a system call joins the log and is answered by the kernel oracle |
| Syscall.Ret | sctp.go:489-519 | the returned count is -1 on failure and the kernel's value on success |
| Syscall.ErrOf | sctp.go:62-67 | the returned error is nil exactly when errno is 0, else that errno |
| Syscall.CmsgSpace | sctp_conn.go:78 | room for a 16-byte header and the payload rounded up to 8 |
| Syscall.ParseSocketControlMessage | sctp.go:215-230 | a header whose length is too small or too big is EINVAL; each message's payload is its length minus the header |
| Sctp.AddrFamily | sctp.go:194-199 | AF_INET exactly when the network ends in `4`, AF_INET6 otherwise |
| Sctp.FamilyOfNetwork | sctp.go:45-50 | `sctp4` picks AF_INET, `sctp` and `sctp6` AF_INET6 |
| Sctp.SCTPSocket | sctp.go:62-67 | one `socket(2)` call with AF_INET for AF_INET and AF_INET6 for anything else, protocol SCTP |
| Sctp.BindOption | sctp.go:70-98 | only the add and remove flags are accepted, mapped to their socket options |
| Sctp.NoRecordsIffNoValidAddress | sctp.go:70-98 | the packed address array is empty exactly when no address is usable |
| Sctp.BindOutcomeFacts | sctp.go:70-98 | at most one call, closing nothing: a `setsockopt` on the socket exactly when the flag is known and an address is usable, returning its error; else EINVAL; with the add flag it is the add-address call |
| Sctp.SCTPBind | sctp.go:70-98 | bad flags or no usable address is EINVAL with no call; else one `setsockopt` with the packed addresses; the calls and error are `BindOutcome`'s |
| Sctp.ConnectArg | sctp.go:101-141 | the `sctp_getaddrs` header carries association 0 and the array's length |
| Sctp.ConnectOutcomeFacts | sctp.go:101-141 | at most two calls, closing nothing: none exactly when no address is usable (EINVAL); first `CONNECTX3`; a second, `CONNECTX`, exactly when `CONNECTX3` reports ENOPROTOOPT; a failure after a call is association 0 with the last call's error |
| Sctp.SCTPConnect | sctp.go:101-141 | no usable address is EINVAL with no call; else `SCTP_SOCKOPT_CONNECTX3` via getsockopt, whose success or EINPROGRESS yields the association id written back, whose ENOPROTOOPT falls back to `SCTP_SOCKOPT_CONNECTX` returning its result, and whose other errors are returned |
| Sctp.SentCount | sctp.go:489-519 | a failed send counts 0; control data without payload counts 0; otherwise the kernel's count |
| Sctp.SCTPSendMsg | sctp.go:489-519 | one `sendmsg` with the data and control bytes, result as above |
| Sctp.SndRcvControl | sctp_conn.go:96-111 | the `SCTP_SNDRCV` control message is `CmsgSpace(32)` bytes, as its header says |
| Sctp.SndRcvControlLayout | sctp_conn.go:96-111 | the control message is the header followed by the packed `sctp_sndrcvinfo` |
| Sctp.FirstSndRcvIndex | sctp.go:215-230 | the index of the first `SCTP_SNDRCV` message, none before it |
| Sctp.FirstSndRcv | sctp.go:215-230 | nothing is found exactly when no message is `SCTP_SNDRCV` |
| Sctp.SndRcvInfoAfter | sctp.go:215-230 | a nil info stays nil; empty or unparsable data leaves the info unchanged |
| Sctp.FindSndRcv | sctp.go:215-230 | the loop finds the first `SCTP_SNDRCV` message's record |
| Sctp.ParseSndRcvInfo | sctp.go:215-230 | the info after the call is the one the control data dictates |
| Sctp.SndRcvControlParses | sctp.go:215-230 | the control message `SendMsg` builds parses as one message |
| Sctp.SndRcvControlRoundTrip | sctp.go:215-230 | parsing the control message `SendMsg` builds recovers the `sctp_sndrcvinfo` it carried |
| Sctp.SingleMessage | sctp.go:215-230 | with one control message, the info is that message's record |
| Sctp.FirstSndRcvOfRecord | sctp.go:215-230 | an `SCTP_SNDRCV` message holding a packed record yields that record |
| Conn.CloseCalls | sctp_conn.go:136-150 | closing a connection issues the EOF send, the shutdown and the close, in that order |
| Conn.RecvmsgOutcome | sctp_conn.go:74-88 | `syscall.Recvmsg` with control space: a non-empty buffer is one `recvmsg`; an empty one first queries `SO_TYPE`, returns 0 and its error if that fails, else receives into a one-byte dummy (none for a datagram socket); the error is the last call's and a failure never counts bytes |
| Conn.Recvmsg | sctp_conn.go:74-88 | issues exactly the calls of `RecvmsgOutcome` and returns its result |
| Conn.Deliver | sctp_conn.go:74-88 | the buffer keeps its length; its front holds the delivered bytes, as many as fit, the rest is unchanged |
| Conn.ReadLoopAppends | sctp_conn.go:57-71 | the loop as written only appends receive steps (`recvmsg` into the buffer, or the `SO_TYPE` query and the dummy receive for an empty buffer) to the log |
| Conn.ReadLoopReportingErrors | sctp_conn.go:57-71 | the corrected loop stops on an error or on a message that is not a notification |
| Conn.ReadLoopReportingErrorsAppends | sctp_conn.go:57-71 | the corrected loop only appends receive steps to the log |
| Conn.ReadLoopsAgreeWithoutErrors | sctp_conn.go:57-71 | when the kernel never fails, the loop as written and the corrected loop are the same |
| Conn.ReadLoopKeepsFailing | sctp_conn.go:65-70 | after a notification, a kernel that fails every further receive keeps the loop as written going forever |
| Conn.ReadLoopSwallowsError | sctp_conn.go:65-70 | as written the loop never returns, while the corrected loop returns the error, count -1 and the untouched buffer after two receives |
| Conn.SCTPConn.constructor | sctp_conn.go:18-22 | a new conn holds the descriptor and association 0 |
| Conn.SCTPConn.RecvMsg | sctp_conn.go:74-88 | a closed conn is EINVAL with no call; otherwise the calls of `RecvmsgOutcome` with its count and error; on success the buffer holds the delivered bytes (`Deliver`), the flags are the kernel's and the info is the one the received control data dictates; on failure buffer, flags and info are unchanged |
| Conn.SCTPConn.Read | sctp_conn.go:57-71 | the log, count, error and buffer contents are those where `ReadLoopReportingErrors` stops: receives into the caller's buffer until a non-notification or an error |
| Conn.SCTPConn.ReadAsWritten | sctp_conn.go:57-71 | the loop as written: log, count, error and buffer contents are where `ReadLoop` stops, which ignores errors after a notification |
| Conn.SCTPConn.SendMsg | sctp_conn.go:96-111 | a closed conn is EINVAL; otherwise one `sendmsg`, with the `SCTP_SNDRCV` control message when info is given |
| Conn.SCTPConn.Write | sctp_conn.go:91-93 | `SendMsg` without info |
| Conn.SCTPConn.Abort | sctp_conn.go:114-133 | the descriptor becomes -1; a positive one gets `SO_LINGER` zero and is closed, else EBADFD |
| Conn.SCTPConn.Close | sctp_conn.go:136-150 | a closed conn is EINVAL; otherwise EOF send, descriptor -1, shutdown and close of a positive descriptor |
| Conn.SCTPConn.SetDeadline | sctp_conn.go:205-207 | always ENOPROTOOPT |
| Conn.SCTPConn.SetReadDeadline | sctp_conn.go:210-212 | always ENOPROTOOPT |
| Conn.SCTPConn.SetWriteDeadline | sctp_conn.go:215-217 | always ENOPROTOOPT |
| Conn.SCTPConn.SetWriteBufferSize | sctp_conn.go:220-222 | one `setsockopt(SO_SNDBUF)` with the size as a C int |
| Conn.SCTPConn.GetWriteBufferSize | sctp_conn.go:225-227 | one `getsockopt(SO_SNDBUF)` and the int the kernel wrote |
| Conn.SCTPConn.SetReadBufferSize | sctp_conn.go:230-232 | one `setsockopt(SO_RCVBUF)` with the size as a C int |
| Conn.SCTPConn.GetReadBufferSize | sctp_conn.go:235-237 | one `getsockopt(SO_RCVBUF)` and the int the kernel wrote |
| Conn.SCTPConn.SetEventSubscribe | sctp_conn.go:240-254 | one `setsockopt(SCTP_EVENTS)` with the packed subscription, NULL for nil |
| Conn.SCTPConn.GetEventSubscribe | sctp_conn.go:257-278 | a closed conn is EINVAL; else one `getsockopt(SCTP_EVENTS)` and the record written back |
| Conn.SCTPConn.SetInitMsg | sctp_conn.go:281-298 | a closed conn is EINVAL; else one `setsockopt(SCTP_INITMSG)` |
| Conn.SCTPConn.GetInitMsg | sctp_conn.go:301-322 | a closed conn is EINVAL; else one `getsockopt(SCTP_INITMSG)` and the record written back |
| Conn.SCTPConn.SetDefaultSendParam | sctp_conn.go:325-342 | a closed conn is EINVAL; else one `setsockopt(SCTP_DEFAULT_SEND_PARAM)` |
| Conn.SCTPConn.GetDefaultSendParam | sctp_conn.go:345-366 | a closed conn is EINVAL; else one `getsockopt(SCTP_DEFAULT_SEND_PARAM)` and the record written back |
| Conn.SetSockOptInt | sctp_conn.go:220-222 | `syscall.SetsockoptInt`: one call with the value as a C int |
| Conn.GetSockOptInt | sctp_conn.go:225-227 | `syscall.GetsockoptInt`: one call, the int the kernel wrote |
| Conn.PeeledDescriptorRule | sctp.go:144-191 | the peeled descriptor is the `sd` field the kernel wrote back, 0 when it wrote nothing |
| Conn.SCTPPeelOff | sctp.go:172-191 | one `getsockopt(SCTP_SOCKOPT_PEELOFF)`; a failure is its errno, success a new conn on the peeled descriptor |
| Conn.SCTPPeelOffFlag | sctp.go:144-169 | flags 0 is `SCTPPeelOff`; otherwise the same with `SCTP_SOCKOPT_PEELOFF_FLAGS` |
| Conn.ConfigureOutcomeFacts | sctp_conn.go:405-412 | `SO_BROADCAST` then the init message, in that order, closing nothing; success only on a positive descriptor with both calls issued; a failure is EINVAL or the last call's error |
| Conn.AttachOutcomeFacts | sctp_conn.go:413-423 | the bind (for a local address) then the connect, closing nothing; a failure is EINVAL or the last call's error; a success issued the bind and a successful connect whose association id it returns |
| Conn.DialStepsFacts | sctp_conn.go:405-423 | after the socket, the steps close nothing and fail with EINVAL or the last call's error; a success issued the options, the bind and a successful connect on a positive descriptor and yields the connect's association id |
| Conn.DialSCTP | sctp_conn.go:376-425 | an unknown network or nil remote is an `OpError` before any call; a socket failure is its errno after that one call; then exactly the calls of `DialSteps`: a failure returns that step's error after the conn's `Close` calls, a success returns a fresh conn on the new descriptor holding the connect's association id |
| Conn.DialOpened | sctp_conn.go:402-424 | after the socket: the calls and error of `DialSteps`, followed on failure by the closing calls and no conn; on success a fresh conn on the descriptor with the association id |
| Conn.DialSetUp | sctp_conn.go:402-423 | the conn's descriptor is kept and the log, error and association id are those of `DialSteps` |
| Conn.CloseFailed | sctp_conn.go:405-423 | the discarded `conn.Close()` issues the EOF send, shutdown and close of a positive descriptor and nothing otherwise |
| Conn.DialConfigure | sctp_conn.go:405-412 | the log and error are those of `ConfigureOutcome`: `SO_BROADCAST`, then the init message unless it failed |
| Conn.DialAttach | sctp_conn.go:413-423 | the log, error and association id are those of `AttachOutcome`: the bind for a local address, then the connect unless the bind failed |
| Listener.AbortInfo | sctp_listener.go:82-92 | the info sent to abort carries `SCTP_ABORT` and the association |
| Listener.DisconnectInfo | sctp_listener.go:95-107 | the info sent to disconnect carries `SCTP_EOF` and the association |
| Listener.ShutdownInfoReadsBack | sctp_listener.go:82-107 | the control data of both reads back as the info sent |
| Listener.SCTPListener.Connect | sctp_listener.go:74-79 | an invalid listener is refused with no call; otherwise `SCTPConnect` on its socket |
| Listener.SCTPListener.Abort | sctp_listener.go:82-92 | one send of the abort info on the listener's socket |
| Listener.SCTPListener.Disconnect | sctp_listener.go:95-107 | one send of the EOF info on the listener's socket |
| Listener.SCTPListener.PeelOff | sctp_listener.go:110-115 | `SCTPPeelOff` on the listener's socket |
| Listener.SCTPListener.PeelOffFlags | sctp_listener.go:118-123 | `SCTPPeelOffFlag` on the listener's socket |
| Listener.SCTPListener.AcceptSCTP | sctp_listener.go:126-135 | one `accept4` without flags; its errno and no conn, or a fresh conn on the accepted descriptor |
| Listener.SCTPListener.Accept | sctp_listener.go:138-140 | `AcceptSCTP` |
| Listener.SCTPListener.Close | sctp_listener.go:143-150 | shutdown then close of the socket, returning the close's error |
| Listener.SCTPListener.SetEventSubscribe | sctp_listener.go:153-173 | nil events is refused with no call; else one `setsockopt(SCTP_EVENTS)` |
| Listener.SCTPListener.GetEventSubscribe | sctp_listener.go:176-197 | one `getsockopt(SCTP_EVENTS)` and the record written back |
| Listener.SCTPListener.RecvMsg | sctp_listener.go:200-220 | the calls, count and error of `RecvmsgOutcome` with the caller's flags; on success the buffer holds the delivered bytes, the flags are the kernel's and the info comes from the control data; on failure all three are unchanged |
| Listener.SCTPListener.SendMsg | sctp_listener.go:223-240 | one `sendmsg` with the `SCTP_SNDRCV` control message when info is given |
| Listener.SCTPListener.SetInitMsg | sctp_listener.go:243-263 | nil is refused with no call; else one `setsockopt(SCTP_INITMSG)` |
| Listener.SCTPListener.SetNonblock | sctp_listener.go:266-271 | one call setting the socket non-blocking |
| Listener.IssueFirst | sctp_listener.go:274-348 | issuing calls until one fails starts with the first call |
| Listener.IssueSucceedsIffAllSucceed | sctp_listener.go:274-348 | no failure exactly when every call succeeds, and then all of them are in the log |
| Listener.ListenOptionCalls | sctp_listener.go:303-327 | the four option calls: `IPV6_V6ONLY` 0, `SO_BROADCAST` 1, `SO_REUSEADDR` 1, `SCTP_INITMSG` |
| Listener.ListenBindCalls | sctp_listener.go:328-335 | the bindx call then `listen` with `SOMAXCONN` |
| Listener.ListenSCTP | sctp_listener.go:274-348 | nil local, nil init and unknown networks are refused before any call; then socket, options, bind and listen up to the first failure, closing a positive descriptor on failure; the listener exactly when everything succeeded |
| Listener.ListenSetup | sctp_listener.go:303-339 | the options, then the bind and listen |
| Listener.ListenOptions | sctp_listener.go:303-327 | the four option calls up to the first failure |
| Listener.ListenBind | sctp_listener.go:328-335 | no usable address is EINVAL with no call; else bind and listen |
| Epoll.ReadyFds | epoll.go:102-128 | at most 64 ready descriptors, a prefix of what the kernel reported |
| Epoll.Dispatch | epoll.go:119-126 | at most one callback per ready descriptor, each registered |
| Epoll.DispatchAppend | epoll.go:119-126 | dispatching two batches is dispatching their concatenation |
| Epoll.DispatchExactly | epoll.go:119-126 | nothing runs exactly when no ready descriptor is registered; when all are, each one's callback runs in order |
| Epoll.InterruptedLoopNeverEnds | epoll.go:102-128 | a wait that is always interrupted keeps the loop waiting and running nothing |
| Epoll.LoopOnlyWaits | epoll.go:102-128 | the loop issues nothing but waits |
| Epoll.Poller.constructor | epoll.go:27-30 | a new poller has descriptor -1 and no callbacks |
| Epoll.Poller.Init | epoll.go:39-49 | an initialized poller is left alone; otherwise one `epoll_create1` whose descriptor is stored on success |
| Epoll.Poller.Finalize | epoll.go:52-58 | the descriptor becomes -1 and an open one is closed, so a second call does nothing |
| Epoll.Poller.Add | epoll.go:67-85 | a registered descriptor is refused; otherwise one `EPOLL_CTL_ADD`, and the callback is registered exactly when it succeeds |
| Epoll.Poller.Del | epoll.go:89-98 | an unknown descriptor is refused with no call; otherwise the callback is removed and one `EPOLL_CTL_DEL` is issued, its errno returned |
| Epoll.Poller.Loop | epoll.go:102-128 | an uninitialized poller returns at once; otherwise the log and the callbacks run are those of `LoopRun` |
| Epoll.Poller.RunCallbacks | epoll.go:119-126 | the callbacks run are `Dispatch` of the ready descriptors |

## Left out

- Nil receivers and nil `*SCTPAddr` arguments where the Go code would dereference them (for example `local.Addr()` on a nil `local` in `DialSCTP` works because `Addr` checks for nil; a nil address passed to `SCTPBind` would panic): addresses that may be nil are `Option`s, the others are plain values.
- Concurrency: the atomic swap of the conn's descriptor, the atomic poller descriptor and the `sync.Map` registry are plain fields; callbacks that change the registry while `Loop` runs are not modelled.
- `LocalAddr`, `RemoteAddr`, `GetPrimaryPeerAddr`, `SCTPListener.Addr`, `SCTPListener.RemoteAddr`: these only issue a `getsockopt` and feed the result to the decoders, which are modelled (`FromSCTPGetAddrs`, `FromSockAddrStorage`).
- `SCTPAddr.String`, `Address`, `Network`, `Addr`, `Clone`, `Endianness`, the reflective `Pack(interface{})` and the `FD`/`AssocId` getters: formatting and reflection with no logic to state; each record's packing is its own function instead.
- `GetPoller` and the package `init` functions: the singleton is a constructed `Poller`, the host byte order a parameter.
- Addr.LookupPort: service names (`"http"`) are not looked up, only decimal ports; `net.ParseIP` is a parameter. Go's `parsePort` stops scanning once its 32-bit value reaches 2^30, so a long digit prefix followed by a non-digit (`"99999999999x"`) is an invalid port there; here the whole text is checked first, which answers `UnknownNetwork`, and that 32-bit scan is not modelled.
- Addr.FromSCTPGetAddrs: a record that runs past the end of the buffer makes `ReadRecord` fail, where the Go code's unchecked pointer walk would read beyond the buffer; only buffers the kernel fills correctly are meant.
- Conn.RecvmsgOutcome: the source address `syscall.Recvmsg` returns is dropped, as the source drops it, and its failure to convert an unexpected address family is not modelled; `syscall.Recvmsg` itself is not part of this model.
- Conn.SCTPConn.Read: the loop is bounded by a `fuel` count of receives, and `done` is false when the bound is reached first.
- Epoll.Poller.Loop: bounded by a `fuel` count of waits; callbacks are recorded in `handled`, not executed.
- The epoll event array is the list of ready descriptors; the event mask passed to `EPOLL_CTL_DEL` is written as 0.
- Constants come from the generated `codegen` files, which are not part of this model; the Linux x86-64 values are used.
- Conn.SCTPConn.RecvMsg: assumes the kernel delivers any `SCTP_SNDRCV` control message with a whole `sctp_sndrcvinfo` payload (`WholeSndRcvInfo`), since Go's parser would otherwise read past it.
- Listener.SCTPListener.RecvMsg: the Go code writes through `flags` even when it is nil; the precondition requires that the receive fails in that case instead of modelling the panic.

## Findings

| source | as written | input that shows it | evidently intended | confidence | as-written member | corrected member |
|---|---|---|---|---|---|---|
| sctp_structs.go:603-616 | `Unpack` passes the fields by value to `binary.Read`, which cannot store into them, so the record never changes | a 156-byte buffer encoding `AssocId` 0 given to a record with `AssocId` 1 leaves it at 1 | the record takes the values encoded in the buffer | not executed | Structs.UnpackAsWrittenIgnoresData | Structs.PeerAddrParamsRoundTrip |
| sctp_addr.go:124-126 | the IPv6 branch copies the address into `net.IPv6zero`, a shared package variable | decoding a `sockaddr_in6` holding `::1` leaves `net.IPv6zero` equal to `::1` | the copy is dead code; `IPv6zero` stays `::` | not executed | Addr.IPv6zeroOverwritten | Addr.FromSockAddrStorage |
| sctp_conn.go:65-70 | `Read` keeps looping while the last flags say notification, and `RecvMsg` leaves the flags unchanged on error | a notification followed by receives that all fail: `Read` never returns | the error of a failed receive is returned | not executed | Conn.ReadLoopSwallowsError | Conn.SCTPConn.Read |
