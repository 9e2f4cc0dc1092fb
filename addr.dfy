/**
 * SCTP multi-homed addresses: a list of IPs sharing one port.
 *
 * - `MakeSCTPAddr` parses "addr1/addr2/...:port" for the sctp, sctp4 and
 *   sctp6 networks.
 * - `MakeSockaddr` lays the addresses out as packed sockaddr_in and
 *   sockaddr_in6 records.
 * - `FromSCTPGetAddrs` walks such records behind an sctp_getaddrs header.
 * - `FromSockAddrStorage` reads a single sockaddr_storage.
 *
 * IPs follow Go's net.IP: a 4-byte or 16-byte slice, where a 16-byte IP with
 * the v4-in-v6 prefix denotes an IPv4 address.
 */
module Addr {
  import opened Base
  import opened Wire
  import opened Structs
  import opened Endian

  const AF_INET: uint16 := 2
  const AF_INET6: uint16 := 10

  type IP = bytes

  const V4InV6Prefix: bytes := [0, 0, 0, 0, 0, 0, 0, 0, 0, 0, 0xff, 0xff]

  /** net.IPv4(a, b, c, d): the 16-byte form. */
  function IPv4(a: uint8, b: uint8, c: uint8, d: uint8): (ip: IP)
    ensures |ip| == 16
  {
    V4InV6Prefix + [a, b, c, d]
  }

  /** net.IPv4zero (0.0.0.0) and net.IPv6zero (::). */
  const IPv4zero: IP := IPv4(0, 0, 0, 0)
  const IPv6zero: IP := Zeros(16)

  /** net.IP.To4: the 4-byte form of an IPv4 address, None for anything else. */
  function To4(ip: IP): (r: Option<IP>)
    ensures r.Some? ==> |r.value| == 4
  {
    if |ip| == 4 then Some(ip)
    else if |ip| == 16 && ip[..12] == V4InV6Prefix then Some(ip[12..])
    else None
  }

  /** net.IP.To16: the 16-byte form of a valid IP, None for a malformed one. */
  function To16(ip: IP): (r: Option<IP>)
    ensures r.Some? <==> |ip| == 4 || |ip| == 16
    ensures r.Some? ==> |r.value| == 16
  {
    if |ip| == 4 then Some(V4InV6Prefix + ip)
    else if |ip| == 16 then Some(ip)
    else None
  }

  /** To4 accepts exactly the 4-byte IPs and the v4-in-v6 16-byte ones, and keeps their last four bytes. */
  lemma To4Accepts(ip: IP)
    ensures To4(ip).Some? <==> |ip| == 4 || (|ip| == 16 && ip[..12] == V4InV6Prefix)
    ensures To4(ip).Some? ==> To4(ip).value == ip[|ip| - 4..]
  {
  }

  /** Both forms of an IPv4 address denote the same address, and the 16-byte form of one is again IPv4. */
  lemma To4To16(ip: IP)
    requires To4(ip).Some?
    ensures To16(ip).Some?
    ensures To16(To4(ip).value) == To16(ip)
    ensures To4(To16(ip).value) == To4(ip)
  {
    if |ip| == 16 {
      assert ip == V4InV6Prefix + ip[12..];
    }
  }

  lemma IPv4zeroIsV4()
    ensures To4(IPv4zero) == Some([0, 0, 0, 0])
    ensures To4(IPv6zero).None? && To16(IPv6zero) == Some(IPv6zero)
  {
    assert IPv6zero[10] == 0;
  }

  datatype SCTPAddr = SCTPAddr(addresses: seq<IP>, port: int)

  /** True iff every address has a 16-byte form; the loop stops at the first that has none. */
  method IsV6Only(a: SCTPAddr) returns (r: bool)
    ensures r <==> forall i :: 0 <= i < |a.addresses| ==> To16(a.addresses[i]).Some?
  {
    for i := 0 to |a.addresses|
      invariant forall j :: 0 <= j < i ==> To16(a.addresses[j]).Some?
    {
      if To16(a.addresses[i]).None? {
        return false;
      }
    }
    return true;
  }

  /** True iff every address is IPv4; the loop stops at the first that is not. */
  method IsV4Only(a: SCTPAddr) returns (r: bool)
    ensures r <==> forall i :: 0 <= i < |a.addresses| ==> To4(a.addresses[i]).Some?
  {
    for i := 0 to |a.addresses|
      invariant forall j :: 0 <= j < i ==> To4(a.addresses[j]).Some?
    {
      if To4(a.addresses[i]).None? {
        return false;
      }
    }
    return true;
  }

  // ---------------------------------------------------------------------
  // strings.LastIndex, strings.Split and net.LookupPort

  function LastIndex(s: string, c: char): (i: int)
    ensures -1 <= i < |s|
    ensures i == -1 <==> c !in s
    ensures i >= 0 ==> s[i] == c && c !in s[i + 1..]
  {
    if |s| == 0 then -1
    else if s[|s| - 1] == c then |s| - 1
    else
      assert s == s[..|s| - 1] + [s[|s| - 1]];
      LastIndex(s[..|s| - 1], c)
  }

  /** Pieces glued back together with the separator between them. */
  function Join(parts: seq<string>, c: char): string
    requires |parts| >= 1
  {
    if |parts| == 1 then parts[0] else parts[0] + [c] + Join(parts[1..], c)
  }

  /**
   * strings.Split on a one-character separator: the pieces hold no
   * separator and join back to `s`, so they are the text between separators.
   */
  function Split(s: string, c: char): (parts: seq<string>)
    ensures |parts| >= 1
    ensures forall k :: 0 <= k < |parts| ==> c !in parts[k]
    ensures Join(parts, c) == s
  {
    if s == [] then [[]]
    else
      var rest := Split(s[1..], c);
      if s[0] == c then
        assert s == [c] + s[1..];
        [[]] + rest
      else
        var parts := [[s[0]] + rest[0]] + rest[1..];
        assert parts[1..] == rest[1..];
        assert s == [s[0]] + s[1..];
        parts
  }

  predicate IsDigit(ch: char) { '0' <= ch <= '9' }

  function DigitsValue(s: string): nat
    requires forall k :: 0 <= k < |s| ==> IsDigit(s[k])
  {
    if s == [] then 0
    else
      assert IsDigit(s[|s| - 1]);
      DigitsValue(s[..|s| - 1]) * 10 + (s[|s| - 1] as int - '0' as int)
  }

  /** The decimal text of `n`, as strconv.Itoa writes it. */
  function Decimal(n: nat): (s: string)
    ensures |s| >= 1 && forall k :: 0 <= k < |s| ==> IsDigit(s[k])
  {
    var d := ['0' + (n % 10) as char];
    if n < 10 then d else Decimal(n / 10) + d
  }

  lemma {:induction false} DecimalValue(n: nat)
    ensures DigitsValue(Decimal(n)) == n
  {
    var d := ['0' + (n % 10) as char];
    if n >= 10 {
      DecimalValue(n / 10);
      assert Decimal(n)[..|Decimal(n)| - 1] == Decimal(n / 10);
    }
  }

  datatype PortError = UnknownNetwork | InvalidPort

  /**
   * net.LookupPort for an sctp network: a decimal number with an optional
   * sign (the empty string is port 0). Anything else would need a
   * service-name lookup, which Go refuses for a network it does not know.
   * The value must lie in 0 .. 65535.
   */
  function LookupPort(service: string): (r: Result<int, PortError>)
    ensures r.Ok? ==> 0 <= r.value <= 65535
    ensures service == "" ==> r == Ok(0)
    ensures r == Err(UnknownNetwork) <==>
      exists k :: 0 <= k < |service| && !IsDigit(service[k]) && !(k == 0 && service[0] in "+-")
  {
    if service == "" then Ok(0)
    else
      var digits := if service[0] == '+' || service[0] == '-' then service[1..] else service;
      if exists k :: 0 <= k < |digits| && !IsDigit(digits[k]) then
        assert exists k :: 0 <= k < |service| && !IsDigit(service[k]) && !(k == 0 && service[0] in "+-") by {
          var k :| 0 <= k < |digits| && !IsDigit(digits[k]);
          if digits != service {
            assert !IsDigit(service[k + 1]);
          }
        }
        Err(UnknownNetwork)
      else
        var n: int := DigitsValue(digits);
        var port := if service[0] == '-' then -n else n;
        if port < 0 || port > 65535 then Err(InvalidPort) else Ok(port)
  }

  /** Every port prints and parses back to itself. */
  lemma LookupPortDecimal(port: nat)
    requires port <= 65535
    ensures LookupPort(Decimal(port)) == Ok(port)
  {
    DecimalValue(port);
  }

  // ---------------------------------------------------------------------
  // MakeSCTPAddr

  datatype AddrError =
    | UnknownNetworkError(network: string)
    | MissingPort(addr: string)
    | BadPort(addr: string, cause: PortError)
    | InvalidAddrError(addr: string)

  /** The three networks MakeSCTPAddr accepts. */
  datatype Network = Sctp | Sctp4 | Sctp6

  function NetworkName(n: Network): string
  {
    match n
    case Sctp => "sctp"
    case Sctp4 => "sctp4"
    case Sctp6 => "sctp6"
  }

  predicate KnownNetwork(network: string)
  {
    network == "" || network == "sctp" || network == "sctp4" || network == "sctp6"
  }

  /** "" and "sctp" become sctp; "sctp4" and "sctp6" stay; anything else is unknown. */
  function NormalizeNetwork(network: string): (r: Option<Network>)
    ensures r.Some? <==> KnownNetwork(network)
    ensures r.Some? && network != "" ==> NetworkName(r.value) == network
    ensures network == "" ==> r == Some(Sctp)
  {
    if network == "" || network == "sctp" then Some(Sctp)
    else if network == "sctp4" then Some(Sctp4)
    else if network == "sctp6" then Some(Sctp6)
    else None
  }

  /** Each network's name normalizes back to that network. */
  lemma NormalizeNetworkName(net: Network)
    ensures NormalizeNetwork(NetworkName(net)) == Some(net)
  {
    match net
    case Sctp =>
    case Sctp4 => assert NetworkName(net)[4] == '4';
    case Sctp6 => assert NetworkName(net)[4] == '6';
  }

  /** The wildcard an empty segment stands for. */
  function Wildcard(network: Network): IP
  {
    if network == Sctp4 then IPv4zero else IPv6zero
  }

  /** An address fits the network: IPv4 under sctp4, any valid IP under sctp and sctp6. */
  predicate Fits(network: Network, ip: IP)
  {
    if network == Sctp4 then To4(ip).Some? else To16(ip).Some?
  }

  /**
   * What one '/'-separated segment contributes: the network's wildcard if it
   * is empty, the parsed IP if it parses and fits, and nothing otherwise.
   */
  function KeepSegment(network: Network, segment: string, parseIP: string -> Option<IP>): (r: seq<IP>)
    ensures |r| <= 1
    ensures segment == "" ==> r == [Wildcard(network)]
    ensures segment != "" ==>
      (r != [] <==> parseIP(segment).Some? && Fits(network, parseIP(segment).value))
    ensures segment != "" && r != [] ==> r == [parseIP(segment).value]
  {
    if |segment| == 0 then
      if network == Sctp4 then [IPv4zero] else [IPv6zero]
    else
      var address := parseIP(segment);
      if (network == Sctp || network == Sctp6) && address.Some? && To16(address.value).Some? then [address.value]
      else if network == Sctp4 && address.Some? && To4(address.value).Some? then [address.value]
      else []
  }

  /** The addresses the segments contribute, in segment order. */
  function Survivors(network: Network, segments: seq<string>, parseIP: string -> Option<IP>): seq<IP>
  {
    if segments == [] then []
    else KeepSegment(network, segments[0], parseIP) + Survivors(network, segments[1..], parseIP)
  }

  lemma AppendAssoc<T>(a: seq<T>, b: seq<T>, c: seq<T>)
    ensures (a + b) + c == a + (b + c)
  {
  }

  /** At most one address per segment survives, and every survivor fits the network. */
  lemma {:induction false} SurvivorsFit(network: Network, segments: seq<string>, parseIP: string -> Option<IP>)
    ensures |Survivors(network, segments, parseIP)| <= |segments|
    ensures forall k :: 0 <= k < |Survivors(network, segments, parseIP)| ==> Fits(network, Survivors(network, segments, parseIP)[k])
  {
    if segments != [] {
      SurvivorsFit(network, segments[1..], parseIP);
      var head := KeepSegment(network, segments[0], parseIP);
      if head != [] && segments[0] == [] {
        IPv4zeroIsV4();
      }
    }
  }

  /** Filtering commutes with concatenation, so survivors keep their order. */
  lemma {:induction false} SurvivorsAppend(network: Network, a: seq<string>, b: seq<string>, parseIP: string -> Option<IP>)
    ensures Survivors(network, a + b, parseIP) == Survivors(network, a, parseIP) + Survivors(network, b, parseIP)
  {
    if a == [] {
      assert a + b == b;
    } else {
      var ab := a + b;
      assert ab[0] == a[0] && ab[1..] == a[1..] + b;
      var head := KeepSegment(network, a[0], parseIP);
      assert Survivors(network, ab, parseIP) == head + Survivors(network, a[1..] + b, parseIP);
      SurvivorsAppend(network, a[1..], b, parseIP);
      AppendAssoc(head, Survivors(network, a[1..], parseIP), Survivors(network, b, parseIP));
    }
  }

  /** The whole parse, as a value. */
  function ParsedSCTPAddr(network: string, addr: string, parseIP: string -> Option<IP>): Result<SCTPAddr, AddrError>
  {
    match NormalizeNetwork(network)
    case None => Err(UnknownNetworkError(network))
    case Some(net) =>
      var index := LastIndex(addr, ':');
      if index < 0 then Err(MissingPort(addr))
      else
        match LookupPort(addr[index + 1..])
        case Err(e) => Err(BadPort(addr, e))
        case Ok(port) =>
          var addresses := Survivors(net, Split(addr[..index], '/'), parseIP);
          if |addresses| == 0 then Err(InvalidAddrError(addr)) else Ok(SCTPAddr(addresses, port))
  }

  /** The survivors from segment `i` on: segment `i`'s contribution, then the rest. */
  lemma SurvivorsStep(net: Network, segments: seq<string>, i: nat, parseIP: string -> Option<IP>)
    requires i < |segments|
    ensures Survivors(net, segments[i..], parseIP)
         == KeepSegment(net, segments[i], parseIP) + Survivors(net, segments[i + 1..], parseIP)
  {
    assert segments[i..][1..] == segments[i + 1..];
  }

  /** The source's loop over the '/'-separated segments, appending each survivor. */
  method CollectSurvivors(net: Network, segments: seq<string>, parseIP: string -> Option<IP>) returns (addresses: seq<IP>)
    ensures addresses == Survivors(net, segments, parseIP)
  {
    addresses := [];
    assert segments[0..] == segments;
    for i := 0 to |segments|
      invariant addresses + Survivors(net, segments[i..], parseIP) == Survivors(net, segments, parseIP)
    {
      SurvivorsStep(net, segments, i, parseIP);
      AppendAssoc(addresses, KeepSegment(net, segments[i], parseIP), Survivors(net, segments[i + 1..], parseIP));
      addresses := addresses + KeepSegment(net, segments[i], parseIP);
    }
    assert addresses + [] == addresses;
  }

  /**
   * The source's parse: normalise the network, split off the port at the
   * last ':', then walk the '/'-separated segments appending survivors.
   * (The source also tests `index == len(addr)`, which LastIndex never
   * returns.)
   */
  method MakeSCTPAddr(network: string, addr: string, parseIP: string -> Option<IP>)
      returns (r: Result<SCTPAddr, AddrError>)
    ensures r == ParsedSCTPAddr(network, addr, parseIP)
  {
    var normalized := NormalizeNetwork(network);
    if normalized.None? {
      return Err(UnknownNetworkError(network));
    }
    var net := normalized.value;
    if LastIndex(addr, ':') < 0 {
      return Err(MissingPort(addr));
    }
    var index := LastIndex(addr, ':');
    var segments := Split(addr[..index], '/');
    var port := LookupPort(addr[index + 1..]);
    if port.Err? {
      return Err(BadPort(addr, port.error));
    }
    var addresses := CollectSurvivors(net, segments, parseIP);
    if |addresses| == 0 {
      return Err(InvalidAddrError(addr));
    }
    return Ok(SCTPAddr(addresses, port.value));
  }

  // Properties of the parse

  /** Only "", "sctp", "sctp4" and "sctp6" are accepted networks. */
  lemma UnknownNetworkRule(network: string, addr: string, parseIP: string -> Option<IP>)
    ensures ParsedSCTPAddr(network, addr, parseIP) == Err(UnknownNetworkError(network))
            <==> !KnownNetwork(network)
  {
  }

  /** Under a known network, an address without ':' is missing its port. */
  lemma MissingPortRule(network: string, addr: string, parseIP: string -> Option<IP>)
    requires KnownNetwork(network)
    ensures ParsedSCTPAddr(network, addr, parseIP) == Err(MissingPort(addr)) <==> ':' !in addr
  {
  }

  /**
   * A successful parse carries the port written after the last ':' and at
   * least one address, every one of which fits the network, in the order of
   * the segments they come from.
   */
  lemma ParsedAddrShape(network: string, addr: string, parseIP: string -> Option<IP>)
    requires ParsedSCTPAddr(network, addr, parseIP).Ok?
    ensures ':' in addr
    ensures var a := ParsedSCTPAddr(network, addr, parseIP).value;
      var index := LastIndex(addr, ':');
      && LookupPort(addr[index + 1..]) == Ok(a.port)
      && 0 <= a.port <= 65535
      && |a.addresses| >= 1
      && a.addresses == Survivors(NormalizeNetwork(network).value, Split(addr[..index], '/'), parseIP)
      && forall k :: 0 <= k < |a.addresses| ==> Fits(NormalizeNetwork(network).value, a.addresses[k])
  {
    var net := NormalizeNetwork(network).value;
    var index := LastIndex(addr, ':');
    SurvivorsFit(net, Split(addr[..index], '/'), parseIP);
  }

  /** With a good network and port, the parse fails with InvalidAddrError exactly when no segment survives. */
  lemma InvalidAddrRule(network: string, addr: string, parseIP: string -> Option<IP>)
    requires KnownNetwork(network) && ':' in addr
    requires LookupPort(addr[LastIndex(addr, ':') + 1..]).Ok?
    ensures ParsedSCTPAddr(network, addr, parseIP) == Err(InvalidAddrError(addr)) <==>
      Survivors(NormalizeNetwork(network).value, Split(addr[..LastIndex(addr, ':')], '/'), parseIP) == []
  {
  }

  /** The last separator of `a + [c] + b`, when `b` holds none, is the one after `a`. */
  lemma {:induction false} LastIndexAt(a: string, c: char, b: string)
    requires c !in b
    ensures LastIndex(a + [c] + b, c) == |a|
  {
    if b != [] {
      var s := a + [c] + b;
      assert s[..|s| - 1] == a + [c] + b[..|b| - 1];
      assert s[|s| - 1] == b[|b| - 1];
      LastIndexAt(a, c, b[..|b| - 1]);
    }
  }

  /** A string without the separator splits into itself alone. */
  lemma {:induction false} SplitNoSeparator(s: string, c: char)
    requires c !in s
    ensures Split(s, c) == [s]
  {
    if s != [] {
      SplitNoSeparator(s[1..], c);
      assert [s[0]] + s[1..] == s;
    }
  }

  /** Text before the first separator is the first piece. */
  lemma {:induction false} SplitAt(a: string, c: char, b: string)
    requires c !in a
    ensures Split(a + [c] + b, c) == [a] + Split(b, c)
  {
    var s := a + [c] + b;
    if a == [] {
      assert s[1..] == b;
    } else {
      assert s[1..] == a[1..] + [c] + b;
      SplitAt(a[1..], c, b);
      assert [a[0]] + a[1..] == a;
    }
  }

  /** net.IPv4 builds an address To4 recognises. */
  lemma IPv4IsV4(a: uint8, b: uint8, c: uint8, d: uint8)
    ensures To4(IPv4(a, b, c, d)) == Some([a, b, c, d])
  {
    assert IPv4(a, b, c, d)[..12] == V4InV6Prefix;
  }

  /** The parse succeeds once each of its stages is known to succeed. */
  lemma ParsedFromParts(net: Network, addr: string, index: nat, port: int, parseIP: string -> Option<IP>, addresses: seq<IP>)
    requires LastIndex(addr, ':') == index
    requires LookupPort(addr[index + 1..]) == Ok(port)
    requires Survivors(net, Split(addr[..index], '/'), parseIP) == addresses != []
    ensures ParsedSCTPAddr(NetworkName(net), addr, parseIP) == Ok(SCTPAddr(addresses, port))
  {
    NormalizeNetworkName(net);
  }

  /**
   * "host:service" with one segment: the port comes from the service and the
   * one address is the parsed host, when it fits the network.
   */
  lemma OneSegmentParse(net: Network, host: string, service: string, parseIP: string -> Option<IP>, ip: IP, port: int)
    requires ':' !in service && '/' !in host && host != ""
    requires parseIP(host) == Some(ip) && Fits(net, ip)
    requires LookupPort(service) == Ok(port)
    ensures ParsedSCTPAddr(NetworkName(net), host + [':'] + service, parseIP) == Ok(SCTPAddr([ip], port))
  {
    var addr := host + [':'] + service;
    LastIndexAt(host, ':', service);
    assert addr[..|host|] == host;
    assert addr[|host| + 1..] == service;
    assert Survivors(net, Split(host, '/'), parseIP) == [ip] by {
      SplitNoSeparator(host, '/');
      assert Survivors(net, [host], parseIP) == KeepSegment(net, host, parseIP);
    }
    ParsedFromParts(net, addr, |host|, port, parseIP, [ip]);
  }

  /** "first/second:service": both addresses survive, in the order written. */
  lemma TwoSegmentParse(net: Network, first: string, second: string, service: string,
                        parseIP: string -> Option<IP>, ip1: IP, ip2: IP, port: int)
    requires ':' !in service
    requires '/' !in first && '/' !in second && first != "" && second != ""
    requires parseIP(first) == Some(ip1) && Fits(net, ip1)
    requires parseIP(second) == Some(ip2) && Fits(net, ip2)
    requires LookupPort(service) == Ok(port)
    ensures ParsedSCTPAddr(NetworkName(net), first + ['/'] + second + [':'] + service, parseIP)
            == Ok(SCTPAddr([ip1, ip2], port))
  {
    var host := first + ['/'] + second;
    var addr := host + [':'] + service;
    LastIndexAt(host, ':', service);
    assert addr[..|host|] == host;
    assert addr[|host| + 1..] == service;
    TwoSegmentSurvivors(net, first, second, parseIP, ip1, ip2);
    ParsedFromParts(net, addr, |host|, port, parseIP, [ip1, ip2]);
  }

  lemma TwoSegmentSurvivors(net: Network, first: string, second: string,
                            parseIP: string -> Option<IP>, ip1: IP, ip2: IP)
    requires '/' !in first && '/' !in second && first != "" && second != ""
    requires parseIP(first) == Some(ip1) && Fits(net, ip1)
    requires parseIP(second) == Some(ip2) && Fits(net, ip2)
    ensures Survivors(net, Split(first + ['/'] + second, '/'), parseIP) == [ip1, ip2]
  {
    SplitAt(first, '/', second);
    SplitNoSeparator(second, '/');
    var segments := [first, second];
    assert segments[1..] == [second];
    assert KeepSegment(net, first, parseIP) == [ip1];
    assert KeepSegment(net, second, parseIP) == [ip2];
    assert Survivors(net, [second], parseIP) == [ip2];
  }

  // ---------------------------------------------------------------------
  // MakeSockaddr

  /**
   * One packed record: a 16-byte sockaddr_in for an IPv4 address, a 28-byte
   * sockaddr_in6 for any other valid IP, nothing for a malformed one. The
   * family is a host-order word, the port is `htons(uint16(port))`.
   */
  function SockaddrRecord(order: ByteOrder, ip: IP, port: int): bytes
  {
    var p := Htons(order, WrapUint16(port));
    if To4(ip).Some? then PackSockAddrIn(order, SockAddrIn(AF_INET, p, To4(ip).value))
    else if To16(ip).Some? then PackSockAddrIn6(order, SockAddrIn6(AF_INET6, p, 0, To16(ip).value, 0))
    else []
  }

  /** Number of IPv4 addresses, and of valid non-IPv4 ones. */
  function CountV4(addresses: seq<IP>): nat
  {
    if addresses == [] then 0 else (if To4(addresses[0]).Some? then 1 else 0) + CountV4(addresses[1..])
  }

  function CountV6(addresses: seq<IP>): nat
  {
    if addresses == [] then 0
    else (if To4(addresses[0]).None? && To16(addresses[0]).Some? then 1 else 0) + CountV6(addresses[1..])
  }

  /** The records for all addresses, in order: 16 bytes per IPv4 address and 28 per IPv6 one. */
  function SockaddrBytes(order: ByteOrder, addresses: seq<IP>, port: int): bytes
  {
    if addresses == [] then []
    else SockaddrRecord(order, addresses[0], port) + SockaddrBytes(order, addresses[1..], port)
  }

  lemma {:induction false} SockaddrBytesLength(order: ByteOrder, addresses: seq<IP>, port: int)
    ensures |SockaddrBytes(order, addresses, port)| == SockAddrInSize * CountV4(addresses) + SockAddrIn6Size * CountV6(addresses)
  {
    if addresses != [] {
      SockaddrBytesLength(order, addresses[1..], port);
    }
  }

  /** The records from address `i` on: address `i`'s record, then the rest. */
  lemma SockaddrBytesStep(order: ByteOrder, addresses: seq<IP>, i: nat, port: int)
    requires i < |addresses|
    ensures SockaddrBytes(order, addresses[i..], port)
         == SockaddrRecord(order, addresses[i], port) + SockaddrBytes(order, addresses[i + 1..], port)
  {
    assert addresses[i..][1..] == addresses[i + 1..];
  }

  /** The source's encoder: one record appended per address. */
  method MakeSockaddr(order: ByteOrder, addr: SCTPAddr) returns (buffer: bytes)
    ensures buffer == SockaddrBytes(order, addr.addresses, addr.port)
  {
    buffer := [];
    var addresses := addr.addresses;
    assert addresses[0..] == addresses;
    for i := 0 to |addresses|
      invariant buffer + SockaddrBytes(order, addresses[i..], addr.port) == SockaddrBytes(order, addresses, addr.port)
    {
      var record := SockaddrRecord(order, addresses[i], addr.port);
      SockaddrBytesStep(order, addresses, i, addr.port);
      AppendAssoc(buffer, record, SockaddrBytes(order, addresses[i + 1..], addr.port));
      buffer := buffer + record;
    }
    assert buffer + [] == buffer;
  }

  /** Each record starts with its family in host order and then carries the port in network order. */
  lemma SockaddrRecordFields(order: ByteOrder, ip: IP, port: int)
    requires To16(ip).Some?
    ensures var r := SockaddrRecord(order, ip, port);
      && |r| >= 4
      && r[..2] == PutU16(order, if To4(ip).Some? then AF_INET else AF_INET6)
      && r[2..4] == BE(WrapUint16(port), 2)
  {
    HtonsNtohs(order, WrapUint16(port));
  }

  // ---------------------------------------------------------------------
  // FromSCTPGetAddrs

  /**
   * The record at the front of `s`: its family tag picks a 16-byte
   * sockaddr_in or a 28-byte sockaddr_in6, which gives the address, the
   * ntohs'd port and the record's size. An unknown family, or a record that
   * runs past the buffer, gives None.
   */
  function ReadRecord(order: ByteOrder, s: bytes): (r: Option<(IP, uint16, nat)>)
    ensures r.Some? ==> (r.value.2 == SockAddrInSize || r.value.2 == SockAddrIn6Size) && r.value.2 <= |s|
  {
    if |s| < 2 then None
    else
      var family := GetU16(order, s, 0);
      if family == AF_INET then
        if |s| < SockAddrInSize then None
        else
          var sa := UnpackSockAddrIn(order, s, 0);
          Some((sa.addr, Ntohs(order, sa.port), SockAddrInSize))
      else if family == AF_INET6 then
        if |s| < SockAddrIn6Size then None
        else
          var sa := UnpackSockAddrIn6(order, s, 0);
          Some((sa.addr, Ntohs(order, sa.port), SockAddrIn6Size))
      else None
  }

  /** `prefix` ahead of the addresses of `r`. */
  function Combine(prefix: seq<IP>, r: Option<SCTPAddr>): Option<SCTPAddr>
  {
    match r
    case None => None
    case Some(a) => Some(SCTPAddr(prefix + a.addresses, a.port))
  }

  /**
   * Decodes `k` records from the front of `s`; `port` is the port of the
   * last record read so far, since each record overwrites it.
   */
  function DecodeRecords(order: ByteOrder, s: bytes, k: nat, port: int): Option<SCTPAddr>
    decreases k
  {
    if k == 0 then Some(SCTPAddr([], port))
    else
      match ReadRecord(order, s)
      case None => None
      case Some((ip, p, size)) => Combine([ip], DecodeRecords(order, s[size..], k - 1, p))
  }

  lemma CombineTwice(prefix: seq<IP>, ip: IP, r: Option<SCTPAddr>)
    ensures Combine(prefix, Combine([ip], r)) == Combine(prefix + [ip], r)
  {
    if r.Some? {
      assert prefix + ([ip] + r.value.addresses) == prefix + [ip] + r.value.addresses;
    }
  }

  /** One turn of the walk: the record at `ptr` moves from the undecoded rest to the collected prefix. */
  lemma DecodeStep(order: ByteOrder, s: bytes, ptr: nat, n: nat, p: int, prefix: seq<IP>, ip: IP, q: uint16, size: nat)
    requires ptr <= |s| && n > 0 && ReadRecord(order, s[ptr..]) == Some((ip, q, size))
    ensures ptr + size <= |s|
    ensures Combine(prefix, DecodeRecords(order, s[ptr..], n, p))
         == Combine(prefix + [ip], DecodeRecords(order, s[ptr + size..], n - 1, q))
  {
    assert s[ptr..][size..] == s[ptr + size..];
    assert DecodeRecords(order, s[ptr..], n, p) == Combine([ip], DecodeRecords(order, s[ptr + size..], n - 1, q));
    CombineTwice(prefix, ip, DecodeRecords(order, s[ptr + size..], n - 1, q));
  }

  /** A record that cannot be read ends the walk with nothing. */
  lemma DecodeStop(order: ByteOrder, s: bytes, ptr: nat, n: nat, p: int, prefix: seq<IP>)
    requires ptr <= |s| && n > 0 && ReadRecord(order, s[ptr..]).None?
    ensures Combine(prefix, DecodeRecords(order, s[ptr..], n, p)).None?
  {
  }

  /**
   * The source's walk over an sctp_getaddrs buffer: `Num` records after the
   * 8-byte header, each 16 or 28 bytes by its family tag, collecting the
   * addresses and keeping the last port. A nil buffer gives nil.
   */
  method FromSCTPGetAddrs(order: ByteOrder, buf: Option<bytes>) returns (r: Option<SCTPAddr>)
    requires buf.Some? ==> |buf.value| >= GetAddrsSize
    ensures buf.None? ==> r.None?
    ensures buf.Some? ==> r == DecodeRecords(order, buf.value[GetAddrsSize..], GetU32(order, buf.value, 4), 0)
  {
    if buf.None? {
      return None;
    }
    var s := buf.value;
    var num := GetU32(order, s, 4);
    var addresses: seq<IP> := [];
    var port := 0;
    var ptr: nat := GetAddrsSize;
    var i := 0;
    ghost var whole := DecodeRecords(order, s[ptr..], num, port);
    ghost var left: nat := num;
    assert Combine([], whole) == whole by {
      if whole.Some? {
        assert [] + whole.value.addresses == whole.value.addresses;
      }
    }
    while i < num
      invariant 0 <= i <= num && ptr <= |s| && left == num - i
      invariant Combine(addresses, DecodeRecords(order, s[ptr..], left, port)) == whole
    {
      var record := ReadRecord(order, s[ptr..]);
      if record.None? {
        DecodeStop(order, s, ptr, left, port, addresses);
        return None;
      }
      var (ip, p, size) := record.value;
      DecodeStep(order, s, ptr, left, port, addresses, ip, p, size);
      assert Combine(addresses + [ip], DecodeRecords(order, s[ptr + size..], left - 1, p)) == whole;
      addresses := addresses + [ip];
      port := p;
      ptr := ptr + size;
      i := i + 1;
      left := left - 1;
    }
    assert addresses + [] == addresses;
    return Some(SCTPAddr(addresses, port));
  }

  /** The form a record gives an address back in: 4 bytes for IPv4, 16 otherwise. */
  function Canonical(ip: IP): IP
    requires To16(ip).Some?
  {
    if To4(ip).Some? then To4(ip).value else To16(ip).value
  }

  /** The canonical form denotes the same address (net.IP.Equal compares the 16-byte forms). */
  lemma CanonicalSameAddress(ip: IP)
    requires To16(ip).Some?
    ensures To16(Canonical(ip)) == To16(ip)
  {
    if To4(ip).Some? {
      To4To16(ip);
    }
  }

  /** The encodable addresses in canonical form, in order. */
  function CanonicalList(addresses: seq<IP>): seq<IP>
  {
    if addresses == [] then []
    else if To16(addresses[0]).Some? then [Canonical(addresses[0])] + CanonicalList(addresses[1..])
    else CanonicalList(addresses[1..])
  }

  /** An IPv4 record reads back as the 4-byte address, the 16-bit port and 16 bytes. */
  lemma ReadRecordV4(order: ByteOrder, ip: IP, port: int, rest: bytes)
    requires To4(ip).Some?
    ensures ReadRecord(order, SockaddrRecord(order, ip, port) + rest) == Some((To4(ip).value, WrapUint16(port), SockAddrInSize))
  {
    var sa := SockAddrIn(AF_INET, Htons(order, WrapUint16(port)), To4(ip).value);
    var rec := PackSockAddrIn(order, sa);
    assert SockaddrRecord(order, ip, port) == rec;
    SockAddrInRoundTrip(order, sa, [], rest);
    assert [] + rec + rest == rec + rest;
    HtonsNtohs(order, WrapUint16(port));
  }

  /** Any other valid address gives a 28-byte record that reads back as its 16-byte form. */
  lemma ReadRecordV6(order: ByteOrder, ip: IP, port: int, rest: bytes)
    requires To4(ip).None? && To16(ip).Some?
    ensures ReadRecord(order, SockaddrRecord(order, ip, port) + rest) == Some((To16(ip).value, WrapUint16(port), SockAddrIn6Size))
  {
    var sa := SockAddrIn6(AF_INET6, Htons(order, WrapUint16(port)), 0, To16(ip).value, 0);
    var rec := PackSockAddrIn6(order, sa);
    assert SockaddrRecord(order, ip, port) == rec;
    SockAddrIn6RoundTrip(order, sa, [], rest);
    assert [] + rec + rest == rec + rest;
    HtonsNtohs(order, WrapUint16(port));
  }

  /** A record MakeSockaddr writes reads back as the address in canonical form, the 16-bit port and the record's size. */
  lemma ReadRecordOfRecord(order: ByteOrder, ip: IP, port: int, rest: bytes)
    requires To16(ip).Some?
    ensures var rec := SockaddrRecord(order, ip, port);
      ReadRecord(order, rec + rest) == Some((Canonical(ip), WrapUint16(port), |rec|))
  {
    if To4(ip).Some? {
      ReadRecordV4(order, ip, port, rest);
    } else {
      ReadRecordV6(order, ip, port, rest);
    }
  }

  /** The records `enc` writes for each address, one after another. */
  function ConcatRecords(enc: IP -> bytes, addresses: seq<IP>): bytes
  {
    if addresses == [] then [] else enc(addresses[0]) + ConcatRecords(enc, addresses[1..])
  }

  /** MakeSockaddr's record writer with the port fixed. */
  function RecordEncoder(order: ByteOrder, port: int): IP -> bytes
  {
    ip => SockaddrRecord(order, ip, port)
  }

  lemma {:induction false} SockaddrBytesIsConcat(order: ByteOrder, addresses: seq<IP>, port: int)
    ensures SockaddrBytes(order, addresses, port) == ConcatRecords(RecordEncoder(order, port), addresses)
  {
    if addresses != [] {
      SockaddrBytesIsConcat(order, addresses[1..], port);
    }
  }

  /**
   * A record writer ReadRecord undoes: a valid address reads back in
   * canonical form with the 16-bit `port` and the record's size, and a
   * malformed one is not written at all.
   */
  ghost predicate ReadsBack(order: ByteOrder, enc: IP -> bytes, port: int)
  {
    && (forall ip, rest {:trigger ReadRecord(order, enc(ip) + rest)} :: To16(ip).Some? ==>
          ReadRecord(order, enc(ip) + rest) == Some((Canonical(ip), WrapUint16(port), |enc(ip)|)))
    && (forall ip :: To16(ip).None? ==> enc(ip) == [])
  }

  /** What decoding the records of `addresses` should give: the valid ones in canonical form and the last port. */
  function Decoded(addresses: seq<IP>, port: int, p: int): Option<SCTPAddr>
  {
    Some(SCTPAddr(CanonicalList(addresses), if CountV4(addresses) + CountV6(addresses) > 0 then WrapUint16(port) else p))
  }

  /** One step of DecodeRecords: the front record, then the rest after it. */
  lemma DecodeFirst(order: ByteOrder, s: bytes, k: nat, p: int, ip: IP, q: uint16, size: nat)
    requires ReadRecord(order, s) == Some((ip, q, size))
    ensures size <= |s|
    ensures DecodeRecords(order, s, k + 1, p) == Combine([ip], DecodeRecords(order, s[size..], k, q))
  {
  }

  /** How the first address enters the counts and the expected result. */
  lemma DecodedFirst(addresses: seq<IP>, port: int, p: int)
    requires addresses != []
    ensures var tail := addresses[1..];
      To16(addresses[0]).Some? ==>
        && CountV4(addresses) + CountV6(addresses) == CountV4(tail) + CountV6(tail) + 1
        && Decoded(addresses, port, p) == Combine([Canonical(addresses[0])], Decoded(tail, port, WrapUint16(port)))
    ensures var tail := addresses[1..];
      To16(addresses[0]).None? ==>
        && CountV4(addresses) + CountV6(addresses) == CountV4(tail) + CountV6(tail)
        && Decoded(addresses, port, p) == Decoded(tail, port, p)
  {
    var tail := addresses[1..];
    if To16(addresses[0]).Some? {
      assert CanonicalList(addresses) == [Canonical(addresses[0])] + CanonicalList(tail);
    }
  }

  /** A valid address's record in front of `x` decodes to its canonical form ahead of what `x` decodes to. */
  lemma ValidRecordStep(order: ByteOrder, enc: IP -> bytes, ip: IP, port: int, x: bytes, k: nat, p: int, d: Option<SCTPAddr>)
    requires ReadsBack(order, enc, port) && To16(ip).Some?
    requires DecodeRecords(order, x, k, WrapUint16(port)) == d
    ensures DecodeRecords(order, enc(ip) + x, k + 1, p) == Combine([Canonical(ip)], d)
  {
    var r := enc(ip);
    assert ReadRecord(order, r + x) == Some((Canonical(ip), WrapUint16(port), |r|));
    DecodeFirst(order, r + x, k, p, Canonical(ip), WrapUint16(port), |r|);
    assert (r + x)[|r|..] == x;
  }

  /** Decoding the records of any writer ReadRecord undoes, counted, gives Decoded. */
  lemma {:induction false} DecodeConcat(order: ByteOrder, enc: IP -> bytes, addresses: seq<IP>, port: int, p: int)
    requires ReadsBack(order, enc, port)
    decreases |addresses|
    ensures DecodeRecords(order, ConcatRecords(enc, addresses), CountV4(addresses) + CountV6(addresses), p)
         == Decoded(addresses, port, p)
  {
    if addresses != [] {
      var ip, tail := addresses[0], addresses[1..];
      var x, k := ConcatRecords(enc, tail), CountV4(tail) + CountV6(tail);
      assert ConcatRecords(enc, addresses) == enc(ip) + x;
      DecodedFirst(addresses, port, p);
      if To16(ip).Some? {
        var q := WrapUint16(port);
        DecodeConcat(order, enc, tail, port, q);
        ValidRecordStep(order, enc, ip, port, x, k, p, Decoded(tail, port, q));
        assert CountV4(addresses) + CountV6(addresses) == k + 1;
      } else {
        assert enc(ip) + x == x;
        DecodeConcat(order, enc, tail, port, p);
      }
    }
  }

  /** MakeSockaddr's records decode back to the valid addresses in canonical form and the last port. */
  lemma DecodeSockaddrBytes(order: ByteOrder, addresses: seq<IP>, port: int)
    ensures DecodeRecords(order, SockaddrBytes(order, addresses, port), CountV4(addresses) + CountV6(addresses), 0)
         == Decoded(addresses, port, 0)
  {
    var enc := RecordEncoder(order, port);
    forall ip, r | To16(ip).Some?
      ensures ReadRecord(order, enc(ip) + r) == Some((Canonical(ip), WrapUint16(port), |enc(ip)|))
    {
      ReadRecordOfRecord(order, ip, port, r);
    }
    SockaddrBytesIsConcat(order, addresses, port);
    DecodeConcat(order, enc, addresses, port, 0);
  }

  /**
   * Decoding what MakeSockaddr encodes, behind a getaddrs header counting its
   * records, gives back every valid address (in canonical form, in order)
   * and the port truncated to 16 bits (0 when there is no record).
   */
  lemma FromSCTPGetAddrsRoundTrip(order: ByteOrder, addr: SCTPAddr, assocId: int32)
    requires CountV4(addr.addresses) + CountV6(addr.addresses) < 0x1_0000_0000
    ensures var num := CountV4(addr.addresses) + CountV6(addr.addresses);
      var s := PackGetAddrsHeader(order, assocId, num) + SockaddrBytes(order, addr.addresses, addr.port);
      && |s| >= GetAddrsSize
      && GetU32(order, s, 4) == num
      && DecodeRecords(order, s[GetAddrsSize..], GetU32(order, s, 4), 0)
         == Some(SCTPAddr(CanonicalList(addr.addresses), if num > 0 then WrapUint16(addr.port) else 0))
  {
    var num := CountV4(addr.addresses) + CountV6(addr.addresses);
    var body := SockaddrBytes(order, addr.addresses, addr.port);
    var s := PackGetAddrsHeader(order, assocId, num) + body;
    GetAddrsHeaderRoundTrip(order, assocId, num, body);
    assert s[GetAddrsSize..] == body;
    DecodeSockaddrBytes(order, addr.addresses, addr.port);
  }

  // ---------------------------------------------------------------------
  // FromSockAddrStorage

  /**
   * A sockaddr_storage holding an AF_INET or AF_INET6 address gives a
   * one-address SCTPAddr with the ntohs'd port; any other family, or a nil
   * storage, gives nil.
   */
  function FromSockAddrStorage(order: ByteOrder, storage: Option<bytes>): (r: Option<SCTPAddr>)
    requires storage.Some? ==> |storage.value| == SockAddrStorageSize
    ensures r.Some? <==> storage.Some? && GetU16(order, storage.value, 0) in {AF_INET, AF_INET6}
    ensures r.Some? ==> |r.value.addresses| == 1 && 0 <= r.value.port <= 65535
    ensures r.Some? && GetU16(order, storage.value, 0) == AF_INET ==> r.value.addresses == [storage.value[4..8]]
    ensures r.Some? && GetU16(order, storage.value, 0) == AF_INET6 ==> r.value.addresses == [storage.value[8..24]]
  {
    match storage
    case None => None
    case Some(s) =>
      var family := GetU16(order, s, 0);
      if family == AF_INET then
        var sa := UnpackSockAddrIn(order, s, 0);
        Some(SCTPAddr([sa.addr], Ntohs(order, sa.port)))
      else if family == AF_INET6 then
        var sa := UnpackSockAddrIn6(order, s, 0);
        Some(SCTPAddr([sa.addr], Ntohs(order, sa.port)))
      else None
  }

  /** A record MakeSockaddr writes, padded to storage size, reads back as that address and port. */
  lemma FromSockAddrStorageRoundTrip(order: ByteOrder, ip: IP, port: int)
    requires To16(ip).Some?
    ensures var rec := SockaddrRecord(order, ip, port);
      var s := rec + Zeros(SockAddrStorageSize - |rec|);
      FromSockAddrStorage(order, Some(s)) == Some(SCTPAddr([Canonical(ip)], WrapUint16(port)))
  {
    var rec := SockaddrRecord(order, ip, port);
    ReadRecordOfRecord(order, ip, port, Zeros(SockAddrStorageSize - |rec|));
  }

  /**
   * As written, the AF_INET6 branch also copies the address into the buffer
   * behind the shared net.IPv6zero (sctp_addr.go:125-126). The second
   * component is that shared buffer after the call.
   */
  function FromSockAddrStorageAsWritten(order: ByteOrder, storage: Option<bytes>, ipv6zero: IP): (r: (Option<SCTPAddr>, IP))
    requires storage.Some? ==> |storage.value| == SockAddrStorageSize
    requires |ipv6zero| == 16
    ensures r.0 == FromSockAddrStorage(order, storage)
    ensures r.1 != ipv6zero ==> storage.Some? && GetU16(order, storage.value, 0) == AF_INET6
  {
    var result := FromSockAddrStorage(order, storage);
    if storage.Some? && GetU16(order, storage.value, 0) == AF_INET6 then (result, storage.value[8..24])
    else (result, ipv6zero)
  }

  /** An IPv6 record padded to storage size carries the AF_INET6 tag and the address at bytes 8 to 24. */
  lemma StorageOfV6Record(order: ByteOrder, ip: IP, port: int)
    requires To4(ip).None? && To16(ip).Some?
    ensures var rec := SockaddrRecord(order, ip, port);
      var s := rec + Zeros(SockAddrStorageSize - |rec|);
      && |s| == SockAddrStorageSize
      && GetU16(order, s, 0) == AF_INET6
      && s[8..24] == ip
  {
    var rec := SockaddrRecord(order, ip, port);
    ReadRecordV6(order, ip, port, Zeros(SockAddrStorageSize - |rec|));
  }

  /** net.IPv6loopback (::1). */
  const IPv6loopback: IP := Zeros(15) + [1]

  /**
   * Reading the peer address ::1 leaves the shared zero address holding ::1,
   * so every later empty segment under sctp or sctp6 binds to ::1 instead
   * of the wildcard.
   */
  lemma IPv6zeroOverwritten(order: ByteOrder)
    ensures var rec := SockaddrRecord(order, IPv6loopback, 0);
      var s := rec + Zeros(SockAddrStorageSize - |rec|);
      && FromSockAddrStorageAsWritten(order, Some(s), IPv6zero).1 == IPv6loopback
      && IPv6loopback != IPv6zero
      && KeepSegment(Sctp, "", (_: string) => None) == [IPv6zero]
  {
    assert IPv6loopback[10] == 0;
    StorageOfV6Record(order, IPv6loopback, 0);
    assert IPv6loopback[15] != IPv6zero[15];
  }
}
