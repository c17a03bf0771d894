/**
 * The packet generator `PktGen`: the option octets it packs for the UOA
 * ("UDP Option of Address") option and for the foreign options, and the
 * UDP datagrams it wraps them in.  Addresses arrive already converted to
 * binary (4 or 16 octets); the IP/UDP layering is kept as a record of the
 * fields the generator sets.
 */
module PktGen {
  import opened Wrappers
  import opened IpOptions
  import Util

  /** Option type of the UOA option. */
  const UOA_TYPE: byte := 0x1f
  /** Option type of the foreign option that no receiver recognises. */
  const UNK_TYPE: byte := 0x2f

  const DEFAULT_PAYLOAD: string := "Hello, UOA!"
  const IPV4_HEADER_LEN: nat := 20
  const IPV6_HEADER_LEN: nat := 40
  const UDP_HEADER_LEN: nat := 8

  type Port = p: int | 0 <= p < 0x1_0000

  /** A 16-bit field such as the UDP checksum. */
  newtype u16 = w: int | 0 <= w < 0x1_0000

  datatype Family = AfInet | AfInet6

  /** Octets of an address of the family. */
  function AddrWidth(af: Family): nat
  {
    if af == AfInet then 4 else 16
  }

  /** The real client address an option carries: family, binary ip and port. */
  datatype RealAddr = RealAddr(af: Family, ip: seq<byte>, port: Port)

  /** The ip has the width of its family, as `inet_pton` produces it. */
  predicate WellFormed(a: RealAddr)
  {
    |a.ip| == AddrWidth(a.af)
  }

  /** A `struct` "Ns" field: the octets truncated or zero-padded to exactly `n`. */
  function PackBytes(b: seq<byte>, n: nat): (r: seq<byte>)
    ensures |r| == n
    ensures r[..if |b| < n then |b| else n] == b[..if |b| < n then |b| else n]
  {
    if |b| >= n then b[..n] else b + seq(n - |b|, _ => 0)
  }

  /** The port in network byte order, most significant octet first. */
  function PortBytes(port: Port): (r: seq<byte>)
    ensures |r| == 2
    ensures r[0] as int * 256 + r[1] as int == port
  {
    [(port / 256) as byte, (port % 256) as byte]
  }

  // ----- The port field as the source packs it -----

  datatype PackError = StructError

  /** `socket.htons` on a little-endian host: the two octets swapped. */
  function HtonsLittleEndian(x: Port): Port
  {
    (x % 256) * 256 + x / 256
  }

  /**
   * `struct.pack('h', v)` on a little-endian host: a signed short, low octet
   * first; values outside [-32768, 32767] raise `struct.error`.
   */
  function PackNativeShort(v: int): Result<seq<byte>, PackError>
  {
    if v < -0x8000 || 0x7fff < v then Failure(StructError)
    else
      var u := v % 0x1_0000;
      Success([(u % 256) as byte, (u / 256) as byte])
  }

  /**
   * The port field exactly as `struct.pack('…h…', htons(port))` produces it:
   * network order when it succeeds, but it succeeds only for ports whose
   * low octet is below 0x80.
   */
  function PackPortAsWritten(port: Port): (r: Result<seq<byte>, PackError>)
    ensures r.Success? <==> port % 256 < 0x80
    ensures r.Success? ==> r.value == PortBytes(port)
  {
    PackNativeShort(HtonsLittleEndian(port))
  }

  /**
   * A real port such as 8082 makes the packing raise; the suites pack only
   * the mock port 23333, which packs correctly, so the defect stays latent
   * until a caller passes a port whose low octet is 0x80 or more.
   */
  lemma PackPortAsWrittenRejects8082()
    ensures PackPortAsWritten(8082).Failure?
    ensures PackPortAsWritten(23333) == Success(PortBytes(23333))
  {
  }

  // ----- Option octets -----

  /**
   * The UOA option in an IPv4 header: type, a length octet that counts
   * type, length and data, the port, and the ip.
   */
  function Udp4UoaOption(a: RealAddr): (opt: seq<byte>)
    ensures |opt| == if a.af == AfInet then 8 else 20
    ensures |opt| == opt[1] as int
    ensures opt[0] == UOA_TYPE
  {
    [UOA_TYPE, if a.af == AfInet then 8 else 20] + PortBytes(a.port) + PackBytes(a.ip, AddrWidth(a.af))
  }

  /**
   * The UOA option in an IPv6 Destination Options header: type, an Opt Data
   * Len that counts only the port and ip octets, the port, and the ip.
   */
  function Udp6UoaOption(a: RealAddr): (opt: seq<byte>)
    ensures |opt| == if a.af == AfInet then 8 else 20
    ensures |opt| == opt[1] as int + 2
    ensures opt[0] == UOA_TYPE
  {
    [UOA_TYPE, if a.af == AfInet then 6 else 18] + PortBytes(a.port) + PackBytes(a.ip, AddrWidth(a.af))
  }

  /** b'123456' */
  const UNKNOWN4_DATA: seq<byte> := [0x31, 0x32, 0x33, 0x34, 0x35, 0x36]
  /** b'123456789012345678' */
  const UNKNOWN6_DATA: seq<byte> :=
    [0x31, 0x32, 0x33, 0x34, 0x35, 0x36, 0x37, 0x38, 0x39, 0x30, 0x31, 0x32, 0x33, 0x34, 0x35, 0x36, 0x37, 0x38]
  /** `n` copies of one octet. */
  function Repeat(b: byte, n: nat): (r: seq<byte>)
    ensures |r| == n
    ensures forall i :: 0 <= i < n ==> r[i] == b
  {
    if n == 0 then [] else [b] + Repeat(b, n - 1)
  }

  /** 38 filler octets 0xEE. */
  const FULL_DATA: seq<byte> := Repeat(0xEE, 38)

  /** The IPv4 foreign option: type 0x2f, length 8, six data octets. */
  const UDP4_UNKNOWN_OPTION: seq<byte> := [UNK_TYPE, 8] + UNKNOWN4_DATA
  /** The same foreign option followed by an End of Option List octet. */
  const UDP4_OPT_END_OPTION: seq<byte> := [UNK_TYPE, 8] + UNKNOWN4_DATA + [0]
  /** One foreign option of length 40 that fills the whole IPv4 option area. */
  const UDP4_FULL_OPTION: seq<byte> := [UNK_TYPE, 40] + FULL_DATA
  /** The IPv6 foreign option: type 0x2f, Opt Data Len 18, eighteen data octets. */
  const UDP6_UNKNOWN_OPTION: seq<byte> := [UNK_TYPE, 18] + UNKNOWN6_DATA

  /**
   * Reads UOA option data (port then ip) back into an address: six octets
   * for IPv4, eighteen for IPv6.
   */
  function DecodeUoaData(d: seq<byte>): Option<RealAddr>
  {
    if |d| != 6 && |d| != 18 then None
    else
      var port := d[0] as int * 256 + d[1] as int;
      Some(RealAddr(if |d| == 6 then AfInet else AfInet6, d[2..], port))
  }

  /**
   * An IPv4 reader finds exactly one option in the UOA octets, of type
   * 0x1f, whose data decodes to the address that was packed.
   */
  lemma Udp4UoaOptionReadsBack(a: RealAddr)
    requires WellFormed(a)
    ensures ParseIpv4Options(Udp4UoaOption(a)) == Some([Ipv4Tlv(UOA_TYPE, Udp4UoaOption(a)[2..])])
    ensures DecodeUoaData(Udp4UoaOption(a)[2..]) == Some(a)
  {
    var opt := Udp4UoaOption(a);
    Ipv4SingleOption(opt);
    assert opt[2..] == PortBytes(a.port) + a.ip;
  }

  /**
   * An IPv6 Destination Options reader finds exactly one option in the UOA
   * octets, of type 0x1f, whose data decodes to the address that was packed.
   */
  lemma Udp6UoaOptionReadsBack(a: RealAddr)
    requires WellFormed(a)
    ensures ParseIpv6Options(Udp6UoaOption(a)) == Some([Ipv6Tlv(UOA_TYPE, Udp6UoaOption(a)[2..])])
    ensures DecodeUoaData(Udp6UoaOption(a)[2..]) == Some(a)
  {
    var opt := Udp6UoaOption(a);
    Ipv6SingleOption(opt);
    assert opt[2..] == PortBytes(a.port) + a.ip;
  }

  /**
   * For one address both placements carry the same data; the IPv4 length
   * octet exceeds the IPv6 Opt Data Len by the two header octets.
   */
  lemma Ipv4LengthIsIpv6LengthPlusTwo(a: RealAddr)
    ensures Udp4UoaOption(a)[1] as int == Udp6UoaOption(a)[1] as int + 2
    ensures Udp4UoaOption(a)[2..] == Udp6UoaOption(a)[2..]
  {
  }

  /** The IPv4 foreign options read as the options they are meant to be. */
  lemma ForeignIpv4OptionsReadBack()
    ensures ParseIpv4Options(UDP4_UNKNOWN_OPTION) == Some([Ipv4Tlv(UNK_TYPE, UNKNOWN4_DATA)])
    ensures ParseIpv4Options(UDP4_OPT_END_OPTION) == Some([Ipv4Tlv(UNK_TYPE, UNKNOWN4_DATA), EndOfOptionList])
    ensures ParseIpv4Options(UDP4_FULL_OPTION) == Some([Ipv4Tlv(UNK_TYPE, FULL_DATA)])
  {
    Ipv4SingleOption(UDP4_UNKNOWN_OPTION);
    assert UDP4_UNKNOWN_OPTION[2..] == UNKNOWN4_DATA;
    Ipv4OptionThenEnd(UDP4_OPT_END_OPTION);
    assert UDP4_OPT_END_OPTION[2..8] == UNKNOWN4_DATA;
    Ipv4SingleOption(UDP4_FULL_OPTION);
    assert UDP4_FULL_OPTION[2..] == FULL_DATA;
  }

  /** The IPv6 foreign option reads as one option of type 0x2f with its eighteen data octets. */
  lemma ForeignIpv6OptionReadsBack()
    ensures ParseIpv6Options(UDP6_UNKNOWN_OPTION) == Some([Ipv6Tlv(UNK_TYPE, UNKNOWN6_DATA)])
  {
    Ipv6SingleOption(UDP6_UNKNOWN_OPTION);
    assert UDP6_UNKNOWN_OPTION[2..] == UNKNOWN6_DATA;
  }

  /**
   * Every IPv4 option area the generator builds fits the 40-octet option
   * space, and the full option fills it exactly.
   */
  lemma Ipv4OptionsFit(a: RealAddr)
    ensures |Udp4UoaOption(a)| <= IPV4_OPTION_SPACE
    ensures |UDP4_UNKNOWN_OPTION| <= IPV4_OPTION_SPACE
    ensures |UDP4_OPT_END_OPTION| <= IPV4_OPTION_SPACE
    ensures |UDP4_FULL_OPTION| == IPV4_OPTION_SPACE
  {
  }

  /** Both option types tell a node that does not know them to skip the option. */
  lemma OptionTypesAreSkippable()
    ensures UnrecognisedActionOf(UOA_TYPE) == SkipOption
    ensures UnrecognisedActionOf(UNK_TYPE) == SkipOption
  {
  }

  // ----- Packets -----

  /** The UDP checksum: left for scapy to fill in, or a value set explicitly. */
  datatype Checksum = Auto | Fixed(value: u16)

  datatype IpLayer =
    | IPv4(dst: string, options: seq<byte>)
    | IPv6(dst: string, destOptions: Option<seq<byte>>)

  datatype UdpLayer = UdpLayer(sport: int, dport: int, chksum: Checksum)

  datatype Packet = Packet(ip: IpLayer, udp: UdpLayer, load: string)

  /** `in6_chksum` over the IPv6 pseudo-header and the raw UDP segment of a packet. */
  type ChecksumFn = Packet -> u16

  /** The packet with its UDP checksum field set to zero. */
  function ZeroChecksum(pkt: Packet): Packet
  {
    pkt.(udp := pkt.udp.(chksum := Fixed(0)))
  }

  /** A generator: destination, destination port, source port and payload. */
  datatype PktGen = PktGen(dip: string, dport: int, sport: int, payload: string)

  /**
   * `PktGen(dip, dport, sport, payload)`: a missing or zero source port is
   * replaced by a random one and a missing or empty payload by the default.
   */
  function NewPktGen(dip: string, dport: int, sport: Option<int>, payload: Option<string>, draw: real): (g: PktGen)
    requires 0.0 <= draw < 1.0
    ensures g.dip == dip && g.dport == dport
    ensures sport.None? || sport == Some(0) ==> 10000 <= g.sport < 60000
    ensures sport.Some? && sport.value != 0 ==> g.sport == sport.value
    ensures payload.None? || payload == Some([]) ==> g.payload == DEFAULT_PAYLOAD
    ensures payload.Some? && payload.value != [] ==> g.payload == payload.value
  {
    var sp := if sport.None? || sport == Some(0) then Util.RandPort(draw) else sport.value;
    var pl := if payload.None? || payload == Some([]) then DEFAULT_PAYLOAD else payload.value;
    PktGen(dip, dport, sp, pl)
  }

  /** Python's `'v' * n`, empty for a negative count. */
  function Filler(n: int): string
  {
    if n <= 0 then [] else seq(n, _ => 'v')
  }

  /** `udp4(pkt_len)`: a plain UDP datagram; a given length sets the payload to pad the datagram to it. */
  function Udp4(g: PktGen, pktLen: Option<int>): Packet
  {
    var load := if pktLen.None? then g.payload else Filler(pktLen.value - IPV4_HEADER_LEN - UDP_HEADER_LEN);
    Packet(IPv4(g.dip, []), UdpLayer(g.sport, g.dport, Auto), load)
  }

  /** `udp6(pkt_len)`: a plain UDP6 datagram, likewise. */
  function Udp6(g: PktGen, pktLen: Option<int>): Packet
  {
    var load := if pktLen.None? then g.payload else Filler(pktLen.value - IPV6_HEADER_LEN - UDP_HEADER_LEN);
    Packet(IPv6(g.dip, None), UdpLayer(g.sport, g.dport, Auto), load)
  }

  /**
   * A requested datagram length is met exactly by the header lengths plus
   * the payload, and a length too small for the headers leaves the payload empty.
   */
  lemma PlainDatagramLengths(g: PktGen, n: int)
    ensures n >= IPV4_HEADER_LEN + UDP_HEADER_LEN ==> IPV4_HEADER_LEN + UDP_HEADER_LEN + |Udp4(g, Some(n)).load| == n
    ensures n < IPV4_HEADER_LEN + UDP_HEADER_LEN ==> Udp4(g, Some(n)).load == []
    ensures n >= IPV6_HEADER_LEN + UDP_HEADER_LEN ==> IPV6_HEADER_LEN + UDP_HEADER_LEN + |Udp6(g, Some(n)).load| == n
    ensures n < IPV6_HEADER_LEN + UDP_HEADER_LEN ==> Udp6(g, Some(n)).load == []
    ensures forall i :: 0 <= i < |Udp4(g, Some(n)).load| ==> Udp4(g, Some(n)).load[i] == 'v'
    ensures forall i :: 0 <= i < |Udp6(g, Some(n)).load| ==> Udp6(g, Some(n)).load[i] == 'v'
  {
  }

  /** `udp4_uoa_opt`: an IPv4 datagram whose header carries the UOA option. */
  function Udp4UoaOpt(g: PktGen, a: RealAddr): Packet
  {
    Packet(IPv4(g.dip, Udp4UoaOption(a)), UdpLayer(g.sport, g.dport, Auto), g.payload)
  }

  /** `udp4_unknown_opt`. */
  function Udp4UnknownOpt(g: PktGen): Packet
  {
    Packet(IPv4(g.dip, UDP4_UNKNOWN_OPTION), UdpLayer(g.sport, g.dport, Auto), g.payload)
  }

  /** `udp4_opt_end`. */
  function Udp4OptEnd(g: PktGen): Packet
  {
    Packet(IPv4(g.dip, UDP4_OPT_END_OPTION), UdpLayer(g.sport, g.dport, Auto), g.payload)
  }

  /** `udp4_full_opt`. */
  function Udp4FullOpt(g: PktGen): Packet
  {
    Packet(IPv4(g.dip, UDP4_FULL_OPTION), UdpLayer(g.sport, g.dport, Auto), g.payload)
  }

  /**
   * A UDP6 datagram from the generator with a Destination Options header
   * holding `opt`, whose UDP checksum is `in6_chksum` of the finished packet
   * taken while its checksum field was zero.
   */
  ghost predicate DestOptPacket(pkt: Packet, g: PktGen, opt: seq<byte>, in6Chksum: ChecksumFn)
  {
    && pkt.ip == IPv6(g.dip, Some(opt))
    && pkt.udp.sport == g.sport && pkt.udp.dport == g.dport
    && pkt.load == g.payload
    && pkt.udp.chksum == Fixed(in6Chksum(ZeroChecksum(pkt)))
  }

  /**
   * `udp6_ext_hdr_with_uoa_opt`: the UOA option in a Destination Options
   * header; the checksum is computed after the header is in place and
   * written into the packet.
   */
  method Udp6ExtHdrWithUoaOpt(g: PktGen, a: RealAddr, in6Chksum: ChecksumFn) returns (pkt: Packet)
    ensures DestOptPacket(pkt, g, Udp6UoaOption(a), in6Chksum)
  {
    pkt := Packet(IPv6(g.dip, Some(Udp6UoaOption(a))), UdpLayer(g.sport, g.dport, Fixed(0)), g.payload);
    pkt := pkt.(udp := pkt.udp.(chksum := Fixed(in6Chksum(pkt))));
  }

  /** `udp6_ext_hdr_with_unknown_opt`: the foreign option, checksum likewise. */
  method Udp6ExtHdrWithUnknownOpt(g: PktGen, in6Chksum: ChecksumFn) returns (pkt: Packet)
    ensures DestOptPacket(pkt, g, UDP6_UNKNOWN_OPTION, in6Chksum)
  {
    pkt := Packet(IPv6(g.dip, Some(UDP6_UNKNOWN_OPTION)), UdpLayer(g.sport, g.dport, Fixed(0)), g.payload);
    pkt := pkt.(udp := pkt.udp.(chksum := Fixed(in6Chksum(pkt))));
  }

  /** The packets a generator builds, by builder. */
  datatype PacketKind =
    | PlainV4
    | UoaV4(addr: RealAddr)
    | UnknownV4
    | OptEndV4
    | FullOptV4
    | PlainV6
    | UoaV6(addr: RealAddr)
    | UnknownV6

  /** `pkt` is what the generator's builder of that kind returns. */
  ghost predicate Realises(pkt: Packet, k: PacketKind, g: PktGen, in6Chksum: ChecksumFn)
  {
    match k
    case PlainV4 => pkt == Udp4(g, None)
    case UoaV4(a) => pkt == Udp4UoaOpt(g, a)
    case UnknownV4 => pkt == Udp4UnknownOpt(g)
    case OptEndV4 => pkt == Udp4OptEnd(g)
    case FullOptV4 => pkt == Udp4FullOpt(g)
    case PlainV6 => pkt == Udp6(g, None)
    case UoaV6(a) => DestOptPacket(pkt, g, Udp6UoaOption(a), in6Chksum)
    case UnknownV6 => DestOptPacket(pkt, g, UDP6_UNKNOWN_OPTION, in6Chksum)
  }

  /** Every packet of one generator goes to the same destination from the same source port. */
  lemma BuildersShareEndpoints(pkt: Packet, k: PacketKind, g: PktGen, in6Chksum: ChecksumFn)
    requires Realises(pkt, k, g, in6Chksum)
    ensures pkt.ip.dst == g.dip && pkt.udp.sport == g.sport && pkt.udp.dport == g.dport
    ensures pkt.load == g.payload
  {
  }

  function FindUoa4(opts: seq<Ipv4Option>): Option<seq<byte>>
  {
    if opts == [] then None
    else if opts[0].Ipv4Tlv? && opts[0].kind == UOA_TYPE then Some(opts[0].data)
    else FindUoa4(opts[1..])
  }

  function FindUoa6(opts: seq<Ipv6Option>): Option<seq<byte>>
  {
    if opts == [] then None
    else if opts[0].Ipv6Tlv? && opts[0].kind == UOA_TYPE then Some(opts[0].data)
    else FindUoa6(opts[1..])
  }

  /**
   * The real address a receiver reads from a packet: the data of the first
   * UOA option in its IPv4 options or Destination Options header.
   */
  function ReadRealAddr(pkt: Packet): Option<RealAddr>
  {
    var found :=
      match pkt.ip
      case IPv4(_, options) =>
        (match ParseIpv4Options(options) case None => None case Some(l) => FindUoa4(l))
      case IPv6(_, destOptions) =>
        (match destOptions
         case None => None
         case Some(b) => match ParseIpv6Options(b) case None => None case Some(l) => FindUoa6(l));
    match found
    case None => None
    case Some(d) => DecodeUoaData(d)
  }

  /** The address a builder puts into its packet, if any. */
  function Carried(k: PacketKind): Option<RealAddr>
  {
    if k.UoaV4? || k.UoaV6? then Some(k.addr) else None
  }

  /**
   * The UOA builders' packets carry exactly their address; every other
   * builder's packet carries none.
   */
  lemma ReadRealAddrOfBuilders(pkt: Packet, k: PacketKind, g: PktGen, in6Chksum: ChecksumFn)
    requires Realises(pkt, k, g, in6Chksum)
    requires (k.UoaV4? || k.UoaV6?) ==> WellFormed(k.addr)
    ensures ReadRealAddr(pkt) == Carried(k)
  {
    ForeignIpv4OptionsReadBack();
    ForeignIpv6OptionReadsBack();
    match k
    case UoaV4(a) => Udp4UoaOptionReadsBack(a);
    case UoaV6(a) => Udp6UoaOptionReadsBack(a);
    case PlainV4 =>
    case UnknownV4 =>
      assert FindUoa4([Ipv4Tlv(UNK_TYPE, UNKNOWN4_DATA)]) == None by {
        assert [Ipv4Tlv(UNK_TYPE, UNKNOWN4_DATA)][1..] == [];
      }
    case OptEndV4 =>
      var l := [Ipv4Tlv(UNK_TYPE, UNKNOWN4_DATA), EndOfOptionList];
      assert FindUoa4(l) == None by {
        assert l[1..][1..] == [];
      }
    case FullOptV4 =>
      assert FindUoa4([Ipv4Tlv(UNK_TYPE, FULL_DATA)]) == None by {
        assert [Ipv4Tlv(UNK_TYPE, FULL_DATA)][1..] == [];
      }
    case PlainV6 =>
    case UnknownV6 =>
      assert FindUoa6([Ipv6Tlv(UNK_TYPE, UNKNOWN6_DATA)]) == None by {
        assert [Ipv6Tlv(UNK_TYPE, UNKNOWN6_DATA)][1..] == [];
      }
  }
}
