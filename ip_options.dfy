/**
 * Readers for the option areas the packet generator fills in, written from
 * the standards rather than from the generator: the IPv4 header options of
 * section 3.1 of RFC 791 and the Destination Options TLVs of sections 4.2
 * and 4.6 of RFC 8200.
 */
module IpOptions {
  import opened Wrappers

  /** An octet. */
  newtype byte = b: int | 0 <= b < 0x100

  /** Room for options in an IPv4 header: IHL at most 15 words, minus the 5-word fixed header. */
  const IPV4_OPTION_SPACE: nat := 40

  /** Option type 0, End of Option List (section 3.1 of RFC 791). */
  const IPV4_EOL: byte := 0
  /** Option type 1, No Operation (section 3.1 of RFC 791). */
  const IPV4_NOP: byte := 1
  /** Option type 0, Pad1 (section 4.2 of RFC 8200). */
  const IPV6_PAD1: byte := 0

  datatype Ipv4Option =
    | EndOfOptionList
    | NoOperation
      /** A type-length-value option; the length octet counted type, length and data. */
    | Ipv4Tlv(kind: byte, data: seq<byte>)

  /**
   * Reads an IPv4 option area: single-octet End of Option List (after which
   * the rest is padding) and No Operation, every other option a TLV whose
   * length octet counts its type, length and data octets.
   */
  function ParseIpv4Options(b: seq<byte>): Option<seq<Ipv4Option>>
    decreases |b|
  {
    if b == [] then Some([])
    else if b[0] == IPV4_EOL then Some([EndOfOptionList])
    else if b[0] == IPV4_NOP then
      match ParseIpv4Options(b[1..])
      case None => None
      case Some(rest) => Some([NoOperation] + rest)
    else if |b| < 2 || b[1] < 2 || |b| < b[1] as int then None
    else
      match ParseIpv4Options(b[b[1] as int..])
      case None => None
      case Some(rest) => Some([Ipv4Tlv(b[0], b[2..b[1] as int])] + rest)
  }

  /** An area holding one TLV option that fills it. */
  lemma Ipv4SingleOption(b: seq<byte>)
    requires |b| >= 2 && b[0] != IPV4_EOL && b[0] != IPV4_NOP && b[1] as int == |b|
    ensures ParseIpv4Options(b) == Some([Ipv4Tlv(b[0], b[2..])])
  {
    assert ParseIpv4Options(b[b[1] as int..]) == Some([]) by {
      assert b[b[1] as int..] == [];
    }
    var n := b[1] as int;
    assert n == |b|;
    assert b[2..n] == b[2..];
    assert [Ipv4Tlv(b[0], b[2..n])] + [] == [Ipv4Tlv(b[0], b[2..])];
  }

  /** An area holding one TLV option followed by End of Option List. */
  lemma Ipv4OptionThenEnd(b: seq<byte>)
    requires |b| >= 3 && b[0] != IPV4_EOL && b[0] != IPV4_NOP && b[1] as int == |b| - 1 && b[|b| - 1] == IPV4_EOL
    ensures ParseIpv4Options(b) == Some([Ipv4Tlv(b[0], b[2..|b| - 1]), EndOfOptionList])
  {
    assert ParseIpv4Options(b[b[1] as int..]) == Some([EndOfOptionList]) by {
      assert b[b[1] as int..] == [IPV4_EOL];
    }
    var n := b[1] as int;
    assert n == |b| - 1;
    assert [Ipv4Tlv(b[0], b[2..n])] + [EndOfOptionList] == [Ipv4Tlv(b[0], b[2..|b| - 1]), EndOfOptionList];
  }

  datatype Ipv6Option =
    | Pad1
      /** A type-length-value option; Opt Data Len counted only the data. */
    | Ipv6Tlv(kind: byte, data: seq<byte>)

  /**
   * Reads the options of an IPv6 Destination Options header: Pad1 is a
   * single zero octet, every other option is type, Opt Data Len and that
   * many octets of data.
   */
  function ParseIpv6Options(b: seq<byte>): Option<seq<Ipv6Option>>
    decreases |b|
  {
    if b == [] then Some([])
    else if b[0] == IPV6_PAD1 then
      match ParseIpv6Options(b[1..])
      case None => None
      case Some(rest) => Some([Pad1] + rest)
    else if |b| < 2 || |b| < 2 + b[1] as int then None
    else
      match ParseIpv6Options(b[2 + b[1] as int..])
      case None => None
      case Some(rest) => Some([Ipv6Tlv(b[0], b[2..2 + b[1] as int])] + rest)
  }

  /** An options area holding one TLV option that fills it. */
  lemma Ipv6SingleOption(b: seq<byte>)
    requires |b| >= 2 && b[0] != IPV6_PAD1 && 2 + b[1] as int == |b|
    ensures ParseIpv6Options(b) == Some([Ipv6Tlv(b[0], b[2..])])
  {
    assert ParseIpv6Options(b[2 + b[1] as int..]) == Some([]) by {
      assert b[2 + b[1] as int..] == [];
    }
    var n := 2 + b[1] as int;
    assert n == |b|;
    assert b[2..n] == b[2..];
    assert [Ipv6Tlv(b[0], b[2..n])] + [] == [Ipv6Tlv(b[0], b[2..])];
  }

  /** What a node does with an option type it does not recognise (section 4.2 of RFC 8200). */
  datatype UnrecognisedAction =
    | SkipOption
    | DiscardPacket
    | DiscardAndReportAlways
    | DiscardAndReportUnlessMulticast

  /** The action is chosen by the two high-order bits of the option type. */
  function UnrecognisedActionOf(kind: byte): UnrecognisedAction
  {
    match kind / 0x40
    case 0 => SkipOption
    case 1 => DiscardPacket
    case 2 => DiscardAndReportAlways
    case _ => DiscardAndReportUnlessMulticast
  }
}
