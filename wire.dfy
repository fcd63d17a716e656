/** Wire layouts of the headers the capture writer emits, each with a
    decoder of the kind a capture reader applies, and the round-trip
    lemmas that connect them:
    - Ethernet II (14-byte header: destination MAC, source MAC, EtherType);
    - IPv4, RFC 791 section 3.1, restricted to a header carrying exactly
      one 4-byte option (header length field 6), which is the only shape
      the writer produces;
    - IPv6, RFC 8200 section 3 (fixed 40-byte header, no extensions);
    - TCP, RFC 9293 section 3.1 (the layout uses data offset 5 and no
      options; the decoder reads the data offset and skips any options);
    - UDP, RFC 768 (8-byte header). */
module Wire {
  import opened Bytes
  import opened InternetChecksum

  type MacAddr = s: seq<u8> | |s| == 6 witness [0, 0, 0, 0, 0, 0]
  type Ipv4Addr = s: seq<u8> | |s| == 4 witness [0, 0, 0, 0]
  type Ipv6Addr = s: seq<u8> | |s| == 16 witness [0, 0, 0, 0, 0, 0, 0, 0, 0, 0, 0, 0, 0, 0, 0, 0]

  const ETHERNET_HEADER_SIZE: nat := 14
  const IPV4_HEADER_SIZE: nat := 24
  const IPV6_HEADER_SIZE: nat := 40
  const TCP_HEADER_SIZE: nat := 20
  const UDP_HEADER_SIZE: nat := 8

  const ETHERTYPE_IPV4: u16 := 0x0800
  const ETHERTYPE_IPV6: u16 := 0x86DD
  const IP_PROTOCOL_TCP: u8 := 6
  const IP_PROTOCOL_UDP: u8 := 17

  /** TCP data offset in 32-bit words: a header without options. */
  const TCP_DATA_OFFSET: nat := 5

  // ---------------------------------------------------------------- Ethernet

  datatype EthernetHeader = EthernetHeader(destination: MacAddr, source: MacAddr, etherType: u16)

  function EthernetFrame(h: EthernetHeader, payload: seq<u8>): (r: seq<u8>)
  {
    h.destination + h.source + [Hi(h.etherType), Lo(h.etherType)] + payload
  }

  function DecodeEthernet(s: seq<u8>): Option<(EthernetHeader, seq<u8>)>
  {
    if |s| < ETHERNET_HEADER_SIZE then None
    else Some((EthernetHeader(s[..6], s[6..12], ReadBe16(s, 12)), s[ETHERNET_HEADER_SIZE..]))
  }

  lemma EthernetRoundTrip(h: EthernetHeader, payload: seq<u8>)
    ensures |EthernetFrame(h, payload)| == ETHERNET_HEADER_SIZE + |payload|
    ensures DecodeEthernet(EthernetFrame(h, payload)) == Some((h, payload))
  {
    var s := EthernetFrame(h, payload);
    assert s[..6] == h.destination;
    assert s[6..12] == h.source;
    assert s[ETHERNET_HEADER_SIZE..] == payload;
  }

  // -------------------------------------------------------------------- IPv4

  /** The single option of the header: its type octet is split into the
      copied flag, the option class and the option number; its length
      octet is always 4, so two octets of data follow. */
  datatype Ipv4Option = Ipv4Option(copied: u1, optionClass: u2, number: u5, data: u16)

  datatype Ipv4Header = Ipv4Header(
    typeOfService: u8,
    totalLength: u16,
    identification: u16,
    flags: u3,
    fragmentOffset: u13,
    ttl: u8,
    protocol: u8,
    checksum: u16,
    source: Ipv4Addr,
    destination: Ipv4Addr,
    option: Ipv4Option)

  /** Octets 0 to 9: everything in front of the checksum field. */
  function Ipv4HeaderPrefix(h: Ipv4Header): (r: seq<u8>)
  {
    var fragment: u16 := h.flags * 0x2000 + h.fragmentOffset;
    [0x46, h.typeOfService, Hi(h.totalLength), Lo(h.totalLength),
     Hi(h.identification), Lo(h.identification), Hi(fragment), Lo(fragment),
     h.ttl, h.protocol]
  }

  /** Octets 12 to 23: the addresses and the option. */
  function Ipv4HeaderSuffix(h: Ipv4Header): (r: seq<u8>)
  {
    var optionType: u8 := h.option.copied * 0x80 + h.option.optionClass * 0x20 + h.option.number;
    h.source + h.destination + [optionType, 4, Hi(h.option.data), Lo(h.option.data)]
  }

  function Ipv4HeaderBytes(h: Ipv4Header): (r: seq<u8>)
  {
    Ipv4HeaderPrefix(h) + Be16(h.checksum) + Ipv4HeaderSuffix(h)
  }

  function Ipv4Packet(h: Ipv4Header, payload: seq<u8>): seq<u8>
  {
    Ipv4HeaderBytes(h) + payload
  }

  /** A validating decoder: version 4, header length 6 words, one option of
      length 4, a total length that fits, and a header whose checksum
      verifies.  The payload is delimited by the total length. */
  function DecodeIpv4(s: seq<u8>): Option<(Ipv4Header, seq<u8>)>
  {
    if |s| < IPV4_HEADER_SIZE || s[0] / 16 != 4 || s[0] % 16 != 6 || s[21] != 4 then None
    else
      var total := ReadBe16(s, 2);
      if total < IPV4_HEADER_SIZE || |s| < total || Checksum(s[..IPV4_HEADER_SIZE]) != 0 then None
      else
        var fragment := ReadBe16(s, 6);
        var option := Ipv4Option(s[20] / 0x80, (s[20] / 0x20) % 4, s[20] % 0x20, ReadBe16(s, 22));
        var h := Ipv4Header(s[1], total, ReadBe16(s, 4), fragment / 0x2000, fragment % 0x2000,
                            s[8], s[9], ReadBe16(s, 10), s[12..16], s[16..20], option);
        Some((h, s[IPV4_HEADER_SIZE..total]))
  }

  lemma Ipv4HeaderLayout(h: Ipv4Header)
    ensures |Ipv4HeaderBytes(h)| == IPV4_HEADER_SIZE
    ensures var b := Ipv4HeaderBytes(h);
      && b[0] / 16 == 4 && b[0] % 16 == 6 && b[1] == h.typeOfService
      && ReadBe16(b, 2) == h.totalLength && ReadBe16(b, 4) == h.identification
      && ReadBe16(b, 6) / 0x2000 == h.flags && ReadBe16(b, 6) % 0x2000 == h.fragmentOffset
      && b[8] == h.ttl && b[9] == h.protocol && ReadBe16(b, 10) == h.checksum
      && b[12..16] == h.source && b[16..20] == h.destination
      && b[20] / 0x80 == h.option.copied && (b[20] / 0x20) % 4 == h.option.optionClass
      && b[20] % 0x20 == h.option.number && b[21] == 4 && ReadBe16(b, 22) == h.option.data
      && b[22..24] == Be16(h.option.data)
  {
    var b := Ipv4HeaderBytes(h);
    var p, c, x := Ipv4HeaderPrefix(h), Be16(h.checksum), Ipv4HeaderSuffix(h);
    assert b == p + c + x;
    assert b[10] == c[0] && b[11] == c[1];
    assert b[12..16] == x[..4] == h.source;
    assert b[16..20] == x[4..8] == h.destination;
    assert b[20] == x[8] && b[21] == x[9] && b[22] == x[10] && b[23] == x[11];
    assert b[22..24] == x[10..12];
  }

  lemma Ipv4RoundTrip(h: Ipv4Header, payload: seq<u8>)
    requires h.totalLength == IPV4_HEADER_SIZE + |payload|
    requires Checksum(Ipv4HeaderBytes(h)) == 0
    ensures DecodeIpv4(Ipv4Packet(h, payload)) == Some((h, payload))
  {
    var b := Ipv4HeaderBytes(h);
    var s := Ipv4Packet(h, payload);
    Ipv4HeaderLayout(h);
    assert s[..IPV4_HEADER_SIZE] == b;
    assert s[IPV4_HEADER_SIZE..h.totalLength] == payload;
    assert s[12..16] == b[12..16] && s[16..20] == b[16..20];
    assert ReadBe16(s, 2) == ReadBe16(b, 2) && ReadBe16(s, 4) == ReadBe16(b, 4);
    assert ReadBe16(s, 6) == ReadBe16(b, 6) && ReadBe16(s, 10) == ReadBe16(b, 10);
    assert ReadBe16(s, 22) == ReadBe16(b, 22);
  }

  // -------------------------------------------------------------------- IPv6

  datatype Ipv6Header = Ipv6Header(
    trafficClass: u8,
    flowLabel: u20,
    payloadLength: u16,
    nextHeader: u8,
    hopLimit: u8,
    source: Ipv6Addr,
    destination: Ipv6Addr)

  function Ipv6HeaderBytes(h: Ipv6Header): (r: seq<u8>)
  {
    var b0: u8 := 0x60 + h.trafficClass / 16;
    var b1: u8 := (h.trafficClass % 16) * 16 + h.flowLabel / 0x1_0000;
    var low: u16 := h.flowLabel % 0x1_0000;
    [b0, b1, Hi(low), Lo(low), Hi(h.payloadLength), Lo(h.payloadLength), h.nextHeader, h.hopLimit]
      + h.source + h.destination
  }

  function Ipv6Packet(h: Ipv6Header, payload: seq<u8>): seq<u8>
  {
    Ipv6HeaderBytes(h) + payload
  }

  /** Version 6 and a payload length that fits; the payload is delimited
      by the payload length. */
  function DecodeIpv6(s: seq<u8>): Option<(Ipv6Header, seq<u8>)>
  {
    if |s| < IPV6_HEADER_SIZE || s[0] / 16 != 6 then None
    else
      var length := ReadBe16(s, 4);
      if |s| < IPV6_HEADER_SIZE + length then None
      else
        var trafficClass := (s[0] % 16) * 16 + s[1] / 16;
        var flowLabel := (s[1] % 16) as int * 0x1_0000 + ReadBe16(s, 2) as int;
        var h := Ipv6Header(trafficClass, flowLabel, length, s[6], s[7], s[8..24], s[24..40]);
        Some((h, s[IPV6_HEADER_SIZE..IPV6_HEADER_SIZE + length]))
  }

  lemma Ipv6RoundTrip(h: Ipv6Header, payload: seq<u8>)
    requires h.payloadLength == |payload|
    ensures |Ipv6Packet(h, payload)| == IPV6_HEADER_SIZE + |payload|
    ensures DecodeIpv6(Ipv6Packet(h, payload)) == Some((h, payload))
  {
    var s := Ipv6Packet(h, payload);
    assert |Ipv6HeaderBytes(h)| == IPV6_HEADER_SIZE;
    assert s[IPV6_HEADER_SIZE..] == payload;
    assert s[8..24] == h.source;
    assert s[24..40] == h.destination;
    assert s[IPV6_HEADER_SIZE..IPV6_HEADER_SIZE + h.payloadLength] == payload;
  }

  // --------------------------------------------------------------------- TCP

  datatype TcpHeader = TcpHeader(
    sourcePort: u16,
    destinationPort: u16,
    sequence: u32,
    acknowledgement: u32,
    flags: u8,
    window: u16,
    checksum: u16,
    urgentPointer: u16)

  function TcpSegment(h: TcpHeader, payload: seq<u8>): seq<u8>
  {
    [Hi(h.sourcePort), Lo(h.sourcePort), Hi(h.destinationPort), Lo(h.destinationPort),
     Hi(High16(h.sequence)), Lo(High16(h.sequence)), Hi(Low16(h.sequence)), Lo(Low16(h.sequence)),
     Hi(High16(h.acknowledgement)), Lo(High16(h.acknowledgement)),
     Hi(Low16(h.acknowledgement)), Lo(Low16(h.acknowledgement)),
     TCP_DATA_OFFSET as u8 * 16, h.flags, Hi(h.window), Lo(h.window),
     Hi(h.checksum), Lo(h.checksum), Hi(h.urgentPointer), Lo(h.urgentPointer)]
      + payload
  }

  /** Reads the data offset and skips any options in front of the payload. */
  function DecodeTcp(s: seq<u8>): Option<(TcpHeader, seq<u8>)>
  {
    if |s| < TCP_HEADER_SIZE then None
    else
      var offset := s[12] / 16;
      if offset < 5 || |s| < 4 * offset then None
      else
        var h := TcpHeader(ReadBe16(s, 0), ReadBe16(s, 2), ReadBe32(s, 4), ReadBe32(s, 8),
                           s[13], ReadBe16(s, 14), ReadBe16(s, 16), ReadBe16(s, 18));
        Some((h, s[4 * offset..]))
  }

  lemma TcpRoundTrip(h: TcpHeader, payload: seq<u8>)
    ensures |TcpSegment(h, payload)| == TCP_HEADER_SIZE + |payload|
    ensures DecodeTcp(TcpSegment(h, payload)) == Some((h, payload))
  {
    var s := TcpSegment(h, payload);
    assert s[TCP_HEADER_SIZE..] == payload;
  }

  // --------------------------------------------------------------------- UDP

  datatype UdpHeader = UdpHeader(sourcePort: u16, destinationPort: u16, length: u16, checksum: u16)

  function UdpDatagram(h: UdpHeader, payload: seq<u8>): seq<u8>
  {
    [Hi(h.sourcePort), Lo(h.sourcePort), Hi(h.destinationPort), Lo(h.destinationPort),
     Hi(h.length), Lo(h.length), Hi(h.checksum), Lo(h.checksum)]
      + payload
  }

  /** The payload is what the IP layer delimits after the 8-byte header;
      whether the length field agrees is `UdpLengthAgrees`. */
  function DecodeUdp(s: seq<u8>): Option<(UdpHeader, seq<u8>)>
  {
    if |s| < UDP_HEADER_SIZE then None
    else Some((UdpHeader(ReadBe16(s, 0), ReadBe16(s, 2), ReadBe16(s, 4), ReadBe16(s, 6)), s[UDP_HEADER_SIZE..]))
  }

  /** RFC 768: the length field counts the header and the data. */
  predicate UdpLengthAgrees(h: UdpHeader, payload: seq<u8>)
  {
    h.length == UDP_HEADER_SIZE + |payload|
  }

  lemma UdpRoundTrip(h: UdpHeader, payload: seq<u8>)
    ensures |UdpDatagram(h, payload)| == UDP_HEADER_SIZE + |payload|
    ensures DecodeUdp(UdpDatagram(h, payload)) == Some((h, payload))
  {
    var s := UdpDatagram(h, payload);
    assert s[UDP_HEADER_SIZE..] == payload;
  }

  // ------------------------------------------------------------ whole frames

  datatype IpHeader = V4Header(v4: Ipv4Header) | V6Header(v6: Ipv6Header)
  {
    function Protocol(): u8
    {
      if V4Header? then v4.protocol else v6.nextHeader
    }
  }

  datatype TransportHeader = TcpHeaderOf(tcp: TcpHeader) | UdpHeaderOf(udp: UdpHeader)

  function TransportBytes(th: TransportHeader, payload: seq<u8>): seq<u8>
  {
    match th
    case TcpHeaderOf(h) => TcpSegment(h, payload)
    case UdpHeaderOf(h) => UdpDatagram(h, payload)
  }

  /** The IP protocol number that announces the segment. */
  function ProtocolNumber(th: TransportHeader): u8
  {
    match th
    case TcpHeaderOf(_) => IP_PROTOCOL_TCP
    case UdpHeaderOf(_) => IP_PROTOCOL_UDP
  }

  function TransportHeaderLength(th: TransportHeader): nat
  {
    if th.TcpHeaderOf? then TCP_HEADER_SIZE else UDP_HEADER_SIZE
  }

  lemma TransportRoundTrip(th: TransportHeader, payload: seq<u8>)
    ensures |TransportBytes(th, payload)| == TransportHeaderLength(th) + |payload|
    ensures DecodeTransport(ProtocolNumber(th), TransportBytes(th, payload)) == Some((th, payload))
  {
    match th
    case TcpHeaderOf(h) => TcpRoundTrip(h, payload);
    case UdpHeaderOf(h) => UdpRoundTrip(h, payload);
  }

  /** What a reader of the capture sees in one frame, layer by layer. */
  datatype Dissection = Dissection(
    ethernet: EthernetHeader,
    ip: IpHeader,
    transport: TransportHeader,
    payload: seq<u8>)

  function DecodeIp(etherType: u16, s: seq<u8>): Option<(IpHeader, seq<u8>)>
  {
    if etherType == ETHERTYPE_IPV4 then
      match DecodeIpv4(s)
      case None => None
      case Some((h, p)) => Some((V4Header(h), p))
    else if etherType == ETHERTYPE_IPV6 then
      match DecodeIpv6(s)
      case None => None
      case Some((h, p)) => Some((V6Header(h), p))
    else None
  }

  function DecodeTransport(protocol: u8, s: seq<u8>): Option<(TransportHeader, seq<u8>)>
  {
    if protocol == IP_PROTOCOL_TCP then
      match DecodeTcp(s)
      case None => None
      case Some((h, p)) => Some((TcpHeaderOf(h), p))
    else if protocol == IP_PROTOCOL_UDP then
      match DecodeUdp(s)
      case None => None
      case Some((h, p)) => Some((UdpHeaderOf(h), p))
    else None
  }

  function DecodeFrame(s: seq<u8>): Option<Dissection>
  {
    match DecodeEthernet(s)
    case None => None
    case Some((eth, network)) =>
      match DecodeIp(eth.etherType, network)
      case None => None
      case Some((ip, segment)) =>
        match DecodeTransport(ip.Protocol(), segment)
        case None => None
        case Some((transport, payload)) => Some(Dissection(eth, ip, transport, payload))
  }
}
