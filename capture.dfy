/** The synthetic capture writer as a state machine on values: the event
    description handed in by the socket layer, the layer encoders, the
    record appended to the pcapng output, and the state transitions of
    `write`, `new_connect` and the TCP handshake.  The class `PcapWriter`
    in module Writer performs the same transitions in place and is proved
    to agree with the functions here. */
module Capture {
  import opened Bytes
  import opened InternetChecksum
  import opened Wire

  // ------------------------------------------------------------ event data

  datatype PacketDirection = Send | Receive
  datatype PacketProtocol = TCP | UDP

  datatype IpAddr = V4(v4: Ipv4Addr) | V6(v6: Ipv6Addr)
  datatype SocketAddr = SocketAddr(ip: IpAddr, port: u16)

  /** One socket event: who sent it, over which transport, and the two ends. */
  datatype PacketInfo = PacketInfo(
    direction: PacketDirection,
    protocol: PacketProtocol,
    remoteAddress: SocketAddr,
    localAddress: SocketAddr)

  function Flip(d: PacketDirection): PacketDirection
  {
    match d
    case Send => Receive
    case Receive => Send
  }

  /** The sending end of the event: ourselves for Send, the server for Receive. */
  function Source(info: PacketInfo): SocketAddr
  {
    match info.direction
    case Send => info.localAddress
    case Receive => info.remoteAddress
  }

  /** The receiving end of the event. */
  function Destination(info: PacketInfo): SocketAddr
  {
    match info.direction
    case Send => info.remoteAddress
    case Receive => info.localAddress
  }

  /** Both ends use the same address family; mixing them is unreachable
      in the encoder. */
  predicate SameFamily(info: PacketInfo)
  {
    info.localAddress.ip.V4? == info.remoteAddress.ip.V4?
  }

  // ------------------------------------------------------------- constants

  const PACKET_SIZE: nat := 5012
  // The Ethernet header size of the source is Wire.ETHERNET_HEADER_SIZE (14).
  const HEADER_SIZE_IP4: nat := 20
  const HEADER_SIZE_IP6: nat := 40
  /** The constant the code adds to a UDP payload length; the UDP header
      itself is 8 bytes long. */
  const HEADER_SIZE_UDP: nat := 4

  function Max(a: nat, b: nat): nat
  {
    if a < b then b else a
  }

  /** Length of the buffer the transport segment is built in: room for the
      larger of the two IP headers and the Ethernet header is kept free. */
  const TRANSPORT_BUFFER_SIZE: nat := PACKET_SIZE - Max(HEADER_SIZE_IP4, HEADER_SIZE_IP6) - ETHERNET_HEADER_SIZE
  /** Length of the buffer the network packet is built in. */
  const NETWORK_BUFFER_SIZE: nat := PACKET_SIZE - ETHERNET_HEADER_SIZE

  const TCP_WINDOW: u16 := 43440
  const TCP_FLAG_SYN: u8 := 0x02
  const TCP_FLAG_PSH: u8 := 0x08
  const TCP_FLAG_ACK: u8 := 0x10
  /** PSH | ACK: the two bits are distinct, so the union is the sum. */
  const TCP_FLAGS_PSH_ACK: u8 := TCP_FLAG_PSH + TCP_FLAG_ACK
  /** SYN | ACK. */
  const TCP_FLAGS_SYN_ACK: u8 := TCP_FLAG_SYN + TCP_FLAG_ACK

  const IP_TTL: u8 := 64
  const IPV4_FLAG_DONT_FRAGMENT: u3 := 2
  /** Option number 8 of RFC 791, Stream Identifier; with the copied flag
      set and class 0 its type octet is 136. */
  const IPV4_OPTION_STREAM_ID: u5 := 8

  const HANDSHAKE_SEND_SEQ: u32 := 500
  const HANDSHAKE_RECEIVE_SEQ: u32 := 1000

  const ACK_COMMENT: string := "Generated TCP ack"
  const HANDSHAKE_COMMENT: string := "Generated TCP handshake"

  const ZERO_MAC: MacAddr := [0, 0, 0, 0, 0, 0]

  // -------------------------------------------------------------- sizing

  function IpHeaderSize(info: PacketInfo): nat
  {
    if info.localAddress.ip.V4? then IPV4_HEADER_SIZE else IPV6_HEADER_SIZE
  }

  function TransportHeaderSize(protocol: PacketProtocol): nat
  {
    match protocol
    case TCP => TCP_HEADER_SIZE
    case UDP => UDP_HEADER_SIZE
  }

  /** The payload fits the transport buffer behind its header (otherwise
      setting the payload panics). */
  predicate PayloadFits(protocol: PacketProtocol, length: nat)
  {
    TransportHeaderSize(protocol) + length <= TRANSPORT_BUFFER_SIZE
  }

  /** The segment fits the network buffer behind the IP header. */
  predicate SegmentFits(info: PacketInfo, length: nat)
  {
    IpHeaderSize(info) + length <= NETWORK_BUFFER_SIZE
  }

  /** What `write` needs of its caller to run without a panic. */
  predicate Writable(info: PacketInfo, payload: seq<u8>)
  {
    SameFamily(info) && PayloadFits(info.protocol, |payload|)
  }

  // ------------------------------------------------------------ encoders

  /** `encode_ip_packet`: the network packet (header and payload, after
      truncation) and the EtherType that announces it. */
  function EncodeIpPacket(streamCount: u32, info: PacketInfo, protocol: u8, payload: seq<u8>): (r: (seq<u8>, u16))
    requires SameFamily(info) && SegmentFits(info, |payload|)
    ensures |r.0| == IpHeaderSize(info) + |payload| && r.0[IpHeaderSize(info)..] == payload
    ensures r.1 == if info.localAddress.ip.V4? then ETHERTYPE_IPV4 else ETHERTYPE_IPV6
  {
    var source, destination := Source(info).ip, Destination(info).ip;
    if info.localAddress.ip.V4? then
      var option := Ipv4Option(1, 0, IPV4_OPTION_STREAM_ID, streamCount % TWO_16);
      var unsummed := Ipv4Header(0, IPV4_HEADER_SIZE + |payload|, 0, IPV4_FLAG_DONT_FRAGMENT, 0,
                                 IP_TTL, protocol, 0, source.v4, destination.v4, option);
      var h := unsummed.(checksum := Checksum(Ipv4HeaderBytes(unsummed)));
      Ipv4HeaderLayout(h);
      (Ipv4Packet(h, payload), ETHERTYPE_IPV4)
    else
      var h := Ipv6Header(0, streamCount % 0x10_0000, |payload|, protocol, IP_TTL, source.v6, destination.v6);
      Ipv6RoundTrip(h, payload);
      (Ipv6Packet(h, payload), ETHERTYPE_IPV6)
  }

  /** `encode_ethernet_packet`: both MAC addresses are left zero. */
  function EncodeEthernetPacket(etherType: u16, payload: seq<u8>): (r: seq<u8>)
    ensures |r| == ETHERNET_HEADER_SIZE + |payload| && r[ETHERNET_HEADER_SIZE..] == payload
    ensures ReadBe16(r, 12) == etherType
  {
    var r := EthernetFrame(EthernetHeader(ZERO_MAC, ZERO_MAC, etherType), payload);
    EthernetRoundTrip(EthernetHeader(ZERO_MAC, ZERO_MAC, etherType), payload);
    r
  }

  // ------------------------------------------------------- pcapng records

  datatype PacketOption = Comment(text: string)

  /** An enhanced packet block as handed to the pcapng writer; the
      timestamp is not modelled. */
  datatype Block = EnhancedPacket(interfaceId: u32, originalLen: u32, data: seq<u8>, options: seq<PacketOption>)

  /** The block `write_transport_payload` appends for one transport segment. */
  function TransportPayloadBlock(streamCount: u32, info: PacketInfo, protocol: u8,
                                 segment: seq<u8>, options: seq<PacketOption>): (b: Block)
    requires SameFamily(info) && SegmentFits(info, |segment|)
    ensures b.interfaceId == 0 && b.originalLen == |b.data| && b.options == options
    ensures |b.data| == ETHERNET_HEADER_SIZE + IpHeaderSize(info) + |segment| <= PACKET_SIZE
  {
    var (network, etherType) := EncodeIpPacket(streamCount, info, protocol, segment);
    var physical := EncodeEthernetPacket(etherType, network);
    EnhancedPacket(0, |physical|, physical, options)
  }

  // ------------------------------------------------------ session state

  /** The writer's counters and everything it has written so far. */
  datatype Session = Session(
    sendSeq: u32,
    recSeq: u32,
    hasSentHandshake: bool,
    streamCount: u32,
    blocks: seq<Block>)

  /** `PcapWriter::new`. */
  function NewSession(): Session
  {
    Session(0, 0, false, 0, [])
  }

  /** `write_transport_payload`: layer the segment and append its block. */
  function WriteTransportPayload(s: Session, info: PacketInfo, protocol: u8,
                                 segment: seq<u8>, options: seq<PacketOption>): Session
    requires SameFamily(info) && SegmentFits(info, |segment|)
  {
    s.(blocks := s.blocks + [TransportPayloadBlock(s.streamCount, info, protocol, segment, options)])
  }

  /** `write_transport_packet`. */
  function WriteTransportPacket(s: Session, info: PacketInfo, payload: seq<u8>): Session
    requires Writable(info, payload)
  {
    var sourcePort, destPort := Source(info).port, Destination(info).port;
    match info.protocol
    case TCP =>
      var sent := info.direction == Send;
      var (sequence, acknowledgement) := if sent then (s.sendSeq, s.recSeq) else (s.recSeq, s.sendSeq);
      var advanced := WrappingAdd(sequence, AsU32(|payload|));
      var s1 := if sent then s.(sendSeq := advanced) else s.(recSeq := advanced);
      var data := TcpHeader(sourcePort, destPort, sequence, acknowledgement, TCP_FLAGS_PSH_ACK, TCP_WINDOW, 0, 0);
      var s2 := WriteTransportPayload(s1, info, IP_PROTOCOL_TCP, TcpSegment(data, payload), []);
      var (ackSequence, ackAcknowledgement) := if sent then (s2.recSeq, s2.sendSeq) else (s2.sendSeq, s2.recSeq);
      var ack := TcpHeader(destPort, sourcePort, ackSequence, ackAcknowledgement, TCP_FLAG_ACK, TCP_WINDOW, 0, 0);
      WriteTransportPayload(s2, info.(direction := Flip(info.direction)), IP_PROTOCOL_TCP,
                            TcpSegment(ack, []), [Comment(ACK_COMMENT)])
    case UDP =>
      var h := UdpHeader(sourcePort, destPort, |payload| + HEADER_SIZE_UDP, 0);
      WriteTransportPayload(s, info, IP_PROTOCOL_UDP, UdpDatagram(h, payload), [])
  }

  /** `write_tcp_handshake`: SYN, SYN+ACK and ACK, whatever the state. */
  function WriteTcpHandshake(s: Session, info: PacketInfo): Session
    requires SameFamily(info)
  {
    var sourcePort, destPort := info.localAddress.port, info.remoteAddress.port;
    var sending, receiving := info.(direction := Send), info.(direction := Receive);
    var options := [Comment(HANDSHAKE_COMMENT)];
    // SYN
    var s1 := s.(sendSeq := HANDSHAKE_SEND_SEQ);
    var syn := TcpHeader(sourcePort, destPort, s1.sendSeq, 0, TCP_FLAG_SYN, TCP_WINDOW, 0, 0);
    var s2 := WriteTransportPayload(s1, sending, IP_PROTOCOL_TCP, TcpSegment(syn, []), options);
    // SYN + ACK
    var s3 := s2.(sendSeq := WrappingAdd(s2.sendSeq, 1), recSeq := HANDSHAKE_RECEIVE_SEQ);
    var synAck := TcpHeader(destPort, sourcePort, s3.recSeq, s3.sendSeq, TCP_FLAGS_SYN_ACK, TCP_WINDOW, 0, 0);
    var s4 := WriteTransportPayload(s3, receiving, IP_PROTOCOL_TCP, TcpSegment(synAck, []), options);
    // ACK
    var s5 := s4.(recSeq := WrappingAdd(s4.recSeq, 1));
    var ack := TcpHeader(sourcePort, destPort, s5.sendSeq, s5.recSeq, TCP_FLAG_ACK, TCP_WINDOW, 0, 0);
    var s6 := WriteTransportPayload(s5, sending, IP_PROTOCOL_TCP, TcpSegment(ack, []), options);
    s6.(hasSentHandshake := true)
  }

  /** `CaptureWriter::new_connect` of `PcapWriter`. */
  function NewConnect(s: Session, info: PacketInfo): Session
    requires info.protocol == TCP ==> SameFamily(info)
  {
    var s1 := match info.protocol
      case TCP => WriteTcpHandshake(s, info)
      case UDP => s;
    s1.(streamCount := WrappingAdd(s1.streamCount, 1))
  }
}
