/** What the capture writer promises about the records it appends, stated
    on what a capture reader decodes from each block's bytes. */
module CaptureProperties {
  import opened Bytes
  import opened InternetChecksum
  import opened Wire
  import opened Capture

  // ------------------------------------------------------------ the view

  /** One decoded record: both ends (address and port), the transport
      header, the payload and the block's options. */
  datatype SegmentView = SegmentView(
    source: SocketAddr,
    destination: SocketAddr,
    transport: TransportHeader,
    payload: seq<u8>,
    options: seq<PacketOption>)

  function IpSource(ip: IpHeader): IpAddr
  {
    match ip
    case V4Header(h) => V4(h.source)
    case V6Header(h) => V6(h.source)
  }

  function IpDestination(ip: IpHeader): IpAddr
  {
    match ip
    case V4Header(h) => V4(h.destination)
    case V6Header(h) => V6(h.destination)
  }

  function SourcePort(th: TransportHeader): u16
  {
    match th
    case TcpHeaderOf(h) => h.sourcePort
    case UdpHeaderOf(h) => h.sourcePort
  }

  function DestinationPort(th: TransportHeader): u16
  {
    match th
    case TcpHeaderOf(h) => h.destinationPort
    case UdpHeaderOf(h) => h.destinationPort
  }

  function View(b: Block): Option<SegmentView>
  {
    match DecodeFrame(b.data)
    case None => None
    case Some(d) =>
      Some(SegmentView(SocketAddr(IpSource(d.ip), SourcePort(d.transport)),
                       SocketAddr(IpDestination(d.ip), DestinationPort(d.transport)),
                       d.transport, d.payload, b.options))
  }

  /** The view of a TCP segment sent from `source` to `destination`. */
  function TcpView(source: SocketAddr, destination: SocketAddr, sequence: u32, acknowledgement: u32,
                   flags: u8, payload: seq<u8>, options: seq<PacketOption>): SegmentView
  {
    SegmentView(source, destination,
                TcpHeaderOf(TcpHeader(source.port, destination.port, sequence, acknowledgement, flags, TCP_WINDOW, 0, 0)),
                payload, options)
  }

  /** The view of a UDP datagram sent from `source` to `destination`. */
  function UdpView(source: SocketAddr, destination: SocketAddr, length: u16, payload: seq<u8>): SegmentView
  {
    SegmentView(source, destination, UdpHeaderOf(UdpHeader(source.port, destination.port, length, 0)), payload, [])
  }

  // ------------------------------------------------------- the IP layer

  /** `encode_ip_packet` fills the header fields as follows, and a reader
      recovers the segment unchanged.  IPv4: total length = segment + 24,
      version 4 and header length 6, TTL 64, don't-fragment, one Stream ID
      option (type octet 136, length 4) holding the low 16 bits of the
      stream count big-endian, and a header checksum that verifies.
      IPv6: payload length = segment, hop limit 64, flow label = the low
      20 bits of the stream count.  Source and destination addresses are
      ours and the server's for Send and swapped for Receive. */
  lemma IpHeaderFields(streamCount: u32, info: PacketInfo, protocol: u8, segment: seq<u8>)
    requires SameFamily(info) && SegmentFits(info, |segment|)
    ensures var (network, etherType) := EncodeIpPacket(streamCount, info, protocol, segment);
      var decoded := DecodeIp(etherType, network);
      && decoded.Some? && decoded.value.1 == segment
      && var ip := decoded.value.0;
      && ip.Protocol() == protocol
      && IpSource(ip) == (if info.direction == Send then info.localAddress.ip else info.remoteAddress.ip)
      && IpDestination(ip) == (if info.direction == Send then info.remoteAddress.ip else info.localAddress.ip)
      && (info.localAddress.ip.V4? ==>
            && ip.V4Header? && etherType == ETHERTYPE_IPV4
            && ip.v4.totalLength == |segment| + 24
            && network[0] / 16 == 4 && network[0] % 16 == 6
            && ip.v4.ttl == 64 && ip.v4.flags == IPV4_FLAG_DONT_FRAGMENT
            && ip.v4.typeOfService == 0 && ip.v4.identification == 0 && ip.v4.fragmentOffset == 0
            && ip.v4.option == Ipv4Option(1, 0, IPV4_OPTION_STREAM_ID, streamCount % TWO_16)
            && network[20] == 136 && network[21] == 4
            && network[22..24] == Be16(streamCount % TWO_16)
            && Checksum(network[..IPV4_HEADER_SIZE]) == 0)
      && (info.localAddress.ip.V6? ==>
            && ip.V6Header? && etherType == ETHERTYPE_IPV6
            && ip.v6.payloadLength == |segment|
            && ip.v6.hopLimit == 64 && ip.v6.trafficClass == 0
            && ip.v6.flowLabel == streamCount % 0x10_0000)
  {
    var source, destination := Source(info).ip, Destination(info).ip;
    if info.localAddress.ip.V4? {
      var option := Ipv4Option(1, 0, IPV4_OPTION_STREAM_ID, streamCount % TWO_16);
      var unsummed := Ipv4Header(0, IPV4_HEADER_SIZE + |segment|, 0, IPV4_FLAG_DONT_FRAGMENT, 0,
                                 IP_TTL, protocol, 0, source.v4, destination.v4, option);
      var h := unsummed.(checksum := Checksum(Ipv4HeaderBytes(unsummed)));
      var prefix, suffix := Ipv4HeaderPrefix(unsummed), Ipv4HeaderSuffix(unsummed);
      assert Ipv4HeaderPrefix(h) == prefix && Ipv4HeaderSuffix(h) == suffix;
      assert Ipv4HeaderBytes(unsummed) == prefix + [0, 0] + suffix;
      ChecksumValidates(prefix, suffix);
      assert Checksum(Ipv4HeaderBytes(h)) == 0;
      Ipv4RoundTrip(h, segment);
      Ipv4HeaderLayout(h);
      var network := Ipv4Packet(h, segment);
      assert EncodeIpPacket(streamCount, info, protocol, segment) == (network, ETHERTYPE_IPV4);
      assert network[..IPV4_HEADER_SIZE] == Ipv4HeaderBytes(h);
      assert network[22..24] == Ipv4HeaderBytes(h)[22..24];
    } else {
      var h := Ipv6Header(0, streamCount % 0x10_0000, |segment|, protocol, IP_TTL, source.v6, destination.v6);
      Ipv6RoundTrip(h, segment);
      assert EncodeIpPacket(streamCount, info, protocol, segment) == (Ipv6Packet(h, segment), ETHERTYPE_IPV6);
    }
  }

  /** A reader of a block appended by `write_transport_payload` finds the
      segment's own header and payload, sent from the event's source to
      its destination, with the options attached to the block. */
  lemma BlockView(streamCount: u32, info: PacketInfo, th: TransportHeader, payload: seq<u8>,
                  options: seq<PacketOption>)
    requires SameFamily(info) && SegmentFits(info, TransportHeaderLength(th) + |payload|)
    ensures var b := TransportPayloadBlock(streamCount, info, ProtocolNumber(th), TransportBytes(th, payload), options);
      View(b) == Some(SegmentView(SocketAddr(Source(info).ip, SourcePort(th)),
                                  SocketAddr(Destination(info).ip, DestinationPort(th)),
                                  th, payload, options))
  {
    var segment := TransportBytes(th, payload);
    TransportRoundTrip(th, payload);
    var (network, etherType) := EncodeIpPacket(streamCount, info, ProtocolNumber(th), segment);
    IpHeaderFields(streamCount, info, ProtocolNumber(th), segment);
    var eth := EthernetHeader(ZERO_MAC, ZERO_MAC, etherType);
    EthernetRoundTrip(eth, network);
    var b := TransportPayloadBlock(streamCount, info, ProtocolNumber(th), segment, options);
    assert b.data == EthernetFrame(eth, network);
  }

  /** `BlockView` for a TCP segment. */
  lemma TcpBlockView(streamCount: u32, info: PacketInfo, h: TcpHeader, payload: seq<u8>,
                     options: seq<PacketOption>)
    requires SameFamily(info) && SegmentFits(info, TCP_HEADER_SIZE + |payload|)
    ensures View(TransportPayloadBlock(streamCount, info, IP_PROTOCOL_TCP, TcpSegment(h, payload), options))
         == Some(SegmentView(SocketAddr(Source(info).ip, h.sourcePort),
                             SocketAddr(Destination(info).ip, h.destinationPort),
                             TcpHeaderOf(h), payload, options))
  {
    BlockView(streamCount, info, TcpHeaderOf(h), payload, options);
  }

  // ------------------------------------------------------- the stream tag

  /** The stream tag a reader finds in a block's IP header: the data of the
      IPv4 Stream Identifier option, or the IPv6 flow label. */
  function StreamTag(b: Block): Option<nat>
  {
    match DecodeFrame(b.data)
    case None => None
    case Some(d) =>
      match d.ip
      case V4Header(h) => Some(h.option.data as nat)
      case V6Header(h) => Some(h.flowLabel as nat)
  }

  /** The tag `encode_ip_packet` derives from a stream count: its low 16
      bits for IPv4, its low 20 bits for IPv6. */
  function TagOf(info: PacketInfo, streamCount: u32): nat
  {
    if info.localAddress.ip.V4? then streamCount % TWO_16 else streamCount % 0x10_0000
  }

  /** A block carries the tag of the stream count at the moment it is
      written. */
  lemma BlockStreamTag(streamCount: u32, info: PacketInfo, th: TransportHeader, payload: seq<u8>,
                       options: seq<PacketOption>)
    requires SameFamily(info) && SegmentFits(info, TransportHeaderLength(th) + |payload|)
    ensures var b := TransportPayloadBlock(streamCount, info, ProtocolNumber(th), TransportBytes(th, payload), options);
      StreamTag(b) == Some(TagOf(info, streamCount))
  {
    var segment := TransportBytes(th, payload);
    TransportRoundTrip(th, payload);
    var (network, etherType) := EncodeIpPacket(streamCount, info, ProtocolNumber(th), segment);
    IpHeaderFields(streamCount, info, ProtocolNumber(th), segment);
    var eth := EthernetHeader(ZERO_MAC, ZERO_MAC, etherType);
    EthernetRoundTrip(eth, network);
    var b := TransportPayloadBlock(streamCount, info, ProtocolNumber(th), segment, options);
    assert b.data == EthernetFrame(eth, network);
  }

  // ------------------------------------------------------------ write

  /** What `write` does to the counters and to the length of the log,
      apart from the records' contents: TCP advances the sender's counter
      (`send_seq` for Send, `rec_seq` for Receive) by the payload length
      modulo 2^32 and appends two records; UDP changes no counter and
      appends one record.  The old records stay, and neither the stream
      count nor the handshake flag changes. */
  lemma WriteCounters(s: Session, info: PacketInfo, payload: seq<u8>)
    requires Writable(info, payload)
    ensures var s' := WriteTransportPacket(s, info, payload);
      var tcp, sent := info.protocol == TCP, info.direction == Send;
      && |s'.blocks| == |s.blocks| + (if tcp then 2 else 1) && s'.blocks[..|s.blocks|] == s.blocks
      && s'.sendSeq == (if tcp && sent then Advance(s.sendSeq, |payload|) else s.sendSeq)
      && s'.recSeq == (if tcp && !sent then Advance(s.recSeq, |payload|) else s.recSeq)
      && s'.hasSentHandshake == s.hasSentHandshake && s'.streamCount == s.streamCount
  {
    var s' := WriteTransportPacket(s, info, payload);
    if info.protocol == TCP {
      WrappingAddLength(if info.direction == Send then s.sendSeq else s.recSeq, |payload|);
    }
    assert s'.blocks[..|s.blocks|] == s.blocks;
  }

  // ------------------------------------------------------- write: TCP

  /** The two blocks `write` appends for a TCP payload: the data segment
      from the event's source to its destination, then the ack segment the
      other way. */
  lemma TcpWriteBlocks(s: Session, info: PacketInfo, payload: seq<u8>) returns (data: TcpHeader, ack: TcpHeader)
    requires Writable(info, payload) && info.protocol == TCP
    ensures var sent := info.direction == Send;
      var sequence := if sent then s.sendSeq else s.recSeq;
      var acknowledgement := if sent then s.recSeq else s.sendSeq;
      && data == TcpHeader(Source(info).port, Destination(info).port, sequence, acknowledgement,
                           TCP_FLAGS_PSH_ACK, TCP_WINDOW, 0, 0)
      && ack == TcpHeader(Destination(info).port, Source(info).port, acknowledgement, Advance(sequence, |payload|),
                          TCP_FLAG_ACK, TCP_WINDOW, 0, 0)
    ensures var ackInfo := info.(direction := Flip(info.direction));
      WriteTransportPacket(s, info, payload).blocks
      == s.blocks + [TransportPayloadBlock(s.streamCount, info, IP_PROTOCOL_TCP, TcpSegment(data, payload), [])]
                  + [TransportPayloadBlock(s.streamCount, ackInfo, IP_PROTOCOL_TCP, TcpSegment(ack, []),
                                           [Comment(ACK_COMMENT)])]
  {
    var sent := info.direction == Send;
    var sequence := if sent then s.sendSeq else s.recSeq;
    var acknowledgement := if sent then s.recSeq else s.sendSeq;
    WrappingAddLength(sequence, |payload|);
    data := TcpHeader(Source(info).port, Destination(info).port, sequence, acknowledgement,
                      TCP_FLAGS_PSH_ACK, TCP_WINDOW, 0, 0);
    ack := TcpHeader(Destination(info).port, Source(info).port, acknowledgement, Advance(sequence, |payload|),
                     TCP_FLAG_ACK, TCP_WINDOW, 0, 0);
  }

  /** The data record `write` appends for a TCP payload goes from the
      event's source to its destination (ours to the server's for Send, the
      server's to ours for Receive) with PSH|ACK, sequence = the sender's
      old counter, acknowledgement = the peer's counter, the payload, and
      no comment. */
  lemma TcpDataRecord(s: Session, info: PacketInfo, payload: seq<u8>)
    requires Writable(info, payload) && info.protocol == TCP
    ensures var s' := WriteTransportPacket(s, info, payload);
      var sent := info.direction == Send;
      var sequence := if sent then s.sendSeq else s.recSeq;
      var acknowledgement := if sent then s.recSeq else s.sendSeq;
      && |s'.blocks| == |s.blocks| + 2
      && View(s'.blocks[|s.blocks|])
         == Some(TcpView(Source(info), Destination(info), sequence, acknowledgement, TCP_FLAGS_PSH_ACK, payload, []))
  {
    var data, ack := TcpWriteBlocks(s, info, payload);
    TcpBlockView(s.streamCount, info, data, payload, []);
  }

  /** The ack record `write` appends after it goes the other way with ACK
      only, an empty payload, sequence = the peer's counter,
      acknowledgement = the sender's counter advanced by the payload length
      modulo 2^32, and the comment "Generated TCP ack". */
  lemma TcpAckRecord(s: Session, info: PacketInfo, payload: seq<u8>)
    requires Writable(info, payload) && info.protocol == TCP
    ensures var s' := WriteTransportPacket(s, info, payload);
      var sent := info.direction == Send;
      var sequence := if sent then s.sendSeq else s.recSeq;
      var acknowledgement := if sent then s.recSeq else s.sendSeq;
      && |s'.blocks| == |s.blocks| + 2
      && View(s'.blocks[|s.blocks| + 1])
         == Some(TcpView(Destination(info), Source(info), acknowledgement, Advance(sequence, |payload|),
                         TCP_FLAG_ACK, [], [Comment(ACK_COMMENT)]))
  {
    var data, ack := TcpWriteBlocks(s, info, payload);
    var ackInfo := info.(direction := Flip(info.direction));
    assert Source(ackInfo) == Destination(info) && Destination(ackInfo) == Source(info);
    TcpBlockView(s.streamCount, ackInfo, ack, [], [Comment(ACK_COMMENT)]);
  }

  /** The synthesised ack answers the data record it follows, read off the
      two records alone: it travels the opposite way, acknowledges the data
      record's sequence number plus its payload length (modulo 2^32), and
      carries the data record's acknowledgement number as its own sequence
      number. */
  lemma AckFollowsData(s: Session, info: PacketInfo, payload: seq<u8>)
    requires Writable(info, payload) && info.protocol == TCP
    ensures var s' := WriteTransportPacket(s, info, payload);
      var n := |s.blocks|;
      && n + 2 == |s'.blocks|
      && View(s'.blocks[n]).Some? && View(s'.blocks[n + 1]).Some?
      && var data, ack := View(s'.blocks[n]).value, View(s'.blocks[n + 1]).value;
      && data.transport.TcpHeaderOf? && ack.transport.TcpHeaderOf?
      && ack.source == data.destination && ack.destination == data.source
      && ack.transport.tcp.sequence == data.transport.tcp.acknowledgement
      && ack.transport.tcp.acknowledgement == Advance(data.transport.tcp.sequence, |data.payload|)
      && ack.transport.tcp.flags == TCP_FLAG_ACK && ack.payload == []
      && data.transport.tcp.flags == TCP_FLAGS_PSH_ACK && data.payload == payload
  {
    TcpDataRecord(s, info, payload);
    TcpAckRecord(s, info, payload);
  }

  // ------------------------------------------------------- write: UDP

  /** The one record `write` appends for a UDP payload goes from the
      event's source to its destination and carries the payload and a
      length field of payload length + 4. */
  lemma UdpWrite(s: Session, info: PacketInfo, payload: seq<u8>)
    requires Writable(info, payload) && info.protocol == UDP
    ensures var s' := WriteTransportPacket(s, info, payload);
      var n := |s.blocks|;
      && |s'.blocks| == n + 1 && s'.blocks[..n] == s.blocks
      && View(s'.blocks[n]) == Some(UdpView(Source(info), Destination(info), |payload| + HEADER_SIZE_UDP, payload))
  {
    var h := UdpHeader(Source(info).port, Destination(info).port, |payload| + HEADER_SIZE_UDP, 0);
    BlockView(s.streamCount, info, UdpHeaderOf(h), payload, []);
  }

  /** RFC 768 counts the 8-byte header in the length field; the writer adds
      only 4, so every datagram it writes understates its length by 4 and a
      reader that trusts the field loses the last 4 payload bytes. */
  lemma UdpLengthShortOfRfc768(s: Session, info: PacketInfo, payload: seq<u8>)
    requires Writable(info, payload) && info.protocol == UDP
    ensures var s' := WriteTransportPacket(s, info, payload);
      && View(s'.blocks[|s.blocks|]).Some?
      && var v := View(s'.blocks[|s.blocks|]).value;
      && v.transport.UdpHeaderOf? && v.payload == payload
      && v.transport.udp.length + 4 == UDP_HEADER_SIZE + |v.payload|
      && !UdpLengthAgrees(v.transport.udp, v.payload)
  {
    UdpWrite(s, info, payload);
  }

  /** Whatever the protocol, the record carrying the payload goes from our
      port to the server's for Send and from the server's to ours for
      Receive. */
  lemma PortsFollowDirection(s: Session, info: PacketInfo, payload: seq<u8>)
    requires Writable(info, payload)
    ensures var s' := WriteTransportPacket(s, info, payload);
      && |s'.blocks| > |s.blocks| && View(s'.blocks[|s.blocks|]).Some?
      && var v := View(s'.blocks[|s.blocks|]).value;
      && v.payload == payload
      && (info.direction == Send ==>
            SourcePort(v.transport) == info.localAddress.port && DestinationPort(v.transport) == info.remoteAddress.port)
      && (info.direction == Receive ==>
            SourcePort(v.transport) == info.remoteAddress.port && DestinationPort(v.transport) == info.localAddress.port)
  {
    if info.protocol == TCP {
      TcpDataRecord(s, info, payload);
    } else {
      UdpWrite(s, info, payload);
    }
  }

  // --------------------------------------------------- the handshake

  /** What a reader sees in the three handshake records for the connection
      of `info`, each with the comment "Generated TCP handshake": SYN from
      us (sequence 500), SYN+ACK from the server (sequence 1000,
      acknowledgement 501) and ACK from us (sequence 501, acknowledgement
      1001). */
  function Handshake(info: PacketInfo): seq<SegmentView>
  {
    var local, remote := info.localAddress, info.remoteAddress;
    var comment := [Comment(HANDSHAKE_COMMENT)];
    [TcpView(local, remote, 500, 0, TCP_FLAG_SYN, [], comment),
     TcpView(remote, local, 1000, 501, TCP_FLAGS_SYN_ACK, [], comment),
     TcpView(local, remote, 501, 1001, TCP_FLAG_ACK, [], comment)]
  }

  /** `write_tcp_handshake` appends exactly three records and leaves
      `send_seq` at 501, `rec_seq` at 1001 and `has_sent_handshake` set,
      whatever the state was before. */
  lemma HandshakeCounters(s: Session, info: PacketInfo)
    requires SameFamily(info)
    ensures var s' := WriteTcpHandshake(s, info);
      && |s'.blocks| == |s.blocks| + 3 && s'.blocks[..|s.blocks|] == s.blocks
      && s'.sendSeq == 501 && s'.recSeq == 1001 && s'.hasSentHandshake
      && s'.streamCount == s.streamCount
  {
    var s' := WriteTcpHandshake(s, info);
    assert s'.blocks[..|s.blocks|] == s.blocks;
  }

  /** The three blocks `write_tcp_handshake` appends: SYN and ACK from us,
      SYN+ACK from the server, all with the handshake comment. */
  lemma HandshakeBlocks(s: Session, info: PacketInfo) returns (syn: TcpHeader, synAck: TcpHeader, ack: TcpHeader)
    requires SameFamily(info)
    ensures var local, remote := info.localAddress, info.remoteAddress;
      && syn == TcpHeader(local.port, remote.port, 500, 0, TCP_FLAG_SYN, TCP_WINDOW, 0, 0)
      && synAck == TcpHeader(remote.port, local.port, 1000, 501, TCP_FLAGS_SYN_ACK, TCP_WINDOW, 0, 0)
      && ack == TcpHeader(local.port, remote.port, 501, 1001, TCP_FLAG_ACK, TCP_WINDOW, 0, 0)
    ensures var sending, receiving := info.(direction := Send), info.(direction := Receive);
      var comment := [Comment(HANDSHAKE_COMMENT)];
      WriteTcpHandshake(s, info).blocks
      == s.blocks + [TransportPayloadBlock(s.streamCount, sending, IP_PROTOCOL_TCP, TcpSegment(syn, []), comment)]
                  + [TransportPayloadBlock(s.streamCount, receiving, IP_PROTOCOL_TCP, TcpSegment(synAck, []), comment)]
                  + [TransportPayloadBlock(s.streamCount, sending, IP_PROTOCOL_TCP, TcpSegment(ack, []), comment)]
  {
    var local, remote := info.localAddress, info.remoteAddress;
    syn := TcpHeader(local.port, remote.port, 500, 0, TCP_FLAG_SYN, TCP_WINDOW, 0, 0);
    synAck := TcpHeader(remote.port, local.port, 1000, 501, TCP_FLAGS_SYN_ACK, TCP_WINDOW, 0, 0);
    ack := TcpHeader(local.port, remote.port, 501, 1001, TCP_FLAG_ACK, TCP_WINDOW, 0, 0);
  }

  /** Record `k` of the three `write_tcp_handshake` appends is record `k`
      of the connection's handshake. */
  lemma HandshakeRecords(s: Session, info: PacketInfo, k: nat)
    requires SameFamily(info) && k < 3
    ensures var s' := WriteTcpHandshake(s, info);
      |s'.blocks| == |s.blocks| + 3 && View(s'.blocks[|s.blocks| + k]) == Some(Handshake(info)[k])
  {
    var sending, receiving := info.(direction := Send), info.(direction := Receive);
    var comment := [Comment(HANDSHAKE_COMMENT)];
    var syn, synAck, ack := HandshakeBlocks(s, info);
    if k == 0 {
      TcpBlockView(s.streamCount, sending, syn, [], comment);
    } else if k == 1 {
      TcpBlockView(s.streamCount, receiving, synAck, [], comment);
    } else {
      TcpBlockView(s.streamCount, sending, ack, [], comment);
    }
  }

  // ------------------------------------------------------ new_connect

  /** `new_connect` adds one (modulo 2^32) to the stream count.  For TCP it
      writes the three handshake records and leaves the counters at 501 and
      1001; for UDP it writes nothing and changes nothing else. */
  lemma NewConnectEffect(s: Session, info: PacketInfo)
    requires info.protocol == TCP ==> SameFamily(info)
    ensures var s' := NewConnect(s, info);
      && s'.streamCount == Advance(s.streamCount, 1)
      && s'.blocks[..|s.blocks|] == s.blocks
      && (info.protocol == UDP ==> s' == s.(streamCount := Advance(s.streamCount, 1)))
      && (info.protocol == TCP ==>
            && |s'.blocks| == |s.blocks| + 3 && s'.sendSeq == 501 && s'.recSeq == 1001 && s'.hasSentHandshake
            && s'.blocks == WriteTcpHandshake(s, info).blocks)
  {
    if info.protocol == TCP {
      HandshakeCounters(s, info);
    } else {
      assert s.blocks[..|s.blocks|] == s.blocks;
    }
  }

  /** `new_connect` does not consult `has_sent_handshake`: a second TCP
      connect writes three more handshake records, adds one more to the
      stream count and resets the counters to 501 and 1001. */
  lemma ConnectTwiceCounters(s: Session, info: PacketInfo)
    requires info.protocol == TCP && SameFamily(info)
    ensures var s2 := NewConnect(NewConnect(s, info), info);
      && |s2.blocks| == |s.blocks| + 6 && s2.blocks[..|s.blocks|] == s.blocks
      && s2.sendSeq == 501 && s2.recSeq == 1001 && s2.hasSentHandshake
      && s2.streamCount == Advance(s.streamCount, 2)
  {
    var s1 := NewConnect(s, info);
    NewConnectEffect(s, info);
    NewConnectEffect(s1, info);
    AdvanceAdvance(s.streamCount, 1, 1);
    var s2 := NewConnect(s1, info);
    assert s2.blocks[..|s.blocks|] == s2.blocks[..|s1.blocks|][..|s.blocks|];
  }

  /** The records of a second TCP connect dissect as those of the first:
      record `k` of each reads as record `k` of the connection's handshake.
      The blocks themselves differ in the IP stream tag, which the view
      leaves out, and for IPv4 in the header checksum over it, because the
      stream count has gone up by one. */
  lemma ConnectTwiceRepeatsHandshake(s: Session, info: PacketInfo, k: nat)
    requires info.protocol == TCP && SameFamily(info) && k < 3
    ensures var s2 := NewConnect(NewConnect(s, info), info);
      var n := |s.blocks|;
      && |s2.blocks| == n + 6
      && View(s2.blocks[n + k]) == View(s2.blocks[n + 3 + k]) == Some(Handshake(info)[k])
  {
    var n := |s.blocks|;
    var s1 := NewConnect(s, info);
    NewConnectEffect(s, info);
    HandshakeRecords(s, info, k);
    var s2 := NewConnect(s1, info);
    NewConnectEffect(s1, info);
    HandshakeRecords(s1, info, k);
    assert s2.blocks[..n + 3] == s1.blocks;
    assert s2.blocks[n + k] == s1.blocks[n + k];
  }

  /** Record `k` of the three `write_tcp_handshake` appends carries the tag
      of the stream count at the time of the call. */
  lemma HandshakeTag(s: Session, info: PacketInfo, k: nat)
    requires SameFamily(info) && k < 3
    ensures var s' := WriteTcpHandshake(s, info);
      |s'.blocks| == |s.blocks| + 3 && StreamTag(s'.blocks[|s.blocks| + k]) == Some(TagOf(info, s.streamCount))
  {
    var sending, receiving := info.(direction := Send), info.(direction := Receive);
    var comment := [Comment(HANDSHAKE_COMMENT)];
    var syn, synAck, ack := HandshakeBlocks(s, info);
    if k == 0 {
      BlockStreamTag(s.streamCount, sending, TcpHeaderOf(syn), [], comment);
    } else if k == 1 {
      BlockStreamTag(s.streamCount, receiving, TcpHeaderOf(synAck), [], comment);
    } else {
      BlockStreamTag(s.streamCount, sending, TcpHeaderOf(ack), [], comment);
    }
  }

  /** The data record (`k` = 0) and the ack record (`k` = 1) of a TCP
      `write` carry the tag of the stream count at the time of the call. */
  lemma WriteTag(s: Session, info: PacketInfo, payload: seq<u8>, k: nat)
    requires info.protocol == TCP && Writable(info, payload) && k < 2
    ensures var s' := WriteTransportPacket(s, info, payload);
      |s'.blocks| == |s.blocks| + 2 && StreamTag(s'.blocks[|s.blocks| + k]) == Some(TagOf(info, s.streamCount))
  {
    var data, ack := TcpWriteBlocks(s, info, payload);
    if k == 0 {
      BlockStreamTag(s.streamCount, info, TcpHeaderOf(data), payload, []);
    } else {
      var ackInfo := info.(direction := Flip(info.direction));
      BlockStreamTag(s.streamCount, ackInfo, TcpHeaderOf(ack), [], [Comment(ACK_COMMENT)]);
    }
  }

  /** `new_connect` writes the handshake before it increments the stream
      count: the three handshake records carry the tag of the count before
      the connect, and the data and ack records of a following TCP write
      carry the tag of the incremented count. */
  lemma HandshakeTagLagsData(s: Session, info: PacketInfo, payload: seq<u8>, k: nat)
    requires info.protocol == TCP && Writable(info, payload) && k < 5
    ensures var s2 := WriteTransportPacket(NewConnect(s, info), info, payload);
      var count := if k < 3 then s.streamCount else Advance(s.streamCount, 1);
      && |s2.blocks| == |s.blocks| + 5
      && StreamTag(s2.blocks[|s.blocks| + k]) == Some(TagOf(info, count))
  {
    var n := |s.blocks|;
    var s1 := NewConnect(s, info);
    NewConnectEffect(s, info);
    var s2 := WriteTransportPacket(s1, info, payload);
    WriteCounters(s1, info, payload);
    if k < 3 {
      HandshakeTag(s, info, k);
      assert s2.blocks[n + k] == s2.blocks[..n + 3][n + k];
    } else {
      WriteTag(s1, info, payload, k - 3);
    }
  }

  /** `write` on a fresh writer does not synthesise a handshake: the first
      record is the data record itself, from the event's source to its
      destination and numbered from 0 on both sides; only the sender's
      counter moves, and the handshake flag stays clear. */
  lemma WriteWithoutConnect(info: PacketInfo, payload: seq<u8>)
    requires Writable(info, payload) && info.protocol == TCP
    ensures var s' := WriteTransportPacket(NewSession(), info, payload);
      var sent := info.direction == Send;
      && |s'.blocks| == 2 && !s'.hasSentHandshake
      && View(s'.blocks[0])
         == Some(TcpView(Source(info), Destination(info), 0, 0, TCP_FLAGS_PSH_ACK, payload, []))
      && s'.sendSeq == (if sent then Advance(0, |payload|) else 0)
      && s'.recSeq == (if sent then 0 else Advance(0, |payload|))
  {
    TcpDataRecord(NewSession(), info, payload);
    WriteCounters(NewSession(), info, payload);
  }

  // ------------------------------------------------------------ sessions

  /** One call the socket layer makes on the writer. */
  datatype Event = WriteEvent(info: PacketInfo, data: seq<u8>) | ConnectEvent(info: PacketInfo)

  /** The calls the writer handles without panicking. */
  predicate Enabled(e: Event)
  {
    match e
    case WriteEvent(info, data) => Writable(info, data)
    case ConnectEvent(info) => info.protocol == TCP ==> SameFamily(info)
  }

  predicate AllEnabled(events: seq<Event>)
  {
    forall i | 0 <= i < |events| :: Enabled(events[i])
  }

  function Step(s: Session, e: Event): Session
    requires Enabled(e)
  {
    match e
    case WriteEvent(info, data) => WriteTransportPacket(s, info, data)
    case ConnectEvent(info) => NewConnect(s, info)
  }

  /** The writer's state after a sequence of calls. */
  function Run(s: Session, events: seq<Event>): Session
    requires AllEnabled(events)
    decreases |events|
  {
    if events == [] then s else Run(Step(s, events[0]), events[1..])
  }

  /** The payload bytes of the TCP writes travelling in `direction`. */
  function TcpBytes(events: seq<Event>, direction: PacketDirection): nat
    decreases |events|
  {
    if events == [] then 0
    else
      var e := events[0];
      var here := if e.WriteEvent? && e.info.protocol == TCP && e.info.direction == direction then |e.data| else 0;
      here + TcpBytes(events[1..], direction)
  }

  /** The number of records the writes among `events` produce: two per TCP
      write, one per UDP write. */
  function WriteRecords(events: seq<Event>): nat
    decreases |events|
  {
    if events == [] then 0
    else
      var e := events[0];
      var here := if e.WriteEvent? then (if e.info.protocol == TCP then 2 else 1) else 0;
      here + WriteRecords(events[1..])
  }

  function Connects(events: seq<Event>): nat
    decreases |events|
  {
    if events == [] then 0
    else (if events[0].ConnectEvent? then 1 else 0) + Connects(events[1..])
  }

  /** A counter moved on by the TCP writes travelling in `direction`, one
      write at a time. */
  function SeqAfter(x: u32, events: seq<Event>, direction: PacketDirection): u32
    decreases |events|
  {
    if events == [] then x
    else
      var e := events[0];
      var moved := e.WriteEvent? && e.info.protocol == TCP && e.info.direction == direction;
      SeqAfter(if moved then Advance(x, |e.data|) else x, events[1..], direction)
  }

  /** Moving a counter on write by write is advancing it by the total. */
  lemma {:induction false} SeqAfterAdvances(x: u32, events: seq<Event>, direction: PacketDirection)
    ensures SeqAfter(x, events, direction) == Advance(x, TcpBytes(events, direction))
    decreases |events|
  {
    if events == [] {
      assert Advance(x, 0) == x;
    } else {
      var e := events[0];
      if e.WriteEvent? && e.info.protocol == TCP && e.info.direction == direction {
        SeqAfterAdvances(Advance(x, |e.data|), events[1..], direction);
        AdvanceAdvance(x, |e.data|, TcpBytes(events[1..], direction));
      } else {
        SeqAfterAdvances(x, events[1..], direction);
      }
    }
  }

  /** `WritesCountBytes`, one write at a time. */
  lemma {:induction false} WritesStepCounters(s: Session, events: seq<Event>)
    requires AllEnabled(events)
    requires forall i | 0 <= i < |events| :: events[i].WriteEvent?
    ensures var s' := Run(s, events);
      && s'.sendSeq == SeqAfter(s.sendSeq, events, Send)
      && s'.recSeq == SeqAfter(s.recSeq, events, Receive)
      && s'.streamCount == s.streamCount && s'.hasSentHandshake == s.hasSentHandshake
      && |s'.blocks| == |s.blocks| + WriteRecords(events) && s'.blocks[..|s.blocks|] == s.blocks
    decreases |events|
  {
    if events == [] {
      assert s.blocks[..|s.blocks|] == s.blocks;
    } else {
      var e := events[0];
      var rest := events[1..];
      assert Enabled(e) && AllEnabled(rest);
      var s1 := Step(s, e);
      WriteCounters(s, e.info, e.data);
      WritesStepCounters(s1, rest);
      var s' := Run(s1, rest);
      assert s'.blocks[..|s.blocks|] == s'.blocks[..|s1.blocks|][..|s.blocks|];
    }
  }

  /** Between two connects, `send_seq` counts (modulo 2^32) exactly the TCP
      payload bytes written in the Send direction and `rec_seq` those
      written in the Receive direction; UDP writes leave both alone, no
      write touches the stream count or the handshake flag, and the log
      keeps its old records and grows by two per TCP write and one per UDP
      write. */
  lemma WritesCountBytes(s: Session, events: seq<Event>)
    requires AllEnabled(events)
    requires forall i | 0 <= i < |events| :: events[i].WriteEvent?
    ensures var s' := Run(s, events);
      && s'.sendSeq == Advance(s.sendSeq, TcpBytes(events, Send))
      && s'.recSeq == Advance(s.recSeq, TcpBytes(events, Receive))
      && s'.streamCount == s.streamCount && s'.hasSentHandshake == s.hasSentHandshake
      && |s'.blocks| == |s.blocks| + WriteRecords(events) && s'.blocks[..|s.blocks|] == s.blocks
  {
    WritesStepCounters(s, events);
    SeqAfterAdvances(s.sendSeq, events, Send);
    SeqAfterAdvances(s.recSeq, events, Receive);
  }

  /** In a session that only ever uses UDP the sequence counters and the
      handshake flag keep their values, the old records stay, each write
      adds one record, and each connect adds one to the stream count. */
  lemma {:induction false} UdpSessionCounters(s: Session, events: seq<Event>)
    requires AllEnabled(events)
    requires forall i | 0 <= i < |events| :: events[i].info.protocol == UDP
    ensures var s' := Run(s, events);
      && s'.sendSeq == s.sendSeq && s'.recSeq == s.recSeq && s'.hasSentHandshake == s.hasSentHandshake
      && s'.streamCount == Advance(s.streamCount, Connects(events))
      && |s'.blocks| == |s.blocks| + WriteRecords(events) && s'.blocks[..|s.blocks|] == s.blocks
    decreases |events|
  {
    if events == [] {
      assert Advance(s.streamCount, 0) == s.streamCount;
      assert s.blocks[..|s.blocks|] == s.blocks;
    } else {
      var e := events[0];
      var rest := events[1..];
      assert Enabled(e) && AllEnabled(rest);
      var s1 := Step(s, e);
      var here := Connects(events) - Connects(rest);
      if e.WriteEvent? {
        WriteCounters(s, e.info, e.data);
        assert Advance(s.streamCount, 0) == s.streamCount;
      } else {
        NewConnectEffect(s, e.info);
      }
      assert s1.streamCount == Advance(s.streamCount, here);
      UdpSessionCounters(s1, rest);
      AdvanceAdvance(s.streamCount, here, Connects(rest));
      var s' := Run(s1, rest);
      assert s'.blocks[..|s.blocks|] == s'.blocks[..|s1.blocks|][..|s.blocks|];
    }
  }

  // -------------------------------------------------------- the whole log

  /** A block as `write_transport_payload` builds it: a transport header
      and payload layered for a connection of one address family. */
  ghost predicate SegmentRecord(b: Block)
  {
    exists streamCount: u32, info: PacketInfo, th: TransportHeader, payload: seq<u8>, options: seq<PacketOption> ::
      && SameFamily(info) && SegmentFits(info, TransportHeaderLength(th) + |payload|)
      && b == TransportPayloadBlock(streamCount, info, ProtocolNumber(th), TransportBytes(th, payload), options)
  }

  ghost predicate SegmentLog(blocks: seq<Block>)
  {
    forall i | 0 <= i < |blocks| :: SegmentRecord(blocks[i])
  }

  /** Every record the writer appends belongs to interface 0, records its
      full length as the original length, fits in `PACKET_SIZE` and
      dissects as Ethernet, IP and TCP or UDP. */
  predicate WellFormedRecord(b: Block)
  {
    b.interfaceId == 0 && b.originalLen == |b.data| <= PACKET_SIZE && View(b).Some?
  }

  predicate WellFormedLog(blocks: seq<Block>)
  {
    forall i | 0 <= i < |blocks| :: WellFormedRecord(blocks[i])
  }

  /** The block of a segment is a segment record. */
  lemma SegmentRecordOf(streamCount: u32, info: PacketInfo, th: TransportHeader, payload: seq<u8>,
                        options: seq<PacketOption>)
    requires SameFamily(info) && SegmentFits(info, TransportHeaderLength(th) + |payload|)
    ensures SegmentLog([TransportPayloadBlock(streamCount, info, ProtocolNumber(th), TransportBytes(th, payload), options)])
  {
    var b := TransportPayloadBlock(streamCount, info, ProtocolNumber(th), TransportBytes(th, payload), options);
    assert SegmentRecord(b);
  }

  /** Every record `write_transport_payload` builds is well formed. */
  lemma SegmentRecordWellFormed(b: Block)
    requires SegmentRecord(b)
    ensures WellFormedRecord(b)
  {
    var streamCount, info, th, payload, options :|
      && SameFamily(info) && SegmentFits(info, TransportHeaderLength(th) + |payload|)
      && b == TransportPayloadBlock(streamCount, info, ProtocolNumber(th), TransportBytes(th, payload), options);
    BlockView(streamCount, info, th, payload, options);
  }

  /** A log of segment records is well formed. */
  lemma SegmentLogWellFormed(blocks: seq<Block>)
    requires SegmentLog(blocks)
    ensures WellFormedLog(blocks)
  {
    forall i | 0 <= i < |blocks|
      ensures WellFormedRecord(blocks[i])
    {
      SegmentRecordWellFormed(blocks[i]);
    }
  }

  /** Appending segment records to a log of segment records. */
  lemma AppendSegmentRecords(blocks: seq<Block>, extra: seq<Block>)
    requires SegmentLog(blocks) && SegmentLog(extra)
    ensures SegmentLog(blocks + extra)
  {
    forall i | 0 <= i < |blocks + extra|
      ensures SegmentRecord((blocks + extra)[i])
    {
      if i >= |blocks| {
        assert (blocks + extra)[i] == extra[i - |blocks|];
      }
    }
  }

  /** `write` appends only segment records. */
  lemma WriteKeepsSegmentLog(s: Session, info: PacketInfo, payload: seq<u8>)
    requires SegmentLog(s.blocks) && Writable(info, payload)
    ensures SegmentLog(WriteTransportPacket(s, info, payload).blocks)
  {
    if info.protocol == TCP {
      var data, ack := TcpWriteBlocks(s, info, payload);
      var ackInfo := info.(direction := Flip(info.direction));
      var b1 := TransportPayloadBlock(s.streamCount, info, IP_PROTOCOL_TCP, TcpSegment(data, payload), []);
      var b2 := TransportPayloadBlock(s.streamCount, ackInfo, IP_PROTOCOL_TCP, TcpSegment(ack, []), [Comment(ACK_COMMENT)]);
      SegmentRecordOf(s.streamCount, info, TcpHeaderOf(data), payload, []);
      SegmentRecordOf(s.streamCount, ackInfo, TcpHeaderOf(ack), [], [Comment(ACK_COMMENT)]);
      AppendSegmentRecords(s.blocks, [b1]);
      AppendSegmentRecords(s.blocks + [b1], [b2]);
    } else {
      var h := UdpHeader(Source(info).port, Destination(info).port, |payload| + HEADER_SIZE_UDP, 0);
      var b := TransportPayloadBlock(s.streamCount, info, IP_PROTOCOL_UDP, UdpDatagram(h, payload), []);
      SegmentRecordOf(s.streamCount, info, UdpHeaderOf(h), payload, []);
      AppendSegmentRecords(s.blocks, [b]);
      assert WriteTransportPacket(s, info, payload).blocks == s.blocks + [b];
    }
  }

  /** `write_tcp_handshake` appends only segment records. */
  lemma HandshakeKeepsSegmentLog(s: Session, info: PacketInfo)
    requires SegmentLog(s.blocks) && SameFamily(info)
    ensures SegmentLog(WriteTcpHandshake(s, info).blocks)
  {
    var comment := [Comment(HANDSHAKE_COMMENT)];
    var sending, receiving := info.(direction := Send), info.(direction := Receive);
    var syn, synAck, ack := HandshakeBlocks(s, info);
    var b1 := TransportPayloadBlock(s.streamCount, sending, IP_PROTOCOL_TCP, TcpSegment(syn, []), comment);
    var b2 := TransportPayloadBlock(s.streamCount, receiving, IP_PROTOCOL_TCP, TcpSegment(synAck, []), comment);
    var b3 := TransportPayloadBlock(s.streamCount, sending, IP_PROTOCOL_TCP, TcpSegment(ack, []), comment);
    SegmentRecordOf(s.streamCount, sending, TcpHeaderOf(syn), [], comment);
    SegmentRecordOf(s.streamCount, receiving, TcpHeaderOf(synAck), [], comment);
    SegmentRecordOf(s.streamCount, sending, TcpHeaderOf(ack), [], comment);
    AppendSegmentRecords(s.blocks, [b1]);
    AppendSegmentRecords(s.blocks + [b1], [b2]);
    AppendSegmentRecords(s.blocks + [b1] + [b2], [b3]);
  }

  /** Every call appends only segment records. */
  lemma StepKeepsSegmentLog(s: Session, e: Event)
    requires SegmentLog(s.blocks) && Enabled(e)
    ensures SegmentLog(Step(s, e).blocks)
  {
    match e
    case WriteEvent(info, data) =>
      WriteKeepsSegmentLog(s, info, data);
    case ConnectEvent(info) =>
      NewConnectEffect(s, info);
      if info.protocol == TCP {
        HandshakeKeepsSegmentLog(s, info);
      }
  }

  /** Any sequence of calls appends only segment records. */
  lemma {:induction false} RunKeepsSegmentLog(s: Session, events: seq<Event>)
    requires SegmentLog(s.blocks) && AllEnabled(events)
    ensures SegmentLog(Run(s, events).blocks)
    decreases |events|
  {
    if events != [] {
      assert Enabled(events[0]) && AllEnabled(events[1..]);
      StepKeepsSegmentLog(s, events[0]);
      RunKeepsSegmentLog(Step(s, events[0]), events[1..]);
    }
  }

  /** Every log the writer produces, from `new` through any sequence of
      calls, is well formed. */
  lemma LogWellFormed(events: seq<Event>)
    requires AllEnabled(events)
    ensures WellFormedLog(Run(NewSession(), events).blocks)
  {
    RunKeepsSegmentLog(NewSession(), events);
    SegmentLogWellFormed(Run(NewSession(), events).blocks);
  }

  // ------------------------------------------------------ UDP sessions

  /** A block as `write` builds it for a UDP payload. */
  ghost predicate UdpRecord(b: Block)
  {
    exists streamCount: u32, info: PacketInfo, h: UdpHeader, payload: seq<u8> ::
      && SameFamily(info) && SegmentFits(info, UDP_HEADER_SIZE + |payload|)
      && b == TransportPayloadBlock(streamCount, info, IP_PROTOCOL_UDP, UdpDatagram(h, payload), [])
  }

  /** A UDP `write` appends one UDP record and keeps the old ones. */
  lemma UdpWriteRecord(s: Session, info: PacketInfo, payload: seq<u8>)
    requires Writable(info, payload) && info.protocol == UDP
    ensures var s' := WriteTransportPacket(s, info, payload);
      && |s'.blocks| == |s.blocks| + 1 && s'.blocks[..|s.blocks|] == s.blocks
      && UdpRecord(s'.blocks[|s.blocks|])
  {
    var h := UdpHeader(Source(info).port, Destination(info).port, |payload| + HEADER_SIZE_UDP, 0);
    var b := TransportPayloadBlock(s.streamCount, info, IP_PROTOCOL_UDP, UdpDatagram(h, payload), []);
    assert WriteTransportPacket(s, info, payload).blocks == s.blocks + [b];
    assert UdpRecord(b);
  }

  /** A UDP record dissects as a UDP datagram. */
  lemma UdpRecordDissects(b: Block)
    requires UdpRecord(b)
    ensures View(b).Some? && View(b).value.transport.UdpHeaderOf?
  {
    var streamCount, info, h, payload :|
      && SameFamily(info) && SegmentFits(info, UDP_HEADER_SIZE + |payload|)
      && b == TransportPayloadBlock(streamCount, info, IP_PROTOCOL_UDP, UdpDatagram(h, payload), []);
    BlockView(streamCount, info, UdpHeaderOf(h), payload, []);
  }

  /** Every record a UDP-only session appends is a UDP record. */
  lemma {:induction false} UdpSessionRecords(s: Session, events: seq<Event>)
    requires AllEnabled(events)
    requires forall i | 0 <= i < |events| :: events[i].info.protocol == UDP
    ensures var s' := Run(s, events);
      && |s.blocks| <= |s'.blocks| && s'.blocks[..|s.blocks|] == s.blocks
      && forall i | |s.blocks| <= i < |s'.blocks| :: UdpRecord(s'.blocks[i])
    decreases |events|
  {
    if events == [] {
      assert s.blocks[..|s.blocks|] == s.blocks;
    } else {
      var e := events[0];
      var rest := events[1..];
      assert Enabled(e) && AllEnabled(rest);
      var s1 := Step(s, e);
      if e.WriteEvent? {
        UdpWriteRecord(s, e.info, e.data);
      } else {
        NewConnectEffect(s, e.info);
      }
      UdpSessionRecords(s1, rest);
      var s' := Run(s1, rest);
      assert s'.blocks[..|s.blocks|] == s'.blocks[..|s1.blocks|][..|s.blocks|];
      forall i | |s.blocks| <= i < |s1.blocks|
        ensures UdpRecord(s'.blocks[i])
      {
        assert s'.blocks[i] == s'.blocks[..|s1.blocks|][i] == s1.blocks[i];
      }
    }
  }

  /** A session that only ever uses UDP never writes a handshake or an ack
      record: every record it appends dissects as a UDP datagram, the old
      records stay, each write adds one record and each connect one to the
      stream count, and the sequence counters and the handshake flag keep
      their values. */
  lemma UdpSessionHasNoTcpRecords(s: Session, events: seq<Event>)
    requires AllEnabled(events)
    requires forall i | 0 <= i < |events| :: events[i].info.protocol == UDP
    ensures var s' := Run(s, events);
      && s'.sendSeq == s.sendSeq && s'.recSeq == s.recSeq && s'.hasSentHandshake == s.hasSentHandshake
      && s'.streamCount == Advance(s.streamCount, Connects(events))
      && |s'.blocks| == |s.blocks| + WriteRecords(events) && s'.blocks[..|s.blocks|] == s.blocks
      && forall i | |s.blocks| <= i < |s'.blocks| ::
           View(s'.blocks[i]).Some? && View(s'.blocks[i]).value.transport.UdpHeaderOf?
  {
    UdpSessionCounters(s, events);
    UdpSessionRecords(s, events);
    var s' := Run(s, events);
    forall i | |s.blocks| <= i < |s'.blocks|
      ensures View(s'.blocks[i]).Some? && View(s'.blocks[i]).value.transport.UdpHeaderOf?
    {
      UdpRecordDissects(s'.blocks[i]);
    }
  }

  // ---------------------------------------------------------- an example

  /** A client at 10.0.0.5:51000 connects to a server at 10.0.0.1:27015
      and sends two bytes: the log holds the three handshake records, the
      data record (sequence 501, acknowledgement 1001) and the synthesised
      ack (sequence 1001, acknowledgement 503). */
  lemma ExampleSession()
    ensures var local := SocketAddr(V4([10, 0, 0, 5]), 51000);
      var remote := SocketAddr(V4([10, 0, 0, 1]), 27015);
      var info := PacketInfo(Send, TCP, remote, local);
      var s := WriteTransportPacket(NewConnect(NewSession(), info), info, [0, 1]);
      var handshake := [Comment(HANDSHAKE_COMMENT)];
      && |s.blocks| == 5
      && View(s.blocks[0]) == Some(TcpView(local, remote, 500, 0, TCP_FLAG_SYN, [], handshake))
      && View(s.blocks[1]) == Some(TcpView(remote, local, 1000, 501, TCP_FLAGS_SYN_ACK, [], handshake))
      && View(s.blocks[2]) == Some(TcpView(local, remote, 501, 1001, TCP_FLAG_ACK, [], handshake))
      && View(s.blocks[3]) == Some(TcpView(local, remote, 501, 1001, TCP_FLAGS_PSH_ACK, [0, 1], []))
      && View(s.blocks[4]) == Some(TcpView(remote, local, 1001, 503, TCP_FLAG_ACK, [], [Comment(ACK_COMMENT)]))
      && s.sendSeq == 503 && s.recSeq == 1001 && s.streamCount == 1 && s.hasSentHandshake
  {
    var local := SocketAddr(V4([10, 0, 0, 5]), 51000);
    var remote := SocketAddr(V4([10, 0, 0, 1]), 27015);
    var info := PacketInfo(Send, TCP, remote, local);
    var s0 := NewSession();
    HandshakeRecords(s0, info, 0);
    HandshakeRecords(s0, info, 1);
    HandshakeRecords(s0, info, 2);
    NewConnectEffect(s0, info);
    var s1 := NewConnect(s0, info);
    assert s1.blocks == WriteTcpHandshake(s0, info).blocks;
    assert Advance(0, 1) == 1;
    TcpDataRecord(s1, info, [0, 1]);
    TcpAckRecord(s1, info, [0, 1]);
    WriteCounters(s1, info, [0, 1]);
    assert Advance(501, 2) == 503;
    var s := WriteTransportPacket(s1, info, [0, 1]);
    assert s.blocks[..3] == s1.blocks;
    assert s.blocks[0] == s1.blocks[0] && s.blocks[1] == s1.blocks[1] && s.blocks[2] == s1.blocks[2];
  }
}
