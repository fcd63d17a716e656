# Synthetic packet capture writer

A Dafny model of `PcapWriter`, the capture writer in
`crates/lib/src/capture.rs`. The socket layer reports every payload it
sends or receives (`write`) and every new connection (`new_connect`). The
writer turns each report into the pcapng Enhanced Packet Blocks a reader
such as Wireshark can dissect.

- It wraps each payload in a TCP or UDP header, then an IPv4 or IPv6
  header, then an Ethernet header.
- It keeps TCP sequence numbers in `send_seq` and `rec_seq`, advanced with
  `wrapping_add`.
- It invents an ack record after every TCP data record.
- It invents a SYN / SYN+ACK / ACK handshake for every TCP connect.
- It tags each IP packet with the value `stream_count` has when the
  packet is written: the IPv4 Stream Identifier option holds its low 16
  bits, the IPv6 flow label its low 20 bits. `new_connect` increments
  `stream_count` only after it writes the handshake, so a connection's
  handshake carries the previous connection's tag.

The model has six modules.

- `Bytes` (bytes.dfy): unsigned widths, big-endian fields, `u32`
  wrap-around.
- `InternetChecksum` (checksum.dfy): the RFC 1071 checksum the IPv4 header
  carries.
- `Wire` (wire.dfy): the byte layouts the writer emits and decoders of
  the kind a capture reader applies. It covers Ethernet II, IPv4 (RFC 791
  section 3.1) with the one Stream Identifier option, IPv6 (RFC 8200
  section 3), TCP (RFC 9293 section 3.1) and UDP (RFC 768). Each layout has
  a round-trip lemma.
- `Capture` (capture.dfy): the writer as a state machine on values.
  - `Session` holds the four counters and the blocks written so far.
  - The encoders `EncodeIpPacket`, `EncodeEthernetPacket` and
    `TransportPayloadBlock` build the bytes.
  - The transitions are `WriteTransportPacket`, `WriteTcpHandshake` and
    `NewConnect`.
- `Writer` (writer.dfy): the class `PcapWriter`, whose fields its methods
  update in place, and `NullWriter`. Each method of `PcapWriter` is proved
  to move the object's state to the value the matching `Capture` function
  computes. So every lemma about the functions holds of the object.
- `CaptureProperties` (properties.dfy): the properties, stated on what a
  reader decodes from each block (`View`). They cover:
  - which records each call appends, field by field;
  - how the ack answers the data record;
  - the fixed handshake;
  - the sequence counters over any run of writes;
  - the UDP length field;
  - the well-formedness of every log the writer can produce.

Four facts about the code shape the model:

- `has_sent_handshake` is set but never read, so `write` never
  synthesises a handshake.
- `new_connect` writes the three handshake records on every TCP connect,
  even a second one for the same connection.
- The UDP length field is the payload length plus 4. `HEADER_SIZE_UDP` is
  4, while RFC 768 counts the full 8-byte header.
- `new_connect` writes the handshake (capture.rs:93-96) before it
  increments `stream_count` (capture.rs:100). So the SYN, SYN+ACK and ACK
  of a connection carry the tag of the count before the connect, and only
  the data and ack records that follow carry the new one.

The TCP checksum is never set and stays zero. The MAC addresses are never
set and stay zero. The UDP checksum stays zero. The model writes all of
these as zero.

## Model

| member | source | states |
|---|---|---|
| `Bytes.WrappingAddLength` | crates/lib/src/capture.rs:130 | `seq.wrapping_add(len as u32)` is the counter advanced by the full length modulo 2^32 |
| `InternetChecksum.ChecksumValidates` | crates/lib/src/capture.rs:244 | storing the checksum of a header computed with its checksum word at zero makes the checksum of the whole header zero, so the receiver's check succeeds |
| `Wire.EthernetRoundTrip` | crates/lib/src/capture.rs:271-282 | an Ethernet frame is 14 header bytes plus the payload, and it decodes back to its header and payload |
| `Wire.Ipv4HeaderLayout` | crates/lib/src/capture.rs:221-244 | the 24-byte IPv4 header holds version 4, header length 6, each field at its RFC 791 offset, the option type octet and option length 4 |
| `Wire.Ipv4RoundTrip` | crates/lib/src/capture.rs:223-246 | an IPv4 packet whose total length counts its payload and whose header checksum verifies decodes back to its header and payload |
| `Wire.Ipv6RoundTrip` | crates/lib/src/capture.rs:254-264 | an IPv6 packet is 40 header bytes plus the payload, and it decodes back to its header and payload |
| `Wire.TcpRoundTrip` | crates/lib/src/capture.rs:119-141 | a TCP segment with data offset 5 is 20 header bytes plus the payload, and it decodes back to its header and payload |
| `Wire.UdpRoundTrip` | crates/lib/src/capture.rs:185-193 | a UDP datagram is 8 header bytes plus the payload, and it decodes back to its header and payload, whatever its length field says |
| `Wire.TransportRoundTrip` | crates/lib/src/capture.rs:116-201 | the IP protocol number of a segment (6 or 17) selects the decoder that recovers its header and payload |
| `Capture.EncodeIpPacket` | crates/lib/src/capture.rs:206-268 | the network packet is the IP header (24 bytes for IPv4, 40 for IPv6) followed by the segment unchanged, announced by EtherType 0x0800 or 0x86DD according to the address family |
| `Capture.EncodeEthernetPacket` | crates/lib/src/capture.rs:271-282 | the frame is the 14-byte Ethernet header followed by the packet unchanged, with the EtherType at offset 12 |
| `Capture.TransportPayloadBlock` | crates/lib/src/capture.rs:366-396 | the block belongs to interface 0, keeps the given options, and records its captured length as original length; that length is 14 + IP header + segment and at most `PACKET_SIZE` |
| `Writer.PcapWriter.constructor` | crates/lib/src/capture.rs:73-82 | the new writer's counters are zero, its handshake flag is clear and it has written nothing |
| `Writer.PcapWriter.Write` | crates/lib/src/capture.rs:86-90 | returns Ok and performs exactly the `write_transport_packet` transition |
| `Writer.PcapWriter.NewConnect` | crates/lib/src/capture.rs:92-103 | returns Ok, writes the handshake for TCP, and adds one to the stream count with wrap-around |
| `Writer.PcapWriter.WriteTransportPacket` | crates/lib/src/capture.rs:108-203 | the in-place update of the counters and the log equals the `Capture.WriteTransportPacket` transition |
| `Writer.PcapWriter.WriteTcpHandshake` | crates/lib/src/capture.rs:285-362 | the in-place update equals the `Capture.WriteTcpHandshake` transition |
| `Writer.PcapWriter.WriteTransportPayload` | crates/lib/src/capture.rs:366-396 | appends exactly the `TransportPayloadBlock` of the segment and changes nothing else |
| `Writer.NullWriter.Write` | crates/lib/src/capture.rs:59 | always returns Ok |
| `Writer.NullWriter.NewConnect` | crates/lib/src/capture.rs:60 | always returns Ok |
| `CaptureProperties.IpHeaderFields` | crates/lib/src/capture.rs:206-268 | a reader recovers the segment and the protocol number, with source and destination addresses oriented by the direction. IPv4 fields: total length = segment + 24, TTL 64, don't-fragment, option 136/4 holding the low 16 bits of the stream count, a checksum that verifies. IPv6 fields: payload length, hop limit 64, flow label = the low 20 bits of the stream count |
| `CaptureProperties.BlockView` | crates/lib/src/capture.rs:366-396 | a block built by `write_transport_payload` dissects as the segment's own header and payload, from the event's source to its destination, with the block's options |
| `CaptureProperties.TcpBlockView` | crates/lib/src/capture.rs:373-392 | the same for a TCP segment |
| `CaptureProperties.WriteCounters` | crates/lib/src/capture.rs:108-203 | TCP: advances the sender's counter by the payload length modulo 2^32 and appends two records. UDP: changes no counter and appends one record. Old records, the stream count and the handshake flag stay as they were |
| `CaptureProperties.TcpDataRecord` | crates/lib/src/capture.rs:117-149 | the data record goes from source to destination with PSH+ACK, sequence = the sender's old counter, acknowledgement = the peer's counter, the payload and no comment |
| `CaptureProperties.TcpAckRecord` | crates/lib/src/capture.rs:151-182 | the ack record goes the other way with ACK only, no payload, sequence = the peer's counter, acknowledgement = the sender's advanced counter, and the comment "Generated TCP ack" |
| `CaptureProperties.AckFollowsData` | crates/lib/src/capture.rs:117-182 | read off the two records alone: the ack reverses the data record's ends, takes its acknowledgement as its sequence number, and acknowledges its sequence number plus its payload length |
| `CaptureProperties.UdpWrite` | crates/lib/src/capture.rs:184-200 | one record from source to destination carrying the payload with length field = payload + 4 |
| `CaptureProperties.UdpLengthShortOfRfc768` | crates/lib/src/capture.rs:189 | the length field of every written datagram is 4 short of the RFC 768 length, so it never agrees with the payload it carries |
| `CaptureProperties.PortsFollowDirection` | crates/lib/src/capture.rs:111-114 | the payload's record goes from our port to the server's for Send and from the server's to ours for Receive |
| `CaptureProperties.HandshakeCounters` | crates/lib/src/capture.rs:285-362 | the handshake appends three records, keeps the old ones, and leaves `send_seq` 501, `rec_seq` 1001 and the handshake flag set, whatever the state before |
| `CaptureProperties.HandshakeRecords` | crates/lib/src/capture.rs:296-359 | the three records are SYN from us (sequence 500), SYN+ACK from the server (1000, ack 501) and ACK from us (501, ack 1001), each commented "Generated TCP handshake" |
| `CaptureProperties.NewConnectEffect` | crates/lib/src/capture.rs:92-103 | adds one to the stream count modulo 2^32. TCP: appends the handshake. UDP: changes nothing else |
| `CaptureProperties.ConnectTwiceCounters` | crates/lib/src/capture.rs:92-103 | a second TCP connect appends three more records, resets the counters to 501 and 1001 and adds one more to the stream count |
| `CaptureProperties.ConnectTwiceRepeatsHandshake` | crates/lib/src/capture.rs:93-96 | the second connect's three records dissect as the same handshake records as the first connect's. Only the IP stream tag, which `View` leaves out, differs (and, for IPv4, the header checksum over it): the stream count has gone up by one |
| `CaptureProperties.BlockStreamTag` | crates/lib/src/capture.rs:242-262 | a reader finds in a block's IP header the tag of the stream count at the time it is written: the low 16 bits in the IPv4 Stream Identifier option, the low 20 bits in the IPv6 flow label |
| `CaptureProperties.HandshakeTag` | crates/lib/src/capture.rs:296-359 | each of the three handshake records carries the tag of the stream count at the time of the call |
| `CaptureProperties.WriteTag` | crates/lib/src/capture.rs:108-203 | the data and ack records of a TCP `write` carry the tag of the stream count at the time of the call |
| `CaptureProperties.HandshakeTagLagsData` | crates/lib/src/capture.rs:91-100 | after a TCP connect and a write, the three handshake records carry the tag of the count before the connect, and the data and ack records carry the tag of the count plus one (modulo 2^32) |
| `CaptureProperties.WriteWithoutConnect` | crates/lib/src/capture.rs:86-90 | a TCP `write` on a fresh writer, in either direction, writes no handshake. The first record is the data record from the event's source to its destination, numbered 0/0; only the sender's counter advances, and the flag stays clear |
| `CaptureProperties.WritesCountBytes` | crates/lib/src/capture.rs:125-137 | over any run of writes, `send_seq` and `rec_seq` advance modulo 2^32 by exactly the TCP payload bytes sent and received. The log grows by two records per TCP write and one per UDP write; the rest stays |
| `CaptureProperties.UdpSessionCounters` | crates/lib/src/capture.rs:184-200 | a UDP-only run leaves both counters and the handshake flag alone, keeps the old records, adds one record per write and one to the stream count per connect |
| `CaptureProperties.UdpWriteRecord` | crates/lib/src/capture.rs:184-200 | a UDP `write` appends one block built from a UDP datagram and keeps the old records |
| `CaptureProperties.UdpRecordDissects` | crates/lib/src/capture.rs:195-200 | such a block dissects as a UDP datagram |
| `CaptureProperties.UdpSessionRecords` | crates/lib/src/capture.rs:184-200 | every block a UDP-only run appends is built from a UDP datagram, and the old records stay |
| `CaptureProperties.UdpSessionHasNoTcpRecords` | crates/lib/src/capture.rs:97-100 | a UDP-only run writes no handshake and no ack: every record it appends dissects as UDP, the old records stay, and the counters and flag keep their values |
| `CaptureProperties.SegmentRecordWellFormed` | crates/lib/src/capture.rs:373-392 | every block `write_transport_payload` builds is on interface 0, has original length = captured length of at most `PACKET_SIZE`, and dissects |
| `CaptureProperties.WriteKeepsSegmentLog` | crates/lib/src/capture.rs:108-203 | `write` appends only blocks built by `write_transport_payload` |
| `CaptureProperties.HandshakeKeepsSegmentLog` | crates/lib/src/capture.rs:285-362 | the handshake appends only blocks built by `write_transport_payload` |
| `CaptureProperties.StepKeepsSegmentLog` | crates/lib/src/capture.rs:85-103 | each call the socket layer makes appends only such blocks |
| `CaptureProperties.RunKeepsSegmentLog` | crates/lib/src/capture.rs:85-103 | any sequence of calls appends only such blocks |
| `CaptureProperties.LogWellFormed` | crates/lib/src/capture.rs:384-395 | every log a writer produces from `new` through any sequence of calls consists of well-formed blocks |
| `CaptureProperties.ExampleSession` | crates/lib/src/capture.rs:92-203 | a connect from 10.0.0.5:51000 to 10.0.0.1:27015 followed by a 2-byte send gives the three handshake records, data 501/1001 and ack 1001/503, with counters 503 and 1001 and stream count 1 |

## Left out

- Timestamps: the `start_time` clock and `elapsed()` are not modelled. A block carries no timestamp.
- pcapng serialisation: `write_block`, `into_block` and the section header are not modelled. The log is the sequence of Enhanced Packet Block values handed to the pcapng writer.
- I/O failures: `write_block(...).unwrap()` panics on an I/O error. The model treats writing a block as infallible, so `write` and `new_connect` always return Ok, as the code's return statements say.
- `simple_setup_capture` and `setup_capture` are left out. They create the output file, write the interface description block (Ethernet, snaplen 0xFFFF) and install the writer in a process-wide `OnceLock`, which is file I/O and global state. Only the resulting choice between `PcapWriter` and `NullWriter` is modelled, as two classes.
- `CaptureWriter` trait dispatch is left out: the two implementations are separate classes with the same operations.
- Panics become preconditions. A connection that mixes IPv4 and IPv6 reaches `unreachable!()`, so the writer requires one address family. A payload too large for the segment buffer makes `set_payload` panic, so `write` requires it to fit.
- Buffer reuse is not modelled: the model builds every header afresh. In the source, every field inside the slice passed on is either rewritten or still holds the zero `buf` was filled with. The ack segment never sets the checksum, the urgent pointer or the reserved bits, and neither did the data segment before it, so the model writes those as zero. Truncation of the zero-filled buffers is modelled by building byte sequences of exactly the kept length.
- The header-only result of `packet_size()` is an assumption, not derived from the code. Wherever a payload follows a header, the code adds the payload length to `packet_size()` itself (capture.rs:147, 198, 375 and 380-381). The ack and handshake segments carry no payload, so they use `packet_size()` alone (capture.rs:174-180, 307, 330, 352). The model therefore takes `packet_size()` to count only the header at every layer: TCP 20, UDP 8, IPv4 24, IPv6 40, Ethernet 14. The pnet implementation is not part of this model. If the IPv4 or IPv6 `packet_size()` counted the payload too, every frame would carry that many extra zero bytes, and `original_len` would count them. `Capture.TransportPayloadBlock`'s "14 + IP header + segment" rests on this assumption.
- Header field setters of `pnet_packet` are modelled by the explicit byte layouts in `Wire`. The pnet implementation itself is not part of this model, and neither is its checksum routine: the model uses its own RFC 1071 checksum.
- Capture readers are not modelled in general. The IPv4 decoder in `Wire` accepts only the shape the writer produces, a header with exactly one 4-byte option. The TCP decoder reads the data offset and skips any options, but the writer always sends data offset 5.
- Concurrency is not modelled: the model assumes calls reach the writer one at a time. The source installs the writer through `unsafe` functions whose safety, in their own words, has not been evaluated. Concurrent calls into one writer would race on its counters.
- src/games/tfc.rs is not part of this model.
