/** The two capture writers of the source as objects: `PcapWriter`, whose
    counters and output change in place, and `NullWriter`, which writes
    nothing.  Every method of `PcapWriter` is proved to move the object from
    one `Capture.Session` value to the one the corresponding function of
    module Capture computes, so the lemmas of module CaptureProperties
    apply to it. */
module Writer {
  import opened Bytes
  import opened Wire
  import opened Capture

  /** The result type of the `CaptureWriter` operations. */
  datatype CaptureResult = Ok | Err(message: string)

  class PcapWriter {
    var sendSeq: u32
    var recSeq: u32
    var hasSentHandshake: bool
    var streamCount: u32
    /** The blocks handed to the pcapng writer, oldest first. */
    var blocks: seq<Block>

    function State(): Session
      reads this
    {
      Session(sendSeq, recSeq, hasSentHandshake, streamCount, blocks)
    }

    /** `PcapWriter::new`: all counters zero, nothing written yet. */
    constructor ()
      ensures State() == NewSession()
    {
      sendSeq, recSeq, hasSentHandshake, streamCount := 0, 0, false, 0;
      blocks := [];
    }

    method Write(info: PacketInfo, data: seq<u8>) returns (r: CaptureResult)
      requires Writable(info, data)
      modifies this
      ensures r == Ok
      ensures State() == Capture.WriteTransportPacket(old(State()), info, data)
    {
      WriteTransportPacket(info, data);
      r := Ok;
    }

    method NewConnect(info: PacketInfo) returns (r: CaptureResult)
      requires info.protocol == TCP ==> SameFamily(info)
      modifies this
      ensures r == Ok
      ensures State() == Capture.NewConnect(old(State()), info)
    {
      match info.protocol {
        case TCP => WriteTcpHandshake(info);
        case UDP =>
      }
      streamCount := WrappingAdd(streamCount, 1);
      r := Ok;
    }

    method WriteTransportPacket(info: PacketInfo, payload: seq<u8>)
      requires Writable(info, payload)
      modifies this
      ensures State() == Capture.WriteTransportPacket(old(State()), info, payload)
    {
      var sourcePort, destPort := Source(info).port, Destination(info).port;
      match info.protocol {
        case TCP =>
          var sequence, acknowledgement;
          match info.direction {
            case Send =>
              sequence, acknowledgement := sendSeq, recSeq;
              sendSeq := WrappingAdd(sendSeq, AsU32(|payload|));
            case Receive =>
              sequence, acknowledgement := recSeq, sendSeq;
              recSeq := WrappingAdd(recSeq, AsU32(|payload|));
          }
          var data := TcpHeader(sourcePort, destPort, sequence, acknowledgement, TCP_FLAGS_PSH_ACK, TCP_WINDOW, 0, 0);
          WriteTransportPayload(info, IP_PROTOCOL_TCP, TcpSegment(data, payload), []);

          var ackInfo := info;
          var ackSequence, ackAcknowledgement;
          match info.direction {
            case Send =>
              ackSequence, ackAcknowledgement := recSeq, sendSeq;
              ackInfo := ackInfo.(direction := Receive);
            case Receive =>
              ackSequence, ackAcknowledgement := sendSeq, recSeq;
              ackInfo := ackInfo.(direction := Send);
          }
          var ack := TcpHeader(destPort, sourcePort, ackSequence, ackAcknowledgement, TCP_FLAG_ACK, TCP_WINDOW, 0, 0);
          WriteTransportPayload(ackInfo, IP_PROTOCOL_TCP, TcpSegment(ack, []), [Comment(ACK_COMMENT)]);
        case UDP =>
          var h := UdpHeader(sourcePort, destPort, |payload| + HEADER_SIZE_UDP, 0);
          WriteTransportPayload(info, IP_PROTOCOL_UDP, UdpDatagram(h, payload), []);
      }
    }

    method WriteTcpHandshake(info: PacketInfo)
      requires SameFamily(info)
      modifies this
      ensures State() == Capture.WriteTcpHandshake(old(State()), info)
    {
      var sourcePort, destPort := info.localAddress.port, info.remoteAddress.port;
      var info := info.(direction := Send);
      var options := [Comment(HANDSHAKE_COMMENT)];

      // SYN
      sendSeq := HANDSHAKE_SEND_SEQ;
      var syn := TcpHeader(sourcePort, destPort, sendSeq, 0, TCP_FLAG_SYN, TCP_WINDOW, 0, 0);
      WriteTransportPayload(info, IP_PROTOCOL_TCP, TcpSegment(syn, []), options);

      // SYN + ACK
      info := info.(direction := Receive);
      sendSeq := WrappingAdd(sendSeq, 1);
      recSeq := HANDSHAKE_RECEIVE_SEQ;
      var synAck := TcpHeader(destPort, sourcePort, recSeq, sendSeq, TCP_FLAGS_SYN_ACK, TCP_WINDOW, 0, 0);
      WriteTransportPayload(info, IP_PROTOCOL_TCP, TcpSegment(synAck, []), options);

      // ACK
      info := info.(direction := Send);
      recSeq := WrappingAdd(recSeq, 1);
      var ack := TcpHeader(sourcePort, destPort, sendSeq, recSeq, TCP_FLAG_ACK, TCP_WINDOW, 0, 0);
      WriteTransportPayload(info, IP_PROTOCOL_TCP, TcpSegment(ack, []), options);

      hasSentHandshake := true;
    }

    method WriteTransportPayload(info: PacketInfo, protocol: u8, payload: seq<u8>, options: seq<PacketOption>)
      requires SameFamily(info) && SegmentFits(info, |payload|)
      modifies this
      ensures State() == Capture.WriteTransportPayload(old(State()), info, protocol, payload, options)
    {
      var (network, etherType) := EncodeIpPacket(streamCount, info, protocol, payload);
      var physical := EncodeEthernetPacket(etherType, network);
      blocks := blocks + [EnhancedPacket(0, |physical|, physical, options)];
    }
  }

  /** The writer installed when no capture was asked for. */
  class NullWriter {
    constructor ()
    {
    }

    method Write(info: PacketInfo, data: seq<u8>) returns (r: CaptureResult)
      ensures r == Ok
    {
      r := Ok;
    }

    method NewConnect(info: PacketInfo) returns (r: CaptureResult)
      ensures r == Ok
    {
      r := Ok;
    }
  }
}
