/**
 * The receiving side of the protocol, `recv` (project.py:81-136). It reads
 * packets until an empty read or a socket error, writes the payload of every
 * DATA packet carrying the expected bit to `dest`, acknowledges it, and flips
 * the expected bit; it returns the number of payload bytes written.
 *
 * As with the sender, `RecvRun` is the specification (the whole loop as a
 * function of the event trace) and the method `Recv` is the loop itself,
 * proved to follow it.
 */
module Receiver {
  import opened Wire
  import opened Net

  /** The alternating bit: `expected_sequence_number` only ever holds 0 or 1. */
  type bit = b: int | 0 <= b < 2

  /**
   * What the loop has done so far: the locals `expected_sequence_number`
   * and `num_bytes`, every byte written to `dest` and every ACK sent.
   */
  datatype RecvState = RecvState(expected: bit, numBytes: nat, written: seq<byte>, sent: seq<seq<byte>>)

  /** How a call of `recv` ends. */
  datatype Outcome =
    | Returned(count: nat)  // `return num_bytes` after an empty read or a socket error
    | Crashed               // `struct.error` from a packet of one to three bytes, not caught
    | Blocked               // the trace ran out while `sock.recv` waits

  /** The state `recv` starts in. */
  const Initial: RecvState := RecvState(0, 0, [], [])

  /**
   * One packet of four bytes or more, through the four branches of the loop
   * body (project.py:100-128), in the order the code tests them.
   */
  function Deliver(st: RecvState, packet: seq<byte>): (r: RecvState)
    requires |packet| >= 4
    ensures r.numBytes - st.numBytes == |r.written| - |st.written|
  {
    var h := PacketHeader(packet).value;
    if h.packetType == DATA_PACKET && h.sequenceNumber == st.expected then
      RecvState(1 - st.expected, st.numBytes + (|packet| - 4), st.written + packet[4..],
                st.sent + [AckPacket(h.sequenceNumber)])
    else if h.packetType == ACK_P then
      st
    else if h.sequenceNumber != st.expected then
      st.(sent := st.sent + [AckPacket(h.sequenceNumber)])
    else
      st
  }

  /**
   * The whole loop over a trace: the outcome, the final state and the
   * events left unread.
   */
  function RecvRun(st: RecvState, events: seq<Event>): (r: (Outcome, RecvState, seq<Event>))
    ensures st.numBytes == |st.written| ==> r.1.numBytes == |r.1.written|
    ensures r.0.Returned? ==> r.0.count == r.1.numBytes
    ensures r.0 == Blocked ==> r.2 == []
    decreases |events|
  {
    if events == [] then (Blocked, st, [])
    else match events[0]
      case Failure => (Returned(st.numBytes), st, events[1..])
      case Timeout => RecvRun(st, events[1..])
      case Datagram(packet) =>
        if packet == [] then (Returned(st.numBytes), st, events[1..])
        else if |packet| < 4 then (Crashed, st, events[1..])
        else RecvRun(Deliver(st, packet), events[1..])
  }

  /** Every packet arrives whole: what `sock.recv` yields for a list of datagrams. */
  function Deliveries(packets: seq<seq<byte>>): (r: seq<Event>)
    ensures |r| == |packets|
  {
    if packets == [] then [] else [Datagram(packets[0])] + Deliveries(packets[1..])
  }

  /**
   * The loop body applied to packets one after another. It is meant for
   * packets of four bytes or more (see `RecvRunDeliveries`); a shorter one,
   * which would end the loop, is passed over.
   */
  function DeliverAll(st: RecvState, packets: seq<seq<byte>>): (r: RecvState)
    ensures st.numBytes == |st.written| ==> r.numBytes == |r.written|
    decreases |packets|
  {
    if packets == [] then st
    else if |packets[0]| < 4 then DeliverAll(st, packets[1..])
    else DeliverAll(Deliver(st, packets[0]), packets[1..])
  }

  /** Unfolds the run by one event. */
  lemma RecvRunCons(st: RecvState, e: Event, rest: seq<Event>)
    ensures RecvRun(st, [e] + rest) ==
      match e
      case Failure => (Returned(st.numBytes), st, rest)
      case Timeout => RecvRun(st, rest)
      case Datagram(packet) =>
        if packet == [] then (Returned(st.numBytes), st, rest)
        else if |packet| < 4 then (Crashed, st, rest)
        else RecvRun(Deliver(st, packet), rest)
  {
    assert ([e] + rest)[0] == e;
    assert ([e] + rest)[1..] == rest;
  }

  /**
   * `recv(sock, dest)`. The ACKs go to `sock`, the payloads to `dest`, and
   * the result is `num_bytes`; a run that ends on an uncaught `struct.error`
   * or on an exhausted trace says so instead.
   */
  method Recv(sock: Socket, dest: Sink) returns (outcome: Outcome)
    modifies sock, dest
    ensures var r := RecvRun(Initial, old(sock.inbox));
      outcome == r.0 && dest.contents == old(dest.contents) + r.1.written &&
      sock.outbox == old(sock.outbox) + r.1.sent && sock.inbox == r.2
  {
    var numBytes := 0;
    var expected: bit := 0;
    ghost var st := Initial;
    ghost var goal := RecvRun(st, sock.inbox);
    ghost var contents0, sent0 := dest.contents, sock.outbox;
    while true
      invariant st.expected == expected && st.numBytes == numBytes
      invariant dest.contents == contents0 + st.written && sock.outbox == sent0 + st.sent
      invariant RecvRun(st, sock.inbox) == goal
      decreases |sock.inbox|
    {
      var e := sock.Recv();
      if e.None? {
        return Blocked;
      }
      RecvRunCons(st, e.value, sock.inbox);
      match e.value
      case Failure =>
        break;
      case Timeout =>
      case Datagram(packet) =>
        if packet == [] {
          break;
        }
        var header := PacketHeader(packet);
        if header.None? {
          return Crashed;
        }
        var packetType, sequenceNumber := header.value.packetType, header.value.sequenceNumber;
        if packetType == DATA_PACKET && sequenceNumber == expected {
          dest.Write(packet[4..]);
          numBytes := numBytes + (|packet| - 4);
          sock.Send(AckPacket(sequenceNumber));
          expected := 1 - expected;
        } else if packetType == ACK_P {
        } else if sequenceNumber != expected {
          sock.Send(AckPacket(sequenceNumber));
        } else {
        }
        st := Deliver(st, packet);
    }
    return Returned(numBytes);
  }

  /**
   * Packets of four bytes or more never end the loop: the run reads them
   * all, through the loop body, and goes on with what follows.
   */
  lemma {:induction false} RecvRunDeliveries(st: RecvState, packets: seq<seq<byte>>, rest: seq<Event>)
    requires forall i :: 0 <= i < |packets| ==> |packets[i]| >= 4
    ensures RecvRun(st, Deliveries(packets) + rest) == RecvRun(DeliverAll(st, packets), rest)
    decreases |packets|
  {
    if packets == [] {
      assert Deliveries(packets) + rest == rest;
    } else {
      var tail := Deliveries(packets[1..]) + rest;
      assert Deliveries(packets) + rest == [Datagram(packets[0])] + tail;
      RecvRunCons(st, Datagram(packets[0]), tail);
      RecvRunDeliveries(Deliver(st, packets[0]), packets[1..], rest);
    }
  }

  /** A DATA packet carrying the expected bit is accepted: payload written and counted, ACKed, bit flipped. */
  lemma AcceptsExpected(st: RecvState, payload: seq<byte>)
    ensures var r := Deliver(st, DataPacket(st.expected, payload));
      r.expected == 1 - st.expected && r.numBytes == st.numBytes + |payload| &&
      r.written == st.written + payload && r.sent == st.sent + [AckPacket(st.expected)]
  {
    DataPacketHeader(st.expected, payload);
    AcceptsHeader(st, DataPacket(st.expected, payload));
  }

  /** Within a run: the expected DATA packet is accepted and the loop goes on with the next event. */
  lemma AcceptStep(st: RecvState, payload: seq<byte>, rest: seq<Event>)
    ensures RecvRun(st, [Datagram(DataPacket(st.expected, payload))] + rest) ==
      RecvRun(RecvState(1 - st.expected, st.numBytes + |payload|, st.written + payload,
                        st.sent + [AckPacket(st.expected)]), rest)
  {
    var packet := DataPacket(st.expected, payload);
    RecvRunCons(st, Datagram(packet), rest);
    AcceptsExpected(st, payload);
  }

  /** Within a run: a DATA packet with the other bit is ACKed again and the loop goes on. */
  lemma ReAckStep(st: RecvState, b: bit, payload: seq<byte>, rest: seq<Event>)
    requires b != st.expected
    ensures RecvRun(st, [Datagram(DataPacket(b, payload))] + rest) ==
      RecvRun(st.(sent := st.sent + [AckPacket(b)]), rest)
  {
    RecvRunCons(st, Datagram(DataPacket(b, payload)), rest);
    ReAcksOther(st, DATA_PACKET, b, payload);
  }

  /** Any packet whose header reads (DATA_PACKET, expected) is accepted, whatever its length. */
  lemma AcceptsHeader(st: RecvState, packet: seq<byte>)
    requires |packet| >= 4 && PacketHeader(packet) == Some(Header(DATA_PACKET, st.expected))
    ensures Deliver(st, packet) ==
      RecvState(1 - st.expected, st.numBytes + (|packet| - 4), st.written + packet[4..],
                st.sent + [AckPacket(st.expected)])
  {
  }

  /** Any packet that is not an ACK and carries the other bit is ACKed again with that bit, whatever its payload. */
  lemma ReAcksHeader(st: RecvState, packet: seq<byte>, b: bit)
    requires |packet| >= 4 && PacketHeader(packet) == Some(Header(DATA_PACKET, b)) && b != st.expected
    ensures Deliver(st, packet) == st.(sent := st.sent + [AckPacket(b)])
  {
  }

  /** A packet of type ACK changes nothing, whatever its sequence number and whatever follows the header. */
  lemma IgnoresAck(st: RecvState, sequenceNumber: u16, rest: seq<byte>)
    ensures Deliver(st, Pack(Header(ACK_P, sequenceNumber)) + rest) == st
  {
    HeaderOf(Header(ACK_P, sequenceNumber), rest);
  }

  /**
   * A packet that is not of type ACK and carries the other bit (a DATA
   * packet sent again because its ACK was lost) is ACKed again with its own
   * sequence number and not written.
   */
  lemma ReAcksOther(st: RecvState, packetType: u16, sequenceNumber: u16, rest: seq<byte>)
    requires packetType != ACK_P && sequenceNumber != st.expected
    ensures Deliver(st, Pack(Header(packetType, sequenceNumber)) + rest) ==
      st.(sent := st.sent + [AckPacket(sequenceNumber)])
  {
    HeaderOf(Header(packetType, sequenceNumber), rest);
  }

  /** A packet whose type is neither DATA nor ACK but which carries the expected bit is dropped silently. */
  lemma DropsUnknownType(st: RecvState, packetType: u16, rest: seq<byte>)
    requires packetType != DATA_PACKET && packetType != ACK_P
    ensures Deliver(st, Pack(Header(packetType, st.expected)) + rest) == st
  {
    HeaderOf(Header(packetType, st.expected), rest);
  }

  /** The receiver reads back the header of any packet built from a header and a payload. */
  lemma HeaderOf(h: Header, rest: seq<byte>)
    ensures PacketHeader(Pack(h) + rest) == Some(h)
  {
    assert (Pack(h) + rest)[..4] == Pack(h);
    UnpackPack(h);
  }

  /**
   * A packet is accepted, i.e. written and the bit flipped, exactly when it is
   * the DATA packet for the expected bit; otherwise nothing is written.
   */
  lemma AcceptsIff(st: RecvState, packet: seq<byte>)
    requires |packet| >= 4
    ensures Deliver(st, packet).expected != st.expected <==> packet == DataPacket(st.expected, packet[4..])
    ensures packet != DataPacket(st.expected, packet[4..]) ==> Deliver(st, packet).written == st.written
  {
    var h := PacketHeader(packet).value;
    PacketHeaderSplit(packet);
    if packet == DataPacket(st.expected, packet[4..]) {
      DataPacketHeader(st.expected, packet[4..]);
      assert h == Header(DATA_PACKET, st.expected);
    } else {
      assert packet != Pack(Header(DATA_PACKET, st.expected)) + packet[4..];
      assert h != Header(DATA_PACKET, st.expected);
    }
  }

  /** An empty read ends the loop at once: `recv` returns the bytes counted so far and reads nothing more. */
  lemma EmptyReadReturns(st: RecvState, rest: seq<Event>)
    ensures RecvRun(st, [Datagram([])] + rest) == (Returned(st.numBytes), st, rest)
  {
    RecvRunCons(st, Datagram([]), rest);
  }

  /** A packet of one to three bytes makes `struct.unpack` raise; nothing catches it. */
  lemma ShortPacketCrashes(st: RecvState, packet: seq<byte>, rest: seq<Event>)
    requires 0 < |packet| < 4
    ensures RecvRun(st, [Datagram(packet)] + rest) == (Crashed, st, rest)
  {
    RecvRunCons(st, Datagram(packet), rest);
  }

  /** A timeout is logged and otherwise ignored; a socket error ends the loop like an empty read. */
  lemma TimeoutAndFailure(st: RecvState, rest: seq<Event>)
    ensures RecvRun(st, [Timeout] + rest) == RecvRun(st, rest)
    ensures RecvRun(st, [Failure] + rest) == (Returned(st.numBytes), st, rest)
  {
    RecvRunCons(st, Timeout, rest);
    RecvRunCons(st, Failure, rest);
  }

  /** What `recv` returns is the number of bytes it wrote to `dest`. */
  lemma ReturnsBytesWritten(events: seq<Event>)
    ensures var r := RecvRun(Initial, events);
      r.0.Returned? ==> r.0.count == |r.1.written|
  {
  }
}
