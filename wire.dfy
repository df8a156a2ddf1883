/**
 * The wire format of the Stop-and-Wait protocol: every packet starts with a
 * 4-byte header made of two big-endian unsigned 16-bit fields
 * (packet type, sequence number), as packed by Python's `struct` format
 * "!HH". A DATA packet carries its payload after the header; an ACK packet
 * is the bare header.
 */
module Wire {

  /** One byte of a packet. */
  type byte = b: int | 0 <= b < 256

  /** An unsigned 16-bit field (struct format code `H`). */
  type u16 = n: int | 0 <= n < 0x1_0000

  datatype Option<T> = None | Some(value: T)

  /** Packet type of a packet that carries payload. */
  const DATA_PACKET: u16 := 0
  /** Packet type of an acknowledgement. */
  const ACK_P: u16 := 1

  /** The two header fields. */
  datatype Header = Header(packetType: u16, sequenceNumber: u16)

  /** `struct.pack("!HH", t, s)`: high byte first, for each field in turn. */
  function Pack(h: Header): (r: seq<byte>)
    ensures |r| == 4
  {
    [h.packetType / 256, h.packetType % 256, h.sequenceNumber / 256, h.sequenceNumber % 256]
  }

  /**
   * `struct.unpack("!HH", b)`: defined only on exactly four bytes; any other
   * length raises `struct.error`, modelled as None.
   */
  function Unpack(b: seq<byte>): (r: Option<Header>)
    ensures r.Some? <==> |b| == 4
  {
    if |b| != 4 then None
    else Some(Header((b[0] as int) * 256 + (b[1] as int), (b[2] as int) * 256 + (b[3] as int)))
  }

  /** Each packed field reads back, high byte first, as the value packed. */
  lemma PackFields(h: Header)
    ensures (Pack(h)[0] as int) * 256 + (Pack(h)[1] as int) == h.packetType
    ensures (Pack(h)[2] as int) * 256 + (Pack(h)[3] as int) == h.sequenceNumber
  {
  }

  /** Unpacking what was packed gives back the same two fields. */
  lemma UnpackPack(h: Header)
    ensures Unpack(Pack(h)) == Some(h)
  {
    PackFields(h);
  }

  /** Packing what was unpacked gives back the same four bytes. */
  lemma PackUnpack(b: seq<byte>)
    requires |b| == 4
    ensures Pack(Unpack(b).value) == b
  {
  }

  /** Packing is injective: distinct headers never share an encoding. */
  lemma PackInjective(h1: Header, h2: Header)
    requires Pack(h1) == Pack(h2)
    ensures h1 == h2
  {
    UnpackPack(h1);
    UnpackPack(h2);
  }

  /** A DATA packet: header (DATA_PACKET, bit) followed by the chunk (project.py:39). */
  function DataPacket(bit: u16, chunk: seq<byte>): (r: seq<byte>)
    ensures |r| == 4 + |chunk| && r[4..] == chunk
  {
    Pack(Header(DATA_PACKET, bit)) + chunk
  }

  /**
   * The first `max` bytes of a DATA packet, for `max` of at least a header,
   * are the DATA packet of the chunk's first `max - 4` bytes.
   */
  lemma TruncateDataPacket(bit: u16, chunk: seq<byte>, max: int)
    requires max >= 4
    ensures DataPacket(bit, chunk)[..Min(max, 4 + |chunk|)] == DataPacket(bit, chunk[..Min(max - 4, |chunk|)])
  {
    var p := DataPacket(bit, chunk);
    var n := Min(max - 4, |chunk|);
    assert p[..4 + n] == Pack(Header(DATA_PACKET, bit)) + chunk[..n];
  }

  /** An ACK packet: the bare header (ACK_P, bit) (project.py:112, 123). */
  function AckPacket(bit: u16): (r: seq<byte>)
    ensures |r| == 4
  {
    Pack(Header(ACK_P, bit))
  }

  function Min(a: int, b: int): int
  {
    if a < b then a else b
  }

  /**
   * The receiver's `struct.unpack("!HH", packet[:4])`: the slice clamps to
   * the packet's length, so any packet of four bytes or more decodes and a
   * shorter one raises `struct.error` (None).
   */
  function PacketHeader(packet: seq<byte>): (r: Option<Header>)
    ensures r.Some? <==> |packet| >= 4
  {
    Unpack(packet[..Min(4, |packet|)])
  }

  /** A packet of four bytes or more is its decoded header, packed again, followed by the rest. */
  lemma PacketHeaderSplit(packet: seq<byte>)
    requires |packet| >= 4
    ensures packet == Pack(PacketHeader(packet).value) + packet[4..]
  {
    PackUnpack(packet[..4]);
    assert packet == packet[..4] + packet[4..];
  }

  /** The receiver reads back the header the sender put on a DATA packet. */
  lemma DataPacketHeader(bit: u16, chunk: seq<byte>)
    ensures PacketHeader(DataPacket(bit, chunk)) == Some(Header(DATA_PACKET, bit))
  {
    var p := DataPacket(bit, chunk);
    assert p[..4] == Pack(Header(DATA_PACKET, bit));
    UnpackPack(Header(DATA_PACKET, bit));
  }

  /** The sender reads back the header the receiver put on an ACK packet. */
  lemma AckPacketHeader(bit: u16)
    ensures Unpack(AckPacket(bit)) == Some(Header(ACK_P, bit))
  {
    UnpackPack(Header(ACK_P, bit));
  }
}
