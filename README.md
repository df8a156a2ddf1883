# Stop-and-Wait ARQ over a lossy datagram channel

This project models `project.py`, a Stop-and-Wait ARQ with an alternating
bit that moves a byte buffer across a lossy, datagram-oriented socket. It
covers the two entry points and the wire format they share:

- **Wire format** (`wire.dfy`, module `Wire`). Every packet starts with a
  4-byte header, `struct.pack("!HH", packet_type, sequence_number)`: two
  big-endian unsigned 16-bit fields. A DATA packet (type 0) carries its
  chunk after the header. An ACK packet (type 1) is the bare header.
- **Chunking** (`chunking.dfy`, module `Chunking`). `send` cuts `data` at
  the offsets `range(0, len(data), MAX_PACKET - 4)` and slices
  `data[i:i + MAX_PACKET]` at each offset. The model keeps that code as it
  is written. It also defines the evidently intended chunking, slices of
  `MAX_PACKET - 4` bytes (see Findings).
- **Socket and output stream** (`net.dfy`, module `Net`). The simulated
  network is a `Socket` object whose `inbox` is the trace of what
  successive `sock.recv` calls yield: a datagram, `socket.timeout` or
  another `socket.error`. Its `outbox` records every datagram passed to
  `sock.send`. The receiver's `dest` is a `Sink` object that accumulates
  what is written to it.
- **Sender** (`sender.dfy`, module `Sender`). `send(sock, data)` is the
  method `Send`. Its `for chunk` loop is `SendChunks`, and the inner
  ACK-wait loop is `AwaitAck`. The module-global
  RTT list `queue` is an `RttQueue` object. The meaning of the loops is
  given by functions over the event trace: `Step` handles one `sock.recv`
  outcome and `Run` handles the whole trace. The methods are proved to
  compute exactly what `Run` says, and the protocol properties are proved
  about `Step` and `Run`.
- **Receiver** (`receiver.dfy`, module `Receiver`). `recv(sock, dest)` is
  the method `Recv`. `Deliver` is its loop body: the four branches on
  `(packet_type, sequence_number)`, in the order the code tests them.
  `RecvRun` is the whole loop over a trace, starting from `Initial`
  (`num_bytes = 0`, `expected_sequence_number = 0`, project.py:94-95), and
  `Recv` is proved to follow it.
- **End to end** (`transfer.dfy`, module `Transfer`). A channel that
  delivers every DATA packet but loses any number of ACKs per chunk. The
  sender's transmissions, fed to the receiver, are written exactly once
  each and in order. The result is the data itself for the intended
  chunking, and for the chunking as written when the transport truncates
  datagrams to `MAX_PACKET` bytes.

`MAX_PACKET` (`util.MAX_PACKET`) is a parameter `maxPacket > 4` everywhere.

Where the protocol description and the code differ, the model follows the
code:
- **Chunk width.** The chunks overlap by four bytes instead of being at
  most `MAX_PACKET - 4` bytes each.
- **Unexpected packet type.** The receiver's last branch (`else`, at
  project.py:126-129) is reachable. It is taken by a packet whose type is
  neither DATA nor ACK and whose sequence number equals the expected one.
  Such a packet with the other sequence number takes the third branch and
  is ACKed.
- **Malformed packets end the call.** A malformed reply at the sender (not
  4 bytes) or a malformed packet at the receiver (1 to 3 bytes) raises
  `struct.error`. Neither function catches it, so the model ends the call
  with `Crashed` rather than dropping the packet.

## Model

| member | source | states |
|---|---|---|
| Wire.Pack | project.py:39 | the `"!HH"` header is always exactly 4 bytes |
| Wire.Unpack | project.py:48 | `struct.unpack("!HH", b)` succeeds exactly when `b` has 4 bytes |
| Wire.PackFields | project.py:39 | each field is packed high byte first: byte 0 * 256 + byte 1 is the type, byte 2 * 256 + byte 3 the sequence number |
| Wire.UnpackPack | project.py:39-48 | unpacking a packed header gives the same two fields back |
| Wire.PackUnpack | project.py:48 | packing the unpacked fields of 4 bytes gives the same 4 bytes back |
| Wire.PackInjective | project.py:39 | distinct headers never share an encoding |
| Wire.DataPacket | project.py:39 | a DATA packet is 4 + chunk-length bytes long and everything after the header is the chunk |
| Wire.AckPacket | project.py:112 | an ACK packet is exactly 4 bytes |
| Wire.PacketHeader | project.py:103 | `unpack("!HH", packet[:4])` succeeds exactly when the packet has at least 4 bytes |
| Wire.PacketHeaderSplit | project.py:103-108 | a packet of 4 bytes or more is its decoded header, packed again, followed by `packet[4:]` |
| Wire.DataPacketHeader | project.py:39 | the receiver decodes (DATA, bit) from the packet the sender built with that bit |
| Wire.AckPacketHeader | project.py:112 | the sender decodes (ACK, bit) from the ACK the receiver built with that bit |
| Wire.TruncateDataPacket | project.py:99 | the first `max` bytes of a DATA packet are the DATA packet of the chunk's first `max - 4` bytes |
| Chunking.Range | project.py:33 | `range(start, stop, step)` is empty exactly when `start >= stop`, and every offset lies in `[start, stop)` |
| Chunking.RangeAt | project.py:33 | offset `j` is `start + j * step`, and it exists exactly when that value is below `stop` |
| Chunking.Slice | project.py:38 | the clamped slice is the plain subsequence when the bounds fit, and is non-empty when `lo` is inside the data |
| Chunking.SliceEach | project.py:38 | the list comprehension has one slice per offset, and slice `k` holds `width` bytes, or only the bytes left after offset `k` when the data ends first (none past the end) |
| Chunking.SliceEachCons | project.py:38 | slicing at `[i] + offsets` is the slice at `i`, then the slices at `offsets` |
| Chunking.Chunks | project.py:33-38 | there are no chunks exactly when the data is empty; every chunk has between 1 and `MAX_PACKET` bytes |
| Chunking.ChunkAt | project.py:33-38 | chunk `k` exists exactly when `k * (MAX_PACKET - 4) < len(data)`, and it is `data[k*(M-4) : min(k*(M-4)+M, len)]` |
| Chunking.IntendedChunks | project.py:33 | with slices as wide as the step, every chunk has between 1 and `MAX_PACKET - 4` bytes |
| Chunking.ConcatAppend | project.py:38 | concatenating one more chunk appends its bytes |
| Chunking.SliceEachRange | project.py:33-38 | slicing at every offset of the range is slicing at the first offset, then at the others |
| Chunking.IntendedFrom | project.py:33 | slices as wide as the step rebuild `data[i:]` from offset `i` |
| Chunking.IntendedChunksRoundTrip | project.py:33 | the intended chunks, concatenated, are exactly the data |
| Chunking.WrittenFrom | project.py:33-38 | slices four bytes wider than the step rebuild `data[i:]` if one chunk is left, and hold strictly more bytes otherwise |
| Chunking.ChunksRoundTripIff | project.py:33-38 | the chunks as written concatenate to the data if and only if `len(data) <= MAX_PACKET - 4`; beyond that they hold more bytes than the data |
| Chunking.TruncatedChunks | project.py:33-38 | each chunk as written, cut to its first `MAX_PACKET - 4` bytes, is the intended chunk at the same offset |
| Chunking.OverlapWitness | project.py:38 | with MAX_PACKET = 5, the data `[7, 8]` is cut into `[7, 8]` and `[8]` |
| Chunking.HelloWorldOffsets | project.py:33 | `range(0, 11, 4)` is `[0, 4, 8]` |
| Chunking.HelloWorldIntended | project.py:33 | `b"hello world"` with MAX_PACKET = 8 is meant to be cut into `b"hell"`, `b"o wo"`, `b"rld"` |
| Chunking.HelloWorldWritten | project.py:38 | as written it is cut into `b"hello wo"`, `b"o world"`, `b"rld"`: 18 bytes for 11 |
| Net.Socket.Send | project.py:40 | `sock.send` appends the datagram to what was sent and reads nothing |
| Net.Socket.Recv | project.py:47 | `sock.recv` yields the next event of the trace and consumes it; it sends nothing |
| Net.Sink.Write | project.py:108-109 | `dest.write` followed by `dest.flush` appends the bytes to the stream |
| Sender.Transmit | project.py:38-41 | the head of the `for chunk` loop sends chunk `next` with bit `next % 2`, or completes once every chunk is done |
| Sender.Start | project.py:33-41 | `send` starts at chunk 0 with bit 0; it sends the first chunk, or completes at once on empty data |
| Sender.Resend | project.py:65-75 | a timeout keeps the state well formed |
| Sender.OnReply | project.py:47-64 | a reply keeps the state well formed: the bit stays the parity of the chunk index |
| Sender.Step | project.py:45-78 | every event keeps the bit in {0, 1} and equal to the parity of the chunk in flight |
| Sender.Run | project.py:37-78 | over any trace the state stays well formed, and `send` still waits only when the trace is used up |
| Sender.RunCons | project.py:45-47 | running on `[e] + rest` is one step for `e`, then running on `rest` |
| Sender.SentSoFarAppend | project.py:39-40 | sending the packet of a later chunk keeps "every packet sent is a chunk's DATA packet with its parity" |
| Sender.SentSoFarLater | project.py:76 | moving to a later chunk keeps that property |
| Sender.StartInv | project.py:33-41 | the invariant holds when `send` starts |
| Sender.StepInv | project.py:45-76 | every step keeps the invariant: each packet sent is the DATA packet of chunk `j` with bit `j % 2`, and the last one is the current chunk's |
| Sender.RunInv | project.py:37-78 | `send` keeps that invariant over any trace |
| Sender.SendsOnlyChunks | project.py:38-40 | whatever the trace, every packet `send` transmits is the DATA packet of some chunk `j`, sent with bit `j % 2` |
| Sender.TimeoutResendsSamePacket | project.py:65-75 | a timeout resends, byte for byte, the packet sent last, with the same sequence number; it adds one RTT sample and changes nothing else |
| Sender.SocketErrorAborts | project.py:77-78 | a `socket.error` while waiting ends `send` at once: status Aborted, nothing more sent, the rest of the trace unread |
| Sender.MalformedReplyCrashes | project.py:48 | a reply not 4 bytes long ends `send` with an uncaught `struct.error`, and nothing more is sent |
| Sender.LeavesWaitIff | project.py:47-64 | a 4-byte reply ends the wait loop if and only if it is the ACK of the current bit; any other one sends nothing and changes only the RTT list (cleared above five samples) |
| Sender.AckAdvances | project.py:50-76 | the awaited ACK flips the bit and adds one RTT sample; the next chunk goes out with the new bit, or `send` completes after the last chunk |
| Sender.QueueBoundAfterReply | project.py:50-55 | right after any 4-byte reply the RTT list holds at most six samples |
| Sender.RttQueue.Append | project.py:67 | `queue.append` adds one sample |
| Sender.RttQueue.Clear | project.py:50-51 | `queue.clear()` empties the list |
| Sender.AwaitAck | project.py:43-75 | the ACK-wait loop sends exactly the resends `Run` prescribes and updates the RTT list as `Run` does; it leaves the loop on the awaited ACK, or else ends as `Run` ends |
| Sender.SendChunks | project.py:38-76 | the `for chunk` loop transmits exactly the packets of `Run` from the start, consumes the trace as `Run` does, keeps the RTT list as `Run` does and ends with its status |
| Sender.Send | project.py:22-78 | `send` does the same on the chunks as written, `data[i:i + MAX_PACKET]` at every offset of `range(0, len(data), MAX_PACKET - 4)` |
| Receiver.Deliver | project.py:103-129 | one packet changes the byte count by exactly the number of bytes it writes |
| Receiver.RecvRun | project.py:97-136 | the count returned is `num_bytes`; it equals the bytes written; a run blocked on the trace has read all of it |
| Receiver.Deliveries | project.py:99 | one `sock.recv` result per datagram delivered |
| Receiver.DeliverAll | project.py:103-129 | the byte count keeps equal to the bytes written over any list of packets |
| Receiver.RecvRunCons | project.py:97-134 | running on `[e] + rest` is the loop body for `e` (empty read, short packet, timeout, socket error, or the four branches), then the rest |
| Receiver.Recv | project.py:81-136 | `recv` writes to `dest` exactly what `RecvRun` writes, sends exactly its ACKs, consumes the trace as it does and returns its outcome |
| Receiver.RecvRunDeliveries | project.py:97-129 | delivering well-formed packets one by one through the loop is `DeliverAll` on them |
| Receiver.AcceptsExpected | project.py:105-116 | a DATA packet with the expected bit: its payload is written, `len - 4` is added to `num_bytes`, ACK(expected) is sent and the expected bit flips |
| Receiver.AcceptStep | project.py:105-116 | the same, as one iteration of the loop |
| Receiver.AcceptsHeader | project.py:103-116 | any packet whose header is (DATA, expected) is accepted, whatever its payload |
| Receiver.ReAckStep | project.py:121-125 | a DATA packet with the other bit is ACKed again with its own bit, as one iteration of the loop |
| Receiver.ReAcksHeader | project.py:121-125 | any packet with header (DATA, other bit) is ACKed again with that bit, whatever its payload |
| Receiver.IgnoresAck | project.py:117-120 | an ACK-type packet changes nothing |
| Receiver.ReAcksOther | project.py:121-125 | a non-ACK packet whose sequence number is not the expected one is ACKed with its own sequence number, and nothing else changes |
| Receiver.DropsUnknownType | project.py:126-129 | a packet of a type other than DATA and ACK that carries the expected sequence number is dropped |
| Receiver.HeaderOf | project.py:103 | the receiver decodes the header a packet was built with |
| Receiver.AcceptsIff | project.py:105-129 | a packet flips the expected bit if and only if it is the DATA packet of the expected bit; no other packet writes anything |
| Receiver.EmptyReadReturns | project.py:99-101 | an empty read ends the loop, and `recv` returns `num_bytes` |
| Receiver.ShortPacketCrashes | project.py:103 | a packet of 1 to 3 bytes raises an uncaught `struct.error` |
| Receiver.TimeoutAndFailure | project.py:130-134 | a timeout changes nothing; a socket error ends the loop, and `recv` returns `num_bytes` |
| Receiver.ReturnsBytesWritten | project.py:108-110 | the count `recv` returns is the number of bytes it wrote to `dest` |
| Transfer.CopiesAt | project.py:74 | every copy of a repeated packet is that packet |
| Transfer.ScheduleHeaders | project.py:39 | every packet the sender transmits has at least a full header |
| Transfer.TimeoutsResend | project.py:65-75 | `n` timeouts in a row resend the current packet `n` times and add `n` RTT samples |
| Transfer.Acked | project.py:53-76 | after `n` timeouts and the awaited ACK, the sender has sent the current packet `n` more times, flipped the bit, and sent the next chunk with the new bit or completed |
| Transfer.SendGroup | project.py:45-76 | the timeouts and the ACK of chunk `k` take the sender from chunk `k` to that state |
| Transfer.SendFollowsSchedule | project.py:38-76 | when the ACKs of chunk `k` are lost `copies[k]` times, the sender sends chunk `k` exactly `1 + copies[k]` times with bit `k % 2`, completes and reads the whole trace |
| Transfer.DeliverAllAppend | project.py:97-129 | delivering two lists of packets is delivering the first, then the second |
| Transfer.ReAckCopies | project.py:121-125 | every duplicate of an already accepted DATA packet is ACKed again with its bit and never written |
| Transfer.ReceiveGroup | project.py:105-125 | a chunk sent `1 + n` times is written once and ACKed `1 + n` times |
| Transfer.AfterGroup | project.py:105-116 | after one group the byte count and the bytes written both grow by exactly the chunk's length |
| Transfer.ReceiveFirstGroup | project.py:97-129 | the schedule from chunk `k` is its first group, then the schedule from `k + 1` |
| Transfer.ReceiveSchedule | project.py:97-129 | from chunk `k` on, the receiver writes each chunk once and in order, counts those bytes and ACKs every packet |
| Transfer.ConcatFrom | project.py:108 | the chunks from `k` on are chunk `k`, then the chunks from `k + 1` |
| Transfer.AckLossTransfer | project.py:22-136 | over ACK loss, `send` completes; `recv`, given its packets and then an empty read, writes the concatenated chunks, returns their length and ACKs every packet |
| Transfer.DeliversAsWritten | project.py:22-136 | with the chunking as written and whole datagrams, the receiver writes back the data if and only if it fits in one payload; beyond that it reports more bytes than were sent |
| Transfer.DeliversIntended | project.py:22-136 | with the intended chunking, the receiver writes back exactly the data and returns its length |
| Transfer.OversizedFirstPacket | project.py:38-40 | the first DATA packet is longer than `MAX_PACKET` if and only if the data does not fit in one payload |
| Transfer.TruncateAll | project.py:99 | truncating keeps one datagram per datagram |
| Transfer.TruncateChunks | project.py:99 | truncating keeps one chunk per chunk |
| Transfer.TruncateAllAppend | project.py:99 | truncating two lists of datagrams is truncating each |
| Transfer.TruncateCopies | project.py:99 | truncating copies of a datagram gives copies of the truncated datagram |
| Transfer.TruncatedSchedule | project.py:99 | the sender's packets, truncated to `MAX_PACKET` bytes, are the packets of the truncated chunks |
| Transfer.DeliversTruncated | project.py:22-136 | when every datagram is cut to the `MAX_PACKET` bytes `sock.recv` asks for, the receiver writes back exactly the data and returns its length |

## Left out

- The RTT estimator is left out: the pandas EWM smoothing, `mean`, `round` and `sock.settimeout` (project.py:34, 56-61, 68-73). These are floating-point computations whose only effect is the next timeout's length. The model keeps only the length of the global `queue`, because that decides when `queue.clear()` fires. Whether a `recv` times out is a `Timeout` event of the trace.
- Time (`time.time()`), logging and `util.logging` are left out. They do not affect what is sent, written or returned.
- `util.MAX_PACKET` is not part of this model. It is the parameter `maxPacket > 4`. With 4, `range` raises `ValueError`; below 4 the range is empty and nothing is sent. Neither case is modelled.
- The network is a trace of events. Concurrency between sender and receiver, and the channel's own loss and reordering rules, are not modelled. `Transfer` covers one channel behaviour: every DATA packet is delivered and the ACKs of each chunk are lost any number of times.
- A `socket.error` raised by `sock.send` is not modelled separately. Every `socket.error` is a `Failure` event read by `sock.recv`.
- Whether `sock.recv(MAX_PACKET)` truncates a longer datagram depends on the transport. `Sender.Send` and `Receiver.Recv` take the datagrams of the trace as given. `Transfer.DeliversAsWritten` and `Transfer.DeliversTruncated` state both cases.
- A real `sock.recv` on an exhausted channel blocks. The model ends the run instead: the sender's status stays `Waiting`, and the receiver's outcome is `Blocked`.
- The global `queue` persists across calls of `send`. `Sender.Send` takes its current length from the `RttQueue` object it is given.
- `Sender.Resend`, `Sender.OnReply` and `Sender.Step` state only that the state stays well formed. Their full effect is stated by `Sender.TimeoutResendsSamePacket` (timeout), `Sender.SocketErrorAborts` (socket error), `Sender.MalformedReplyCrashes` (reply not 4 bytes), `Sender.LeavesWaitIff` (any 4-byte reply) and `Sender.AckAdvances` (the awaited ACK).
- Sequence numbers other than 0 and 1 never come from `send`. The receiver model accepts any 16-bit value in a packet, as the code does.

## Findings

| source | as written | input that shows it | evidently intended | confidence | as-written member | corrected member |
|---|---|---|---|---|---|---|
| project.py:38 (offsets from project.py:33) | chunks are `data[i:i + MAX_PACKET]` at offsets that step by `MAX_PACKET - 4`, so consecutive chunks share four bytes and a DATA packet can be `MAX_PACKET + 4` bytes long | MAX_PACKET = 5, data `[7, 8]` gives the chunks `[7, 8]` and `[8]`, and the receiver writes `[7, 8, 8]` over whole datagrams; `b"hello world"` with MAX_PACKET = 8 is sent as 18 payload bytes | slices `data[i:i + MAX_PACKET - 4]`, so the payloads partition the data and every packet fits in `MAX_PACKET` | medium, not executed: a transport that truncates each datagram to the `MAX_PACKET` bytes the receiver asks for hides the overlap (`Transfer.DeliversTruncated`) | Chunking.ChunksRoundTripIff, Chunking.OverlapWitness, Chunking.HelloWorldWritten, Transfer.DeliversAsWritten, Transfer.OversizedFirstPacket | Chunking.IntendedChunksRoundTrip, Chunking.HelloWorldIntended, Transfer.DeliversIntended |
