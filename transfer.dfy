/**
 * `send` and `recv` run against each other over a channel that delivers
 * every DATA packet but loses ACKs: for chunk `k` the first `copies[k]`
 * ACKs are lost, the sender times out and sends the chunk again each time,
 * and the last ACK gets through. The receiver writes every chunk exactly
 * once, in order, whatever the losses; what it writes is the concatenation
 * of the chunks, which is the data only for the intended chunking, or when
 * the transport cuts every datagram down to the `MAX_PACKET` bytes
 * `sock.recv` asks for.
 */
module Transfer {
  import opened Wire
  import opened Chunking
  import opened Net
  import Sender
  import Receiver

  /** `n` copies of `x`. */
  function Copies<T>(x: T, n: nat): (r: seq<T>)
    ensures |r| == n
  {
    if n == 0 then [] else [x] + Copies(x, n - 1)
  }

  /** The DATA packets the sender transmits from chunk `k` on: chunk `j` once, then `copies[j]` times again. */
  function Schedule(chunks: seq<seq<byte>>, copies: seq<nat>, k: nat): (r: seq<seq<byte>>)
    requires |copies| == |chunks| && k <= |chunks|
    decreases |chunks| - k
  {
    if k == |chunks| then []
    else Copies(DataPacket(k % 2, chunks[k]), 1 + copies[k]) + Schedule(chunks, copies, k + 1)
  }

  /** Every copy is the value copied. */
  lemma {:induction false} CopiesAt<T>(x: T, n: nat, i: nat)
    requires i < n
    ensures Copies(x, n)[i] == x
    decreases n
  {
    if i > 0 {
      CopiesAt(x, n - 1, i - 1);
    }
  }

  /** Every packet of the schedule is a DATA packet, hence at least a header long. */
  lemma {:induction false} ScheduleHeaders(chunks: seq<seq<byte>>, copies: seq<nat>, k: nat)
    requires |copies| == |chunks| && k <= |chunks|
    ensures forall i :: 0 <= i < |Schedule(chunks, copies, k)| ==> |Schedule(chunks, copies, k)[i]| >= 4
    decreases |chunks| - k
  {
    if k < |chunks| {
      var group := Copies(DataPacket(k % 2, chunks[k]), 1 + copies[k]);
      var later := Schedule(chunks, copies, k + 1);
      ScheduleHeaders(chunks, copies, k + 1);
      forall i | 0 <= i < |group + later|
        ensures |(group + later)[i]| >= 4
      {
        if i < |group| {
          CopiesAt(DataPacket(k % 2, chunks[k]), 1 + copies[k], i);
        } else {
          assert (group + later)[i] == later[i - |group|];
        }
      }
    }
  }

  /** The ACKs the receiver sends back for that schedule: one per DATA packet, each with that packet's bit. */
  function AckSchedule(chunks: seq<seq<byte>>, copies: seq<nat>, k: nat): seq<seq<byte>>
    requires |copies| == |chunks| && k <= |chunks|
    decreases |chunks| - k
  {
    if k == |chunks| then []
    else Copies(AckPacket(k % 2), 1 + copies[k]) + AckSchedule(chunks, copies, k + 1)
  }

  /** What the sender's `sock.recv` yields: `copies[k]` timeouts, then the ACK for chunk `k`. */
  function AckTrace(copies: seq<nat>, k: nat): seq<Event>
    requires k <= |copies|
    decreases |copies| - k
  {
    if k == |copies| then []
    else Copies(Timeout, copies[k]) + [Datagram(AckPacket(k % 2))] + AckTrace(copies, k + 1)
  }

  // ---------------------------------------------------------------- sender

  /** `n` timeouts in a row resend the current packet `n` times and change nothing else but the RTT list. */
  lemma {:induction false} TimeoutsResend(chunks: seq<seq<byte>>, st: Sender.SendState, n: nat, rest: seq<Event>)
    requires Sender.Wf(chunks, st) && st.status == Sender.Waiting
    ensures Sender.Run(chunks, st, Copies(Timeout, n) + rest) ==
      Sender.Run(chunks, st.(sent := st.sent + Copies(DataPacket(st.bit, chunks[st.next]), n),
                             queueLen := st.queueLen + n), rest)
    decreases n
  {
    var p := DataPacket(st.bit, chunks[st.next]);
    if n == 0 {
      assert Copies(Timeout, 0) + rest == rest;
      assert st.sent + Copies(p, 0) == st.sent;
    } else {
      var st' := st.(sent := st.sent + [p], queueLen := st.queueLen + 1);
      assert Sender.Run(chunks, st, Copies(Timeout, n) + rest) == Sender.Run(chunks, st', Copies(Timeout, n - 1) + rest) by {
        assert Copies(Timeout, n) + rest == [Timeout] + (Copies(Timeout, n - 1) + rest);
        Sender.RunCons(chunks, st, Timeout, Copies(Timeout, n - 1) + rest);
      }
      TimeoutsResend(chunks, st', n - 1, rest);
      assert st.sent + [p] + Copies(p, n - 1) == st.sent + Copies(p, n);
    }
  }

  /** The sender after `n` timeouts and then the awaited ACK. */
  function Acked(chunks: seq<seq<byte>>, st: Sender.SendState, n: nat): (r: Sender.SendState)
    requires Sender.Wf(chunks, st) && st.status == Sender.Waiting
    ensures r.next == st.next + 1 && r.bit == 1 - st.bit
    ensures r.next < |chunks| ==>
      r.status == Sender.Waiting &&
      r.sent == st.sent + Copies(DataPacket(st.bit, chunks[st.next]), n) + [DataPacket(r.bit, chunks[r.next])]
    ensures r.next == |chunks| ==>
      r.status == Sender.Completed && r.sent == st.sent + Copies(DataPacket(st.bit, chunks[st.next]), n)
  {
    var st1 := st.(sent := st.sent + Copies(DataPacket(st.bit, chunks[st.next]), n), queueLen := st.queueLen + n);
    Sender.AckAdvances(chunks, st1);
    Sender.Step(chunks, st1, Datagram(AckPacket(st.bit)))
  }

  /** The events for chunk `k` take the sender to `Acked`. */
  lemma SendGroup(chunks: seq<seq<byte>>, copies: seq<nat>, k: nat, st: Sender.SendState)
    requires |copies| == |chunks| && k < |chunks|
    requires Sender.Wf(chunks, st) && st.status == Sender.Waiting && st.next == k
    ensures Sender.Run(chunks, st, AckTrace(copies, k)) ==
      Sender.Run(chunks, Acked(chunks, st, copies[k]), AckTrace(copies, k + 1))
  {
    var ack := Datagram(AckPacket(k % 2));
    var later := AckTrace(copies, k + 1);
    var st1 := st.(sent := st.sent + Copies(DataPacket(st.bit, chunks[st.next]), copies[k]),
                   queueLen := st.queueLen + copies[k]);
    assert Sender.Run(chunks, st, AckTrace(copies, k)) == Sender.Run(chunks, st1, [ack] + later) by {
      assert AckTrace(copies, k) == Copies(Timeout, copies[k]) + ([ack] + later);
      TimeoutsResend(chunks, st, copies[k], [ack] + later);
    }
    Sender.RunCons(chunks, st1, ack, later);
  }

  /**
   * From chunk `k` on, the sender fed `AckTrace` sends exactly the schedule
   * and completes, reading the whole trace.
   */
  lemma {:induction false} SendFollowsSchedule(chunks: seq<seq<byte>>, copies: seq<nat>, k: nat,
                                              st: Sender.SendState, pre: seq<seq<byte>>)
    requires |copies| == |chunks| && k < |chunks|
    requires Sender.Wf(chunks, st) && st.status == Sender.Waiting && st.next == k
    requires st.sent == pre + [DataPacket(k % 2, chunks[k])]
    ensures var r := Sender.Run(chunks, st, AckTrace(copies, k));
      r.0.status == Sender.Completed && r.0.sent == pre + Schedule(chunks, copies, k) && r.1 == []
    decreases |chunks| - k
  {
    var group := Copies(DataPacket(k % 2, chunks[k]), 1 + copies[k]);
    var st2 := Acked(chunks, st, copies[k]);
    SendGroup(chunks, copies, k, st);
    assert st.sent + Copies(DataPacket(k % 2, chunks[k]), copies[k]) == pre + group;
    assert Schedule(chunks, copies, k) == group + Schedule(chunks, copies, k + 1);
    if k + 1 < |chunks| {
      SendFollowsSchedule(chunks, copies, k + 1, st2, pre + group);
    } else {
      assert AckTrace(copies, k + 1) == [] && Schedule(chunks, copies, k + 1) == [];
    }
  }

  // -------------------------------------------------------------- receiver

  /** The loop body over two lists of packets is the loop body over the first, then over the second. */
  lemma {:induction false} DeliverAllAppend(st: Receiver.RecvState, a: seq<seq<byte>>, b: seq<seq<byte>>)
    ensures Receiver.DeliverAll(st, a + b) == Receiver.DeliverAll(Receiver.DeliverAll(st, a), b)
    decreases |a|
  {
    if a == [] {
      assert a + b == b;
    } else {
      assert (a + b)[0] == a[0] && (a + b)[1..] == a[1..] + b;
      if |a[0]| < 4 {
        DeliverAllAppend(st, a[1..], b);
      } else {
        DeliverAllAppend(Receiver.Deliver(st, a[0]), a[1..], b);
      }
    }
  }

  /**
   * Copies of a DATA packet carrying the bit the receiver no longer
   * expects are each ACKed again and never written.
   */
  lemma {:induction false} ReAckCopies(st: Receiver.RecvState, b: Receiver.bit, p: seq<byte>, n: nat)
    requires |p| >= 4 && PacketHeader(p) == Some(Header(DATA_PACKET, b)) && b != st.expected
    ensures Receiver.DeliverAll(st, Copies(p, n)) == st.(sent := st.sent + Copies(AckPacket(b), n))
    decreases n
  {
    if n == 0 {
      assert st.sent + Copies(AckPacket(b), 0) == st.sent;
    } else {
      var st' := st.(sent := st.sent + [AckPacket(b)]);
      assert Receiver.DeliverAll(st, Copies(p, n)) == Receiver.DeliverAll(st', Copies(p, n - 1)) by {
        assert Copies(p, n)[0] == p && Copies(p, n)[1..] == Copies(p, n - 1);
        Receiver.ReAcksHeader(st, p, b);
      }
      ReAckCopies(st', b, p, n - 1);
      assert st'.sent + Copies(AckPacket(b), n - 1) == st.sent + Copies(AckPacket(b), n);
    }
  }

  /** A chunk sent `1 + n` times is written once and ACKed `1 + n` times. */
  lemma ReceiveGroup(st: Receiver.RecvState, chunk: seq<byte>, n: nat)
    ensures Receiver.DeliverAll(st, Copies(DataPacket(st.expected, chunk), 1 + n)) ==
      Receiver.RecvState(1 - st.expected, st.numBytes + |chunk|, st.written + chunk,
                         st.sent + Copies(AckPacket(st.expected), 1 + n))
  {
    var p := DataPacket(st.expected, chunk);
    var st1 := Receiver.RecvState(1 - st.expected, st.numBytes + |chunk|, st.written + chunk,
                                  st.sent + [AckPacket(st.expected)]);
    assert Receiver.Deliver(st, p) == st1 by {
      Receiver.AcceptsExpected(st, chunk);
    }
    assert Copies(p, 1 + n)[0] == p && Copies(p, 1 + n)[1..] == Copies(p, n);
    DataPacketHeader(st.expected, chunk);
    ReAckCopies(st1, st.expected, p, n);
    assert st1.sent + Copies(AckPacket(st.expected), n) == st.sent + Copies(AckPacket(st.expected), 1 + n);
  }

  /** The receiver's state after the first group of the schedule from chunk `k`. */
  function AfterGroup(st: Receiver.RecvState, chunk: seq<byte>, n: nat): (r: Receiver.RecvState)
    ensures r.numBytes - st.numBytes == |r.written| - |st.written| == |chunk|
  {
    Receiver.RecvState(1 - st.expected, st.numBytes + |chunk|, st.written + chunk,
                       st.sent + Copies(AckPacket(st.expected), 1 + n))
  }

  /** Delivering the schedule from chunk `k` is delivering its first group, then the schedule from `k + 1`. */
  lemma ReceiveFirstGroup(chunks: seq<seq<byte>>, copies: seq<nat>, k: nat, st: Receiver.RecvState)
    requires |copies| == |chunks| && k < |chunks| && st.expected == k % 2
    ensures Receiver.DeliverAll(st, Schedule(chunks, copies, k)) ==
      Receiver.DeliverAll(AfterGroup(st, chunks[k], copies[k]), Schedule(chunks, copies, k + 1))
  {
    var group := Copies(DataPacket(k % 2, chunks[k]), 1 + copies[k]);
    var later := Schedule(chunks, copies, k + 1);
    assert Schedule(chunks, copies, k) == group + later;
    DeliverAllAppend(st, group, later);
    ReceiveGroup(st, chunks[k], copies[k]);
  }

  /** From chunk `k` on, the receiver writes each chunk once, in order, and ACKs every packet of the schedule. */
  lemma {:induction false} ReceiveSchedule(chunks: seq<seq<byte>>, copies: seq<nat>, k: nat, st: Receiver.RecvState)
    requires |copies| == |chunks| && k <= |chunks| && st.expected == k % 2
    ensures var r := Receiver.DeliverAll(st, Schedule(chunks, copies, k));
      r.expected == |chunks| % 2 && r.numBytes == st.numBytes + |Concat(chunks[k..])| &&
      r.written == st.written + Concat(chunks[k..]) && r.sent == st.sent + AckSchedule(chunks, copies, k)
    decreases |chunks| - k
  {
    if k == |chunks| {
      assert chunks[k..] == [];
    } else {
      var st2 := AfterGroup(st, chunks[k], copies[k]);
      ReceiveFirstGroup(chunks, copies, k, st);
      ReceiveSchedule(chunks, copies, k + 1, st2);
      ConcatFrom(chunks, k);
      assert st2.written + Concat(chunks[k + 1..]) == st.written + Concat(chunks[k..]);
      assert AckSchedule(chunks, copies, k) == st2.sent[|st.sent|..] + AckSchedule(chunks, copies, k + 1);
      assert st2.sent + AckSchedule(chunks, copies, k + 1) == st.sent + AckSchedule(chunks, copies, k);
    }
  }

  lemma ConcatFrom(chunks: seq<seq<byte>>, k: nat)
    requires k < |chunks|
    ensures Concat(chunks[k..]) == chunks[k] + Concat(chunks[k + 1..])
  {
    assert chunks[k..][1..] == chunks[k + 1..];
  }

  // ------------------------------------------------------------ end to end

  /**
   * Over a channel that loses `copies[k]` ACKs for chunk `k`: the sender
   * completes after sending chunk `k` exactly `1 + copies[k]` times with
   * bit `k % 2`; the receiver, given those packets and then an empty read,
   * writes every chunk once and in order, returns that byte count and ACKs
   * every packet.
   */
  lemma AckLossTransfer(chunks: seq<seq<byte>>, copies: seq<nat>, queueLen: nat)
    requires |copies| == |chunks|
    ensures var s := Sender.Run(chunks, Sender.Start(chunks, queueLen), AckTrace(copies, 0));
      s.0.status == Sender.Completed && s.0.sent == Schedule(chunks, copies, 0) && s.1 == []
    ensures var r := Receiver.RecvRun(Receiver.Initial, Receiver.Deliveries(Schedule(chunks, copies, 0)) + [Datagram([])]);
      r.0 == Receiver.Returned(|Concat(chunks)|) && r.1.written == Concat(chunks) &&
      r.1.sent == AckSchedule(chunks, copies, 0) && r.2 == []
  {
    var start := Sender.Start(chunks, queueLen);
    if chunks == [] {
      assert AckTrace(copies, 0) == [];
    } else {
      SendFollowsSchedule(chunks, copies, 0, start, []);
    }
    var schedule := Schedule(chunks, copies, 0);
    ScheduleHeaders(chunks, copies, 0);
    Receiver.RecvRunDeliveries(Receiver.Initial, schedule, [Datagram([])]);
    ReceiveSchedule(chunks, copies, 0, Receiver.Initial);
    assert chunks[0..] == chunks;
    Receiver.EmptyReadReturns(Receiver.DeliverAll(Receiver.Initial, schedule), []);
    assert [Datagram([])] + [] == [Datagram([])];
  }

  /**
   * With the chunking as written and whole datagrams, the receiver writes
   * the data back exactly when it fits in one payload of `MAX_PACKET - 4`
   * bytes; beyond that it writes more bytes than were sent.
   */
  lemma DeliversAsWritten(data: seq<byte>, maxPacket: int, copies: seq<nat>)
    requires maxPacket > 4 && |copies| == |Chunks(data, maxPacket)|
    ensures var r := Receiver.RecvRun(Receiver.Initial,
                                      Receiver.Deliveries(Schedule(Chunks(data, maxPacket), copies, 0)) + [Datagram([])]);
      (r.1.written == data <==> |data| <= maxPacket - 4) &&
      (|data| > maxPacket - 4 ==> r.0.Returned? && r.0.count > |data|)
  {
    AckLossTransfer(Chunks(data, maxPacket), copies, 0);
    ChunksRoundTripIff(data, maxPacket);
  }

  /** With the intended chunking the receiver writes back the data, and returns its length. */
  lemma DeliversIntended(data: seq<byte>, maxPacket: int, copies: seq<nat>)
    requires maxPacket > 4 && |copies| == |IntendedChunks(data, maxPacket)|
    ensures var r := Receiver.RecvRun(Receiver.Initial,
                                      Receiver.Deliveries(Schedule(IntendedChunks(data, maxPacket), copies, 0)) + [Datagram([])]);
      r.0 == Receiver.Returned(|data|) && r.1.written == data
  {
    AckLossTransfer(IntendedChunks(data, maxPacket), copies, 0);
    IntendedChunksRoundTrip(data, maxPacket);
  }

  // ------------------------------------------------------------ truncation

  /**
   * The first DATA packet the sender transmits is longer than the
   * `MAX_PACKET` bytes any `sock.recv` asks for exactly when the data does
   * not fit in one payload.
   */
  lemma OversizedFirstPacket(data: seq<byte>, maxPacket: int)
    requires maxPacket > 4 && data != []
    ensures |DataPacket(0, Chunks(data, maxPacket)[0])| > maxPacket <==> |data| > maxPacket - 4
  {
    ChunkAt(data, maxPacket, 0);
  }

  /** What `sock.recv(MAX_PACKET)` yields of a datagram on a transport that keeps only the bytes asked for. */
  function Truncate(p: seq<byte>, maxPacket: int): seq<byte>
    requires maxPacket > 4
  {
    p[..Min(maxPacket, |p|)]
  }

  /** Every datagram of a list, truncated. */
  function TruncateAll(ps: seq<seq<byte>>, maxPacket: int): (r: seq<seq<byte>>)
    requires maxPacket > 4
    ensures |r| == |ps|
  {
    if ps == [] then [] else [Truncate(ps[0], maxPacket)] + TruncateAll(ps[1..], maxPacket)
  }

  /** Every chunk cut down to the `MAX_PACKET - 4` bytes a truncated DATA packet still carries. */
  function TruncateChunks(chunks: seq<seq<byte>>, maxPacket: int): (r: seq<seq<byte>>)
    requires maxPacket > 4
    ensures |r| == |chunks|
  {
    seq(|chunks|, i requires 0 <= i < |chunks| => chunks[i][..Min(maxPacket - 4, |chunks[i]|)])
  }

  lemma {:induction false} TruncateAllAppend(a: seq<seq<byte>>, b: seq<seq<byte>>, maxPacket: int)
    requires maxPacket > 4
    ensures TruncateAll(a + b, maxPacket) == TruncateAll(a, maxPacket) + TruncateAll(b, maxPacket)
    decreases |a|
  {
    if a == [] {
      assert a + b == b;
    } else {
      assert (a + b)[0] == a[0] && (a + b)[1..] == a[1..] + b;
      TruncateAllAppend(a[1..], b, maxPacket);
    }
  }

  lemma {:induction false} TruncateCopies(p: seq<byte>, n: nat, maxPacket: int)
    requires maxPacket > 4
    ensures TruncateAll(Copies(p, n), maxPacket) == Copies(Truncate(p, maxPacket), n)
    decreases n
  {
    if n > 0 {
      assert Copies(p, n)[0] == p && Copies(p, n)[1..] == Copies(p, n - 1);
      TruncateCopies(p, n - 1, maxPacket);
    }
  }

  /** Truncated, the schedule of the chunks is the schedule of the truncated chunks. */
  lemma {:induction false} TruncatedSchedule(chunks: seq<seq<byte>>, copies: seq<nat>, k: nat, maxPacket: int)
    requires maxPacket > 4 && |copies| == |chunks| && k <= |chunks|
    ensures TruncateAll(Schedule(chunks, copies, k), maxPacket) == Schedule(TruncateChunks(chunks, maxPacket), copies, k)
    decreases |chunks| - k
  {
    if k < |chunks| {
      var p := DataPacket(k % 2, chunks[k]);
      var later := Schedule(chunks, copies, k + 1);
      TruncateAllAppend(Copies(p, 1 + copies[k]), later, maxPacket);
      TruncateCopies(p, 1 + copies[k], maxPacket);
      TruncateDataPacket(k % 2, chunks[k], maxPacket);
      assert Truncate(p, maxPacket) == DataPacket(k % 2, TruncateChunks(chunks, maxPacket)[k]);
      TruncatedSchedule(chunks, copies, k + 1, maxPacket);
    }
  }

  /**
   * If every datagram is cut down to the `MAX_PACKET` bytes `sock.recv`
   * asks for, the overlap never reaches the receiver: it writes back the
   * data and returns its length.
   */
  lemma DeliversTruncated(data: seq<byte>, maxPacket: int, copies: seq<nat>)
    requires maxPacket > 4 && |copies| == |Chunks(data, maxPacket)|
    ensures var r := Receiver.RecvRun(Receiver.Initial,
                                      Receiver.Deliveries(TruncateAll(Schedule(Chunks(data, maxPacket), copies, 0), maxPacket)) +
                                      [Datagram([])]);
      r.0 == Receiver.Returned(|data|) && r.1.written == data
  {
    TruncatedSchedule(Chunks(data, maxPacket), copies, 0, maxPacket);
    TruncatedChunks(data, maxPacket);
    assert TruncateChunks(Chunks(data, maxPacket), maxPacket) == IntendedChunks(data, maxPacket);
    DeliversIntended(data, maxPacket, copies);
  }
}
