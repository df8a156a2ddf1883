/**
 * The sending side, `send` (project.py:22-78): cut the data into chunks,
 * send each one as a DATA packet carrying the current 1-bit sequence
 * number, wait for the ACK of that bit, resend the same packet on every
 * timeout, flip the bit once the ACK arrives.
 *
 * `Step` and `Run` give the meaning of the loop as functions of an event
 * trace; `Send` is the loop itself, proved to compute what `Run` says.
 */
module Sender {
  import opened Wire
  import opened Chunking
  import opened Net

  /** Where `send` is, or how it ended. */
  datatype Status =
    | Waiting    // inside the ACK-wait loop of chunk `next`
    | Completed  // every chunk acknowledged: `send` returns
    | Aborted    // a `socket.error` was caught (project.py:77-78): `send` returns
    | Crashed    // `struct.unpack` refused a reply not 4 bytes long (project.py:48); nothing catches it

  /**
   * The state of `send` between two `sock.recv` calls: the index of the
   * chunk in flight, `sequence_number`, every packet sent so far, the length
   * of the module-global RTT list `queue`, and the status.
   */
  datatype SendState = SendState(next: nat, bit: u16, sent: seq<seq<byte>>, queueLen: nat, status: Status)

  /** The shape every state of `send` has: the bit is the parity of the chunk index. */
  predicate Wf(chunks: seq<seq<byte>>, st: SendState)
  {
    st.next <= |chunks| && st.bit == st.next % 2 &&
    (st.status == Waiting ==> st.next < |chunks|)
  }

  /** The head of the `for chunk` loop: send chunk `next`, or return once every chunk is done. */
  function Transmit(chunks: seq<seq<byte>>, st: SendState): (r: SendState)
    requires st.next <= |chunks| && st.bit == st.next % 2 && st.status == Waiting
    ensures Wf(chunks, r)
    ensures st.next < |chunks| ==> r.status == Waiting && r.sent == st.sent + [DataPacket(st.next % 2, chunks[st.next])]
    ensures st.next == |chunks| ==> r.status == Completed && r.sent == st.sent
  {
    if st.next < |chunks| then st.(sent := st.sent + [DataPacket(st.bit, chunks[st.next])])
    else st.(status := Completed)
  }

  /** `send` up to its first `sock.recv`, given the length `queueLen` of the global list. */
  function Start(chunks: seq<seq<byte>>, queueLen: nat): (r: SendState)
    ensures Wf(chunks, r) && r.next == 0 && r.bit == 0 && r.queueLen == queueLen
    ensures chunks == [] ==> r.status == Completed && r.sent == []
    ensures chunks != [] ==> r.status == Waiting && r.sent == [DataPacket(0, chunks[0])]
  {
    Transmit(chunks, SendState(0, 0, [], queueLen, Waiting))
  }

  /** A `socket.timeout` in the wait loop: one more RTT sample, and the same packet again (project.py:65-75). */
  function Resend(chunks: seq<seq<byte>>, st: SendState): (r: SendState)
    requires Wf(chunks, st) && st.status == Waiting
    ensures Wf(chunks, r)
  {
    st.(queueLen := st.queueLen + 1, sent := st.sent + [DataPacket(st.bit, chunks[st.next])])
  }

  /** A reply read in the wait loop (project.py:47-64), then the bit flip of line 76 if it is the awaited ACK. */
  function OnReply(chunks: seq<seq<byte>>, st: SendState, reply: seq<byte>): (r: SendState)
    requires Wf(chunks, st) && st.status == Waiting
    ensures Wf(chunks, r)
  {
    match Unpack(reply)
    case None => st.(status := Crashed)
    case Some(ack) =>
      var q := if st.queueLen > 5 then 0 else st.queueLen;
      if ack.packetType == ACK_P && ack.sequenceNumber == st.bit then
        Transmit(chunks, st.(next := st.next + 1, bit := 1 - st.bit, queueLen := q + 1))
      else
        st.(queueLen := q)
  }

  /** What one `sock.recv` outcome does to a waiting sender (project.py:46-78). */
  function Step(chunks: seq<seq<byte>>, st: SendState, e: Event): (r: SendState)
    requires Wf(chunks, st) && st.status == Waiting
    ensures Wf(chunks, r)
  {
    match e
    case Failure => st.(status := Aborted)
    case Timeout => Resend(chunks, st)
    case Datagram(reply) => OnReply(chunks, st, reply)
  }

  /**
   * `send` fed the events of a trace until it returns or the trace ends;
   * the second component is the part of the trace left unread.
   */
  function Run(chunks: seq<seq<byte>>, st: SendState, events: seq<Event>): (r: (SendState, seq<Event>))
    requires Wf(chunks, st)
    ensures Wf(chunks, r.0)
    ensures r.0.status == Waiting ==> r.1 == []
    decreases |events|
  {
    if st.status != Waiting || events == [] then (st, events)
    else Run(chunks, Step(chunks, st, events[0]), events[1..])
  }

  /** Running on a trace that starts with `e` is taking the step for `e`, then running on the rest. */
  lemma RunCons(chunks: seq<seq<byte>>, st: SendState, e: Event, rest: seq<Event>)
    requires Wf(chunks, st) && st.status == Waiting
    ensures Run(chunks, st, [e] + rest) == Run(chunks, Step(chunks, st, e), rest)
  {
    assert ([e] + rest)[1..] == rest;
  }

  /** `p` is the DATA packet of chunk `j`, sent with the bit `j % 2`. */
  predicate Carries(chunks: seq<seq<byte>>, p: seq<byte>, j: nat)
  {
    j < |chunks| && p == DataPacket(j % 2, chunks[j])
  }

  /**
   * What `send` keeps true: every packet sent so far is the DATA packet of a
   * chunk no later than the current one, with that chunk's parity as its
   * sequence number; while waiting, the last packet sent is the one for
   * chunk `next`.
   */
  ghost predicate Inv(chunks: seq<seq<byte>>, st: SendState)
  {
    Wf(chunks, st) && SentSoFar(chunks, st.sent, st.next) &&
    (st.status == Waiting ==> |st.sent| > 0 && st.sent[|st.sent| - 1] == DataPacket(st.bit, chunks[st.next]))
  }

  /** Every packet of `sent` is the DATA packet of some chunk `j <= next`. */
  ghost predicate SentSoFar(chunks: seq<seq<byte>>, sent: seq<seq<byte>>, next: nat)
  {
    forall i :: 0 <= i < |sent| ==> CarriesUpTo(chunks, sent[i], next)
  }

  /** `p` is the DATA packet of some chunk `j <= next`. */
  ghost predicate CarriesUpTo(chunks: seq<seq<byte>>, p: seq<byte>, next: nat)
  {
    exists j: nat :: j <= next && Carries(chunks, p, j)
  }

  /** Sending the packet of chunk `next'`, no earlier than `next`, keeps `SentSoFar`. */
  lemma SentSoFarAppend(chunks: seq<seq<byte>>, sent: seq<seq<byte>>, next: nat, next': nat, p: seq<byte>)
    requires SentSoFar(chunks, sent, next) && next <= next' && Carries(chunks, p, next')
    ensures SentSoFar(chunks, sent + [p], next')
  {
    forall i | 0 <= i < |sent + [p]|
      ensures CarriesUpTo(chunks, (sent + [p])[i], next')
    {
      if i < |sent| {
        assert (sent + [p])[i] == sent[i];
        var j: nat :| j <= next && Carries(chunks, sent[i], j);
        assert j <= next' && Carries(chunks, (sent + [p])[i], j);
      } else {
        assert Carries(chunks, (sent + [p])[i], next');
      }
    }
  }

  lemma SentSoFarLater(chunks: seq<seq<byte>>, sent: seq<seq<byte>>, next: nat, next': nat)
    requires SentSoFar(chunks, sent, next) && next <= next'
    ensures SentSoFar(chunks, sent, next')
  {
    forall i | 0 <= i < |sent|
      ensures CarriesUpTo(chunks, sent[i], next')
    {
      var j: nat :| j <= next && Carries(chunks, sent[i], j);
      assert j <= next';
    }
  }

  lemma StartInv(chunks: seq<seq<byte>>, queueLen: nat)
    ensures Inv(chunks, Start(chunks, queueLen))
  {
    if chunks != [] {
      SentSoFarAppend(chunks, [], 0, 0, DataPacket(0, chunks[0]));
    }
  }

  /** Every step of the wait loop keeps the invariant. */
  lemma StepInv(chunks: seq<seq<byte>>, st: SendState, e: Event)
    requires Inv(chunks, st) && st.status == Waiting
    ensures Inv(chunks, Step(chunks, st, e))
  {
    var r := Step(chunks, st, e);
    if e.Timeout? {
      SentSoFarAppend(chunks, st.sent, st.next, st.next, DataPacket(st.bit, chunks[st.next]));
    } else if e.Datagram? && r.next == st.next + 1 {
      if r.next < |chunks| {
        assert r.sent == st.sent + [DataPacket(r.next % 2, chunks[r.next])];
        SentSoFarAppend(chunks, st.sent, st.next, r.next, DataPacket(r.next % 2, chunks[r.next]));
      } else {
        SentSoFarLater(chunks, st.sent, st.next, r.next);
      }
    }
  }

  /** `send` keeps the invariant over any trace. */
  lemma {:induction false} RunInv(chunks: seq<seq<byte>>, st: SendState, events: seq<Event>)
    requires Inv(chunks, st)
    ensures Inv(chunks, Run(chunks, st, events).0)
    decreases |events|
  {
    if st.status == Waiting && events != [] {
      StepInv(chunks, st, events[0]);
      RunInv(chunks, Step(chunks, st, events[0]), events[1..]);
    }
  }

  /**
   * Whatever the trace, every packet `send` transmits is the DATA packet of
   * one of the chunks, carrying that chunk's index parity as its sequence
   * number.
   */
  lemma SendsOnlyChunks(chunks: seq<seq<byte>>, queueLen: nat, events: seq<Event>)
    ensures forall p :: p in Run(chunks, Start(chunks, queueLen), events).0.sent ==>
      exists j: nat :: j < |chunks| && p == DataPacket(j % 2, chunks[j])
  {
    StartInv(chunks, queueLen);
    RunInv(chunks, Start(chunks, queueLen), events);
    var r := Run(chunks, Start(chunks, queueLen), events).0;
    forall p | p in r.sent
      ensures exists j: nat :: j < |chunks| && p == DataPacket(j % 2, chunks[j])
    {
      var i :| 0 <= i < |r.sent| && r.sent[i] == p;
      assert CarriesUpTo(chunks, r.sent[i], r.next);
      var j: nat :| j <= r.next && Carries(chunks, p, j);
    }
  }

  /**
   * A timeout resends, byte for byte, the packet sent last, adds one RTT
   * sample and changes nothing else: same chunk, same sequence number.
   */
  lemma TimeoutResendsSamePacket(chunks: seq<seq<byte>>, st: SendState)
    requires Inv(chunks, st) && st.status == Waiting
    ensures Step(chunks, st, Timeout)
         == st.(sent := st.sent + [st.sent[|st.sent| - 1]], queueLen := st.queueLen + 1)
  {
  }

  /**
   * A `socket.error` from `sock.recv` is caught outside the `for` loop
   * (project.py:77-78): `send` returns at once and sends nothing more.
   */
  lemma SocketErrorAborts(chunks: seq<seq<byte>>, st: SendState, rest: seq<Event>)
    requires Wf(chunks, st) && st.status == Waiting
    ensures Step(chunks, st, Failure) == st.(status := Aborted)
    ensures Run(chunks, st, [Failure] + rest) == (st.(status := Aborted), rest)
  {
    RunCons(chunks, st, Failure, rest);
  }

  /** A reply whose length is not 4 makes `struct.unpack` raise, and `send` dies with nothing more sent. */
  lemma MalformedReplyCrashes(chunks: seq<seq<byte>>, st: SendState, reply: seq<byte>)
    requires Wf(chunks, st) && st.status == Waiting && |reply| != 4
    ensures Step(chunks, st, Datagram(reply)) == st.(status := Crashed)
  {
  }

  /**
   * The wait loop ends on a 4-byte reply exactly when the reply is the ACK
   * packet of the current bit; any other 4-byte reply sends nothing and
   * changes nothing but the RTT list, which is cleared when it holds more
   * than five samples.
   */
  lemma LeavesWaitIff(chunks: seq<seq<byte>>, st: SendState, reply: seq<byte>)
    requires Wf(chunks, st) && st.status == Waiting && |reply| == 4
    ensures Step(chunks, st, Datagram(reply)).next == st.next + 1 <==> reply == AckPacket(st.bit)
    ensures reply != AckPacket(st.bit) ==>
      Step(chunks, st, Datagram(reply)) == st.(queueLen := if st.queueLen > 5 then 0 else st.queueLen)
  {
    PackUnpack(reply);
    AckPacketHeader(st.bit);
  }

  /**
   * The awaited ACK flips the bit and moves on: the next chunk goes out with
   * the new bit, or `send` completes after the last one.
   */
  lemma AckAdvances(chunks: seq<seq<byte>>, st: SendState)
    requires Wf(chunks, st) && st.status == Waiting
    ensures var r := Step(chunks, st, Datagram(AckPacket(st.bit)));
      r.next == st.next + 1 && r.bit == 1 - st.bit &&
      r.queueLen == (if st.queueLen > 5 then 0 else st.queueLen) + 1 &&
      (r.next < |chunks| ==> r.status == Waiting && r.sent == st.sent + [DataPacket(r.bit, chunks[r.next])]) &&
      (r.next == |chunks| ==> r.status == Completed && r.sent == st.sent)
  {
    AckPacketHeader(st.bit);
  }

  /** Right after any 4-byte reply the RTT list holds at most six samples; timeouts alone let it grow without bound. */
  lemma QueueBoundAfterReply(chunks: seq<seq<byte>>, st: SendState, reply: seq<byte>)
    requires Wf(chunks, st) && st.status == Waiting && |reply| == 4
    ensures Step(chunks, st, Datagram(reply)).queueLen <= 6
  {
  }

  /** The module-global list `queue` of RTT samples; only its length is kept. */
  class RttQueue {
    var length: nat

    constructor (length: nat)
      ensures this.length == length
    {
      this.length := length;
    }

    /** `queue.append(sample)`. */
    method Append()
      modifies this
      ensures length == old(length) + 1
    {
      length := length + 1;
    }

    /** `queue.clear()`. */
    method Clear()
      modifies this
      ensures length == 0
    {
      length := 0;
    }
  }

  /**
   * The ACK-wait loop of `send` (project.py:43-75) for the packet of chunk
   * `st.next`, already sent. `acked` tells whether it ended on the awaited
   * ACK; otherwise `send` is over (or the trace ran out) and `status` says
   * how. The ghost result `st'` is the model's state afterwards, before the
   * next chunk goes out.
   */
  method AwaitAck(sock: Socket, queue: RttQueue, chunks: seq<seq<byte>>, sequenceNumber: u16, packet: seq<byte>,
                  ghost st: SendState, ghost sent0: seq<seq<byte>>)
    returns (acked: bool, status: Status, ghost st': SendState)
    requires Wf(chunks, st) && st.status == Waiting && st.queueLen == queue.length
    requires sequenceNumber == st.bit && packet == DataPacket(sequenceNumber, chunks[st.next])
    requires sock.outbox == sent0 + st.sent
    modifies sock, queue
    ensures sock.outbox == sent0 + st'.sent && queue.length == st'.queueLen
    ensures acked ==>
      st'.next == st.next + 1 && st'.bit == 1 - st.bit && st'.status == Waiting &&
      Run(chunks, Transmit(chunks, st'), sock.inbox) == Run(chunks, st, old(sock.inbox))
    ensures !acked ==>
      (st', sock.inbox) == Run(chunks, st, old(sock.inbox)) && status == st'.status
  {
    ghost var goal := Run(chunks, st, sock.inbox);
    st' := st;
    acked := false;
    status := Waiting;
    while true
      invariant sock.outbox == sent0 + st'.sent && queue.length == st'.queueLen
      invariant Wf(chunks, st') && st' == SendState(st.next, st.bit, st'.sent, st'.queueLen, Waiting)
      invariant Run(chunks, st', sock.inbox) == goal
      decreases |sock.inbox|
    {
      var e := sock.Recv();
      if e.None? {
        return;
      }
      RunCons(chunks, st', e.value, sock.inbox);
      ghost var before := st';
      match e.value {
        case Failure =>
          st' := st'.(status := Aborted);
          return false, Aborted, st';
        case Timeout =>
          queue.Append();
          sock.Send(packet);
          st' := Resend(chunks, st');
          assert Step(chunks, before, e.value) == st';
        case Datagram(reply) =>
          var ack := Unpack(reply);
          if ack.None? {
            st' := st'.(status := Crashed);
            return false, Crashed, st';
          }
          if queue.length > 5 {
            queue.Clear();
          }
          if ack.value.packetType == ACK_P && ack.value.sequenceNumber == sequenceNumber {
            queue.Append();
            st' := st'.(next := st.next + 1, bit := 1 - st.bit, queueLen := queue.length);
            assert Step(chunks, before, e.value) == Transmit(chunks, st');
            return true, Waiting, st';
          }
          st' := st'.(queueLen := queue.length);
          assert Step(chunks, before, e.value) == st';
      }
    }
  }

  /**
   * The `for chunk` loop of `send` (project.py:38-76) over a given list of
   * chunks. The result is how it ended; `Waiting` means the trace ran out
   * while it was waiting for an ACK.
   */
  method SendChunks(sock: Socket, queue: RttQueue, chunks: seq<seq<byte>>) returns (status: Status)
    modifies sock, queue
    ensures var r := Run(chunks, Start(chunks, old(queue.length)), old(sock.inbox));
      status == r.0.status && sock.outbox == old(sock.outbox) + r.0.sent &&
      sock.inbox == r.1 && queue.length == r.0.queueLen
  {
    ghost var goal := Run(chunks, Start(chunks, queue.length), sock.inbox);
    ghost var sent0 := sock.outbox;
    // the model's state at the head of the loop, before the chunk goes out
    ghost var st := SendState(0, 0, [], queue.length, Waiting);
    var sequenceNumber: u16 := 0;
    var k := 0;
    while k < |chunks|
      invariant k <= |chunks| && sequenceNumber == k % 2
      invariant st.next == k && st.bit == sequenceNumber && st.queueLen == queue.length && st.status == Waiting
      invariant sock.outbox == sent0 + st.sent
      invariant Run(chunks, Transmit(chunks, st), sock.inbox) == goal
      decreases |chunks| - k
    {
      var packet := DataPacket(sequenceNumber, chunks[k]);
      sock.Send(packet);
      st := Transmit(chunks, st);
      var acked;
      acked, status, st := AwaitAck(sock, queue, chunks, sequenceNumber, packet, st, sent0);
      if !acked {
        return;
      }
      sequenceNumber := 1 - sequenceNumber;
      k := k + 1;
    }
    return Completed;
  }

  /** `send(sock, data)` with MAX_PACKET given as `maxPacket`: the chunks as written, sent in turn. */
  method Send(sock: Socket, queue: RttQueue, data: seq<byte>, maxPacket: int) returns (status: Status)
    requires maxPacket > 4
    modifies sock, queue
    ensures var chunks := Chunks(data, maxPacket);
      var r := Run(chunks, Start(chunks, old(queue.length)), old(sock.inbox));
      status == r.0.status && sock.outbox == old(sock.outbox) + r.0.sent &&
      sock.inbox == r.1 && queue.length == r.0.queueLen
  {
    var chunks := Chunks(data, maxPacket);
    status := SendChunks(sock, queue, chunks);
  }
}
