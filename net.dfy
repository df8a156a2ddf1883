/**
 * The two objects `send` and `recv` are handed by their caller: the socket of
 * the simulated lossy network, and (for the receiver) the output stream
 * `dest`. The network is replaced by a trace: `inbox` lists what successive
 * `sock.recv` calls yield, `outbox` records every datagram passed to
 * `sock.send`, in order.
 */
module Net {
  import opened Wire

  /** What one call of `sock.recv` yields. */
  datatype Event =
    | Datagram(bytes: seq<byte>)  // the bytes read (possibly empty)
    | Timeout                     // `socket.timeout` raised
    | Failure                     // any other `socket.error` raised

  class Socket {
    /** What the remaining `recv` calls will yield, in order. */
    var inbox: seq<Event>
    /** Every datagram sent so far, in order. */
    var outbox: seq<seq<byte>>

    constructor (trace: seq<Event>)
      ensures inbox == trace && outbox == []
    {
      inbox, outbox := trace, [];
    }

    /** `sock.send(datagram)`. */
    method Send(datagram: seq<byte>)
      modifies this
      ensures outbox == old(outbox) + [datagram] && inbox == old(inbox)
    {
      outbox := outbox + [datagram];
    }

    /**
     * `sock.recv(...)`: takes the next event of the trace. None means the
     * trace is over, where the real call would block for ever.
     */
    method Recv() returns (e: Option<Event>)
      modifies this
      ensures outbox == old(outbox)
      ensures old(inbox) == [] ==> e == None && inbox == []
      ensures old(inbox) != [] ==> e == Some(old(inbox)[0]) && inbox == old(inbox)[1..]
    {
      if inbox == [] {
        e := None;
      } else {
        e := Some(inbox[0]);
        inbox := inbox[1..];
      }
    }
  }

  /** The receiver's output stream `dest`. */
  class Sink {
    /** Everything written to the stream so far. */
    var contents: seq<byte>

    constructor ()
      ensures contents == []
    {
      contents := [];
    }

    /** `dest.write(bytes)` followed by `dest.flush()`. */
    method Write(bytes: seq<byte>)
      modifies this
      ensures contents == old(contents) + bytes
    {
      contents := contents + bytes;
    }
  }
}
