/**
 * How the sender cuts its buffer into chunks (project.py:33, 38):
 *
 *   offsets = range(0, len(data), MAX_PACKET - 4)
 *   chunks  = [data[i:i + MAX_PACKET] for i in offsets]
 *
 * The offsets advance by the payload size MAX_PACKET - 4, but every slice is
 * MAX_PACKET bytes wide, so consecutive chunks share four bytes whenever the
 * data does not fit in one chunk. `Chunks` models the code as written;
 * `IntendedChunks` slices MAX_PACKET - 4 bytes and is the evident intent.
 */
module Chunking {
  import opened Wire

  /** Python's `range(start, stop, step)` for a positive step. */
  function Range(start: nat, stop: nat, step: nat): (r: seq<nat>)
    requires step > 0
    ensures r == [] <==> start >= stop
    ensures forall j :: 0 <= j < |r| ==> start <= r[j] < stop
    decreases if start < stop then stop - start else 0
  {
    if start >= stop then [] else [start] + Range(start + step, stop, step)
  }

  /** The `j`-th offset of a range, and how many offsets there are. */
  lemma {:induction false} RangeAt(start: nat, stop: nat, step: nat, j: nat)
    requires step > 0
    ensures var r := Range(start, stop, step);
      (j < |r| ==> r[j] == start + j * step) && (j < |r| <==> start + j * step < stop)
    decreases if start < stop then stop - start else 0
  {
    if start < stop && j > 0 {
      RangeAt(start + step, stop, step, j - 1);
      assert start + step + (j - 1) * step == start + j * step;
    }
  }

  /** Python's slice `data[lo:hi]`: both bounds clamp to the length. */
  function Slice(data: seq<byte>, lo: nat, hi: nat): (r: seq<byte>)
    ensures lo <= hi <= |data| ==> r == data[lo..hi]
    ensures lo < |data| && lo < hi ==> |r| > 0
  {
    if lo >= |data| || hi <= lo then [] else data[lo..Min(hi, |data|)]
  }

  /**
   * `[data[i:i + width] for i in offsets]`: one slice per offset, holding
   * `width` bytes, or fewer when the data ends first.
   */
  function SliceEach(data: seq<byte>, offsets: seq<nat>, width: nat): (r: seq<seq<byte>>)
    ensures |r| == |offsets|
    ensures forall k :: 0 <= k < |r| ==>
      |r[k]| == (if offsets[k] < |data| then Min(width, |data| - offsets[k]) else 0)
  {
    seq(|offsets|, k requires 0 <= k < |offsets| => Slice(data, offsets[k], offsets[k] + width))
  }

  /** The chunks `send` transmits, as written: offsets step by MAX_PACKET - 4, slices are MAX_PACKET wide. */
  function Chunks(data: seq<byte>, maxPacket: int): (r: seq<seq<byte>>)
    requires maxPacket > 4
    ensures r == [] <==> data == []
    ensures forall k :: 0 <= k < |r| ==> 0 < |r[k]| <= maxPacket
  {
    SliceEach(data, Range(0, |data|, maxPacket - 4), maxPacket)
  }

  /**
   * One chunk per offset `k * (MAX_PACKET - 4)` below `len(data)`, in
   * increasing order; chunk `k` is the clamped slice of MAX_PACKET bytes there.
   */
  lemma ChunkAt(data: seq<byte>, maxPacket: int, k: nat)
    requires maxPacket > 4
    ensures var r := Chunks(data, maxPacket);
      var lo := k * (maxPacket - 4);
      (k < |r| <==> lo < |data|) &&
      (k < |r| ==> r[k] == data[lo..Min(lo + maxPacket, |data|)])
  {
    RangeAt(0, |data|, maxPacket - 4, k);
  }

  /** What the offsets call for: slices of MAX_PACKET - 4 bytes, so that each packet fits in MAX_PACKET. */
  function IntendedChunks(data: seq<byte>, maxPacket: int): (r: seq<seq<byte>>)
    requires maxPacket > 4
    ensures forall k :: 0 <= k < |r| ==> 0 < |r[k]| <= maxPacket - 4
  {
    SliceEach(data, Range(0, |data|, maxPacket - 4), maxPacket - 4)
  }

  /** The bytes of a list of chunks, one after another. */
  function Concat(chunks: seq<seq<byte>>): seq<byte>
  {
    if chunks == [] then [] else chunks[0] + Concat(chunks[1..])
  }

  lemma {:induction false} ConcatAppend(chunks: seq<seq<byte>>, c: seq<byte>)
    ensures Concat(chunks + [c]) == Concat(chunks) + c
  {
    if chunks == [] {
      assert chunks + [c] == [c];
    } else {
      assert (chunks + [c])[1..] == chunks[1..] + [c];
      ConcatAppend(chunks[1..], c);
    }
  }

  /** The slices taken at `range(i, len(data), step)`, one offset at a time. */
  function SlicesFrom(data: seq<byte>, i: nat, step: nat, width: nat): seq<seq<byte>>
    requires step > 0
    decreases |data| - i
  {
    if i >= |data| then [] else [Slice(data, i, i + width)] + SlicesFrom(data, i + step, step, width)
  }

  /** Slicing at a list of offsets is slicing at its first offset, then at the others. */
  lemma SliceEachCons(data: seq<byte>, i: nat, offsets: seq<nat>, width: nat)
    ensures SliceEach(data, [i] + offsets, width) == [Slice(data, i, i + width)] + SliceEach(data, offsets, width)
  {
    var r := SliceEach(data, [i] + offsets, width);
    var r' := [Slice(data, i, i + width)] + SliceEach(data, offsets, width);
    forall k | 0 <= k < |r|
      ensures r[k] == r'[k]
    {
      if k > 0 {
        assert ([i] + offsets)[k] == offsets[k - 1];
      }
    }
  }

  /** Slicing at every offset of the range is slicing at its first offset, then at the rest. */
  lemma {:induction false} SliceEachRange(data: seq<byte>, i: nat, step: nat, width: nat)
    requires step > 0
    ensures SliceEach(data, Range(i, |data|, step), width) == SlicesFrom(data, i, step, width)
    decreases |data| - i
  {
    if i < |data| {
      assert Range(i, |data|, step) == [i] + Range(i + step, |data|, step);
      SliceEachCons(data, i, Range(i + step, |data|, step), width);
      SliceEachRange(data, i + step, step, width);
    }
  }

  /** With slices exactly as wide as the step, the chunks from offset `i` on rebuild `data[i..]`. */
  lemma {:induction false} IntendedFrom(data: seq<byte>, i: nat, step: nat)
    requires step > 0 && i <= |data|
    ensures Concat(SlicesFrom(data, i, step, step)) == data[i..]
    decreases |data| - i
  {
    if i < |data| {
      var first := Slice(data, i, i + step);
      var rest := SlicesFrom(data, i + step, step, step);
      assert ([first] + rest)[1..] == rest;
      if i + step <= |data| {
        IntendedFrom(data, i + step, step);
        assert data[i..] == data[i..i + step] + data[i + step..];
      } else {
        assert first == data[i..];
      }
    }
  }

  /** The intended chunking loses nothing and adds nothing: concatenated, the chunks are the data. */
  lemma IntendedChunksRoundTrip(data: seq<byte>, maxPacket: int)
    requires maxPacket > 4
    ensures Concat(IntendedChunks(data, maxPacket)) == data
  {
    SliceEachRange(data, 0, maxPacket - 4, maxPacket - 4);
    IntendedFrom(data, 0, maxPacket - 4);
  }

  /**
   * With slices four bytes wider than the step, the chunks from offset `i` on
   * hold every byte of `data[i..]` and then some: at least one byte more
   * whenever more than one chunk is left.
   */
  lemma {:induction false} WrittenFrom(data: seq<byte>, i: nat, step: nat)
    requires step > 0 && i <= |data|
    ensures var c := Concat(SlicesFrom(data, i, step, step + 4));
      (|data| - i <= step ==> c == data[i..]) && (|data| - i > step ==> |c| > |data| - i)
    decreases |data| - i
  {
    if i < |data| {
      var first := Slice(data, i, i + step + 4);
      var rest := SlicesFrom(data, i + step, step, step + 4);
      assert ([first] + rest)[1..] == rest;
      if i + step < |data| {
        WrittenFrom(data, i + step, step);
        assert |first| > step;
      } else {
        assert first == data[i..];
      }
    }
  }

  /**
   * The chunks as written rebuild the data exactly when it fits in a single
   * payload of MAX_PACKET - 4 bytes; beyond that the receiver gets more
   * bytes than were sent.
   */
  lemma ChunksRoundTripIff(data: seq<byte>, maxPacket: int)
    requires maxPacket > 4
    ensures Concat(Chunks(data, maxPacket)) == data <==> |data| <= maxPacket - 4
    ensures |data| > maxPacket - 4 ==> |Concat(Chunks(data, maxPacket))| > |data|
  {
    SliceEachRange(data, 0, maxPacket - 4, maxPacket);
    WrittenFrom(data, 0, maxPacket - 4);
  }

  /**
   * Cut down to its first MAX_PACKET - 4 bytes, each chunk as written is the
   * intended chunk at the same offset: the overlap is exactly the four extra
   * bytes at the end of every chunk.
   */
  lemma TruncatedChunks(data: seq<byte>, maxPacket: int)
    requires maxPacket > 4
    ensures var written, intended := Chunks(data, maxPacket), IntendedChunks(data, maxPacket);
      |written| == |intended| &&
      forall k :: 0 <= k < |written| ==> written[k][..Min(maxPacket - 4, |written[k]|)] == intended[k]
  {
    var offsets := Range(0, |data|, maxPacket - 4);
    var written, intended := Chunks(data, maxPacket), IntendedChunks(data, maxPacket);
    forall k | 0 <= k < |written|
      ensures written[k][..Min(maxPacket - 4, |written[k]|)] == intended[k]
    {
      var lo := offsets[k];
      var hi := Min(lo + maxPacket - 4, |data|);
      assert lo < |data|;
      assert written[k] == Slice(data, lo, lo + maxPacket) == data[lo..Min(lo + maxPacket, |data|)];
      assert intended[k] == Slice(data, lo, lo + maxPacket - 4) == data[lo..hi];
      assert Min(maxPacket - 4, |written[k]|) == hi - lo;
      assert written[k][..hi - lo] == data[lo..hi];
    }
  }

  /** A concrete input that shows the overlap: two bytes with MAX_PACKET = 5 come out as three. */
  lemma OverlapWitness()
    ensures Chunks([7, 8], 5) == [[7, 8], [8]]
    ensures Concat(Chunks([7, 8], 5)) == [7, 8, 8]
  {
    var r := Chunks([7, 8], 5);
    assert |r| == 2;
    assert r[0] == [7, 8];
    assert r[1] == [8];
    assert Concat(r) == [7, 8] + Concat([[8]]);
  }

  /** The bytes of `b"hello world"`. */
  const HelloWorld: seq<byte> := [104, 101, 108, 108, 111, 32, 119, 111, 114, 108, 100]

  /** The offsets `range(0, 11, 4)`. */
  lemma HelloWorldOffsets()
    ensures Range(0, |HelloWorld|, 4) == [0, 4, 8]
  {
    var r := Range(0, 11, 4);
    RangeAt(0, 11, 4, 0);
    RangeAt(0, 11, 4, 1);
    RangeAt(0, 11, 4, 2);
    RangeAt(0, 11, 4, 3);
  }

  /** `b"hello world"` with MAX_PACKET = 8, as intended: `b"hell"`, `b"o wo"`, `b"rld"`. */
  lemma HelloWorldIntended()
    ensures IntendedChunks(HelloWorld, 8) == [[104, 101, 108, 108], [111, 32, 119, 111], [114, 108, 100]]
  {
    HelloWorldOffsets();
    var intended := IntendedChunks(HelloWorld, 8);
    assert |intended| == 3;
    assert intended == [intended[0], intended[1], intended[2]];
    assert intended[0] == HelloWorld[0..4] == [104, 101, 108, 108];
    assert intended[1] == HelloWorld[4..8] == [111, 32, 119, 111];
    assert intended[2] == HelloWorld[8..11] == [114, 108, 100];
  }

  /**
   * `b"hello world"` with MAX_PACKET = 8, as written: `b"hello wo"`,
   * `b"o world"`, `b"rld"`, eighteen bytes for eleven.
   */
  lemma HelloWorldWritten()
    ensures Chunks(HelloWorld, 8) ==
      [[104, 101, 108, 108, 111, 32, 119, 111], [111, 32, 119, 111, 114, 108, 100], [114, 108, 100]]
    ensures |Concat(Chunks(HelloWorld, 8))| == 18
  {
    HelloWorldOffsets();
    var written := Chunks(HelloWorld, 8);
    assert |written| == 3;
    assert written == [written[0], written[1], written[2]];
    assert written[0] == HelloWorld[0..8] == [104, 101, 108, 108, 111, 32, 119, 111];
    assert written[1] == HelloWorld[4..11] == [111, 32, 119, 111, 114, 108, 100];
    assert written[2] == HelloWorld[8..11] == [114, 108, 100];
    assert Concat(written) == written[0] + Concat(written[1..]);
    assert Concat(written[1..]) == written[1] + Concat(written[2..]);
    assert Concat(written[2..]) == written[2] + Concat(written[3..]);
    assert written[3..] == [];
  }
}
