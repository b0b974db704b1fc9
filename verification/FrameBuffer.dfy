/** Cutting a byte stream into fixed frames (backend/rtc_bridge/frame_buffer.py). */
module FrameBuffer {

  type Byte = b: int | 0 <= b < 256
  type Bytes = seq<Byte>

  /** The complete frames at the front of a stream, and what is left. */
  function Frames(stream: Bytes, size: nat): seq<Bytes>
    requires size > 0
  {
    if |stream| < size then [] else [stream[..size]] + Frames(stream[size..], size)
  }

  function Residue(stream: Bytes, size: nat): Bytes
    requires size > 0
  {
    if |stream| < size then stream else Residue(stream[size..], size)
  }

  function Concat(parts: seq<Bytes>): Bytes {
    if parts == [] then [] else parts[0] + Concat(parts[1..])
  }

  ghost predicate AllOfSize(frames: seq<Bytes>, size: nat) {
    forall i :: 0 <= i < |frames| ==> |frames[i]| == size
  }

  lemma Reassociate(a: Bytes, b: Bytes, c: Bytes)
    ensures a + (b + c) == (a + b) + c
  {
  }

  lemma {:induction false} OneFrameMore(head: Bytes, rest: seq<Bytes>, residue: Bytes)
    requires AllOfSize(rest, |head|)
    ensures Concat([head] + rest) + residue == head + (Concat(rest) + residue) && AllOfSize([head] + rest, |head|)
  {
    var all := [head] + rest;
    assert all[1..] == rest && all[0] == head;
    assert Concat(all) == head + Concat(rest);
    Reassociate(head, Concat(rest), residue);
    assert forall i :: 0 < i < |all| ==> all[i] == rest[i - 1];
  }

  lemma {:induction false} FramesOfMore(stream: Bytes, size: nat)
    requires 0 < size <= |stream|
    ensures Frames(stream, size) == [stream[..size]] + Frames(stream[size..], size)
    ensures Residue(stream, size) == Residue(stream[size..], size)
    ensures stream == stream[..size] + stream[size..]
  {
  }

  /** Nothing is lost, invented or reordered, and less than a frame is held back. */
  lemma {:induction false} FramesAreTheStream(stream: Bytes, size: nat)
    requires size > 0
    ensures Concat(Frames(stream, size)) + Residue(stream, size) == stream
    ensures |Residue(stream, size)| < size && AllOfSize(Frames(stream, size), size)
  {
    if |stream| < size {
      assert Concat([]) == [] && Frames(stream, size) == [] && [] + stream == stream;
    } else {
      FramesAreTheStream(stream[size..], size);
      FramesOfMore(stream, size);
      hide Frames, Residue, Concat, AllOfSize;
      OneFrameMore(stream[..size], Frames(stream[size..], size), Residue(stream[size..], size));
    }
  }

  /** Frames are determined by the stream alone: cutting it at any point changes nothing. */
  lemma {:induction false} CutIsIrrelevant(a: Bytes, b: Bytes, size: nat)
    requires size > 0
    ensures Frames(a + b, size) == Frames(a, size) + Frames(Residue(a, size) + b, size)
    ensures Residue(a + b, size) == Residue(Residue(a, size) + b, size)
  {
    if |a| >= size {
      CutIsIrrelevant(a[size..], b, size);
      assert (a + b)[..size] == a[..size] && (a + b)[size..] == a[size..] + b;
    }
  }

  /** All frames of successive chunks, carrying the residue along. */
  function FeedAll(residue: Bytes, chunks: seq<Bytes>, size: nat): seq<Bytes>
    requires size > 0
    decreases |chunks|
  {
    if chunks == [] then []
    else Frames(residue + chunks[0], size) + FeedAll(Residue(residue + chunks[0], size), chunks[1..], size)
  }

  function ResidueAfter(residue: Bytes, chunks: seq<Bytes>, size: nat): Bytes
    requires size > 0
    decreases |chunks|
  {
    if chunks == [] then residue else ResidueAfter(Residue(residue + chunks[0], size), chunks[1..], size)
  }

  /** However a stream is chunked, the frames and the residue are those of the whole stream. */
  lemma {:induction false} ChunkingIsIrrelevant(residue: Bytes, chunks: seq<Bytes>, size: nat)
    requires size > 0 && |residue| < size
    ensures FeedAll(residue, chunks, size) == Frames(residue + Concat(chunks), size)
    ensures ResidueAfter(residue, chunks, size) == Residue(residue + Concat(chunks), size)
    decreases |chunks|
  {
    if chunks == [] {
      assert residue + Concat(chunks) == residue;
    } else {
      var head := residue + chunks[0];
      var rest := Concat(chunks[1..]);
      FramesAreTheStream(head, size);
      ChunkingIsIrrelevant(Residue(head, size), chunks[1..], size);
      CutIsIrrelevant(head, rest, size);
      assert residue + Concat(chunks) == head + rest;
    }
  }

  class PcmFrameBuffer {
    const frameBytes: nat
    const padTail: bool
    var buf: Bytes
    var totalFrames: nat
    var tailDroppedBytes: nat
    var tailPaddedFrames: nat
    var lastSrcSeqs: seq<int>

    ghost predicate Valid()
      reads this
    {
      frameBytes > 0 && |buf| < frameBytes
    }

    constructor (frameBytes: nat, padTail: bool)
      requires frameBytes > 0
      ensures Valid() && buf == [] && this.frameBytes == frameBytes && this.padTail == padTail
      ensures totalFrames == tailDroppedBytes == tailPaddedFrames == 0
    {
      this.frameBytes, this.padTail := frameBytes, padTail;
      buf, lastSrcSeqs := [], [];
      totalFrames, tailDroppedBytes, tailPaddedFrames := 0, 0, 0;
    }

    method Feed(chunk: Bytes, srcSeq: int) returns (frames: seq<Bytes>)
      requires Valid()
      modifies this
      ensures Valid()
      ensures frames == Frames(old(buf) + chunk, frameBytes) && buf == Residue(old(buf) + chunk, frameBytes)
      ensures lastSrcSeqs == seq(|frames|, _ => srcSeq)
      ensures totalFrames == old(totalFrames) + |frames|
      ensures tailDroppedBytes == old(tailDroppedBytes) && tailPaddedFrames == old(tailPaddedFrames)
    {
      lastSrcSeqs := [];
      frames := [];
      if chunk == [] {
        assert buf + chunk == buf;
        return;
      }
      buf := buf + chunk;
      ghost var stream := buf;
      while |buf| >= frameBytes
        invariant Frames(stream, frameBytes) == frames + Frames(buf, frameBytes)
        invariant Residue(stream, frameBytes) == Residue(buf, frameBytes)
        invariant totalFrames == old(totalFrames)
        invariant tailDroppedBytes == old(tailDroppedBytes) && tailPaddedFrames == old(tailPaddedFrames)
        decreases |buf|
      {
        frames := frames + [buf[..frameBytes]];
        buf := buf[frameBytes..];
      }
      totalFrames := totalFrames + |frames|;
      lastSrcSeqs := seq(|frames|, _ => srcSeq);
    }

    /** End of the session: the incomplete frame is padded with zeros or dropped, and counted. */
    method Flush() returns (frames: seq<Bytes>)
      requires Valid()
      modifies this
      ensures Valid() && buf == [] && lastSrcSeqs == old(lastSrcSeqs)
      ensures if old(buf) == [] then frames == []
              else if padTail then |frames| == 1 && |frames[0]| == frameBytes && old(buf) <= frames[0]
                                   && forall i :: |old(buf)| <= i < frameBytes ==> frames[0][i] == 0
              else frames == []
      ensures totalFrames == old(totalFrames) + |frames| && tailPaddedFrames == old(tailPaddedFrames) + |frames|
      ensures tailDroppedBytes == old(tailDroppedBytes) + (if padTail then 0 else |old(buf)|)
    {
      if buf == [] { return []; }
      if padTail {
        var tail := buf + seq(frameBytes - |buf|, _ => 0);
        tailPaddedFrames := tailPaddedFrames + 1;
        totalFrames := totalFrames + 1;
        buf := [];
        return [tail];
      }
      tailDroppedBytes := tailDroppedBytes + |buf|;
      buf := [];
      frames := [];
    }

    method Reset()
      requires Valid()
      modifies this`buf
      ensures Valid() && buf == []
    {
      buf := [];
    }
  }
}
