/** Cutting one outgoing WebSocket message into frames. */
module Fragmentation {
  import opened Prelude
  import opened Asgi

  datatype OpCode = Continuation | Text | Binary | Close | Ping | Pong

  datatype Frame = Frame(fin: bool, opcode: OpCode, payload: seq<byte>)

  /** A whole, unfragmented data message. */
  datatype Message = Message(opcode: OpCode, payload: seq<byte>)

  /** The message an application event stands for: text wins over bytes, neither means empty binary. */
  function MessageOf(bytes: Option<seq<byte>>, text: Option<seq<byte>>): (m: Message)
    ensures m.opcode.Text? || m.opcode.Binary?
  {
    if text.Some? then Message(Text, text.value)
    else if bytes.Some? then Message(Binary, bytes.value)
    else Message(Binary, [])
  }

  /** `data` cut into pieces of exactly `max` bytes, the last one possibly shorter. */
  function Chunks(data: seq<byte>, max: nat): (chunks: seq<seq<byte>>)
    requires max > 0 || data == []
    ensures chunks != []
    decreases |data|
  {
    if |data| <= max then [data] else [data[..max]] + Chunks(data[max..], max)
  }

  function Fragment(m: Message, max: Pos): (frames: seq<Frame>)
    ensures frames != []
  {
    FramesOf(m.opcode, Chunks(m.payload, max))
  }

  function FramesOf(opcode: OpCode, chunks: seq<seq<byte>>): (frames: seq<Frame>)
    ensures |frames| == |chunks|
  {
    seq(|chunks|, i requires 0 <= i < |chunks| =>
      Frame(i == |chunks| - 1, if i == 0 then opcode else Continuation, chunks[i]))
  }

  function Payloads(frames: seq<Frame>): seq<seq<byte>> {
    seq(|frames|, i requires 0 <= i < |frames| => frames[i].payload)
  }

  /** The value of `start` after `n` iterations of the loop in `SplitBytes`, which keeps to it. */
  function StartAfter(len: nat, max: nat, n: nat): (start: nat)
    ensures start <= len
  {
    if n == 0 then 0
    else
      var start := StartAfter(len, max, n - 1);
      if start + max < len then start + max else len
  }

  /** A builder that can cut any message: one with a positive frame limit. */
  type Builder = b: FrameBuilder | b.maxFrameSize > 0 witness FrameBuilder(1)

  /** The frame builder of one connection. */
  datatype FrameBuilder = FrameBuilder(maxFrameSize: usize) {

    method Build(bytes: Option<Bytes>, text: Option<Bytes>) returns (frames: seq<Frame>)
      requires maxFrameSize > 0 || MessageOf(bytes, text).payload == []
      ensures var m := MessageOf(bytes, text);
              frames == FramesOf(m.opcode, Chunks(m.payload, maxFrameSize as nat))
      ensures frames != [] && frames[0].opcode == if text.Some? then Text else Binary
      ensures Flatten(Payloads(frames)) == if text.Some? then text.value else if bytes.Some? then bytes.value else []
    {
      FramesCarry(MessageOf(bytes, text), maxFrameSize as nat);
      var chunks, opcode;
      if text.Some? {
        chunks := SplitBytes(text.value);
        opcode := Text;
      } else if bytes.Some? {
        chunks := SplitBytes(bytes.value);
        opcode := Binary;
      } else {
        frames := [Frame(true, Binary, [])];
        assert frames == FramesOf(Binary, [[]]);
        return;
      }
      ChunksFit(MessageOf(bytes, text).payload, maxFrameSize as nat);
      frames := MarkFrames(opcode, chunks);
    }

    /** The position of the last frame is computed on 64-bit words. */
    method MarkFrames(opcode: OpCode, chunks: seq<Bytes>) returns (frames: seq<Frame>)
      requires 0 < |chunks| <= MAX_BUFFER + 1
      ensures frames == FramesOf(opcode, chunks)
    {
      var total := |chunks| as usize;
      var last := total - 1;
      frames := seq(|chunks|, i requires 0 <= i < |chunks| =>
        Frame(i == last as int, if i == 0 then opcode else Continuation, chunks[i]));
    }

    /**
     All arithmetic is on 64-bit words: that the sums below stay in range is part of what is verified.
     */
    method SplitBytes(data: Bytes) returns (chunks: seq<Bytes>)
      requires maxFrameSize > 0 || data == []
      ensures chunks == Chunks(data, maxFrameSize as nat)
    {
      var len := |data| as usize;
      if len <= maxFrameSize {
        return [data];
      }
      chunks := [];
      var start: usize := 0;
      assert data[0..] == data;
      while start < len
        invariant start <= len
        invariant start as nat == StartAfter(|data|, maxFrameSize as nat, |chunks|)
        invariant Chunks(data, maxFrameSize as nat) == chunks + ChunksFrom(data, maxFrameSize as nat, start as nat)
        decreases len - start
      {
        var end := if start + maxFrameSize < len then start + maxFrameSize else len;
        ChunksStep(data, maxFrameSize as nat, start as nat, end as nat);
        chunks := chunks + [data[start..end]];
        start := end;
      }
    }
  }

  /** What is left to cut from position `start` on. */
  function ChunksFrom(data: seq<byte>, max: Pos, start: nat): seq<seq<byte>>
    requires start <= |data|
  {
    if start == |data| then [] else Chunks(data[start..], max)
  }

  /** One iteration of the splitting loop. */
  lemma ChunksStep(data: seq<byte>, max: Pos, start: nat, end: nat)
    requires start < |data| && end == if start + max < |data| then start + max else |data|
    ensures ChunksFrom(data, max, start) == [data[start..end]] + ChunksFrom(data, max, end)
  {
    var rest := data[start..];
    if end < |data| {
      assert data[start..end] == rest[..max];
      assert data[end..] == rest[max..];
    } else {
      assert data[start..end] == rest;
    }
  }

  lemma {:induction false} ChunksFit(data: seq<byte>, max: nat)
    requires max > 0 || data == []
    ensures |Chunks(data, max)| <= |data| + 1
    decreases |data|
  {
    if |data| > max {
      ChunksFit(data[max..], max);
    }
  }

  /** The frames cut from a message carry it, under its opcode. */
  lemma FramesCarry(m: Message, max: nat)
    requires max > 0 || m.payload == []
    ensures var frames := FramesOf(m.opcode, Chunks(m.payload, max));
            frames != [] && frames[0].opcode == m.opcode && Flatten(Payloads(frames)) == m.payload
  {
    var chunks := Chunks(m.payload, max);
    ChunksLossless(m.payload, max);
    assert Payloads(FramesOf(m.opcode, chunks)) == chunks;
  }

  // ---- What fragmentation promises ----

  lemma {:induction false} ChunksLossless(data: seq<byte>, max: nat)
    requires max > 0 || data == []
    ensures Flatten(Chunks(data, max)) == data
    decreases |data|
  {
    if |data| > max {
      ChunksLossless(data[max..], max);
    }
  }

  /** The number of chunks is the least one that can hold the data; an empty buffer still gets one. */
  lemma {:induction false} ChunksCount(data: seq<byte>, max: Pos)
    ensures |data| <= |Chunks(data, max)| * max
    ensures |Chunks(data, max)| > 1 ==> (|Chunks(data, max)| - 1) * max < |data|
    decreases |data|
  {
    if |data| > max {
      ChunksCount(data[max..], max);
    }
  }

  lemma {:induction false} ChunksBounded(data: seq<byte>, max: Pos)
    ensures forall c :: c in Chunks(data, max) ==> |c| <= max
    decreases |data|
  {
    if |data| > max {
      ChunksBounded(data[max..], max);
    }
  }

  lemma {:induction false} PiecesHoldAtMost(pieces: seq<seq<byte>>, max: nat)
    requires forall p :: p in pieces ==> |p| <= max
    ensures |Flatten(pieces)| <= |pieces| * max
  {
    if pieces != [] {
      PiecesHoldAtMost(pieces[1..], max);
      assert |pieces| * max == (|pieces| - 1) * max + max;
    }
  }

  lemma MulMonotone(p: nat, q: nat, max: nat)
    requires p <= q
    ensures p * max <= q * max
    decreases q
  {
  }

  lemma PiecesNeeded(pieces: seq<seq<byte>>, max: nat, count: nat)
    requires forall p :: p in pieces ==> |p| <= max
    requires count > 0 && (count - 1) * max < |Flatten(pieces)|
    ensures count <= |pieces|
  {
    PiecesHoldAtMost(pieces, max);
    if |pieces| < count {
      MulMonotone(|pieces|, count - 1, max);
    }
  }

  /** No way of cutting some data into pieces of at most `max` bytes uses fewer of them than `Chunks` does. */
  lemma ChunksOptimal(pieces: seq<seq<byte>>, max: Pos)
    requires pieces != []
    requires forall p :: p in pieces ==> |p| <= max
    ensures |Chunks(Flatten(pieces), max)| <= |pieces|
  {
    var count := |Chunks(Flatten(pieces), max)|;
    if count > 1 {
      ChunksCount(Flatten(pieces), max);
      PiecesNeeded(pieces, max, count);
    }
  }

  /**
   Fragmentation is lossless, bounded and correctly marked, and the number of frames is the payload
   length divided by `max`, rounded up, but at least one.
   */
  lemma FragmentationPromise(m: Message, max: Pos)
    ensures var frames := Fragment(m, max);
            && Flatten(Payloads(frames)) == m.payload
            && (forall i :: 0 <= i < |frames| ==>
                  && |frames[i].payload| <= max
                  && frames[i].opcode == (if i == 0 then m.opcode else Continuation)
                  && (frames[i].fin <==> i == |frames| - 1))
            && |m.payload| <= |frames| * max
            && (|frames| == 1 || (|frames| - 1) * max < |m.payload|)
  {
    var chunks := Chunks(m.payload, max);
    ChunksLossless(m.payload, max);
    ChunksCount(m.payload, max);
    ChunksBounded(m.payload, max);
    assert Payloads(Fragment(m, max)) == chunks;
    assert forall i :: 0 <= i < |chunks| ==> Fragment(m, max)[i].payload == chunks[i];
  }

  // ---- When splitting terminates ----

  lemma {:induction false} StartAdvances(len: nat, max: nat, n: nat)
    requires max > 0
    ensures StartAfter(len, max, n) >= n || StartAfter(len, max, n) == len
  {
    if n > 0 {
      StartAdvances(len, max, n - 1);
    }
  }

  lemma {:induction false} StartStuck(len: nat, n: nat)
    requires len > 0
    ensures StartAfter(len, 0, n) == 0
  {
    if n > 0 {
      StartStuck(len, n - 1);
    }
  }

  /** Once the loop is entered it ends exactly when the frame limit is positive. */
  lemma SplitEndsExactly(len: nat, max: nat)
    requires max < len
    ensures (exists n: nat :: StartAfter(len, max, n) == len) <==> max > 0
  {
    if max > 0 {
      StartAdvances(len, max, len);
    } else {
      forall n: nat ensures StartAfter(len, max, n) != len {
        StartStuck(len, n);
      }
    }
  }
}
