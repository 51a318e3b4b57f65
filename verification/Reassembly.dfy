/**
 The receiving end of a WebSocket: reassembly of messages from frames as section 5.4 of RFC 6455
 prescribes it, written from the standard and not from the frame builder.
 */
module Reassembly {
  import opened Prelude
  import opened Fragmentation

  /**
   What a peer has made of the frames received so far.  `partial` is the message being assembled;
   `closed` is set by a close frame, after which no frame may follow (section 5.5.1);
   `violated` is set by the first frame the standard does not allow at its place.
   */
  datatype Peer = Peer(
    delivered: seq<(OpCode, seq<byte>)>,
    partial: Option<(OpCode, seq<byte>)>,
    closed: bool,
    violated: bool)

  const FRESH_PEER := Peer([], None, false, false)

  function Accept(p: Peer, f: Frame): Peer {
    if p.violated || p.closed then p.(violated := true)
    else match f.opcode
      case Close => if f.fin then p.(closed := true) else p.(violated := true)
      case Ping | Pong => p.(violated := !f.fin)
      case Text | Binary =>
        if p.partial.Some? then p.(violated := true)
        else if f.fin then p.(delivered := p.delivered + [(f.opcode, f.payload)])
        else p.(partial := Some((f.opcode, f.payload)))
      case Continuation =>
        if p.partial.None? then p.(violated := true)
        else
          var (opcode, soFar) := p.partial.value;
          if f.fin then p.(delivered := p.delivered + [(opcode, soFar + f.payload)], partial := None)
          else p.(partial := Some((opcode, soFar + f.payload)))
  }

  function Reassemble(frames: seq<Frame>): Peer {
    if frames == [] then FRESH_PEER
    else Accept(Reassemble(DropLast(frames)), Last(frames))
  }

  predicate Idle(p: Peer) {
    p.partial.None? && !p.closed && !p.violated
  }

  lemma ReassembleSnoc(frames: seq<Frame>, f: Frame)
    ensures Reassemble(frames + [f]) == Accept(Reassemble(frames), f)
  {
  }

  function Contents(messages: seq<Message>): seq<(OpCode, seq<byte>)> {
    seq(|messages|, i requires 0 <= i < |messages| => (messages[i].opcode, messages[i].payload))
  }

  /** A peer holding the first `j` of the chunks of a message it has not seen the end of. */
  function Midway(p: Peer, opcode: OpCode, chunks: seq<seq<byte>>, j: nat): Peer
    requires j <= |chunks|
  {
    if j == 0 then p
    else if j < |chunks| then p.(partial := Some((opcode, Flatten(chunks[..j]))))
    else p.(delivered := p.delivered + [(opcode, Flatten(chunks))])
  }

  lemma AcceptChunk(p: Peer, opcode: OpCode, chunks: seq<seq<byte>>, j: nat)
    requires Idle(p) && (opcode.Text? || opcode.Binary?)
    requires j < |chunks|
    ensures Accept(Midway(p, opcode, chunks, j), FramesOf(opcode, chunks)[j]) == Midway(p, opcode, chunks, j + 1)
  {
    FlattenSnoc(chunks[..j], chunks[j]);
    assert chunks[..j + 1] == chunks[..j] + [chunks[j]];
    assert j + 1 == |chunks| ==> chunks[..j + 1] == chunks;
    assert j == 0 ==> Flatten(chunks[..j]) + chunks[j] == chunks[j];
  }

  lemma {:induction false} ReassembleChunks(wire: seq<Frame>, opcode: OpCode, chunks: seq<seq<byte>>, j: nat)
    requires Idle(Reassemble(wire))
    requires opcode.Text? || opcode.Binary?
    requires j <= |chunks|
    ensures Reassemble(wire + FramesOf(opcode, chunks)[..j]) == Midway(Reassemble(wire), opcode, chunks, j)
    decreases j
  {
    var frames := FramesOf(opcode, chunks);
    if j == 0 {
      assert wire + frames[..0] == wire;
    } else {
      ReassembleChunks(wire, opcode, chunks, j - 1);
      AcceptChunk(Reassemble(wire), opcode, chunks, j - 1);
      ReassembleSnoc(wire + frames[..j - 1], frames[j - 1]);
      TakeSnoc(frames, j);
      assert wire + (frames[..j - 1] + [frames[j - 1]]) == wire + frames[..j - 1] + [frames[j - 1]];
    }
  }

  /** The frames of a sequence of messages sent one after the other. */
  function Stream(messages: seq<Message>, max: Pos): seq<Frame> {
    if messages == [] then []
    else Stream(DropLast(messages), max) + Fragment(Last(messages), max)
  }

  lemma StreamSnoc(messages: seq<Message>, m: Message, max: Pos)
    ensures Stream(messages + [m], max) == Stream(messages, max) + Fragment(m, max)
  {
  }

  /** How many of the messages have all their frames among the first `j` of the stream. */
  function WholeMessages(messages: seq<Message>, max: Pos, j: nat): (k: nat)
    ensures k <= |messages|
    ensures |Stream(messages, max)| <= j ==> k == |messages|
  {
    if messages == [] || |Stream(messages, max)| <= j then |messages|
    else WholeMessages(DropLast(messages), max, j)
  }

  /** `WholeMessages` counts what it says: the first `k` messages fit into `j` frames, the next one does not. */
  lemma {:induction false} WholeMessagesExact(messages: seq<Message>, max: Pos, j: nat, k: nat)
    requires k == WholeMessages(messages, max, j)
    ensures |Stream(messages[..k], max)| <= j
    ensures k < |messages| ==> j < |Stream(messages[..k + 1], max)|
  {
    if messages == [] || |Stream(messages, max)| <= j {
      assert messages[..|messages|] == messages;
    } else {
      var before := DropLast(messages);
      WholeMessagesExact(before, max, j, k);
      assert before[..k] == messages[..k];
      assert messages[..k + 1] == if k < |before| then before[..k + 1] else messages;
    }
  }

  predicate DataMessages(messages: seq<Message>) {
    forall m :: m in messages ==> m.opcode.Text? || m.opcode.Binary?
  }

  /** The peer has received the messages that fit into the first `j` frames, and part of one more if any are left. */
  ghost predicate GotWholeMessages(p: Peer, messages: seq<Message>, max: Pos, j: nat) {
    var k := WholeMessages(messages, max, j);
    && !p.violated && !p.closed
    && p.delivered == Contents(messages[..k])
    && (p.partial.Some? <==> j > |Stream(messages[..k], max)|)
  }

  /**
   Cut a stream of fragmented messages after any number of frames: the peer has received exactly the
   messages whose frames are all there, in order, and the cut-off one is at most in assembly.
   */
  lemma {:induction false} ReassemblePrefix(messages: seq<Message>, max: Pos, j: nat)
    requires DataMessages(messages)
    requires j <= |Stream(messages, max)|
    ensures GotWholeMessages(Reassemble(Stream(messages, max)[..j]), messages, max, j)
    decreases |messages|, 0
  {
    if messages == [] {
      assert Stream(messages, max)[..j] == [];
    } else {
      assert DropLast(messages) + [Last(messages)] == messages;
      ReassembleSnocPrefix(DropLast(messages), Last(messages), max, j);
    }
  }

  lemma ReassembleSnocPrefix(before: seq<Message>, last: Message, max: Pos, j: nat)
    requires DataMessages(before) && DataMessages([last])
    requires j <= |Stream(before + [last], max)|
    ensures GotWholeMessages(Reassemble(Stream(before + [last], max)[..j]), before + [last], max, j)
    decreases |before|, 4
  {
    var start := |Stream(before, max)|;
    if j < start {
      ReassemblePrefix(before, max, j);
      CutEarlier(before, last, max, j);
    } else if j < |Stream(before + [last], max)| {
      StreamSnoc(before, last, max);
      ReassembleCut(before, last, max, j - start);
    } else {
      assert j == |Stream(before + [last], max)|;
      ReassembleAll(before, last, max);
    }
  }

  /** A message of which no frame was sent changes nothing. */
  lemma CutEarlier(before: seq<Message>, last: Message, max: Pos, j: nat)
    requires j < |Stream(before, max)|
    requires GotWholeMessages(Reassemble(Stream(before, max)[..j]), before, max, j)
    ensures j <= |Stream(before + [last], max)|
    ensures GotWholeMessages(Reassemble(Stream(before + [last], max)[..j]), before + [last], max, j)
  {
    var k := WholeMessages(before, max, j);
    StreamSnoc(before, last, max);
    assert Stream(before + [last], max)[..j] == Stream(before, max)[..j];
    assert DropLast(before + [last]) == before;
    assert WholeMessages(before + [last], max, j) == k;
    assert (before + [last])[..k] == before[..k];
  }

  /** The stream cut off within its last message. */
  lemma ReassembleCut(before: seq<Message>, last: Message, max: Pos, i: nat)
    requires DataMessages(before) && DataMessages([last])
    requires i < |Fragment(last, max)|
    ensures var messages, j := before + [last], |Stream(before, max)| + i;
            && j <= |Stream(messages, max)|
            && GotWholeMessages(Reassemble(Stream(messages, max)[..j]), messages, max, j)
    decreases |before|, 2
  {
    var messages, start := before + [last], Stream(before, max);
    MidwayGot(before, last, max, i);
    ReassembleThen(before, last, max, i);
    StreamSnoc(before, last, max);
    assert Stream(messages, max)[..|start| + i] == start + Fragment(last, max)[..i];
  }

  /** A peer in the middle of a message has got the messages before it. */
  lemma MidwayGot(before: seq<Message>, last: Message, max: Pos, i: nat)
    requires i < |Fragment(last, max)|
    ensures var p := Midway(Peer(Contents(before), None, false, false), last.opcode, Chunks(last.payload, max), i);
            GotWholeMessages(p, before + [last], max, |Stream(before, max)| + i)
  {
    CountCut(before, last, max, i);
    assert (before + [last])[..|before|] == before;
  }

  lemma CountCut(before: seq<Message>, last: Message, max: Pos, i: nat)
    requires i < |Fragment(last, max)|
    ensures Stream(before + [last], max) == Stream(before, max) + Fragment(last, max)
    ensures WholeMessages(before + [last], max, |Stream(before, max)| + i) == |before|
  {
    StreamSnoc(before, last, max);
    assert DropLast(before + [last]) == before;
  }

  lemma ReassembleAll(before: seq<Message>, last: Message, max: Pos)
    requires DataMessages(before) && DataMessages([last])
    ensures var messages := before + [last];
            var stream := Stream(messages, max);
            GotWholeMessages(Reassemble(stream[..|stream|]), messages, max, |stream|)
    decreases |before|, 3
  {
    var messages := before + [last];
    ReassembleWhole(before, last, max);
    assert Stream(messages, max)[..|Stream(messages, max)|] == Stream(messages, max);
    assert messages[..|messages|] == messages;
  }

  lemma ReassembleWhole(before: seq<Message>, last: Message, max: Pos)
    requires DataMessages(before) && DataMessages([last])
    ensures Reassemble(Stream(before + [last], max)) == Peer(Contents(before + [last]), None, false, false)
    decreases |before|, 2
  {
    var frames := Fragment(last, max);
    StreamSnoc(before, last, max);
    ReassembleThen(before, last, max, |frames|);
    assert frames[..|frames|] == frames;
    assert Contents(before + [last]) == Contents(before) + [(last.opcode, last.payload)];
  }

  /** What the peer holds after the messages `before` and the first `i` frames of one more. */
  lemma ReassembleThen(before: seq<Message>, last: Message, max: Pos, i: nat)
    requires DataMessages(before) && DataMessages([last])
    requires i <= |Fragment(last, max)|
    ensures Reassemble(Stream(before, max) + Fragment(last, max)[..i])
         == Midway(Peer(Contents(before), None, false, false), last.opcode, Chunks(last.payload, max), i)
    ensures Flatten(Chunks(last.payload, max)) == last.payload
    decreases |before|, 1
  {
    var start := Stream(before, max);
    ReassemblePrefix(before, max, |start|);
    assert start[..|start|] == start;
    assert before[..|before|] == before;
    assert last in [last];
    ReassembleChunks(start, last.opcode, Chunks(last.payload, max), i);
    ChunksLossless(last.payload, max);
  }

  /** Whole streams: fragmentation followed by reassembly is the identity. */
  lemma FragmentReassemble(messages: seq<Message>, max: Pos)
    requires DataMessages(messages)
    ensures Reassemble(Stream(messages, max)) == Peer(Contents(messages), None, false, false)
  {
    var stream := Stream(messages, max);
    ReassemblePrefix(messages, max, |stream|);
    assert stream[..|stream|] == stream;
    assert messages[..|messages|] == messages;
  }
}
