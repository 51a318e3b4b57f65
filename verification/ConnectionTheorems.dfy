/**
 What holds of every run of a WebSocket connection, whatever the client and the application send, in
 whatever order `select!` lets them through, and whichever writes and sends fail.
 */
module ConnectionTheorems {
  import opened Prelude
  import opened Asgi
  import opened Fragmentation
  import opened Reassembly
  import opened Websocket

  // ---- What the two sides asked for ----

  /** The messages among the events of an application, oldest first. */
  function MessagesIn(events: seq<SendEvent>): (messages: seq<Message>)
    ensures DataMessages(messages)
  {
    if events == [] then []
    else MessagesIn(DropLast(events)) +
         match Last(events)
         case WebsocketSend(bytes, text) => [MessageOf(bytes, text)]
         case _ => []
  }

  /** What the application is to be told of the client's data messages among `input`, oldest first. */
  function ToldOf(utf8: Utf8, input: seq<Result<Frame, WebSocketError>>): (messages: seq<ReceiveEvent>)
    ensures forall m :: m in messages ==> m.WebsocketReceive? && (m.bytes.Some? <==> m.text.None?)
  {
    if input == [] then []
    else ToldOf(utf8, DropLast(input)) +
         match Last(input)
         case Ok(Frame(_, Text, payload)) =>
           [WebsocketReceive(None, Some(if utf8.valid(payload) then payload else []))]
         case Ok(Frame(_, Binary, payload)) => [WebsocketReceive(Some(payload), None)]
         case _ => []
  }

  /** The events of the application that were consumed during `turns`. */
  function Replies(turns: seq<Turn>): seq<SendEvent> {
    if turns == [] then []
    else Replies(DropLast(turns)) + match Last(turns) case FromApp(Ok(e)) => [e] case _ => []
  }

  /** The client's frames and errors that were consumed during `turns`. */
  function Reads(turns: seq<Turn>): seq<Result<Frame, WebSocketError>> {
    if turns == [] then []
    else Reads(DropLast(turns)) + match Last(turns) case FromClient(r) => [r] case _ => []
  }

  /** The messages the application asked to send during `turns`. */
  function Sent(turns: seq<Turn>): (messages: seq<Message>)
    ensures DataMessages(messages)
  {
    MessagesIn(Replies(turns))
  }

  /** What the application is to be told of the client during `turns`. */
  function Heard(utf8: Utf8, turns: seq<Turn>): seq<ReceiveEvent> {
    ToldOf(utf8, Reads(turns))
  }

  lemma RepliesGrow(turns: seq<Turn>, turn: Turn)
    ensures Replies(turns + [turn]) == Replies(turns) + match turn case FromApp(Ok(e)) => [e] case _ => []
  {
  }

  lemma ReadsGrow(turns: seq<Turn>, turn: Turn)
    ensures Reads(turns + [turn]) == Reads(turns) + match turn case FromClient(r) => [r] case _ => []
  {
  }

  lemma MessagesSnoc(events: seq<SendEvent>, e: SendEvent)
    ensures MessagesIn(events + [e]) == MessagesIn(events) +
              match e case WebsocketSend(bytes, text) => [MessageOf(bytes, text)] case _ => []
  {
  }

  lemma ToldSnoc(utf8: Utf8, input: seq<Result<Frame, WebSocketError>>, r: Result<Frame, WebSocketError>)
    ensures ToldOf(utf8, input + [r]) == ToldOf(utf8, input) + ReactionTo(ReadEvent(utf8, r), 1).messages
  {
  }

  lemma SentGrows(turns: seq<Turn>, turn: Turn)
    ensures Sent(turns + [turn]) == Sent(turns) +
              match turn
              case FromApp(Ok(WebsocketSend(bytes, text))) => [MessageOf(bytes, text)]
              case _ => []
  {
    RepliesGrow(turns, turn);
    if turn.FromApp? && turn.reply.Ok? {
      MessagesSnoc(Replies(turns), turn.reply.value);
    } else {
      assert Replies(turns) + [] == Replies(turns);
    }
  }

  function ReactionToTurn(env: Env, turn: Turn): Reaction {
    ReactionTo(EventOf(env.utf8, turn), env.Max())
  }

  /** Everything asked for during `turns`, as if it had been asked for at once. */
  function Asked(env: Env, turns: seq<Turn>, closing: Option<Closing>): Reaction {
    Reaction(Stream(Sent(turns), env.Max()), Heard(env.utf8, turns), closing)
  }

  lemma OneSided(env: Env, turn: Turn)
    ensures var r := ReactionToTurn(env, turn);
            match turn
            case FromApp(Ok(WebsocketSend(bytes, text))) =>
              r == Reaction(Fragment(MessageOf(bytes, text), env.Max()), [], None)
            case FromApp(_) => r.frames == [] && r.messages == [] && r.closing.Some?
            case FromClient(_) => r.frames == []
  {
  }

  /** A data message of the client, or a message of the application: all that leaves a connection open. */
  predicate Ordinary(turn: Turn) {
    match turn
    case FromClient(Ok(f)) => f.opcode.Text? || f.opcode.Binary?
    case FromApp(Ok(e)) => e.WebsocketSend?
    case _ => false
  }

  lemma OrdinaryStaysOpen(env: Env, turn: Turn)
    ensures ReactionToTurn(env, turn).closing == None <==> Ordinary(turn)
  {
  }

  lemma FramesGrow(env: Env, turns: seq<Turn>, turn: Turn)
    ensures Stream(Sent(turns + [turn]), env.Max()) == Stream(Sent(turns), env.Max()) + ReactionToTurn(env, turn).frames
  {
    OneSided(env, turn);
    SentGrows(turns, turn);
    match turn
    case FromApp(Ok(WebsocketSend(bytes, text))) => StreamSnoc(Sent(turns), MessageOf(bytes, text), env.Max());
    case _ =>
      assert Sent(turns) + [] == Sent(turns);
      assert Stream(Sent(turns), env.Max()) + [] == Stream(Sent(turns), env.Max());
  }

  lemma MessagesGrow(env: Env, turns: seq<Turn>, turn: Turn)
    ensures Heard(env.utf8, turns + [turn]) == Heard(env.utf8, turns) + ReactionToTurn(env, turn).messages
  {
    ReadsGrow(turns, turn);
    if turn.FromClient? {
      ToldSnoc(env.utf8, Reads(turns), turn.read);
    } else {
      assert Reads(turns) + [] == Reads(turns);
      OneSided(env, turn);
    }
  }

  // ---- Reactions combine ----

  /** Two reactions carried out in turn are one combined reaction, if the first gave no cause to close. */
  lemma CombinePerform(env: Env, c: Conn, a: Reaction, b: Reaction)
    requires ClosingAfter(env, c, a) == None
    ensures Perform(env, Perform(env, c, a.frames, a.messages), b.frames, b.messages)
         == Perform(env, c, a.frames + b.frames, a.messages + b.messages)
  {
    ExtendTwice(env.writeFaults, c.writes, a.frames, b.frames);
    ExtendTwice(env.sendFaults, c.sends, a.messages, b.messages);
  }

  lemma CombineClosing(env: Env, c: Conn, a: Reaction, b: Reaction)
    requires ClosingAfter(env, c, a) == None
    ensures ClosingAfter(env, Perform(env, c, a.frames, a.messages), b)
         == ClosingAfter(env, c, Reaction(a.frames + b.frames, a.messages + b.messages, b.closing))
  {
    FailureSplit(env.writeFaults, |c.writes|, |a.frames|, |b.frames|);
    FailureSplit(env.sendFaults, |c.sends|, |a.messages|, |b.messages|);
    ExtendLength(env.writeFaults, c.writes, a.frames);
    ExtendLength(env.sendFaults, c.sends, a.messages);
  }

  // ---- A run is one batch of work, and perhaps a closing ----

  /** `c` with the logs it started from. */
  function Rewound(c0: Conn, c: Conn): Conn {
    c.(writes := c0.writes, sends := c0.sends)
  }

  /** A connection that has not taken a turn yet. */
  predicate Fresh(c0: Conn) {
    c0.turns == []
  }

  /** No cause to close so far: everything asked for was carried out without failure. */
  ghost predicate Unbroken(env: Env, c0: Conn, c: Conn) {
    && ClosingAfter(env, Rewound(c0, c), Asked(env, c.turns, None)) == None
    && c == Perform(env, Rewound(c0, c), Asked(env, c.turns, None).frames, Asked(env, c.turns, None).messages)
  }

  function LastClosing(env: Env, c0: Conn, c: Conn): Option<Closing>
    requires c.turns != []
  {
    ClosingAfter(env, Rewound(c0, c), Asked(env, c.turns, ReactionToTurn(env, Last(c.turns)).closing))
  }

  /**
   The closed form of a run that has come to `c`: all the frames and messages asked for, attempted in order
   up to the first failure, and then the closing that the last turn or that failure gives cause to.
   */
  function Summary(env: Env, c0: Conn, c: Conn): (Conn, State)
    requires c.turns != []
  {
    var all := Asked(env, c.turns, None);
    Finish(env, Perform(env, Rewound(c0, c), all.frames, all.messages), LastClosing(env, c0, c))
  }

  lemma TurnSummary(env: Env, c0: Conn, c: Conn, side: Side)
    requires Unbroken(env, c0, c)
    ensures TakeTurn(env, c, side) == Summary(env, c0, Turned(env, c, side))
  {
    var turn := NextTurn(env, c, side);
    var start := Rewound(c0, Turned(env, c, side));
    var a := Asked(env, c.turns, None);
    FramesGrow(env, c.turns, turn);
    MessagesGrow(env, c.turns, turn);
    CombinePerform(env, start, a, ReactionToTurn(env, turn));
    CombineClosing(env, start, a, ReactionToTurn(env, turn));
  }

  lemma SummaryUnbroken(env: Env, c0: Conn, c: Conn)
    requires c.turns != [] && Summary(env, c0, c).1 != Closed
    ensures Unbroken(env, c0, Summary(env, c0, c).0)
  {
    assert LastClosing(env, c0, c) == None;
    var all := Asked(env, c.turns, None);
    var c' := Perform(env, Rewound(c0, c), all.frames, all.messages);
    assert Summary(env, c0, c) == (c', Running);
    assert Rewound(c0, c') == Rewound(c0, c);
  }

  lemma TurnUnbroken(env: Env, c0: Conn, c: Conn, side: Side)
    requires Unbroken(env, c0, c)
    requires TakeTurn(env, c, side).1 != Closed
    ensures Unbroken(env, c0, TakeTurn(env, c, side).0)
  {
    TurnSummary(env, c0, c, side);
    SummaryUnbroken(env, c0, Turned(env, c, side));
  }

  ghost predicate Quiet(turns: seq<Turn>) {
    forall t :: t in turns ==> Ordinary(t)
  }

  lemma OpenTurnIsOrdinary(env: Env, c: Conn, side: Side)
    requires TakeTurn(env, c, side).1 != Closed
    ensures Ordinary(NextTurn(env, c, side)) && TakeTurn(env, c, side).1 == Running
    ensures TakeTurn(env, c, side).0.turns == c.turns + [NextTurn(env, c, side)]
  {
    OrdinaryStaysOpen(env, NextTurn(env, c, side));
  }

  /** A run that closes is an unbroken stretch followed by one closing turn; one that does not is unbroken. */
  lemma {:induction false} RunDecomposed(env: Env, c0: Conn, c: Conn, s: State, schedule: seq<Side>)
    returns (prev: Conn, side: Side)
    requires Unbroken(env, c0, c) && Quiet(c.turns) && !s.Closed?
    ensures Unbroken(env, c0, prev) && Quiet(prev.turns)
    ensures var (c', s') := Run(env, c, s, schedule);
            if s'.Closed? then TakeTurn(env, prev, side) == (c', s') else prev == c'
    decreases |schedule|
  {
    prev, side := c, AppSide;
    if schedule != [] {
      var (c', s') := TakeTurn(env, c, schedule[0]);
      if s'.Closed? {
        side := schedule[0];
      } else {
        TurnUnbroken(env, c0, c, schedule[0]);
        OpenTurnIsOrdinary(env, c, schedule[0]);
        prev, side := RunDecomposed(env, c0, c', s', schedule[1..]);
      }
    }
  }

  /** The same decomposition for a run from the start, with the closed form of its end. */
  lemma RunSummary(env: Env, c0: Conn, schedule: seq<Side>) returns (prev: Conn, turn: Turn)
    requires Fresh(c0)
    ensures Unbroken(env, c0, prev) && Quiet(prev.turns)
    ensures var (c, s) := Run(env, c0, Starting, schedule);
            if s.Closed? then c.turns == prev.turns + [turn] && (c, s) == Summary(env, c0, c) else c == prev
  {
    var side;
    prev, side := RunDecomposed(env, c0, c0, Starting, schedule);
    turn := NextTurn(env, prev, side);
    var (c, s) := Run(env, c0, Starting, schedule);
    if s.Closed? {
      TurnSummary(env, c0, prev, side);
    }
  }

  // ---- Input is consumed in order ----

  /** The end of the application has been reported. */
  ghost predicate EndNoticed(turns: seq<Turn>) {
    exists t :: t in turns && t.FromApp? && t.reply.Err?
  }

  ghost predicate RepliesFollow(env: Env, c0: Conn, c: Conn) {
    && c0.appRead <= c.appRead <= |env.app| && Replies(c.turns) == env.app[c0.appRead..c.appRead]
    && (EndNoticed(c.turns) ==> c.appRead == |env.app|)
  }

  ghost predicate ReadsFollow(env: Env, c0: Conn, c: Conn) {
    && c0.clientRead <= c.clientRead <= |env.client|
    && Reads(c.turns) == env.client[c0.clientRead..c.clientRead]
  }

  /**
   What has been consumed is a stretch of what each side sends, and the application's end is noticed only after
   all of it.
   */
  ghost predicate Follows(env: Env, c0: Conn, c: Conn) {
    RepliesFollow(env, c0, c) && ReadsFollow(env, c0, c)
  }

  /** A connection that has not taken a turn yet, and has consumed no more than there is. */
  predicate Ready(env: Env, c0: Conn) {
    Fresh(c0) && c0.appRead <= |env.app| && c0.clientRead <= |env.client|
  }

  lemma ReadyFollows(env: Env, c0: Conn)
    requires Ready(env, c0)
    ensures Follows(env, c0, c0)
  {
    assert env.app[c0.appRead..c0.appRead] == [] && env.client[c0.clientRead..c0.clientRead] == [];
  }

  lemma SliceGrows<T>(s: seq<T>, lo: nat, hi: nat)
    requires lo <= hi < |s|
    ensures s[lo..hi] + [s[hi]] == s[lo..hi + 1]
  {
  }

  lemma NoticedGrows(turns: seq<Turn>, turn: Turn)
    ensures EndNoticed(turns + [turn]) <==> EndNoticed(turns) || (turn.FromApp? && turn.reply.Err?)
  {
    assert forall t :: t in turns + [turn] <==> t in turns || t == turn;
  }

  lemma TurnFollowsReplies(env: Env, c0: Conn, c: Conn, side: Side)
    requires RepliesFollow(env, c0, c)
    ensures RepliesFollow(env, c0, Turned(env, c, side))
  {
    var turn := NextTurn(env, c, side);
    RepliesGrow(c.turns, turn);
    NoticedGrows(c.turns, turn);
    if turn.FromApp? && turn.reply.Ok? {
      SliceGrows(env.app, c0.appRead, c.appRead);
    } else {
      assert Replies(c.turns) + [] == Replies(c.turns);
    }
  }

  lemma TurnFollowsReads(env: Env, c0: Conn, c: Conn, side: Side)
    requires ReadsFollow(env, c0, c)
    ensures ReadsFollow(env, c0, Turned(env, c, side))
  {
    var turn := NextTurn(env, c, side);
    ReadsGrow(c.turns, turn);
    if turn.FromClient? {
      SliceGrows(env.client, c0.clientRead, c.clientRead);
    } else {
      assert Reads(c.turns) + [] == Reads(c.turns);
    }
  }

  lemma {:induction false} RunFollows(env: Env, c0: Conn, c: Conn, s: State, schedule: seq<Side>)
    requires Follows(env, c0, c)
    ensures Follows(env, c0, Run(env, c, s, schedule).0)
    decreases |schedule|
  {
    if !s.Closed? && schedule != [] {
      var (c', s') := TakeTurn(env, c, schedule[0]);
      TurnFollowsReplies(env, c0, c, schedule[0]);
      TurnFollowsReads(env, c0, c, schedule[0]);
      RunFollows(env, c0, c', s', schedule[1..]);
    }
  }

  // ---- What the client sees ----

  /** The writes of a connection that was asked to send `messages`, and then perhaps closed. */
  function WriteLog(env: Env, messages: seq<Message>, closing: Option<Closing>): seq<Attempt<Frame>> {
    var log := Extend(env.writeFaults, [], Stream(messages, env.Max()));
    if closing.None? then log else Extend(env.writeFaults, log, [CloseFrame(closing.value)])
  }

  /** How many of the frames of `messages` are written when they are attempted first. */
  function FramesWritten(env: Env, messages: seq<Message>): (j: nat)
    ensures j <= |Stream(messages, env.Max())|
  {
    FirstFault(env.writeFaults, 0, |Stream(messages, env.Max())|)
  }

  lemma WriteLogReassembles(env: Env, messages: seq<Message>)
    requires DataMessages(messages)
    ensures var p := Reassemble(Arrived(WriteLog(env, messages, None)));
            && !p.violated && !p.closed
            && p.delivered == Contents(messages[..WholeMessages(messages, env.Max(), FramesWritten(env, messages))])
  {
    var frames, j := Stream(messages, env.Max()), FramesWritten(env, messages);
    ArrivedExtend(env.writeFaults, [], frames);
    ReassemblePrefix(messages, env.Max(), j);
    assert Arrived(WriteLog(env, messages, None)) == frames[..j];
  }

  /** A close frame after that takes nothing away from what the peer has received. */
  lemma CloseLogReassembles(env: Env, messages: seq<Message>, closing: Closing)
    requires DataMessages(messages)
    ensures var p := Reassemble(Arrived(WriteLog(env, messages, Some(closing))));
            !p.violated && p.delivered == Reassemble(Arrived(WriteLog(env, messages, None))).delivered
  {
    var log := WriteLog(env, messages, None);
    WriteLogReassembles(env, messages);
    ExtendOne(env.writeFaults, log, CloseFrame(closing));
    ArrivedSnoc(log, Attempt(CloseFrame(closing), env.writeFaults(|log|).None?));
    ReassembleSnoc(Arrived(log), CloseFrame(closing));
    assert Arrived(log) + [] == Arrived(log);
  }

  /** The writes of a run depend only on the messages asked for and on how it closed. */
  lemma RunWrites(env: Env, c0: Conn, schedule: seq<Side>)
    requires Fresh(c0) && c0.writes == []
    ensures var (c, s) := Run(env, c0, Starting, schedule);
            && (s.Closed? ==> c.turns != [])
            && (s.Closed? ==> LastClosing(env, c0, c).Some?)
            && c.writes == WriteLog(env, Sent(c.turns), if s.Closed? then LastClosing(env, c0, c) else None)
  {
    var _, _ := RunSummary(env, c0, schedule);
  }

  lemma UnbrokenWrites(env: Env, c0: Conn, c: Conn)
    requires Unbroken(env, c0, c)
    ensures Failure(env.writeFaults, |c0.writes|, |Stream(Sent(c.turns), env.Max())|) == None
  {
  }

  /** Until the last turn everything was written in full. */
  lemma WrittenBefore(env: Env, c0: Conn, schedule: seq<Side>)
    requires Fresh(c0) && c0.writes == []
    ensures var (c, s) := Run(env, c0, Starting, schedule);
            && (s.Closed? ==> c.turns != [])
            && Failure(env.writeFaults, 0,
                 |Stream(Sent(if s.Closed? then DropLast(c.turns) else c.turns), env.Max())|) == None
  {
    var _, _ := RunSummary(env, c0, schedule);
  }

  lemma WrittenCount(env: Env, before: seq<Message>, m: Message)
    requires Failure(env.writeFaults, 0, |Stream(before, env.Max())|) == None
    ensures WholeMessages(before + [m], env.Max(), FramesWritten(env, before + [m])) >= |before|
  {
    var n := |Stream(before, env.Max())|;
    StreamSnoc(before, m, env.Max());
    FirstFaultSplit(env.writeFaults, 0, n, |Stream(before + [m], env.Max())| - n);
  }

  lemma WrittenAll(env: Env, messages: seq<Message>)
    requires Failure(env.writeFaults, 0, |Stream(messages, env.Max())|) == None
    ensures WholeMessages(messages, env.Max(), FramesWritten(env, messages)) == |messages|
  {
    FailureAtFirstFault(env.writeFaults, 0, |Stream(messages, env.Max())|, FramesWritten(env, messages));
  }

  lemma LastMayBeIncomplete(env: Env, turns: seq<Turn>, turn: Turn)
    requires Failure(env.writeFaults, 0, |Stream(Sent(turns), env.Max())|) == None
    ensures var messages := Sent(turns + [turn]);
            |messages| <= WholeMessages(messages, env.Max(), FramesWritten(env, messages)) + 1
  {
    SentGrows(turns, turn);
    match turn
    case FromApp(Ok(WebsocketSend(bytes, text))) => WrittenCount(env, Sent(turns), MessageOf(bytes, text));
    case _ =>
      assert Sent(turns) + [] == Sent(turns);
      WrittenAll(env, Sent(turns));
  }

  /** At most the message of the last turn is incomplete, and then the connection is closed. */
  lemma OnlyLastIncomplete(env: Env, c0: Conn, schedule: seq<Side>)
    requires Fresh(c0) && c0.writes == []
    ensures var (c, s) := Run(env, c0, Starting, schedule);
            var messages := Sent(c.turns);
            var k := WholeMessages(messages, env.Max(), FramesWritten(env, messages));
            |messages| <= k + 1 && (k < |messages| ==> s.Closed?)
  {
    var prev, turn := RunSummary(env, c0, schedule);
    UnbrokenWrites(env, c0, prev);
    if Run(env, c0, Starting, schedule).1.Closed? {
      LastMayBeIncomplete(env, prev.turns, turn);
    } else {
      WrittenAll(env, Sent(prev.turns));
    }
  }

  /** The client reassembles exactly the messages that were written in full. */
  lemma ReceivesWhatIsSent(env: Env, c0: Conn, schedule: seq<Side>)
    requires Fresh(c0) && c0.writes == []
    ensures var (c, s) := Run(env, c0, Starting, schedule);
            var messages := Sent(c.turns);
            var p := Reassemble(Arrived(c.writes));
            && !p.violated && (p.closed ==> s.Closed?)
            && p.delivered == Contents(messages[..WholeMessages(messages, env.Max(), FramesWritten(env, messages))])
  {
    RunWrites(env, c0, schedule);
    var (c, s) := Run(env, c0, Starting, schedule);
    WriteLogReassembles(env, Sent(c.turns));
    if s.Closed? {
      CloseLogReassembles(env, Sent(c.turns), LastClosing(env, c0, c).value);
    }
  }

  /** What a run has consumed is what its two sides had to give. */
  lemma RunConsumes(env: Env, c0: Conn, schedule: seq<Side>)
    requires Ready(env, c0)
    ensures Follows(env, c0, Run(env, c0, Starting, schedule).0)
  {
    ReadyFollows(env, c0);
    RunFollows(env, c0, c0, Starting, schedule);
  }

  /**
   In every run, what the client reassembles is exactly the first `k` messages among the events consumed from
   the application, where `k` counts those whose frames were all written; only the very last one can be
   missing, and then the connection is closed.  The frames on the wire never break the rules of fragmentation.
   */
  lemma ClientReceives(env: Env, c0: Conn, schedule: seq<Side>)
    requires Ready(env, c0) && c0.writes == []
    ensures var (c, s) := Run(env, c0, Starting, schedule);
            && c0.appRead <= c.appRead <= |env.app|
            && var messages := MessagesIn(env.app[c0.appRead..c.appRead]);
               var k := WholeMessages(messages, env.Max(), FramesWritten(env, messages));
               var p := Reassemble(Arrived(c.writes));
               && !p.violated
               && p.delivered == Contents(messages[..k])
               && |messages| <= k + 1
               && (k < |messages| ==> s.Closed?)
               && (p.closed ==> s.Closed?)
  {
    RunConsumes(env, c0, schedule);
    ReceivesWhatIsSent(env, c0, schedule);
    OnlyLastIncomplete(env, c0, schedule);
  }

  lemma {:induction false} QuietReplies(turns: seq<Turn>)
    requires Quiet(turns)
    ensures forall e :: e in Replies(turns) ==> e.WebsocketSend?
  {
    if turns != [] {
      QuietReplies(DropLast(turns));
      assert Ordinary(Last(turns));
    }
  }

  lemma QuietHasNoEnd(turns: seq<Turn>)
    requires Quiet(turns)
    ensures !EndNoticed(turns)
  {
    assert forall t :: t in turns ==> Ordinary(t);
  }

  /** A run in which the application's end was noticed: that was the last turn, and all replies were messages. */
  lemma EndNoticedLast(env: Env, c0: Conn, schedule: seq<Side>)
    requires Fresh(c0)
    requires EndNoticed(Run(env, c0, Starting, schedule).0.turns)
    ensures var (c, s) := Run(env, c0, Starting, schedule);
            && s.Closed? && Last(c.turns).FromApp? && Last(c.turns).reply.Err?
            && (forall e :: e in Replies(c.turns) ==> e.WebsocketSend?)
  {
    var prev, turn := RunSummary(env, c0, schedule);
    QuietHasNoEnd(prev.turns);
    QuietReplies(prev.turns);
    EndIsLast(prev.turns, turn);
  }

  lemma EndIsLast(turns: seq<Turn>, turn: Turn)
    requires !EndNoticed(turns)
    ensures EndNoticed(turns + [turn]) ==>
              turn.FromApp? && turn.reply.Err? && Replies(turns + [turn]) == Replies(turns)
  {
    RepliesGrow(turns, turn);
    assert Replies(turns) + [] == Replies(turns);
  }

  lemma EndSendsNothing(turns: seq<Turn>)
    requires turns != [] && Last(turns).FromApp? && Last(turns).reply.Err?
    ensures Sent(turns) == Sent(DropLast(turns))
  {
    var before := DropLast(turns);
    RepliesGrow(before, Last(turns));
    assert before + [Last(turns)] == turns;
    assert Replies(before) + [] == Replies(before);
  }

  lemma DeliveredInFull(env: Env, c0: Conn, schedule: seq<Side>)
    requires Fresh(c0) && c0.writes == []
    requires EndNoticed(Run(env, c0, Starting, schedule).0.turns)
    ensures var c := Run(env, c0, Starting, schedule).0;
            Reassemble(Arrived(c.writes)).delivered == Contents(Sent(c.turns))
  {
    EndNoticedLast(env, c0, schedule);
    WrittenBefore(env, c0, schedule);
    ReceivesWhatIsSent(env, c0, schedule);
    var messages := Sent(Run(env, c0, Starting, schedule).0.turns);
    EndSendsNothing(Run(env, c0, Starting, schedule).0.turns);
    WrittenAll(env, messages);
    assert messages[..|messages|] == messages;
  }

  /**
   If the end of the application was noticed, the connection is closed, every event the application had queued
   was consumed before, all of them were messages, and the client has received every one.
   */
  lemma DrainedBeforeClose(env: Env, c0: Conn, schedule: seq<Side>)
    requires Ready(env, c0) && c0.writes == []
    requires EndNoticed(Run(env, c0, Starting, schedule).0.turns)
    ensures var (c, s) := Run(env, c0, Starting, schedule);
            && s.Closed?
            && c.appRead == |env.app|
            && (forall e :: e in env.app[c0.appRead..] ==> e.WebsocketSend?)
            && Reassemble(Arrived(c.writes)).delivered == Contents(MessagesIn(env.app[c0.appRead..]))
  {
    RunConsumes(env, c0, schedule);
    EndNoticedLast(env, c0, schedule);
    DeliveredInFull(env, c0, schedule);
    assert env.app[c0.appRead..|env.app|] == env.app[c0.appRead..];
  }

  // ---- How a connection closes ----

  function WebSocketCause(e: WebSocketError): Closing {
    match e
    case InvalidCloseCode | InvalidCloseFrame => Closing(1002, Ascii("Protocol error"))
    case InvalidUtf8 => Closing(1007, Ascii("Invalid UTF-8 data received"))
    case _ => Closing(1011, Ascii("Internal server error"))
  }

  /**
   The code and reason with which a closing turn closes the connection, given the failure that ended its
   writes, if any.  The codes are those of section 7.4.1 of RFC 6455.
   */
  function ClosingCause(utf8: Utf8, turn: Turn, writeFailure: Option<WebSocketError>): Closing {
    var wentWrong := Closing(1011, Ascii("Internal server error"));
    match turn
    case FromClient(Ok(Frame(_, Close, payload))) =>
      if |payload| < 2 then Closing(1000, [])
      else Closing(payload[0] as u16 * 0x100 + payload[1] as u16, utf8.lossy(payload[2..]))
    case FromClient(Ok(_)) => wentWrong
    case FromClient(Err(e)) =>
      if e.ConnectionClosed? then Closing(1000, Ascii("Connection closed")) else WebSocketCause(e)
    case FromApp(Ok(WebsocketClose(code, reason))) => Closing(code, reason)
    case FromApp(Ok(WebsocketSend(_, _))) =>
      if writeFailure.Some? then WebSocketCause(writeFailure.value) else wentWrong
    case FromApp(Ok(_)) => wentWrong
    case FromApp(Err(Completed)) => Closing(1000, Ascii("Connection closed"))
    case FromApp(Err(_)) => wentWrong
  }

  /** The reasons are sent letter by letter. */
  lemma AsciiSpells(s: string)
    requires forall c :: c in s ==> c as int < 0x80
    ensures |Ascii(s)| == |s| && forall i :: 0 <= i < |s| ==> Ascii(s)[i] as int == s[i] as int
  {
    assert forall i :: 0 <= i < |s| ==> s[i] in s;
  }

  lemma RequestedClosing(env: Env, turn: Turn, writeFailure: Option<WebSocketError>)
    requires ReactionToTurn(env, turn).closing.Some?
    ensures ReactionToTurn(env, turn).closing.value == ClosingCause(env.utf8, turn, writeFailure)
  {
  }

  lemma FailedTurn(env: Env, turn: Turn, writeFailure: Option<WebSocketError>)
    requires ReactionToTurn(env, turn).closing.None?
    requires turn.FromClient? ==> writeFailure.None?
    ensures ClosingCause(env.utf8, turn, writeFailure)
         == if writeFailure.Some? then ErrorClosing(WebsocketError(writeFailure.value)) else INTERNAL_ERROR
  {
  }

  /** A turn that leaves the connection open by itself closes it when one of its attempts fails. */
  lemma FailedTurnClosing(env: Env, c0: Conn, turns: seq<Turn>, turn: Turn)
    requires Failure(env.writeFaults, |c0.writes|, |Stream(Sent(turns), env.Max())|) == None
    requires ReactionToTurn(env, turn).closing.None?
    ensures var failure := Failure(env.writeFaults, |c0.writes|, |Stream(Sent(turns + [turn]), env.Max())|);
            ClosingCause(env.utf8, turn, failure)
              == if failure.Some? then ErrorClosing(WebsocketError(failure.value)) else INTERNAL_ERROR
  {
    OneSided(env, turn);
    FramesGrow(env, turns, turn);
    FailedTurn(env, turn, Failure(env.writeFaults, |c0.writes|, |Stream(Sent(turns + [turn]), env.Max())|));
  }

  lemma LastClosingCases(env: Env, c0: Conn, c: Conn)
    requires c.turns != []
    ensures var requested := ReactionToTurn(env, Last(c.turns)).closing;
            var writeFailure := Failure(env.writeFaults, |c0.writes|, |Stream(Sent(c.turns), env.Max())|);
            var sendFailure := Failure(env.sendFaults, |c0.sends|, |Heard(env.utf8, c.turns)|);
            LastClosing(env, c0, c) ==
              if requested.Some? then requested
              else if writeFailure.Some? then Some(ErrorClosing(WebsocketError(writeFailure.value)))
              else if sendFailure.Some? then Some(INTERNAL_ERROR)
              else None
  {
  }

  /** The closing that the last of some turns leads to, if the others led to none. */
  lemma ClosingOfTurns(env: Env, c0: Conn, c: Conn, turns: seq<Turn>, turn: Turn)
    requires c.turns == turns + [turn]
    requires Failure(env.writeFaults, |c0.writes|, |Stream(Sent(turns), env.Max())|) == None
    requires LastClosing(env, c0, c).Some?
    ensures LastClosing(env, c0, c) == Some(ClosingCause(env.utf8, turn,
              Failure(env.writeFaults, |c0.writes|, |Stream(Sent(c.turns), env.Max())|)))
  {
    LastClosingCases(env, c0, c);
    if ReactionToTurn(env, turn).closing.Some? {
      RequestedClosing(env, turn, Failure(env.writeFaults, |c0.writes|, |Stream(Sent(c.turns), env.Max())|));
    } else {
      FailedTurnClosing(env, c0, turns, turn);
    }
  }

  /** The closing of a run is what its last turn, the first closing one, gives cause to. */
  lemma ClosingIsCaused(env: Env, c0: Conn, schedule: seq<Side>)
    requires Fresh(c0)
    requires Run(env, c0, Starting, schedule).1.Closed?
    ensures var c := Run(env, c0, Starting, schedule).0;
            && c.turns != []
            && Quiet(DropLast(c.turns))
            && LastClosing(env, c0, c) == Some(ClosingCause(env.utf8, Last(c.turns),
                 Failure(env.writeFaults, |c0.writes|, |Stream(Sent(c.turns), env.Max())|)))
  {
    var prev, turn := RunSummary(env, c0, schedule);
    var c := Run(env, c0, Starting, schedule).0;
    UnbrokenWrites(env, c0, prev);
    assert DropLast(c.turns) == prev.turns;
    ClosingOfTurns(env, c0, c, prev.turns, turn);
  }

  lemma {:induction false} StreamHasNoClose(messages: seq<Message>, max: Pos)
    requires DataMessages(messages)
    ensures forall f :: f in Stream(messages, max) ==> !f.opcode.Close?
  {
    if messages != [] {
      StreamHasNoClose(DropLast(messages), max);
    }
  }

  /** None of the attempts asked for is a close frame or a disconnect. */
  lemma NothingClosesEarly(env: Env, c0: Conn, turns: seq<Turn>)
    ensures var writes := Extend(env.writeFaults, c0.writes, Stream(Sent(turns), env.Max()));
            forall i :: |c0.writes| <= i < |writes| ==> !writes[i].item.opcode.Close?
    ensures var sends := Extend(env.sendFaults, c0.sends, Heard(env.utf8, turns));
            forall i :: |c0.sends| <= i < |sends| ==> !sends[i].item.WebsocketDisconnect?
  {
    StreamHasNoClose(Sent(turns), env.Max());
    ExtendKeeps(env.writeFaults, c0.writes, Stream(Sent(turns), env.Max()));
    ExtendKeeps(env.sendFaults, c0.sends, Heard(env.utf8, turns));
  }

  /** What a closed run has attempted last. */
  lemma ClosedRunLogs(env: Env, c0: Conn, schedule: seq<Side>)
    requires Fresh(c0)
    requires Run(env, c0, Starting, schedule).1.Closed?
    ensures var c := Run(env, c0, Starting, schedule).0;
            && c.turns != [] && LastClosing(env, c0, c).Some?
            && var closing := LastClosing(env, c0, c).value;
               var writes := Extend(env.writeFaults, c0.writes, Stream(Sent(c.turns), env.Max()));
               var sends := Extend(env.sendFaults, c0.sends, Heard(env.utf8, c.turns));
               && c.writes == writes + [Attempt(CloseFrame(closing), env.writeFaults(|writes|).None?)]
               && c.sends == sends + [Attempt(Disconnect(closing), env.sendFaults(|sends|).None?)]
  {
    var _, _ := RunSummary(env, c0, schedule);
    var c := Run(env, c0, Starting, schedule).0;
    var closing := LastClosing(env, c0, c).value;
    var writes := Extend(env.writeFaults, c0.writes, Stream(Sent(c.turns), env.Max()));
    var sends := Extend(env.sendFaults, c0.sends, Heard(env.utf8, c.turns));
    ExtendOne(env.writeFaults, writes, CloseFrame(closing));
    ExtendOne(env.sendFaults, sends, Disconnect(closing));
  }

  /** The last write is a close frame that carries this code and reason, and the last send a disconnect that does. */
  ghost predicate ClosesWith(c: Conn, code: int, reason: seq<byte>) {
    && c.writes != [] && c.sends != []
    && var f, d := Last(c.writes).item, Last(c.sends).item;
       && f.fin && f.opcode.Close? && |f.payload| >= 2
       && f.payload[0] as int * 0x100 + f.payload[1] as int == code && f.payload[2..] == reason
       && d.WebsocketDisconnect? && d.code as int == code && d.reason == reason
  }

  lemma CloseFrameReads(x: Closing)
    ensures var f := CloseFrame(x);
            && f.fin && f.opcode.Close? && |f.payload| >= 2
            && f.payload[0] as int * 0x100 + f.payload[1] as int == x.code as int && f.payload[2..] == x.reason
  {
    assert x.code as int / 0x100 * 0x100 + x.code as int % 0x100 == x.code as int;
  }

  /**
   A connection that closes has attempted exactly one close frame and one disconnect, as its last write and
   its last send, with the same code and reason: those the first closing turn gives cause to.
   */
  lemma ClosesOnce(env: Env, c0: Conn, schedule: seq<Side>)
    requires Fresh(c0)
    requires Run(env, c0, Starting, schedule).1.Closed?
    ensures var c := Run(env, c0, Starting, schedule).0;
            && c.turns != [] && Quiet(DropLast(c.turns))
            && |c0.writes| < |c.writes| && |c0.sends| < |c.sends|
            && (forall i :: |c0.writes| <= i < |c.writes| - 1 ==> !c.writes[i].item.opcode.Close?)
            && (forall i :: |c0.sends| <= i < |c.sends| - 1 ==> !c.sends[i].item.WebsocketDisconnect?)
            && var closing := ClosingCause(env.utf8, Last(c.turns),
                 Failure(env.writeFaults, |c0.writes|, |Stream(Sent(c.turns), env.Max())|));
               ClosesWith(c, closing.code as int, closing.reason)
  {
    ClosedRunLogs(env, c0, schedule);
    ClosingIsCaused(env, c0, schedule);
    var c := Run(env, c0, Starting, schedule).0;
    NothingClosesEarly(env, c0, c.turns);
    CloseFrameReads(LastClosing(env, c0, c).value);
  }

  lemma {:induction false} OpenRunIsRunning(env: Env, c: Conn, s: State, schedule: seq<Side>)
    requires !Run(env, c, s, schedule).1.Closed?
    ensures var (c', s') := Run(env, c, s, schedule);
            |c'.turns| == |c.turns| + |schedule| && s' == if schedule == [] then s else Running
    decreases |schedule|
  {
    if schedule != [] {
      var (c', s') := TakeTurn(env, c, schedule[0]);
      OpenTurnIsOrdinary(env, c, schedule[0]);
      OpenRunIsRunning(env, c', s', schedule[1..]);
    }
  }

  /**
   A connection is closed exactly after a turn that was not an ordinary message, or after a write or a send that
   failed; until then it takes every turn there is, and it is running from the first one on.
   */
  lemma ClosesExactly(env: Env, c0: Conn, schedule: seq<Side>)
    requires Fresh(c0)
    ensures var (c, s) := Run(env, c0, Starting, schedule);
            && (s.Closed? <==>
                 || !Quiet(c.turns)
                 || Failure(env.writeFaults, |c0.writes|, |Stream(Sent(c.turns), env.Max())|) != None
                 || Failure(env.sendFaults, |c0.sends|, |Heard(env.utf8, c.turns)|) != None)
            && (!s.Closed? ==> |c.turns| == |schedule| && s == if schedule == [] then Starting else Running)
  {
    var prev, turn := RunSummary(env, c0, schedule);
    var (c, s) := Run(env, c0, Starting, schedule);
    if s.Closed? {
      LastClosingCases(env, c0, c);
      OrdinaryStaysOpen(env, turn);
      assert turn in c.turns;
    } else {
      OpenRunIsRunning(env, c0, Starting, schedule);
    }
  }

  lemma OpenRunLogs(env: Env, c0: Conn, schedule: seq<Side>)
    requires Fresh(c0)
    requires !Run(env, c0, Starting, schedule).1.Closed?
    ensures var c := Run(env, c0, Starting, schedule).0;
            && c.writes == Extend(env.writeFaults, c0.writes, Stream(Sent(c.turns), env.Max()))
            && c.sends == Extend(env.sendFaults, c0.sends, Heard(env.utf8, c.turns))
  {
    var _, _ := RunSummary(env, c0, schedule);
  }

  /** A connection that has not closed has attempted no close frame and no disconnect. */
  lemma OpenRunNeverCloses(env: Env, c0: Conn, schedule: seq<Side>)
    requires Fresh(c0)
    requires !Run(env, c0, Starting, schedule).1.Closed?
    ensures var c := Run(env, c0, Starting, schedule).0;
            && (forall i :: |c0.writes| <= i < |c.writes| ==> !c.writes[i].item.opcode.Close?)
            && (forall i :: |c0.sends| <= i < |c.sends| ==> !c.sends[i].item.WebsocketDisconnect?)
  {
    OpenRunLogs(env, c0, schedule);
    NothingClosesEarly(env, c0, Run(env, c0, Starting, schedule).0.turns);
  }

  // ---- What the application hears ----

  lemma AtMostOneMessage(env: Env, turn: Turn)
    ensures |ReactionToTurn(env, turn).messages| <= 1
  {
  }

  lemma LastMayBeUnheard(env: Env, start: nat, turns: seq<Turn>, turn: Turn)
    requires Failure(env.sendFaults, start, |Heard(env.utf8, turns)|) == None
    ensures var heard := |Heard(env.utf8, turns + [turn])|;
            heard <= FirstFault(env.sendFaults, start, heard) + 1
  {
    AtMostOneMessage(env, turn);
    MessagesGrow(env, turns, turn);
    FirstFaultSplit(env.sendFaults, start, |Heard(env.utf8, turns)|, |ReactionToTurn(env, turn).messages|);
  }

  /** A failed send can only have hit the message of the last turn. */
  lemma OnlyLastUnheard(env: Env, c0: Conn, schedule: seq<Side>)
    requires Fresh(c0)
    ensures var (c, s) := Run(env, c0, Starting, schedule);
            var heard := |Heard(env.utf8, c.turns)|;
            var k := FirstFault(env.sendFaults, |c0.sends|, heard);
            heard <= k + 1 && (k < heard ==> s.Closed?)
  {
    var prev, turn := RunSummary(env, c0, schedule);
    if Run(env, c0, Starting, schedule).1.Closed? {
      LastMayBeUnheard(env, |c0.sends|, prev.turns, turn);
    } else {
      FirstFaultSplit(env.sendFaults, |c0.sends|, |Heard(env.utf8, prev.turns)|, 0);
    }
  }

  /**
   The application is told, in order, of the data messages consumed from the client, with at most the very last
   one missing, and after that at most of one disconnect.
   */
  lemma ApplicationHears(env: Env, c0: Conn, schedule: seq<Side>)
    requires Ready(env, c0)
    ensures var (c, s) := Run(env, c0, Starting, schedule);
            && c0.clientRead <= c.clientRead <= |env.client|
            && var heard := ToldOf(env.utf8, env.client[c0.clientRead..c.clientRead]);
               var k := FirstFault(env.sendFaults, |c0.sends|, |heard|);
               && |heard| <= k + 1 && (k < |heard| ==> s.Closed?)
               && (s.Closed? ==> c.sends != [] && Last(c.sends).item.WebsocketDisconnect?)
               && Arrived(c.sends) == Arrived(c0.sends) + heard[..k] +
                    if s.Closed? && Last(c.sends).ok then [Last(c.sends).item] else []
  {
    OnlyLastUnheard(env, c0, schedule);
    RunConsumes(env, c0, schedule);
    var (c, s) := Run(env, c0, Starting, schedule);
    var log := Extend(env.sendFaults, c0.sends, Heard(env.utf8, c.turns));
    ArrivedExtend(env.sendFaults, c0.sends, Heard(env.utf8, c.turns));
    if s.Closed? {
      ClosedRunLogs(env, c0, schedule);
      ArrivedSnoc(log, Last(c.sends));
    } else {
      var _, _ := RunSummary(env, c0, schedule);
    }
  }
}
