/**
 What a connection is told of the end of its application.  The receive that `select!` drops in favour of the
 client may be waiting for the application's result at that moment, and then the result is lost.
 */
module Endings {
  import opened Prelude
  import opened Asgi
  import opened Fragmentation
  import opened Websocket
  import opened ConnectionTheorems
  import Completion

  /**
   Some turn of the run lets the client through while the application's result is awaited, after everything that
   the application had queued was consumed.
   */
  predicate LosesResult(env: Env, c: Conn, s: State, schedule: seq<Side>)
    decreases |schedule|
  {
    if s.Closed? || schedule == [] then false
    else
      var (c', s') := TakeTurn(env, c, schedule[0]);
      || (schedule[0] == ClientSide(true) && c.clientRead < |env.client| && c.appRead >= |env.app|)
      || LosesResult(env, c', s', schedule[1..])
  }

  lemma TurnKeeps(env: Env, c: Conn, side: Side)
    ensures var (c', s') := TakeTurn(env, c, side);
            && c'.turns == c.turns + [NextTurn(env, c, side)]
            && c'.shared == SharedAfter(env, c, side)
            && (NextTurn(env, c, side).FromApp? && NextTurn(env, c, side).reply.Err? ==> s'.Closed?)
  {
    OneSided(env, NextTurn(env, c, side));
  }

  /** Until the end is reported nobody has filled the cache, and a dropped wait empties the slot. */
  lemma TurnShared(env: Env, c: Conn, side: Side)
    requires c.shared.cached == None
    ensures match NextTurn(env, c, side)
            case FromApp(Err(r)) =>
              !DropsWait(env, c, side)
              && r == if c.shared.slotFull then Completion.Classify(env.task) else Unexpected
            case _ =>
              SharedAfter(env, c, side) == Completion.Shared(None, c.shared.slotFull && !DropsWait(env, c, side))
  {
  }

  lemma {:induction false} RunTold(env: Env, c: Conn, s: State, schedule: seq<Side>, r: ApplicationResult)
    requires !s.Closed? && c.shared.cached == None && !EndNoticed(c.turns)
    requires FromApp(Err(r)) in Run(env, c, s, schedule).0.turns
    ensures r == if c.shared.slotFull && !LosesResult(env, c, s, schedule) then Completion.Classify(env.task)
                 else Unexpected
    decreases |schedule|
  {
    assert schedule != [];
    var (c', s') := TakeTurn(env, c, schedule[0]);
    var turn := NextTurn(env, c, schedule[0]);
    TurnKeeps(env, c, schedule[0]);
    TurnShared(env, c, schedule[0]);
    if turn.FromApp? && turn.reply.Err? {
      assert Run(env, c, s, schedule).0.turns == c.turns + [turn];
    } else {
      assert !EndNoticed(c'.turns);
      RunTold(env, c', s', schedule[1..], r);
    }
  }

  /** The application's task has run to its end and returned without an error. */
  predicate RanToItsEnd(task: Completion.Task) {
    task.Returned? && task.result.Ok?
  }

  /**
   What a connection is told of the end of its application: that it is complete, or that it failed and with what
   message, if and only if that is so and no wait for the result was dropped before.
   */
  lemma ToldTruthExactly(env: Env, c0: Conn, schedule: seq<Side>, r: ApplicationResult)
    requires Fresh(c0) && c0.shared == Completion.UNTOUCHED
    requires FromApp(Err(r)) in Run(env, c0, Starting, schedule).0.turns
    ensures var lost := LosesResult(env, c0, Starting, schedule);
            && (r == Completed <==> RanToItsEnd(env.task) && !lost)
            && (forall message :: r == Failed(message) <==> env.task == Completion.Returned(Err(message)) && !lost)
            && (r == Unexpected <==> env.task == Completion.Vanished || lost)
  {
    RunTold(env, c0, Starting, schedule, r);
  }

  /**
   A connection that closes because the application has ended closes normally, with code 1000, if and only if
   the application ran to its end and no wait for its result was dropped; otherwise it closes with 1011.
   */
  lemma ClosesNormallyExactly(env: Env, c0: Conn, schedule: seq<Side>)
    requires Fresh(c0) && c0.shared == Completion.UNTOUCHED
    requires EndNoticed(Run(env, c0, Starting, schedule).0.turns)
    ensures var c := Run(env, c0, Starting, schedule).0;
            if RanToItsEnd(env.task) && !LosesResult(env, c0, Starting, schedule)
            then ClosesWith(c, 1000, Ascii("Connection closed"))
            else ClosesWith(c, 1011, Ascii("Internal server error"))
  {
    EndNoticedLast(env, c0, schedule);
    ClosesOnce(env, c0, schedule);
    var r := Last(Run(env, c0, Starting, schedule).0.turns).reply.error;
    RunTold(env, c0, Starting, schedule, r);
  }

  // ---- It does happen ----

  /**
   An application that has let go of its sending end, goes on receiving, and runs to its end; and a client that
   sends one message meanwhile.
   */
  function Listener(): Env {
    Env(FrameBuilder(1), Utf8(_ => true, b => b), [Ok(Frame(true, Binary, []))], [],
        Completion.Returned(Ok(())), _ => None, _ => None)
  }

  lemma ListenerHears(waiting: bool)
    ensures var event := WebsocketReceive(Some([]), None);
            TakeTurn(Listener(), NEW_CONN, ClientSide(waiting)) ==
              (Conn([FromClient(Ok(Frame(true, Binary, [])))], 1, 0, [], [Attempt(event, true)],
                    Completion.Shared(None, !waiting)), Running)
  {
    var env, event := Listener(), WebsocketReceive(Some([]), None);
    var c := Turned(env, NEW_CONN, ClientSide(waiting));
    assert NextTurn(env, NEW_CONN, ClientSide(waiting)) == FromClient(Ok(Frame(true, Binary, [])));
    assert c.turns == [FromClient(Ok(Frame(true, Binary, [])))];
    assert EventOf(env.utf8, FromClient(Ok(Frame(true, Binary, [])))) == FrameReceived(event);
    assert ReactionTo(FrameReceived(event), 1) == Reaction([], [event], None);
    assert ClosingAfter(env, c, Reaction([], [event], None)) == None;
    PerformSmall(env, c, CloseFrame(INTERNAL_ERROR), event);
    assert Perform(env, c, [], [event]).sends == [Attempt(event, true)];
    assert c.shared == Completion.Shared(None, !waiting);
  }

  lemma ListenerRuns(waiting: bool)
    ensures EndNoticed(Run(Listener(), NEW_CONN, Starting, [ClientSide(waiting), AppSide]).0.turns)
    ensures LosesResult(Listener(), NEW_CONN, Starting, [ClientSide(waiting), AppSide]) == waiting
  {
    var env, schedule := Listener(), [ClientSide(waiting), AppSide];
    ListenerHears(waiting);
    var (c, s) := TakeTurn(env, NEW_CONN, ClientSide(waiting));
    assert schedule[1..] == [AppSide];
    TurnKeeps(env, c, AppSide);
    var (c', s') := TakeTurn(env, c, AppSide);
    assert Run(env, NEW_CONN, Starting, schedule) == Run(env, c, s, [AppSide]) == (c', s');
    assert Last(c'.turns) in c'.turns;
  }

  /** Whether that application's end closes the connection with 1000 or 1011 depends on the scheduler alone. */
  lemma DroppedWaitChangesClosing()
    ensures var normal := Run(Listener(), NEW_CONN, Starting, [ClientSide(false), AppSide]).0;
            var lost := Run(Listener(), NEW_CONN, Starting, [ClientSide(true), AppSide]).0;
            && ClosesWith(normal, 1000, Ascii("Connection closed"))
            && ClosesWith(lost, 1011, Ascii("Internal server error"))
  {
    ListenerRuns(false);
    ListenerRuns(true);
    ClosesNormallyExactly(Listener(), NEW_CONN, [ClientSide(false), AppSide]);
    ClosesNormallyExactly(Listener(), NEW_CONN, [ClientSide(true), AppSide]);
  }
}
