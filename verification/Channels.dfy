/**
 The two bounded channels between server and application, and the handles at their server ends.

 A send to a full channel and a receive from an empty one wait: such a step changes nothing and is taken
 again later.  A channel closes when either end is dropped; what is queued can still be received.
 */
module Channels {
  import opened Prelude
  import opened Asgi
  import Completion

  datatype Receipt<+T> = Got(item: T) | Ended

  /** One direction: the queue, and the history of what was accepted and what receivers were told. */
  datatype Link<T> = Link(capacity: Pos, queue: seq<T>, closed: bool, sent: seq<T>, received: seq<Receipt<T>>)

  datatype Move<T> = SendMove(item: T) | ReceiveMove | CloseMove

  function NewLink<T>(capacity: Pos): Link<T> {
    Link(capacity, [], false, [], [])
  }

  predicate CanSend<T>(l: Link<T>) {
    !l.closed && |l.queue| < l.capacity
  }

  function Step<T>(l: Link<T>, m: Move<T>): Link<T> {
    match m
    case SendMove(item) => if CanSend(l) then l.(queue := l.queue + [item], sent := l.sent + [item]) else l
    case ReceiveMove =>
      if l.queue != [] then l.(queue := l.queue[1..], received := l.received + [Got(l.queue[0])])
      else if l.closed then l.(received := l.received + [Ended])
      else l
    case CloseMove => l.(closed := true)
  }

  function Exec<T>(l: Link<T>, moves: seq<Move<T>>): Link<T> {
    if moves == [] then l else Step(Exec(l, DropLast(moves)), Last(moves))
  }

  /** The n-th receive was told the n-th item sent, or of the end if there was and is no such item. */
  ghost predicate InOrder<T>(l: Link<T>) {
    && |l.queue| <= l.capacity
    && l.queue == l.sent[if |l.received| < |l.sent| then |l.received| else |l.sent|..]
    && (forall i :: 0 <= i < |l.received| ==> l.received[i] == if i < |l.sent| then Got(l.sent[i]) else Ended)
    && (|l.sent| < |l.received| ==> l.closed)
  }

  lemma SendKeepsOrder<T>(l: Link<T>, item: T)
    requires InOrder(l)
    ensures InOrder(Step(l, SendMove(item)))
  {
  }

  lemma ReceiveKeepsOrder<T>(l: Link<T>)
    requires InOrder(l)
    ensures InOrder(Step(l, ReceiveMove))
  {
  }

  /**
   Whatever the interleaving of sends, receives and hang-ups: the queue never exceeds its capacity, and
   receivers are told exactly the items sent, in order, and then, once the channel is closed, of its end.
   */
  lemma {:induction false} ChannelInOrder<T>(capacity: Pos, moves: seq<Move<T>>)
    ensures InOrder(Exec(NewLink(capacity), moves))
  {
    if moves != [] {
      var l := Exec(NewLink<T>(capacity), DropLast(moves));
      ChannelInOrder(capacity, DropLast(moves));
      match Last(moves)
      case SendMove(item) => SendKeepsOrder(l, item);
      case ReceiveMove => ReceiveKeepsOrder(l);
      case CloseMove =>
    }
  }

  function CountReceives<T>(moves: seq<Move<T>>): nat {
    if moves == [] then 0 else CountReceives(DropLast(moves)) + if Last(moves).ReceiveMove? then 1 else 0
  }

  /** A closed channel accepts nothing more and answers every receive: first what is queued, then its end, forever. */
  lemma {:induction false} ClosedDrains<T>(l: Link<T>, moves: seq<Move<T>>)
    requires InOrder(l) && l.closed
    ensures InOrder(Exec(l, moves)) && Exec(l, moves).closed
    ensures Exec(l, moves).sent == l.sent
    ensures |Exec(l, moves).received| == |l.received| + CountReceives(moves)
  {
    if moves != [] {
      ClosedDrains(l, DropLast(moves));
      ReceiveKeepsOrder(Exec(l, DropLast(moves)));
    }
  }

  function Sends<T>(items: seq<T>): seq<Move<T>> {
    seq(|items|, i requires 0 <= i < |items| => SendMove(items[i]))
  }

  /** An open channel takes items, in order, until exactly `capacity` are queued, and no more then. */
  lemma {:induction false} FillsToCapacity<T>(l: Link<T>, items: seq<T>)
    requires !l.closed && |l.queue| <= l.capacity
    ensures var room := l.capacity - |l.queue|;
            var l' := Exec(l, Sends(items));
            && l'.queue == l.queue + items[..if |items| <= room then |items| else room]
            && !l'.closed && l'.capacity == l.capacity
    decreases |items|
  {
    var room := l.capacity - |l.queue|;
    if items == [] {
      assert l.queue + items[..0] == l.queue;
    } else {
      var before := DropLast(items);
      FillsToCapacity(l, before);
      assert DropLast(Sends(items)) == Sends(before);
      if |items| <= room {
        assert l.queue + before[..|before|] + [Last(items)] == l.queue + items[..|items|];
      } else {
        assert before[..room] == items[..room];
      }
    }
  }

  /** Whatever is queued, or the end of a closed channel, is told to the very next receive. */
  lemma ReceivesAtOnce<T>(l: Link<T>)
    ensures var l' := Step(l, ReceiveMove);
            && (l.queue != [] ==> l'.queue == l.queue[1..] && l'.received == l.received + [Got(l.queue[0])])
            && (l.queue == [] && l.closed ==> l'.queue == [] && l'.received == l.received + [Ended])
            && (l.queue == [] && !l.closed ==> l' == l)
  {
  }

  // ---- The program ----

  /** A bounded channel; the histories are kept for the specification only. */
  class Channel<T> {
    const capacity: Pos
    var queue: seq<T>
    var closed: bool
    ghost var sent: seq<T>
    ghost var received: seq<Receipt<T>>

    ghost function View(): Link<T>
      reads this
    {
      Link(capacity, queue, closed, sent, received)
    }

    constructor (capacity: Pos)
      ensures this.capacity == capacity && View() == NewLink(capacity)
      ensures !closed && queue == [] && sent == [] && received == []
    {
      this.capacity := capacity;
      queue, closed, sent, received := [], false, [], [];
    }

    /** One poll of a send: `None` while the channel is full, otherwise whether the item was accepted. */
    method PollSend(item: T) returns (accepted: Option<bool>)
      modifies this`queue, this`sent
      ensures View() == old(Step(View(), SendMove(item)))
      ensures accepted == Some(false) <==> closed
      ensures accepted == None <==> !closed && |old(queue)| >= capacity
      ensures accepted == Some(true) <==> !closed && |old(queue)| < capacity
      ensures accepted == Some(true) ==> queue == old(queue) + [item] && sent == old(sent) + [item]
      ensures accepted != Some(true) ==> unchanged(this)
    {
      if closed {
        return Some(false);
      }
      if |queue| >= capacity {
        return None;
      }
      queue, sent := queue + [item], sent + [item];
      return Some(true);
    }

    /** One poll of a receive: `None` while there is nothing to tell. */
    method PollReceive() returns (reply: Option<Receipt<T>>)
      modifies this`queue, this`received
      ensures View() == old(Step(View(), ReceiveMove))
      ensures old(queue) != [] ==> reply == Some(Got(old(queue)[0])) && queue == old(queue)[1..]
      ensures old(queue) == [] && closed ==> reply == Some(Ended) && queue == []
      ensures old(queue) == [] && !closed ==> reply == None && unchanged(this)
      ensures reply.Some? ==> received == old(received) + [reply.value]
    {
      if queue != [] {
        reply := Some(Got(queue[0]));
        queue, received := queue[1..], received + [Got(queue[0])];
      } else if closed {
        reply := Some(Ended);
        received := received + [Ended];
      } else {
        reply := None;
      }
    }

    /** Either end is dropped. */
    method Close()
      modifies this`closed
      ensures View() == old(Step(View(), CloseMove))
      ensures closed
    {
      closed := true;
    }
  }

  /** The application's `receive`: once the server's end is gone and drained it is told of a disconnect. */
  method ReceiveInApp(channel: Channel<ReceiveEvent>) returns (event: Option<ReceiveEvent>)
    modifies channel
    ensures channel.View() == old(Step(channel.View(), ReceiveMove))
    ensures event == if old(channel.queue) != [] then Some(old(channel.queue)[0])
                     else if old(channel.closed) then Some(HttpDisconnect)
                     else None
  {
    var reply := channel.PollReceive();
    match reply
    case None => event := None;
    case Some(Got(m)) => event := Some(m);
    case Some(Ended) => event := Some(HttpDisconnect);
  }

  /** A result of the handle, as the error that a receive or a send ends with. */
  function AsErr<T>(result: Option<ApplicationResult>): Option<Result<T, ApplicationResult>> {
    match result
    case None => None
    case Some(r) => Some(Err(r))
  }

  /**
   One poll of the server's receive: what the application queued comes first, and only then how it ended.
   `holding` says that an earlier poll found the channel ended and left the call waiting for the application's
   task, which may run on after it has dropped its end of the channel.
   */
  method ReceiveFromApp(channel: Channel<SendEvent>, handle: Completion.ApplicationHandle, holding: bool,
                        task: Completion.Task)
    returns (event: Option<Result<SendEvent, ApplicationResult>>)
    modifies channel, handle
    ensures channel.View() == if holding then old(channel.View()) else old(Step(channel.View(), ReceiveMove))
    ensures !holding && old(channel.queue) != [] ==>
              event == Some(Ok(old(channel.queue)[0])) && unchanged(handle)
    ensures !holding && old(channel.queue) == [] && !old(channel.closed) ==> event == None && unchanged(handle)
    ensures holding || (old(channel.queue) == [] && old(channel.closed)) ==>
              var (result, shared) := old(Completion.Polled(handle.View(), holding, task));
              && handle.View() == shared
              && event == match result case None => None case Some(r) => Some(Err(r))
  {
    if !holding {
      var reply := channel.PollReceive();
      match reply
      case None => return None;
      case Some(Got(m)) => return Some(Ok(m));
      case Some(Ended) =>
    }
    var result := handle.WaitForCompletion(holding, task);
    event := AsErr(result);
  }

  /** One poll of the server's send: once the application's end is gone the reason is how it ended. */
  method SendToApp(channel: Channel<ReceiveEvent>, handle: Completion.ApplicationHandle, holding: bool,
                   task: Completion.Task, message: ReceiveEvent)
    returns (sent: Option<Result<(), ApplicationResult>>)
    modifies channel, handle
    ensures channel.View() == if holding then old(channel.View()) else old(Step(channel.View(), SendMove(message)))
    ensures !holding && !old(channel.closed) ==>
              && unchanged(handle)
              && sent == (if |old(channel.queue)| < channel.capacity then Some(Ok(())) else None)
              && channel.queue == old(channel.queue) + if sent == Some(Ok(())) then [message] else []
    ensures holding || old(channel.closed) ==>
              var (result, shared) := old(Completion.Polled(handle.View(), holding, task));
              && handle.View() == shared
              && sent == match result case None => None case Some(r) => Some(Err(r))
  {
    if !holding {
      var accepted := channel.PollSend(message);
      match accepted
      case None => return None;
      case Some(true) => return Some(Ok(()));
      case Some(false) =>
    }
    var result := handle.WaitForCompletion(holding, task);
    sent := AsErr(result);
  }
}
