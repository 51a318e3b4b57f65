/**
 The handle through which several tasks learn how an application ended: a one-shot receiver that the first
 of them takes and awaits, and a cache that it fills for the others.

 The state machine takes one step per stretch between two `await`s, interleaves any number of callers in any
 order, and may cancel a caller at any `await`.  The class below it has the shape of the program.
 */
module Completion {
  import opened Prelude
  import opened Asgi

  /** The application's task: still running, finished with a result, or gone without sending one. */
  datatype Task = Alive | Returned(result: Result<(), string>) | Vanished

  type Ended = t: Task | !t.Alive? witness Vanished

  /** What a caller who awaits the one-shot receiver makes of the end of the task. */
  function Classify(task: Task): ApplicationResult {
    match task
    case Returned(Ok(_)) => Completed
    case Returned(Err(message)) => Failed(message)
    case _ => Unexpected
  }

  /** Where a call of `wait_for_completion` stands; `Cancelled` forgets what it held. */
  datatype Phase =
    | ReadingCache
    | TakingReceiver
    | RereadingCache
    | Awaiting
    | Storing(result: ApplicationResult)
    | Done(result: ApplicationResult)
    | Cancelled

  /** The place of the one-shot receiver. */
  datatype Place = InSlot | HeldBy(id: nat) | ConsumedBy(id: nat) | LostBy(id: nat)

  /** `place` is only a record of what happened; no step looks at it. */
  datatype Handle = Handle(
    cached: Option<ApplicationResult>,
    slotFull: bool,
    task: Task,
    calls: map<nat, Phase>,
    place: Place)

  const FRESH_HANDLE := Handle(None, true, Alive, map[], InSlot)

  datatype Action = Call(id: nat) | Advance(id: nat) | Cancel(id: nat) | Finish(task: Task)

  function At(h: Handle, id: nat): Option<Phase> {
    if id in h.calls then Some(h.calls[id]) else None
  }

  function Move(h: Handle, id: nat, p: Phase): Handle {
    h.(calls := h.calls[id := p])
  }

  /** One atomic step of one caller. */
  function Progress(h: Handle, id: nat): Handle
    requires id in h.calls
  {
    match h.calls[id]
    case ReadingCache => Move(h, id, if h.cached.Some? then Done(h.cached.value) else TakingReceiver)
    case TakingReceiver =>
      if h.slotFull then Move(h, id, Awaiting).(slotFull := false, place := HeldBy(id))
      else Move(h, id, RereadingCache)
    case RereadingCache => Move(h, id, Done(if h.cached.Some? then h.cached.value else Unexpected))
    case Awaiting =>
      if h.task.Alive? then h
      else Move(h, id, Storing(Classify(h.task))).(place := ConsumedBy(id))
    case Storing(result) => Move(h, id, Done(result)).(cached := Some(result))
    case _ => h
  }

  /** The effect of an action; one that is not possible changes nothing. */
  function Step(h: Handle, a: Action): Handle {
    match a
    case Call(id) => if id in h.calls then h else Move(h, id, ReadingCache)
    case Advance(id) => if id in h.calls then Progress(h, id) else h
    case Cancel(id) =>
      if id !in h.calls || h.calls[id].Done? || h.calls[id].Cancelled? then h
      else Move(h, id, Cancelled).(place := if h.calls[id].Awaiting? then LostBy(id) else h.place)
    case Finish(task) => if h.task.Alive? then h.(task := task) else h
  }

  function Exec(trace: seq<Action>): Handle {
    if trace == [] then FRESH_HANDLE else Step(Exec(DropLast(trace)), Last(trace))
  }

  // ---- Invariant ----

  /** The caller that has taken the receiver out of its slot. */
  function Taker(p: Place): Option<nat> {
    match p
    case InSlot => None
    case HeldBy(id) => Some(id)
    case ConsumedBy(id) => Some(id)
    case LostBy(id) => Some(id)
  }

  /** The receiver is at exactly the place recorded. */
  ghost predicate PlaceIsRight(h: Handle) {
    && (h.place == InSlot <==> h.slotFull)
    && (forall id :: id in h.calls ==> (h.calls[id] == Awaiting <==> h.place == HeldBy(id)))
    && (forall id :: id in h.calls && h.calls[id].Storing? ==> h.place == ConsumedBy(id))
    && (Taker(h.place).Some? ==> Taker(h.place).value in h.calls)
    && (h.place.ConsumedBy? ==>
          var p := h.calls[h.place.id];
          p.Storing? || p.Done? || p.Cancelled?)
    && (h.place.LostBy? ==> h.calls[h.place.id].Cancelled?)
  }

  /** The cache is filled by the taker's last step, with the true outcome. */
  ghost predicate CacheIsRight(h: Handle) {
    && (h.cached.Some? <==> h.place.ConsumedBy? && h.place.id in h.calls && h.calls[h.place.id].Done?)
    && (h.cached.Some? ==> !h.task.Alive? && h.cached.value == Classify(h.task))
  }

  /** A call's result is the true outcome of a task that has ended, or `Unexpected`. */
  ghost predicate ResultIsRight(h: Handle, id: nat)
    requires id in h.calls
  {
    match h.calls[id]
    case Storing(result) => !h.task.Alive? && result == Classify(h.task)
    case Done(result) => result == Unexpected || (!h.task.Alive? && result == Classify(h.task))
    case RereadingCache => Taker(h.place).Some? && Taker(h.place).value != id
    case _ => true
  }

  ghost predicate ResultsAreRight(h: Handle) {
    forall id :: id in h.calls ==> ResultIsRight(h, id)
  }

  ghost predicate Inv(h: Handle) {
    PlaceIsRight(h) && CacheIsRight(h) && ResultsAreRight(h)
  }

  lemma ProgressKeepsPlace(h: Handle, id: nat)
    requires PlaceIsRight(h) && id in h.calls
    ensures PlaceIsRight(Progress(h, id))
  {
    var h' := Progress(h, id);
    assert forall other :: other != id ==> At(h', other) == At(h, other);
    match h.calls[id]
    case TakingReceiver =>
    case Awaiting =>
    case Storing(_) =>
    case _ => assert h'.place == h.place;
  }

  lemma StepKeepsPlace(h: Handle, a: Action)
    requires Inv(h)
    ensures PlaceIsRight(Step(h, a))
  {
    match a
    case Advance(id) =>
      if id in h.calls {
        ProgressKeepsPlace(h, id);
      }
    case Cancel(id) =>
    case _ => assert Step(h, a).place == h.place;
  }

  lemma StepKeepsCache(h: Handle, a: Action)
    requires Inv(h) && PlaceIsRight(Step(h, a))
    ensures CacheIsRight(Step(h, a))
  {
  }

  lemma StepKeepsResult(h: Handle, a: Action, id: nat)
    requires Inv(h) && id in Step(h, a).calls
    ensures ResultIsRight(Step(h, a), id)
  {
    assert id in h.calls ==> ResultIsRight(h, id);
  }

  lemma StepKeepsResults(h: Handle, a: Action)
    requires Inv(h)
    ensures ResultsAreRight(Step(h, a))
  {
    forall id | id in Step(h, a).calls ensures ResultIsRight(Step(h, a), id) {
      StepKeepsResult(h, a, id);
    }
  }

  lemma {:induction false} ExecKeepsInv(trace: seq<Action>)
    ensures Inv(Exec(trace))
  {
    if trace != [] {
      var h, a := Exec(DropLast(trace)), Last(trace);
      ExecKeepsInv(DropLast(trace));
      StepKeepsPlace(h, a);
      StepKeepsCache(h, a);
      StepKeepsResults(h, a);
    }
  }

  // ---- Nothing is undone ----

  /** Once taken the receiver stays with its taker, and once consumed or lost it stays that. */
  predicate PlaceForward(p: Place, p': Place) {
    match p
    case InSlot => true
    case HeldBy(id) => Taker(p') == Some(id)
    case _ => p' == p
  }

  /** What one step may change for good, and what it may not. */
  ghost predicate Forward(h: Handle, h': Handle) {
    && PlaceForward(h.place, h'.place)
    && (h.cached.Some? ==> h'.cached == h.cached)
    && (!h.task.Alive? ==> h'.task == h.task)
    && (forall id :: id in h.calls && h.calls[id].Done? ==> id in h'.calls && h'.calls[id] == h.calls[id])
    && (forall id :: id in h.calls && h.calls[id].Cancelled? ==> id in h'.calls && h'.calls[id] == Cancelled)
  }

  lemma StepForward(h: Handle, a: Action)
    requires Inv(h)
    ensures Forward(h, Step(h, a))
  {
    match a
    case Advance(id) =>
      if id in h.calls {
        assert PlaceForward(h.place, Progress(h, id).place);
      }
    case Finish(_) => assert Step(h, a).calls == h.calls;
    case _ => assert Step(h, a).cached == h.cached;
  }

  lemma ForwardTransitive(h: Handle, h': Handle, h'': Handle)
    requires Forward(h, h') && Forward(h', h'')
    ensures Forward(h, h'')
  {
  }

  lemma OneMoreForward(h: Handle, trace: seq<Action>)
    requires trace != [] && Forward(h, Exec(DropLast(trace)))
    ensures Forward(h, Exec(trace))
  {
    ExecKeepsInv(DropLast(trace));
    StepForward(Exec(DropLast(trace)), Last(trace));
    ForwardTransitive(h, Exec(DropLast(trace)), Exec(trace));
  }

  /**
   However a run goes on, the receiver is never taken twice, the cache is never overwritten, and no answer
   that a caller was given is revised.
   */
  lemma {:induction false} RunsForward(trace: seq<Action>, more: seq<Action>)
    ensures Forward(Exec(trace), Exec(trace + more))
    decreases |more|
  {
    if more == [] {
      assert trace + more == trace;
    } else {
      RunsForward(trace, DropLast(more));
      assert DropLast(trace + more) == trace + DropLast(more);
      OneMoreForward(Exec(trace), trace + more);
    }
  }

  // ---- Exactly when a caller is told `Unexpected` ----

  /** Another caller than `id` has taken the receiver, and still waits, is about to store, or was cancelled. */
  ghost predicate TakenAndUnfinished(h: Handle, id: nat) {
    match Taker(h.place)
    case None => false
    case Some(other) => other != id && other in h.calls && !h.calls[other].Done?
  }

  /** The second read of the cache finds nothing exactly when another caller has taken the receiver and not finished. */
  lemma EmptyCacheExactly(trace: seq<Action>, id: nat)
    requires At(Exec(trace), id) == Some(RereadingCache)
    ensures Exec(trace).cached == None <==> TakenAndUnfinished(Exec(trace), id)
  {
    ExecKeepsInv(trace);
  }

  /** At some point caller `id` read the cache for the second time while another held back the outcome. */
  ghost predicate MissedCache(trace: seq<Action>, id: nat) {
    trace != [] &&
    var h := Exec(DropLast(trace));
    MissedCache(DropLast(trace), id)
    || (Last(trace) == Advance(id) && At(h, id) == Some(RereadingCache) && TakenAndUnfinished(h, id))
  }

  predicate HasReturned(h: Handle, id: nat) {
    id in h.calls && h.calls[id].Done?
  }

  predicate ToldUnexpected(h: Handle, id: nat) {
    At(h, id) == Some(Done(Unexpected))
  }

  /** The step with which a call returns. */
  lemma StepReturns(h: Handle, a: Action, id: nat)
    requires Inv(h)
    requires !HasReturned(h, id) && HasReturned(Step(h, a), id)
    ensures ToldUnexpected(Step(h, a), id) <==>
              Step(h, a).task == Vanished || (a == Advance(id) && At(h, id) == Some(RereadingCache) && h.cached == None)
  {
  }

  lemma StepAfterReturn(h: Handle, a: Action, id: nat)
    requires Inv(h) && HasReturned(h, id)
    ensures At(Step(h, a), id) == At(h, id)
    ensures Step(h, a).task == Vanished ==> ToldUnexpected(h, id)
    ensures h.task == Vanished ==> Step(h, a).task == Vanished
  {
  }

  /**
   A call that has returned has returned `Unexpected` if and only if the application vanished without a
   result, or at its second read of the cache another caller had taken the receiver and had not finished.
   */
  lemma {:induction false} UnexpectedExactly(trace: seq<Action>, id: nat)
    requires HasReturned(Exec(trace), id)
    ensures ToldUnexpected(Exec(trace), id) <==> Exec(trace).task == Vanished || MissedCache(trace, id)
  {
    var before, a := DropLast(trace), Last(trace);
    ExecKeepsInv(before);
    if HasReturned(Exec(before), id) {
      UnexpectedExactly(before, id);
      StepAfterReturn(Exec(before), a, id);
    } else {
      StepReturns(Exec(before), a, id);
      if At(Exec(before), id) == Some(RereadingCache) {
        EmptyCacheExactly(before, id);
      }
      if MissedCache(before, id) {
        MissedEnds(before, id);
      }
    }
  }

  lemma {:induction false} MissedEnds(trace: seq<Action>, id: nat)
    requires MissedCache(trace, id)
    ensures At(Exec(trace), id) == Some(Done(Unexpected))
  {
    var before := DropLast(trace);
    if MissedCache(before, id) {
      MissedEnds(before, id);
      ExecKeepsInv(before);
      StepForward(Exec(before), Last(trace));
    } else {
      EmptyCacheExactly(before, id);
    }
  }

  // ---- What callers are told, case by case ----

  /** A call that has returned was told how the application really ended, with its message, or `Unexpected`. */
  lemma ReportedFaithfully(trace: seq<Action>, id: nat)
    requires HasReturned(Exec(trace), id)
    ensures var result := Exec(trace).calls[id].result;
            match Exec(trace).task
            case Returned(Ok(_)) => result == Completed || result == Unexpected
            case Returned(Err(message)) => result == Failed(message) || result == Unexpected
            case _ => result == Unexpected
  {
    ExecKeepsInv(trace);
    assert ResultIsRight(Exec(trace), id);
  }

  // ---- A cancelled taker takes the outcome with it ----

  /** The caller who took the receiver was cancelled before it filled the cache. */
  ghost predicate Spoiled(h: Handle) {
    Taker(h.place).Some? && At(h, Taker(h.place).value) == Some(Cancelled)
  }

  /** A caller that can only ever be told `Unexpected`. */
  ghost predicate Doomed(h: Handle, id: nat) {
    id in h.calls ==>
      || h.calls[id].ReadingCache? || h.calls[id].TakingReceiver? || h.calls[id].RereadingCache?
      || h.calls[id].Cancelled? || h.calls[id] == Done(Unexpected)
  }

  /** A call that is cancelled while it waits for the receiver leaves it so. */
  lemma CancelSpoils(h: Handle, id: nat)
    requires PlaceIsRight(h) && At(h, id) == Some(Awaiting)
    ensures Spoiled(Step(h, Cancel(id)))
    ensures Step(h, Cancel(id)).cached == h.cached && Step(h, Cancel(id)).slotFull == h.slotFull
  {
    assert h.place == HeldBy(id);
  }

  lemma StepKeepsDoom(h: Handle, a: Action, id: nat)
    requires Inv(h) && Spoiled(h) && Doomed(h, id)
    ensures Spoiled(Step(h, a)) && Doomed(Step(h, a), id)
  {
  }

  lemma OneMoreDoomed(trace: seq<Action>, id: nat)
    requires trace != [] && Spoiled(Exec(DropLast(trace))) && Doomed(Exec(DropLast(trace)), id)
    ensures Spoiled(Exec(trace)) && Doomed(Exec(trace), id)
  {
    ExecKeepsInv(DropLast(trace));
    StepKeepsDoom(Exec(DropLast(trace)), Last(trace), id);
  }

  /**
   Once the caller who took the receiver is cancelled, every call begun later, by anyone, gets `Unexpected`,
   however the application ended.
   */
  lemma {:induction false} OutcomeLostForever(trace: seq<Action>, more: seq<Action>, id: nat)
    requires Spoiled(Exec(trace)) && id !in Exec(trace).calls
    ensures Spoiled(Exec(trace + more)) && Doomed(Exec(trace + more), id)
    ensures HasReturned(Exec(trace + more), id) ==> ToldUnexpected(Exec(trace + more), id)
    decreases |more|
  {
    if more == [] {
      assert trace + more == trace;
    } else {
      OutcomeLostForever(trace, DropLast(more), id);
      assert DropLast(trace + more) == trace + DropLast(more);
      OneMoreDoomed(trace + more, id);
    }
  }

  // ---- Calls that do not overlap agree ----

  ghost predicate AllDone(h: Handle) {
    forall id :: id in h.calls ==> h.calls[id].Done?
  }

  /** Each call begins only after every earlier one has returned. */
  ghost predicate OneAtATime(trace: seq<Action>) {
    trace == [] || (OneAtATime(DropLast(trace)) && (Last(trace).Call? ==> AllDone(Exec(DropLast(trace)))))
  }

  ghost predicate AtMostOneOpen(h: Handle) {
    && (forall i, j :: i in h.calls && j in h.calls && !h.calls[i].Done? && !h.calls[j].Done? ==> i == j)
    && (forall id :: id in h.calls && h.calls[id].RereadingCache? ==> h.cached.Some?)
  }

  ghost predicate AllAgree(h: Handle) {
    forall id :: id in h.calls && h.calls[id].Done? ==> !h.task.Alive? && h.calls[id].result == Classify(h.task)
  }

  lemma StepKeepsOneOpen(h: Handle, a: Action)
    requires Inv(h) && AtMostOneOpen(h) && (a.Call? ==> AllDone(h))
    ensures AtMostOneOpen(Step(h, a))
  {
  }

  lemma StepKeepsAgreement(h: Handle, a: Action)
    requires Inv(h) && AtMostOneOpen(h) && AllAgree(h)
    ensures AllAgree(Step(h, a))
  {
  }

  /** Calls that neither overlap nor follow a cancelled one all return the application's true outcome. */
  lemma {:induction false} SequentialCallsAgree(trace: seq<Action>)
    requires OneAtATime(trace)
    ensures AtMostOneOpen(Exec(trace)) && AllAgree(Exec(trace))
  {
    if trace != [] {
      var h := Exec(DropLast(trace));
      SequentialCallsAgree(DropLast(trace));
      ExecKeepsInv(DropLast(trace));
      StepKeepsOneOpen(h, Last(trace));
      StepKeepsAgreement(h, Last(trace));
    }
  }

  /** So each of them is told that the application is complete, or with what message it failed. */
  lemma SequentialCallsReport(trace: seq<Action>, id: nat)
    requires OneAtATime(trace) && HasReturned(Exec(trace), id)
    ensures var result := Exec(trace).calls[id].result;
            match Exec(trace).task
            case Alive => false
            case Returned(Ok(_)) => result == Completed
            case Returned(Err(message)) => result == Failed(message)
            case Vanished => result == Unexpected
  {
    SequentialCallsAgree(trace);
  }

  lemma ExecSnoc(trace: seq<Action>, a: Action)
    ensures Exec(trace + [a]) == Step(Exec(trace), a)
  {
  }

  /** The run up to the point where caller 0 holds the receiver and caller 1 has found the slot empty. */
  function Overlap(): seq<Action> {
    [Call(0)] + [Advance(0)] + [Advance(0)] + [Call(1)] + [Advance(1)] + [Advance(1)]
  }

  lemma OverlapState()
    ensures Exec(Overlap()) == Handle(None, false, Alive, map[0 := Awaiting, 1 := RereadingCache], HeldBy(0))
  {
  }

  /** Overlapping calls need not agree: the second caller is told `Unexpected`, the first one the truth. */
  lemma OverlappingCallsDisagree()
    ensures var trace := Overlap() + [Advance(1)] + [Finish(Returned(Ok(())))] + [Advance(0)] + [Advance(0)];
            At(Exec(trace), 0) == Some(Done(Completed)) && At(Exec(trace), 1) == Some(Done(Unexpected))
  {
    OverlapState();
    var t := Overlap();
    ExecSnoc(t, Advance(1));
    ExecSnoc(t + [Advance(1)], Finish(Returned(Ok(()))));
    ExecSnoc(t + [Advance(1)] + [Finish(Returned(Ok(())))], Advance(0));
    ExecSnoc(t + [Advance(1)] + [Finish(Returned(Ok(())))] + [Advance(0)], Advance(0));
  }

  // ---- The program ----

  /** What the clones of a handle share: the cache, and whether the receiver is still in its slot. */
  datatype Shared = Shared(cached: Option<ApplicationResult>, slotFull: bool)

  const UNTOUCHED := Shared(None, true)

  /**
   One poll of a call that finds the locks free: what it returns, or `None` if it is left waiting for the
   receiver it has taken, and what it leaves behind.  `holding` says that an earlier poll left it waiting.
   */
  function Polled(s: Shared, holding: bool, task: Task): (r: (Option<ApplicationResult>, Shared))
    ensures !task.Alive? ==> r.0.Some?
  {
    if !holding && s.cached.Some? then (s.cached, s)
    else if !holding && !s.slotFull then (Some(Unexpected), s)
    else
      var taken := if holding then s else s.(slotFull := false);
      if task.Alive? then (None, taken) else (Some(Classify(task)), taken.(cached := Some(Classify(task))))
  }

  class ApplicationHandle {
    var cachedResult: Option<ApplicationResult>
    var receiver: bool

    ghost function View(): Shared
      reads this
    {
      Shared(cachedResult, receiver)
    }

    constructor ()
      ensures View() == UNTOUCHED
    {
      cachedResult := None;
      receiver := true;
    }

    method ReadCached() returns (r: Option<ApplicationResult>)
      ensures r == cachedResult
    {
      r := cachedResult;
    }

    /** Takes the receiver out of its slot; tells whether it was there. */
    method TakeReceiver() returns (taken: bool)
      modifies this`receiver
      ensures taken == old(receiver) && !receiver
    {
      taken := receiver;
      receiver := false;
    }

    /**
     One poll of a call.  A call that is left waiting is polled again with `holding`, or dropped, and then the
     receiver is gone with it.
     */
    method WaitForCompletion(holding: bool, task: Task) returns (result: Option<ApplicationResult>)
      modifies this
      ensures (result, View()) == old(Polled(View(), holding, task))
      ensures !holding && old(cachedResult).Some? ==> result == old(cachedResult) && unchanged(this)
      ensures !holding && old(cachedResult).None? && !old(receiver) ==> result == Some(Unexpected) && unchanged(this)
      ensures holding || (old(cachedResult).None? && old(receiver)) ==>
                && (!holding ==> !receiver)
                && match task
                   case Alive => result == None && cachedResult == old(cachedResult)
                   case Returned(Ok(_)) => result == Some(Completed) == cachedResult
                   case Returned(Err(message)) => result == Some(Failed(message)) == cachedResult
                   case Vanished => result == Some(Unexpected) == cachedResult
    {
      if !holding {
        var first := ReadCached();
        if first.Some? {
          return first;
        }
        var maybeReceiver := TakeReceiver();
        if !maybeReceiver {
          var second := ReadCached();
          match second
          case Some(r) => return Some(r);
          case None => return Some(Unexpected);
        }
      }
      match task {
        case Alive => return None;
        case Returned(Ok(_)) => result := Some(Completed);
        case Returned(Err(message)) => result := Some(Failed(message));
        case Vanished => result := Some(Unexpected);
      }
      cachedResult := result;
    }
  }

  function AdvanceTimes(h: Handle, id: nat, n: nat): Handle
    decreases n
  {
    if n == 0 then h else AdvanceTimes(Step(h, Advance(id)), id, n - 1)
  }

  /** A call that has returned, or waits for a task that is still running, stays where it is. */
  lemma {:induction false} AdvanceRests(h: Handle, id: nat, n: nat)
    requires id in h.calls && (h.calls[id].Done? || (h.calls[id].Awaiting? && h.task.Alive?))
    ensures AdvanceTimes(h, id, n) == h
    decreases n
  {
    if n > 0 {
      AdvanceRests(h, id, n - 1);
    }
  }

  /** What a poll comes to is where the state machine stands after enough steps of that call. */
  ghost predicate PollEnds(h: Handle, h': Handle, id: nat)
    requires id in h.calls
  {
    var (result, shared) := Polled(Shared(h.cached, h.slotFull), h.calls[id].Awaiting?, h.task);
    && At(h', id) == Some(if result.Some? then Done(result.value) else Awaiting)
    && shared == Shared(h'.cached, h'.slotFull)
  }

  lemma WaitingPoll(h: Handle, id: nat, n: nat)
    requires At(h, id) == Some(Awaiting) && n >= 2
    ensures PollEnds(h, AdvanceTimes(h, id, n), id)
  {
    if h.task.Alive? {
      AdvanceRests(h, id, n);
    } else {
      AdvanceRests(Step(Step(h, Advance(id)), Advance(id)), id, n - 2);
    }
  }

  /** A poll of a new call, or of one that waits, is a schedule of the state machine. */
  lemma PollIsASchedule(h: Handle, id: nat)
    requires At(h, id) == Some(ReadingCache) || At(h, id) == Some(Awaiting)
    ensures PollEnds(h, AdvanceTimes(h, id, 4), id)
  {
    var h1 := Step(h, Advance(id));
    if At(h, id) == Some(Awaiting) {
      WaitingPoll(h, id, 4);
    } else if h.cached.Some? {
      AdvanceRests(h1, id, 3);
    } else if h.slotFull {
      WaitingPoll(Step(h1, Advance(id)), id, 2);
    } else {
      AdvanceRests(Step(Step(h1, Advance(id)), Advance(id)), id, 1);
    }
  }
}
