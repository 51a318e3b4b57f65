/**
 One HTTP exchange: the request body streamed to the application, the response streamed back, and the two
 tasks joined so that a failure of one cancels the other.
 */
module Http {
  import opened Prelude
  import opened Asgi

  /** What pulling on the request body yields, besides its end. */
  datatype Part = Chunk(data: seq<byte>) | Broken(message: string)

  /**
   Everything outside an exchange.  `hints(k)` is the upper size hint of the body stream after `k` parts;
   `slow(k)` says that waiting for part `k`, or for the end, times out; `reply` is what the application
   answers first, and `headersValid` whether a response can be built from it.
   */
  datatype Env = Env(
    parts: seq<Part>,
    hints: nat -> Option<nat>,
    slow: nat -> bool,
    sendFaults: nat -> Option<ApplicationResult>,
    reply: Reply,
    headersValid: bool)

  // ---- The request body ----

  /** After `k` parts the size hint leaves room for more. */
  predicate MoreAfter(env: Env, k: nat) {
    env.hints(k) != Some(0)
  }

  /**
   The events the application is to be sent once `k` parts were pulled and the last event left the body open
   or not, and the error that pulling ends with, if any.
   */
  function Offers(env: Env, k: nat, more: bool): (seq<ReceiveEvent>, Option<ArasError>)
    decreases |env.parts| - k
  {
    if env.slow(k) then ([], Some(Timeout))
    else if k >= |env.parts| then (if more then [HttpRequest([], false)] else [], None)
    else match env.parts[k]
      case Broken(message) => ([], Some(Custom("Failed to read body: " + message)))
      case Chunk(data) =>
        var (events, error) := Offers(env, k + 1, MoreAfter(env, k + 1));
        ([HttpRequest(data, MoreAfter(env, k + 1))] + events, error)
  }

  function AllOffers(env: Env): seq<ReceiveEvent> {
    Offers(env, 0, true).0
  }

  /** A body that is read to its end without a timeout or an error. */
  ghost predicate Readable(env: Env, k: nat) {
    && (forall i: nat :: k <= i <= |env.parts| ==> !env.slow(i))
    && (forall i :: k <= i < |env.parts| ==> env.parts[i].Chunk?)
  }

  /** The bytes of the request body that some events carry. */
  function BodyBytes(events: seq<ReceiveEvent>): seq<byte> {
    if events == [] then [] else (if events[0].HttpRequest? then events[0].body else []) + BodyBytes(events[1..])
  }

  /** The bytes of the request body. */
  function PartBytes(parts: seq<Part>): seq<byte> {
    if parts == [] then [] else (if parts[0].Chunk? then parts[0].data else []) + PartBytes(parts[1..])
  }

  lemma {:induction false} OffersAreRequests(env: Env, k: nat, more: bool)
    ensures forall e :: e in Offers(env, k, more).0 ==> e.HttpRequest?
    decreases |env.parts| - k
  {
    if !env.slow(k) && k < |env.parts| && env.parts[k].Chunk? {
      OffersAreRequests(env, k + 1, MoreAfter(env, k + 1));
    }
  }

  /** Reading ends without an error exactly if the body is readable to its end. */
  lemma {:induction false} ReadableExactly(env: Env, k: nat, more: bool)
    requires k <= |env.parts|
    ensures Offers(env, k, more).1 == None <==> Readable(env, k)
    decreases |env.parts| - k
  {
    if k < |env.parts| {
      ReadableExactly(env, k + 1, MoreAfter(env, k + 1));
      assert Readable(env, k) ==> Readable(env, k + 1);
      assert Readable(env, k + 1) && !env.slow(k) && env.parts[k].Chunk? ==> Readable(env, k);
    }
  }

  /** The bodies of the events make up the request body, whatever the chunking and the size hints. */
  lemma {:induction false} BodyConserved(env: Env, k: nat, more: bool)
    requires k <= |env.parts| && Readable(env, k)
    ensures BodyBytes(Offers(env, k, more).0) == PartBytes(env.parts[k..])
    decreases |env.parts| - k
  {
    if k < |env.parts| {
      BodyConserved(env, k + 1, MoreAfter(env, k + 1));
    }
  }

  /** All events but the last leave the body open, and the last one ends it. */
  ghost predicate WellMarked(events: seq<ReceiveEvent>) {
    && events != []
    && forall i :: 0 <= i < |events| ==> events[i].HttpRequest? && (events[i].moreBody <==> i < |events| - 1)
  }

  lemma WellMarkedCons(e: ReceiveEvent, rest: seq<ReceiveEvent>)
    requires e.HttpRequest?
    ensures WellMarked([e] + rest) <==> if rest == [] then !e.moreBody else e.moreBody && WellMarked(rest)
  {
    var events := [e] + rest;
    assert events[0] == e;
    if rest != [] && WellMarked(events) {
      forall i | 0 <= i < |rest| ensures rest[i].HttpRequest? && (rest[i].moreBody <==> i < |rest| - 1) {
        assert rest[i] == events[i + 1];
      }
    }
  }

  /**
   The events of a readable body are marked correctly exactly when the size hint never says that nothing is
   left while something is.
   */
  lemma {:induction false} MarkedExactly(env: Env, k: nat, more: bool)
    requires k <= |env.parts| && Readable(env, k)
    requires k == |env.parts| ==> more
    ensures WellMarked(Offers(env, k, more).0) <==> forall j: nat :: k < j < |env.parts| ==> env.hints(j) != Some(0)
    decreases |env.parts| - k
  {
    if k < |env.parts| {
      var m := MoreAfter(env, k + 1);
      WellMarkedCons(HttpRequest(env.parts[k].data, m), Offers(env, k + 1, m).0);
      if k + 1 < |env.parts| {
        MarkedExactly(env, k + 1, m);
      } else if m {
        MarkedExactly(env, k + 1, m);
      }
    }
  }

  /** The size hint never says that nothing is left while something is. */
  ghost predicate HintsHold(env: Env) {
    forall j: nat :: 0 < j < |env.parts| ==> env.hints(j) != Some(0)
  }

  /** A size hint that never promises less than what is left is such a hint. */
  lemma SoundHintsMark(env: Env)
    requires Readable(env, 0)
    requires forall k :: 0 <= k <= |env.parts| && env.hints(k).Some? ==> |env.parts| - k <= env.hints(k).value
    ensures HintsHold(env) && WellMarked(AllOffers(env))
  {
    MarkedExactly(env, 0, true);
  }

  /** A body of two chunks whose size hint says after the first one that nothing is left. */
  function WronglyHinted(): Env {
    Env([Chunk([1]), Chunk([2])], _ => Some(0), _ => false, _ => None, Elapsed, true)
  }

  /** For such a body the application is told twice that it has ended. */
  lemma WrongHintEndsTwice()
    ensures AllOffers(WronglyHinted()) == [HttpRequest([1], false), HttpRequest([2], false)]
    ensures !WellMarked(AllOffers(WronglyHinted()))
  {
    var env := WronglyHinted();
    assert !MoreAfter(env, 1) && !MoreAfter(env, 2);
    assert Offers(env, 2, false) == ([], None);
    assert env.parts[1] == Chunk([2]) && !env.slow(1);
    assert Offers(env, 1, false).0 == [HttpRequest([2], false)] + [];
    assert AllOffers(env)[0] == HttpRequest([1], false);
  }

  /** The parts before the k-th can all be had, and the wait for that one does not time out before. */
  ghost predicate ReadableUpTo(env: Env, k: nat) {
    k <= |env.parts| && forall i: nat :: i < k ==> !env.slow(i) && env.parts[i].Chunk?
  }

  /** Reading stops at the first wait that times out or part that is broken, with an error that says which. */
  lemma {:induction false} PullErrors(env: Env, k: nat, j: nat, more: bool)
    requires j <= k && ReadableUpTo(env, k)
    ensures env.slow(k) ==> Offers(env, j, more).1 == Some(Timeout)
    ensures !env.slow(k) && k < |env.parts| && env.parts[k].Broken? ==>
              Offers(env, j, more).1 == Some(Custom("Failed to read body: " + env.parts[k].message))
    decreases k - j
  {
    if j < k {
      PullErrors(env, k, j + 1, MoreAfter(env, j + 1));
    }
  }

  ghost predicate OpenBeforeLast(events: seq<ReceiveEvent>) {
    forall i :: 0 <= i < |events| - 1 ==> events[i].HttpRequest? && events[i].moreBody
  }

  lemma {:induction false} OffersOpenUntilLast(env: Env, k: nat, more: bool)
    requires HintsHold(env)
    ensures OpenBeforeLast(Offers(env, k, more).0)
    decreases |env.parts| - k
  {
    if !env.slow(k) && k < |env.parts| && env.parts[k].Chunk? {
      var m := MoreAfter(env, k + 1);
      var events, rest := Offers(env, k, more).0, Offers(env, k + 1, m).0;
      OffersOpenUntilLast(env, k + 1, m);
      assert forall i :: 1 <= i < |events| ==> events[i] == rest[i - 1];
    }
  }

  /** However reading ends, by itself or with a failed send, every event attempted but the last leaves the body open. */
  lemma OpenUntilLast(env: Env, log: seq<Attempt<ReceiveEvent>>)
    requires HintsHold(env)
    ensures var log' := Extend(env.sendFaults, log, AllOffers(env));
            forall i :: |log| <= i < |log'| - 1 ==> log'[i].item.HttpRequest? && log'[i].item.moreBody
  {
    OffersOpenUntilLast(env, 0, true);
    ExtendInOrder(env.sendFaults, log, AllOffers(env));
  }

  /** A body read with success has arrived: all its events, with all its bytes, marked as well as the hints allow. */
  ghost predicate BodyArrived(env: Env, events: seq<ReceiveEvent>) {
    && Readable(env, 0)
    && BodyBytes(events) == PartBytes(env.parts)
    && (WellMarked(events) <==> HintsHold(env))
  }

  lemma WholeBodyOffered(env: Env)
    requires Offers(env, 0, true).1 == None
    ensures BodyArrived(env, AllOffers(env))
  {
    ReadableExactly(env, 0, true);
    BodyConserved(env, 0, true);
    MarkedExactly(env, 0, true);
    assert env.parts[0..] == env.parts;
  }

  lemma ReadMeansArrived(env: Env, log: seq<Attempt<ReceiveEvent>>)
    requires BodyResult(env, |log|, 0, true).Ok?
    ensures Arrived(Extend(env.sendFaults, log, AllOffers(env))) == Arrived(log) + AllOffers(env)
    ensures BodyArrived(env, AllOffers(env))
  {
    WholeBodyOffered(env);
    AllArrive(env.sendFaults, log, AllOffers(env));
  }

  /** The sending end towards the application. */
  class Outbox {
    const sendFaults: nat -> Option<ApplicationResult>
    var sends: seq<Attempt<ReceiveEvent>>

    constructor (sendFaults: nat -> Option<ApplicationResult>)
      ensures this.sendFaults == sendFaults && sends == []
    {
      this.sendFaults := sendFaults;
      sends := [];
    }

    method Send(m: ReceiveEvent) returns (r: Result<(), ApplicationResult>)
      modifies this
      ensures (sends, r) == Tried(sendFaults, old(sends), m)
    {
      var tried := Tried(sendFaults, sends, m);
      sends, r := tried.0, tried.1;
    }
  }

  /** How reading the body ends: with a failed send, with a failed pull, or well. */
  function BodyResult(env: Env, start: nat, k: nat, more: bool): Result<(), ArasError> {
    var (events, error) := Offers(env, k, more);
    match Failure(env.sendFaults, start, |events|)
    case Some(e) => Err(AsError(e))
    case None => if error.Some? then Err(error.value) else Ok(())
  }

  /** One iteration of the loop: an event is attempted, and the rest follows if it went through. */
  lemma ReadStep(env: Env, log: seq<Attempt<ReceiveEvent>>, k: nat, more: bool)
    requires k < |env.parts| && !env.slow(k) && env.parts[k].Chunk?
    ensures var m := MoreAfter(env, k + 1);
            var (log', r) := Tried(env.sendFaults, log, HttpRequest(env.parts[k].data, m));
            && Extend(env.sendFaults, log, Offers(env, k, more).0)
                 == (if r.Ok? then Extend(env.sendFaults, log', Offers(env, k + 1, m).0) else log')
            && BodyResult(env, |log|, k, more)
                 == if r.Ok? then BodyResult(env, |log'|, k + 1, m) else Err(AsError(r.error))
  {
    var events := Offers(env, k, more).0;
    assert events[1..] == Offers(env, k + 1, MoreAfter(env, k + 1)).0;
  }

  method ReadBody(env: Env, out: Outbox) returns (r: Result<(), ArasError>)
    requires out.sendFaults == env.sendFaults
    modifies out
    ensures out.sends == Extend(env.sendFaults, old(out.sends), AllOffers(env))
    ensures r == BodyResult(env, |old(out.sends)|, 0, true)
    ensures r.Ok? ==>
              && Arrived(out.sends) == Arrived(old(out.sends)) + AllOffers(env)
              && BodyArrived(env, AllOffers(env))
  {
    var moreBody := true;
    var pulled := 0;
    while true
      invariant pulled <= |env.parts|
      invariant Extend(env.sendFaults, out.sends, Offers(env, pulled, moreBody).0)
             == Extend(env.sendFaults, old(out.sends), AllOffers(env))
      invariant BodyResult(env, |out.sends|, pulled, moreBody) == BodyResult(env, |old(out.sends)|, 0, true)
      decreases |env.parts| - pulled
    {
      if env.slow(pulled) {
        return Err(Timeout);
      }
      if pulled == |env.parts| {
        break;
      }
      match env.parts[pulled] {
        case Broken(message) => return Err(Custom("Failed to read body: " + message));
        case Chunk(data) =>
          ReadStep(env, out.sends, pulled, moreBody);
          moreBody := env.hints(pulled + 1) != Some(0);
          pulled := pulled + 1;
          var sent := out.Send(HttpRequest(data, moreBody));
          if sent.Err? {
            return Err(AsError(sent.error));
          }
      }
    }
    if moreBody {
      ExtendOne(env.sendFaults, out.sends, HttpRequest([], false));
      var sent := out.Send(HttpRequest([], false));
      if sent.Err? {
        return Err(AsError(sent.error));
      }
    }
    r := Ok(());
    ReadMeansArrived(env, old(out.sends));
  }

  // ---- Two tasks, joined ----

  /** Where reading the body stands: about to pull, about to send what was pulled, or at its end. */
  datatype BodyTask =
    | Pulling(pulled: nat, more: bool)
    | Sending(pulled: nat, event: ReceiveEvent)
    | SendingEnd
    | BodyEnded(result: Result<(), ArasError>)

  /** Where producing the response stands. */
  datatype ResponseTask = Waiting | ResponseEnded(result: Result<(u16, Headers), ArasError>)

  datatype Who = Body | Response

  datatype Exchange = Exchange(body: BodyTask, response: ResponseTask, sends: seq<Attempt<ReceiveEvent>>)

  const FRESH_EXCHANGE := Exchange(Pulling(0, true), Waiting, [])

  function AttemptSend(env: Env, x: Exchange, m: ReceiveEvent, next: BodyTask): Exchange {
    match env.sendFaults(|x.sends|)
    case None => x.(sends := x.sends + [Attempt(m, true)], body := next)
    case Some(e) => x.(sends := x.sends + [Attempt(m, false)], body := BodyEnded(Err(AsError(e))))
  }

  /** One step of reading the body, from one `await` to the next. */
  function BodyStep(env: Env, x: Exchange): Exchange {
    match x.body
    case Pulling(k, more) =>
      if env.slow(k) then x.(body := BodyEnded(Err(Timeout)))
      else if k >= |env.parts| then x.(body := if more then SendingEnd else BodyEnded(Ok(())))
      else (match env.parts[k]
        case Broken(message) => x.(body := BodyEnded(Err(Custom("Failed to read body: " + message))))
        case Chunk(data) => x.(body := Sending(k + 1, HttpRequest(data, MoreAfter(env, k + 1)))))
    case Sending(k, event) => AttemptSend(env, x, event, Pulling(k, MoreAfter(env, k)))
    case SendingEnd => AttemptSend(env, x, HttpRequest([], false), BodyEnded(Ok(())))
    case BodyEnded(_) => x
  }

  function FirstReply(env: Env): Result<(u16, Headers), ArasError> {
    match env.reply
    case Elapsed => Err(Timeout)
    case Replied(Ok(HttpResponseStart(status, headers))) =>
      if env.headersValid then Ok((status, headers)) else Err(HttpError)
    case Replied(Ok(e)) => Err(UnexpectedAsgiMessage(e))
    case Replied(Err(r)) => Err(AsError(r))
  }

  /** Both tasks have succeeded, or one of them has failed and the other is dropped where it stands. */
  predicate Joined(x: Exchange) {
    || (x.body.BodyEnded? && x.body.result.Err?)
    || (x.response.ResponseEnded? && x.response.result.Err?)
    || (x.body.BodyEnded? && x.response.ResponseEnded?)
  }

  function ExchangeStep(env: Env, x: Exchange, who: Who): Exchange {
    if Joined(x) then x
    else match who
      case Body => BodyStep(env, x)
      case Response => x.(response := ResponseEnded(FirstReply(env)))
  }

  function Exec(env: Env, schedule: seq<Who>): Exchange {
    if schedule == [] then FRESH_EXCHANGE else ExchangeStep(env, Exec(env, DropLast(schedule)), Last(schedule))
  }

  /** The whole exchange: once the tasks are joined a disconnect is attempted, whatever they came to. */
  function Handle(env: Env, schedule: seq<Who>): seq<Attempt<ReceiveEvent>> {
    var x := Exec(env, schedule);
    if Joined(x) then Extend(env.sendFaults, x.sends, [HttpDisconnect]) else x.sends
  }

  /** What reading the body is still going to send. */
  function Remaining(env: Env, t: BodyTask): seq<ReceiveEvent> {
    match t
    case Pulling(k, more) => Offers(env, k, more).0
    case Sending(k, event) => [event] + Offers(env, k, MoreAfter(env, k)).0
    case SendingEnd => [HttpRequest([], false)]
    case BodyEnded(_) => []
  }

  /** The error that reading the body ends with if no send fails. */
  function RemainingError(env: Env, t: BodyTask): Option<ArasError> {
    match t
    case Pulling(k, more) => Offers(env, k, more).1
    case Sending(k, event) => Offers(env, k, MoreAfter(env, k)).1
    case SendingEnd => None
    case BodyEnded(_) => None
  }

  /**
   The body task has sent a prefix of what it is to send; when it has ended, with success or failure, it has
   done and come to exactly what reading the body without interruption does.
   */
  ghost predicate OnTrack(env: Env, x: Exchange) {
    if x.body.BodyEnded? then
      && x.sends == Extend(env.sendFaults, [], AllOffers(env))
      && x.body.result == BodyResult(env, 0, 0, true)
    else
      && Extend(env.sendFaults, x.sends, Remaining(env, x.body)) == Extend(env.sendFaults, [], AllOffers(env))
      && Failure(env.sendFaults, |x.sends|, |Remaining(env, x.body)|) == Failure(env.sendFaults, 0, |AllOffers(env)|)
      && RemainingError(env, x.body) == Offers(env, 0, true).1
  }

  lemma TailOfCons(e: ReceiveEvent, rest: seq<ReceiveEvent>)
    ensures ([e] + rest)[1..] == rest
  {
  }

  lemma ExtendPrefix(env: Env, log: seq<Attempt<ReceiveEvent>>, items: seq<ReceiveEvent>)
    ensures log <= Extend(env.sendFaults, log, items)
  {
    ExtendKeeps(env.sendFaults, log, items);
  }

  lemma BodyStepOnTrack(env: Env, x: Exchange)
    requires OnTrack(env, x) && !x.body.BodyEnded?
    ensures OnTrack(env, BodyStep(env, x))
  {
    var rest := Remaining(env, x.body);
    ExtendPrefix(env, x.sends, rest);
    if x.body.Sending? {
      TailOfCons(x.body.event, Offers(env, x.body.pulled, MoreAfter(env, x.body.pulled)).0);
    } else if x.body.SendingEnd? {
      ExtendOne(env.sendFaults, x.sends, HttpRequest([], false));
    }
  }

  lemma {:induction false} ExecOnTrack(env: Env, schedule: seq<Who>)
    ensures OnTrack(env, Exec(env, schedule))
    ensures var x := Exec(env, schedule);
            x.response.ResponseEnded? ==> x.response.result == FirstReply(env)
  {
    if schedule != [] {
      ExecOnTrack(env, DropLast(schedule));
      var x := Exec(env, DropLast(schedule));
      if !Joined(x) && Last(schedule) == Body && !x.body.BodyEnded? {
        BodyStepOnTrack(env, x);
      }
    }
  }

  /**
   Whatever the interleaving, and whichever task fails first: the application is sent a prefix of the events of
   the request body, all of them if reading was not cut short, and after the tasks are joined exactly one
   disconnect, which is last.
   */
  lemma HandleSends(env: Env, schedule: seq<Who>)
    ensures var x := Exec(env, schedule);
            && x.sends <= Extend(env.sendFaults, [], AllOffers(env))
            && (x.body.BodyEnded? ==> x.sends == Extend(env.sendFaults, [], AllOffers(env)))
            && (forall a :: a in x.sends ==> a.item.HttpRequest?)
            && Handle(env, schedule) == x.sends +
                 if Joined(x) then [Attempt(HttpDisconnect, env.sendFaults(|x.sends|).None?)] else []
  {
    ExecOnTrack(env, schedule);
    var x := Exec(env, schedule);
    ExtendPrefix(env, x.sends, Remaining(env, x.body));
    ExtendKeeps(env.sendFaults, [], AllOffers(env));
    OffersAreRequests(env, 0, true);
    ExtendOne(env.sendFaults, x.sends, HttpDisconnect);
  }

  /** Wherever the exchange stops, every event sent so far but the last leaves the body open. */
  lemma CutOffIsOpen(env: Env, schedule: seq<Who>)
    requires HintsHold(env)
    ensures var sends := Exec(env, schedule).sends;
            forall i :: 0 <= i < |sends| - 1 ==> sends[i].item.HttpRequest? && sends[i].item.moreBody
  {
    HandleSends(env, schedule);
    OpenUntilLast(env, []);
  }

  /** What a joined exchange comes to: the error of the task that failed, or the response. */
  function Outcome(x: Exchange): Result<(u16, Headers), ArasError>
    requires Joined(x)
  {
    if x.body.BodyEnded? && x.body.result.Err? then Err(x.body.result.error) else x.response.result
  }

  /** Nothing that is sent to the application during the exchange fails. */
  ghost predicate Reachable(env: Env) {
    forall i: nat :: i < |AllOffers(env)| ==> env.sendFaults(i) == None
  }

  /** What the application's first answer makes of the response. */
  ghost predicate AnsweredWith(env: Env, r: Result<(u16, Headers), ArasError>) {
    match env.reply
    case Elapsed => r == Err(Timeout)
    case Replied(Ok(HttpResponseStart(status, headers))) =>
      r == if env.headersValid then Ok((status, headers)) else Err(HttpError)
    case Replied(Ok(other)) => r == Err(UnexpectedAsgiMessage(other))
    case Replied(Err(Completed)) => r == Err(ApplicationNotRunning)
    case Replied(Err(Failed(message))) => r == Err(ApplicationError(message))
    case Replied(Err(Unexpected)) => r == Err(AsError(Unexpected))
  }

  lemma BodyGoesWell(env: Env)
    requires Readable(env, 0) && Reachable(env)
    ensures BodyResult(env, 0, 0, true) == Ok(())
  {
    ReadableExactly(env, 0, true);
    var n := |AllOffers(env)|;
    FailureAtFirstFault(env.sendFaults, 0, n, FirstFault(env.sendFaults, 0, n));
  }

  /** A failed send ends reading with the error of that failure, whatever else would have gone wrong later. */
  lemma SendErrors(env: Env, j: nat)
    requires j < |AllOffers(env)| && env.sendFaults(j).Some?
    requires forall i: nat :: i < j ==> env.sendFaults(i).None?
    ensures BodyResult(env, 0, 0, true) == Err(AsError(env.sendFaults(j).value))
  {
    var n := |AllOffers(env)|;
    FailureAtFirstFault(env.sendFaults, 0, n, FirstFault(env.sendFaults, 0, n));
    assert FirstFault(env.sendFaults, 0, n) == j;
  }

  /** If the body can be read and sent, the outcome is decided by the application's first answer alone. */
  lemma OutcomeIsTheAnswer(env: Env, schedule: seq<Who>)
    requires Joined(Exec(env, schedule))
    requires Readable(env, 0) && Reachable(env)
    ensures AnsweredWith(env, Outcome(Exec(env, schedule)))
    ensures forall response :: Outcome(Exec(env, schedule)) == Ok(response) <==>
              env.reply == Replied(Ok(HttpResponseStart(response.0, response.1))) && env.headersValid
  {
    ExecOnTrack(env, schedule);
    BodyGoesWell(env);
    assert AnsweredWith(env, FirstReply(env));
  }

  /** A response task that has ended has ended as the first answer says, whatever becomes of the body. */
  lemma ResponseEndsAsAnswered(env: Env, schedule: seq<Who>)
    requires Exec(env, schedule).response.ResponseEnded?
    ensures AnsweredWith(env, Exec(env, schedule).response.result)
  {
    ExecOnTrack(env, schedule);
    assert AnsweredWith(env, FirstReply(env));
  }

  /**
   The tasks are joined exactly when one of them has failed or both have ended, and then nothing changes any more:
   the failure of one keeps the other from sending anything further.
   */
  lemma JoinIsFinal(env: Env, schedule: seq<Who>, who: Who)
    ensures var x := Exec(env, schedule);
            var failed := || (x.response.ResponseEnded? && x.response.result.Err?)
                          || (x.body.BodyEnded? && x.body.result.Err?);
            var ended := failed || (x.body.BodyEnded? && x.response.ResponseEnded?);
            && (ended ==> Exec(env, schedule + [who]) == x)
            && |Handle(env, schedule)| == |x.sends| + if ended then 1 else 0
  {
    assert DropLast(schedule + [who]) == schedule;
    ExtendOne(env.sendFaults, Exec(env, schedule).sends, HttpDisconnect);
  }

  /** Until then each of them can go on. */
  lemma UnjoinedGoesOn(env: Env, schedule: seq<Who>)
    requires !Joined(Exec(env, schedule))
    ensures Exec(env, schedule).body.BodyEnded? || Exec(env, schedule + [Body]).body != Exec(env, schedule).body
    ensures Exec(env, schedule + [Response]).response.ResponseEnded?
  {
    assert DropLast(schedule + [Body]) == schedule && DropLast(schedule + [Response]) == schedule;
  }

  /**
   The outcome is a response only if both tasks succeed, and else the error of one that fails; where both would
   fail, the interleaving decides which.
   */
  lemma OutcomeIsCaused(env: Env, schedule: seq<Who>)
    requires Joined(Exec(env, schedule))
    ensures match Outcome(Exec(env, schedule))
            case Ok(response) => BodyResult(env, 0, 0, true).Ok? && FirstReply(env) == Ok(response)
            case Err(e) => BodyResult(env, 0, 0, true) == Err(e) || FirstReply(env) == Err(e)
  {
    ExecOnTrack(env, schedule);
  }

  /**
   If the exchange yields a response, the application has answered with a response start, and the whole request
   body has arrived.
   */
  lemma SuccessIsComplete(env: Env, schedule: seq<Who>)
    requires Joined(Exec(env, schedule)) && Outcome(Exec(env, schedule)).Ok?
    ensures var x := Exec(env, schedule);
            && Arrived(x.sends) == AllOffers(env)
            && BodyArrived(env, Arrived(x.sends))
            && env.reply.Replied? && env.reply.reply.Ok? && env.reply.reply.value.HttpResponseStart?
            && Outcome(x).value == (env.reply.reply.value.status, env.reply.reply.value.headers)
  {
    ExecOnTrack(env, schedule);
    ReadMeansArrived(env, []);
    assert [] + AllOffers(env) == AllOffers(env);
  }

  // ---- The response stream ----

  datatype Item = Data(bytes: seq<byte>) | Problem(error: ArasError)

  /** Each answer of the application becomes one item of the response body. */
  function ItemOf(reply: Reply): Item {
    match reply
    case Elapsed => Problem(Timeout)
    case Replied(Ok(HttpResponseBody(body, _))) => Data(body)
    case Replied(Ok(e)) => Problem(UnexpectedAsgiMessage(e))
    case Replied(Err(r)) => Problem(AsError(r))
  }

  /** The answers after which nothing more is received: the end of the body, or none in time. */
  predicate Ends(reply: Reply) {
    reply.Elapsed? ||
    (reply.reply.Ok? && reply.reply.value.HttpResponseBody? && !reply.reply.value.moreBody)
  }

  /** Items and answers correspond one to one, up to and including the first answer that ends the stream. */
  ghost predicate Streamed(replies: seq<Reply>, items: seq<Item>) {
    && |items| <= |replies|
    && (forall i :: 0 <= i < |items| ==> items[i] == ItemOf(replies[i]))
    && (forall i :: 0 <= i < |items| - 1 ==> !Ends(replies[i]))
    && (|items| < |replies| ==> items != [] && Ends(replies[|items| - 1]))
  }

  /** How the client is told of an answer: the bytes of a body event as they are, anything else as one error. */
  ghost predicate ToldAs(reply: Reply, item: Item) {
    match reply
    case Elapsed => item == Problem(Timeout)
    case Replied(Ok(HttpResponseBody(body, _))) => item == Data(body)
    case Replied(Ok(other)) => item == Problem(UnexpectedAsgiMessage(other))
    case Replied(Err(Completed)) => item == Problem(ApplicationNotRunning)
    case Replied(Err(Failed(message))) => item == Problem(ApplicationError(message))
    case Replied(Err(Unexpected)) => item == Problem(AsError(Unexpected))
  }

  /** A timeout, or a body event without more to come. */
  ghost predicate Final(reply: Reply) {
    reply == Elapsed || exists body :: reply == Replied(Ok(HttpResponseBody(body, false)))
  }

  /** The body of a response, for as many answers as the application gives while the client reads it. */
  method StreamResponse(replies: seq<Reply>) returns (items: seq<Item>, open: bool)
    ensures Streamed(replies, items)
    ensures forall i :: 0 <= i < |items| ==> ToldAs(replies[i], items[i])
    ensures forall i :: 0 <= i < |items| && Final(replies[i]) ==> i == |items| - 1 && !open
    ensures |items| < |replies| ==> items != [] && Final(replies[|items| - 1])
    ensures open <==> items == [] || !Ends(replies[|items| - 1])
  {
    items := [];
    var moreData := true;
    while moreData && |items| < |replies|
      invariant |items| <= |replies|
      invariant forall i :: 0 <= i < |items| ==> items[i] == ItemOf(replies[i])
      invariant forall i :: 0 <= i < |items| - 1 ==> !Ends(replies[i])
      invariant moreData <==> items == [] || !Ends(replies[|items| - 1])
      decreases |replies| - |items|
    {
      match replies[|items|] {
        case Elapsed =>
          items := items + [Problem(Timeout)];
          return items, false;
        case Replied(Ok(HttpResponseBody(body, moreBody))) =>
          moreData := moreBody;
          items := items + [Data(body)];
        case Replied(Ok(e)) => items := items + [Problem(UnexpectedAsgiMessage(e))];
        case Replied(Err(r)) => items := items + [Problem(AsError(r))];
      }
    }
    open := moreData;
  }

  /** The bytes an application has given as its response body: those of its body events, up to the final one. */
  function ResponseBytes(replies: seq<Reply>): seq<byte> {
    if replies == [] then []
    else match replies[0]
      case Elapsed => []
      case Replied(Ok(HttpResponseBody(body, more))) => body + if more then ResponseBytes(replies[1..]) else []
      case _ => ResponseBytes(replies[1..])
  }

  function Collected(items: seq<Item>): seq<byte> {
    if items == [] then [] else (if items[0].Data? then items[0].bytes else []) + Collected(items[1..])
  }

  /** No problem on the way loses any data: the client can collect all bytes of the response body, in order. */
  lemma {:induction false} StreamCarriesBody(replies: seq<Reply>, items: seq<Item>)
    requires Streamed(replies, items)
    ensures Collected(items) == ResponseBytes(replies)
    decreases |replies|
  {
    if replies != [] && !Ends(replies[0]) {
      assert Streamed(replies[1..], items[1..]) by {
        assert forall i :: 0 <= i < |items| - 1 ==> items[1..][i] == items[i + 1];
        assert forall i :: 0 <= i < |items| - 1 ==> replies[1..][i] == replies[i + 1];
      }
      StreamCarriesBody(replies[1..], items[1..]);
    }
  }
}
