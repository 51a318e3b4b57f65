/**
 A whole WebSocket session: the handshake with the application, and the connection if it accepts.
 Further, what a client gets back from an application that echoes.
 */
module Sessions {
  import opened Prelude
  import opened Asgi
  import opened Fragmentation
  import opened Reassembly
  import opened Websocket
  import opened ConnectionTheorems
  import Completion

  datatype ConnectResponse = Accept(subprotocol: Option<string>, headers: Headers) | Refuse(reason: seq<byte>)

  /** What becomes of the HTTP upgrade once the application has accepted. */
  datatype Upgrade = UpgradeRejected(cause: WebSocketError) | UpgradeLost | Upgraded

  /**
   The outcomes of the handshake that are decided outside: the clock, the checks of the headers of the answer
   and of the two responses merged, and the upgrade.
   */
  datatype Handshake = Handshake(timedOut: bool, headersValid: bool, upgrade: Upgrade, mergeable: bool)

  function ConnectReply(e: SendEvent, headersValid: bool): Result<ConnectResponse, ArasError> {
    match e
    case WebsocketAccept(subprotocol, headers) =>
      if headersValid then Ok(Accept(subprotocol, headers)) else Err(HttpError)
    case WebsocketClose(_, reason) => Ok(Refuse(reason))
    case _ => Err(UnexpectedAsgiMessage(e))
  }

  /** The state in which the connection loop starts: the application was told of the client and has answered. */
  function Greeted(env: Env, hs: Handshake): Conn {
    var told := env.sendFaults(0).None?;
    var answered := told && !hs.timedOut;
    Conn([], 0, if answered && env.app != [] then 1 else 0, [], [Attempt(WebsocketConnect, told)],
         if answered && env.app == [] then Completion.Polled(Completion.UNTOUCHED, false, env.task).1
         else Completion.UNTOUCHED)
  }

  function Answer(env: Env, hs: Handshake): Result<ConnectResponse, ArasError> {
    if env.sendFaults(0).Some? then Err(AsError(env.sendFaults(0).value))
    else if hs.timedOut then Err(Timeout)
    else if env.app == [] then Err(AsError(Completion.Classify(env.task)))
    else ConnectReply(env.app[0], hs.headersValid)
  }

  predicate Connects(env: Env, hs: Handshake) {
    Answer(env, hs).Ok? && Answer(env, hs).value.Accept? && hs.upgrade == Upgraded
  }

  /** Everything a session does: greet the application, and run the protocol if that ends in a connection. */
  function Session(env: Env, hs: Handshake, schedule: seq<Side>): (Conn, State) {
    if Connects(env, hs) then Run(env, Greeted(env, hs), Starting, schedule) else (Greeted(env, hs), Starting)
  }

  /** The application could be told of the client, and what it says or how it ends is known in time. */
  predicate InTime(env: Env, hs: Handshake) {
    env.sendFaults(0) == None && !hs.timedOut
  }

  /** What asking the application must come to, cause by cause. */
  ghost predicate AnswersRightly(env: Env, hs: Handshake, r: Result<ConnectResponse, ArasError>) {
    && (forall e :: env.sendFaults(0) == Some(e) ==> r == Err(AsError(e)))
    && (env.sendFaults(0) == None && hs.timedOut ==> r == Err(Timeout))
    && (InTime(env, hs) && env.app == [] ==>
          match env.task
          case Returned(Ok(_)) => r == Err(ApplicationNotRunning)
          case Returned(Err(message)) => r == Err(ApplicationError(message))
          case Vanished => r == Err(AsError(Unexpected)))
    && (InTime(env, hs) && env.app != [] ==>
          match env.app[0]
          case WebsocketAccept(subprotocol, headers) =>
            r == if hs.headersValid then Ok(Accept(subprotocol, headers)) else Err(HttpError)
          case WebsocketClose(_, reason) => r == Ok(Refuse(reason))
          case other => r == Err(UnexpectedAsgiMessage(other)))
  }

  method AcceptClient(ctx: Context, hs: Handshake) returns (r: Result<ConnectResponse, ArasError>)
    requires ctx.View() == NEW_CONN
    modifies ctx, ctx.handle
    ensures r == Answer(ctx.env, hs) && ctx.View() == Greeted(ctx.env, hs)
    ensures AnswersRightly(ctx.env, hs, r)
  {
    var sent := ctx.SendToApp(WebsocketConnect);
    if sent.Err? {
      return Err(AsError(sent.error));
    }
    if hs.timedOut {
      return Err(Timeout);
    }
    var reply := ctx.ReceiveFromApp();
    match reply
    case Ok(e) => r := ConnectReply(e, hs.headersValid);
    case Err(e) => r := Err(AsError(e));
  }

  /** The application accepted the client, and a response can be built from its answer. */
  predicate Accepted(env: Env, hs: Handshake) {
    InTime(env, hs) && env.app != [] && env.app[0].WebsocketAccept? && hs.headersValid
  }

  /**
   What the request must be answered with: an acceptance exactly if the upgrade was not rejected and the responses
   merge, and then the application's own; a refusal exactly if the application refused, and its own; and otherwise
   the error of the step that failed.
   */
  ghost predicate RespondsRightly(env: Env, hs: Handshake, r: Result<ConnectResponse, ArasError>) {
    && (r.Ok? && r.value.Accept? <==> Accepted(env, hs) && !hs.upgrade.UpgradeRejected? && hs.mergeable)
    && (r.Ok? && r.value.Accept? ==> WebsocketAccept(r.value.subprotocol, r.value.headers) == env.app[0])
    && (r.Ok? && r.value.Refuse? <==> InTime(env, hs) && env.app != [] && env.app[0].WebsocketClose?)
    && (r.Ok? && r.value.Refuse? ==> r.value.reason == env.app[0].reason)
    && (Accepted(env, hs) && hs.upgrade.UpgradeRejected? ==> r == Err(WebsocketError(hs.upgrade.cause)))
    && (Accepted(env, hs) && !hs.upgrade.UpgradeRejected? && !hs.mergeable ==> r == Err(HttpError))
    && (!Accepted(env, hs) ==> AnswersRightly(env, hs, r))
  }

  method Handle(ctx: Context, hs: Handshake, schedule: seq<Side>)
    returns (r: Result<ConnectResponse, ArasError>, ghost state: State)
    requires ctx.View() == NEW_CONN
    modifies ctx, ctx.handle
    ensures (ctx.View(), state) == Session(ctx.env, hs, schedule)
    ensures RespondsRightly(ctx.env, hs, r)
  {
    state := Starting;
    r := AcceptClient(ctx, hs);
    if r.Err? || !r.value.Accept? {
      return;
    }
    match hs.upgrade {
      case UpgradeRejected(cause) => return Err(WebsocketError(cause)), state;
      case UpgradeLost =>
      case Upgraded => state := RunProtocol(ctx, schedule);
    }
    if !hs.mergeable {
      r := Err(HttpError);
    }
  }

  // ---- Whole sessions ----

  /** A connection is run exactly for a client of which the application was told and which it accepted in time. */
  lemma ConnectsExactly(env: Env, hs: Handshake)
    ensures Connects(env, hs) <==>
              && env.sendFaults(0) == None && !hs.timedOut
              && env.app != [] && env.app[0].WebsocketAccept?
              && hs.headersValid && hs.upgrade == Upgraded
  {
  }

  lemma Greeting(env: Env, hs: Handshake)
    ensures Arrived(Greeted(env, hs).sends) == if env.sendFaults(0).None? then [WebsocketConnect] else []
  {
  }

  /**
   What an application that accepts receives over the whole session is the connect event, then the data messages
   consumed from the client, in order, with at most the very last one missing, then at most one disconnect.
   */
  lemma SessionHears(env: Env, hs: Handshake, schedule: seq<Side>)
    requires Connects(env, hs)
    ensures var (c, s) := Session(env, hs, schedule);
            && c.clientRead <= |env.client|
            && var heard := ToldOf(env.utf8, env.client[..c.clientRead]);
               var k := FirstFault(env.sendFaults, 1, |heard|);
               && |heard| <= k + 1 && (k < |heard| ==> s.Closed?)
               && (s.Closed? ==> c.sends != [] && Last(c.sends).item.WebsocketDisconnect?)
               && Arrived(c.sends) == [WebsocketConnect] + heard[..k] +
                    if s.Closed? && Last(c.sends).ok then [Last(c.sends).item] else []
  {
    Greeting(env, hs);
    ApplicationHears(env, Greeted(env, hs), schedule);
    var c := Session(env, hs, schedule).0;
    assert env.client[0..c.clientRead] == env.client[..c.clientRead];
  }

  /** An application that is not told of the client, does not answer or does not accept gets nothing further. */
  lemma RefusedSession(env: Env, hs: Handshake, schedule: seq<Side>)
    requires !Connects(env, hs)
    ensures var (c, s) := Session(env, hs, schedule);
            && c.writes == [] && c.turns == [] && !s.Closed?
            && |c.sends| == 1 && c.sends[0].item == WebsocketConnect
            && Arrived(c.sends) == if env.sendFaults(0).None? then [WebsocketConnect] else []
  {
  }

  /** Over a whole session the client gets what the application sends after its acceptance, whole and in order. */
  lemma SessionDelivers(env: Env, hs: Handshake, schedule: seq<Side>)
    requires Connects(env, hs)
    ensures var (c, s) := Session(env, hs, schedule);
            && 1 <= c.appRead <= |env.app|
            && var messages := MessagesIn(env.app[1..c.appRead]);
               var k := WholeMessages(messages, env.Max(), FramesWritten(env, messages));
               var p := Reassemble(Arrived(c.writes));
               && |messages| <= k + 1 && (k < |messages| ==> s.Closed?)
               && !p.violated && p.delivered == Contents(messages[..k])
  {
    ClientReceives(env, Greeted(env, hs), schedule);
  }

  // ---- Conversions ----

  /** Events of other protocols never get past the conversions: the connection only ever sees its own. */
  lemma OnlyWebsocketEvents(utf8: Utf8, turn: Turn)
    ensures match EventOf(utf8, turn)
            case FrameReceived(m) => m.WebsocketReceive? || m.WebsocketDisconnect?
            case AsgiEventReceived(e) => e.WebsocketSend? || e.WebsocketClose?
            case _ => true
  {
  }

  lemma BigEndianSplits(hi: byte, lo: byte)
    ensures (BigEndian(hi, lo) / 0x100) as byte == hi && (BigEndian(hi, lo) % 0x100) as byte == lo
  {
    assert (hi as int * 0x100 + lo as int) / 0x100 == hi as int;
  }

  /** A close frame is answered with the same payload exactly when it has a code and its reason survives decoding. */
  lemma CloseEchoes(utf8: Utf8, f: Frame)
    requires f.opcode.Close?
    ensures FrameEvent(utf8, f).FrameReceived? && FrameEvent(utf8, f).message.WebsocketDisconnect?
    ensures var m := FrameEvent(utf8, f).message;
            var echoed := CloseFrame(Closing(m.code, m.reason)).payload == f.payload;
            echoed <==> |f.payload| >= 2 && utf8.lossy(f.payload[2..]) == f.payload[2..]
  {
    if |f.payload| >= 2 {
      var hi, lo := f.payload[0], f.payload[1];
      BigEndianSplits(hi, lo);
      assert f.payload == [hi, lo] + f.payload[2..];
      assert ([hi, lo] + utf8.lossy(f.payload[2..]))[2..] == utf8.lossy(f.payload[2..]);
    }
  }

  // ---- Echo ----

  /** The message an echoing application sends back: the very bytes or text it was told the client sent. */
  function Echo(utf8: Utf8, m: Message): (echo: Message)
    ensures echo.opcode.Text? || echo.opcode.Binary?
  {
    match FrameEvent(utf8, Frame(true, m.opcode, m.payload))
    case FrameReceived(WebsocketReceive(bytes, text)) => MessageOf(bytes, text)
    case _ => Message(Binary, [])
  }

  function Echoes(utf8: Utf8, messages: seq<Message>): seq<Message> {
    seq(|messages|, i requires 0 <= i < |messages| => Echo(utf8, messages[i]))
  }

  /**
   What a client reassembles from an echoing application is exactly what it sent, for every frame limit,
   if and only if each of its text messages is valid UTF-8 or empty.
   */
  lemma EchoIdentity(utf8: Utf8, messages: seq<Message>, max: Pos)
    requires DataMessages(messages)
    ensures Reassemble(Stream(Echoes(utf8, messages), max)).delivered == Contents(messages)
       <==> forall m :: m in messages && m.opcode.Text? ==> utf8.valid(m.payload) || m.payload == []
  {
    var echoes := Echoes(utf8, messages);
    FragmentReassemble(echoes, max);
    forall m | m in messages
      ensures Echo(utf8, m) == m <==> (m.opcode.Text? ==> utf8.valid(m.payload) || m.payload == [])
    {
    }
    if Contents(echoes) == Contents(messages) {
      forall i | 0 <= i < |messages| ensures Echo(utf8, messages[i]) == messages[i] {
        assert Contents(echoes)[i] == Contents(messages)[i];
      }
    }
  }

  /** A message that shows the loss: one byte of text that is not valid UTF-8 comes back as no text at all. */
  lemma InvalidTextIsLost(utf8: Utf8, max: Pos)
    requires !utf8.valid([0xFF])
    ensures Reassemble(Stream(Echoes(utf8, [Message(Text, [0xFF])]), max)).delivered == [(Text, [])]
  {
    var echoes := Echoes(utf8, [Message(Text, [0xFF])]);
    assert echoes == [Message(Text, [])];
    FragmentReassemble(echoes, max);
  }
}
