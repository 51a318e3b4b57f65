/**
 One WebSocket connection: the loop that relays frames and ASGI events until the connection closes.

 `Context` and the methods of `State` have the shape of the program.  They are proved to compute `Run`, a
 fold of `React` over the turns the environment chooses, where `React` reads off a table (`ReactionTo`)
 what one event makes the server do.
 */
module Websocket {
  import opened Prelude
  import opened Asgi
  import opened Fragmentation
  import Completion

  /** The two text operations the connection relies on, over arbitrary byte strings. */
  datatype Utf8 = Utf8(valid: seq<byte> -> bool, lossy: seq<byte> -> seq<byte>)

  datatype Event =
    | FrameReceived(message: ReceiveEvent)
    | AsgiEventReceived(event: SendEvent)
    | ConnectionClosed
    | ErrorOccurred(error: ArasError)

  /** Whichever side `select!` let through: a read from the socket or a receive from the application. */
  datatype Turn =
    | FromClient(read: Result<Frame, WebSocketError>)
    | FromApp(reply: Result<SendEvent, ApplicationResult>)

  /**
   Which side is let through.  With `waiting`, the receive that is dropped for the client had already found the
   channel closed and taken the one-shot receiver to wait for the application's result.
   */
  datatype Side = ClientSide(waiting: bool) | AppSide

  // ---- Conversions into events ----

  function BigEndian(hi: byte, lo: byte): u16 {
    hi as u16 * 0x100 + lo as u16
  }

  function FrameEvent(utf8: Utf8, f: Frame): Event {
    match f.opcode
    case Text =>
      FrameReceived(WebsocketReceive(None, Some(if utf8.valid(f.payload) then f.payload else [])))
    case Binary => FrameReceived(WebsocketReceive(Some(f.payload), None))
    case Close =>
      if |f.payload| >= 2 then
        FrameReceived(WebsocketDisconnect(BigEndian(f.payload[0], f.payload[1]), utf8.lossy(f.payload[2..])))
      else FrameReceived(WebsocketDisconnect(1000, []))
    case Continuation => ErrorOccurred(Custom("unexpected opcode: Continuation"))
    case Ping => ErrorOccurred(Custom("unexpected opcode: Ping"))
    case Pong => ErrorOccurred(Custom("unexpected opcode: Pong"))
  }

  function ReadEvent(utf8: Utf8, read: Result<Frame, WebSocketError>): Event {
    match read
    case Ok(f) => FrameEvent(utf8, f)
    case Err(e) => if e.ConnectionClosed? then Event.ConnectionClosed else ErrorOccurred(WebsocketError(e))
  }

  function ReplyEvent(reply: Result<SendEvent, ApplicationResult>): Event {
    match reply
    case Ok(e) =>
      if e.WebsocketSend? || e.WebsocketClose? then AsgiEventReceived(e)
      else ErrorOccurred(UnexpectedAsgiMessage(e))
    case Err(Completed) => Event.ConnectionClosed
    case Err(r) => ErrorOccurred(AsError(r))
  }

  function EventOf(utf8: Utf8, turn: Turn): Event {
    match turn
    case FromClient(read) => ReadEvent(utf8, read)
    case FromApp(reply) => ReplyEvent(reply)
  }

  // ---- The table: what an event asks for ----

  datatype Closing = Closing(code: u16, reason: seq<byte>)

  const CONNECTION_CLOSED := Closing(1000, Ascii("Connection closed"))
  const PROTOCOL_ERROR := Closing(1002, Ascii("Protocol error"))
  const INVALID_DATA := Closing(1007, Ascii("Invalid UTF-8 data received"))
  const INTERNAL_ERROR := Closing(1011, Ascii("Internal server error"))

  function Ascii(s: string): seq<byte> {
    seq(|s|, i requires 0 <= i < |s| => (s[i] as int % 0x80) as byte)
  }

  function ErrorClosing(e: ArasError): Closing {
    if e == WebsocketError(InvalidCloseCode) || e == WebsocketError(InvalidCloseFrame) then PROTOCOL_ERROR
    else if e == WebsocketError(InvalidUtf8) then INVALID_DATA
    else INTERNAL_ERROR
  }

  /** Frames for the client, messages for the application, and whether the connection must close at once. */
  datatype Reaction = Reaction(frames: seq<Frame>, messages: seq<ReceiveEvent>, closing: Option<Closing>)

  function ReactionTo(event: Event, max: Pos): Reaction {
    match event
    case FrameReceived(WebsocketDisconnect(code, reason)) => Reaction([], [], Some(Closing(code, reason)))
    case FrameReceived(m) => Reaction([], [m], None)
    case AsgiEventReceived(WebsocketSend(bytes, text)) =>
      Reaction(Fragment(MessageOf(bytes, text), max), [], None)
    case AsgiEventReceived(WebsocketClose(code, reason)) => Reaction([], [], Some(Closing(code, reason)))
    case AsgiEventReceived(_) => Reaction([], [], Some(INTERNAL_ERROR))
    case ConnectionClosed => Reaction([], [], Some(CONNECTION_CLOSED))
    case ErrorOccurred(e) => Reaction([], [], Some(ErrorClosing(e)))
  }

  function CloseFrame(c: Closing): Frame {
    Frame(true, Close, [(c.code / 0x100) as byte, (c.code % 0x100) as byte] + c.reason)
  }

  function Disconnect(c: Closing): ReceiveEvent {
    WebsocketDisconnect(c.code, c.reason)
  }

  // ---- The connection as a value ----

  /**
   Everything outside the connection: what the client sends, what the application sends and how its task
   ends, and which of the attempted writes and sends fail.
   */
  datatype Env = Env(
    builder: Builder,
    utf8: Utf8,
    client: seq<Result<Frame, WebSocketError>>,
    app: seq<SendEvent>,
    task: Completion.Ended,
    writeFaults: nat -> Option<WebSocketError>,
    sendFaults: nat -> Option<ApplicationResult>)
  {
    function Max(): Pos {
      builder.maxFrameSize as nat
    }
  }

  /** How far a connection has come: turns taken, input consumed, every attempt made, and the handle's state. */
  datatype Conn = Conn(
    turns: seq<Turn>,
    clientRead: nat,
    appRead: nat,
    writes: seq<Attempt<Frame>>,
    sends: seq<Attempt<ReceiveEvent>>,
    shared: Completion.Shared)

  const NEW_CONN := Conn([], 0, 0, [], [], Completion.UNTOUCHED)

  predicate ClientTurn(env: Env, c: Conn, side: Side) {
    side.ClientSide? && c.clientRead < |env.client|
  }

  /**
   The turn that comes next when the scheduler favours `side`.  Events the application queued are received
   before its end is reported; once the client has nothing more to say only the application is left.
   */
  function NextTurn(env: Env, c: Conn, side: Side): Turn {
    if ClientTurn(env, c, side) then FromClient(env.client[c.clientRead])
    else if c.appRead < |env.app| then FromApp(Ok(env.app[c.appRead]))
    else FromApp(Err(Completion.Polled(c.shared, false, env.task).0.value))
  }

  /** The client is let through while the handle is awaited: the wait is dropped, and the receiver with it. */
  predicate DropsWait(env: Env, c: Conn, side: Side) {
    ClientTurn(env, c, side) && side.waiting && c.appRead >= |env.app|
  }

  /** What that turn does to the handle: nothing, or one poll that ends or is dropped. */
  function SharedAfter(env: Env, c: Conn, side: Side): Completion.Shared {
    if DropsWait(env, c, side) then Completion.Polled(c.shared, false, Completion.Alive).1
    else if NextTurn(env, c, side).FromClient? || c.appRead < |env.app| then c.shared
    else Completion.Polled(c.shared, false, env.task).1
  }

  function Consume(c: Conn, turn: Turn, shared: Completion.Shared): Conn {
    c.(turns := c.turns + [turn],
       clientRead := if turn.FromClient? then c.clientRead + 1 else c.clientRead,
       appRead := if turn.FromApp? && turn.reply.Ok? then c.appRead + 1 else c.appRead,
       shared := shared)
  }

  /** Why the connection closes on this reaction, if it does: by request, or because an attempt failed. */
  function ClosingAfter(env: Env, c: Conn, r: Reaction): Option<Closing> {
    if r.closing.Some? then r.closing
    else match Failure(env.writeFaults, |c.writes|, |r.frames|)
      case Some(e) => Some(ErrorClosing(WebsocketError(e)))
      case None =>
        match Failure(env.sendFaults, |c.sends|, |r.messages|)
        case Some(e) => Some(ErrorClosing(AsError(e)))
        case None => None
  }

  function Perform(env: Env, c: Conn, frames: seq<Frame>, messages: seq<ReceiveEvent>): Conn {
    c.(writes := Extend(env.writeFaults, c.writes, frames), sends := Extend(env.sendFaults, c.sends, messages))
  }

  lemma PerformSmall(env: Env, c: Conn, f: Frame, m: ReceiveEvent)
    ensures Perform(env, c, [], [m]) == c.(sends := c.sends + [Attempt(m, env.sendFaults(|c.sends|).None?)])
    ensures Perform(env, c, [f], [m]) ==
              c.(writes := c.writes + [Attempt(f, env.writeFaults(|c.writes|).None?)],
                 sends := c.sends + [Attempt(m, env.sendFaults(|c.sends|).None?)])
  {
    ExtendOne(env.writeFaults, c.writes, f);
    ExtendOne(env.sendFaults, c.sends, m);
  }

  /** With a cause to close, the last things attempted are a close frame and a disconnect. */
  function Finish(env: Env, c: Conn, closing: Option<Closing>): (Conn, State) {
    match closing
    case None => (c, Running)
    case Some(x) => (Perform(env, c, [CloseFrame(x)], [Disconnect(x)]), Closed)
  }

  function React(env: Env, c: Conn, event: Event): (Conn, State) {
    var r := ReactionTo(event, env.Max());
    Finish(env, Perform(env, c, r.frames, r.messages), ClosingAfter(env, c, r))
  }

  /** `c` with the next turn taken but not yet reacted to. */
  function Turned(env: Env, c: Conn, side: Side): Conn {
    Consume(c, NextTurn(env, c, side), SharedAfter(env, c, side))
  }

  function TakeTurn(env: Env, c: Conn, side: Side): (Conn, State) {
    React(env, Turned(env, c, side), EventOf(env.utf8, NextTurn(env, c, side)))
  }

  /** A run: turns are taken as scheduled until the connection is closed or the schedule ends. */
  function Run(env: Env, c: Conn, s: State, schedule: seq<Side>): (Conn, State)
    decreases |schedule|
  {
    if s.Closed? || schedule == [] then (c, s)
    else
      var (c', s') := TakeTurn(env, c, schedule[0]);
      Run(env, c', s', schedule[1..])
  }

  // ---- The program ----

  /** The handles one connection works with.  `turns` is kept for the specification only. */
  class Context {
    const env: Env
    const handle: Completion.ApplicationHandle
    var clientRead: nat
    var appRead: nat
    var writes: seq<Attempt<Frame>>
    var sends: seq<Attempt<ReceiveEvent>>
    ghost var turns: seq<Turn>

    ghost function View(): Conn
      reads this, handle
    {
      Conn(turns, clientRead, appRead, writes, sends, handle.View())
    }

    constructor (env: Env)
      ensures this.env == env && fresh(handle) && View() == NEW_CONN
    {
      this.env := env;
      handle := new Completion.ApplicationHandle();
      clientRead, appRead, writes, sends, turns := 0, 0, [], [], [];
    }

    method WriteFrame(f: Frame) returns (r: Result<(), WebSocketError>)
      modifies this`writes
      ensures (writes, r) == Tried(env.writeFaults, old(writes), f)
    {
      var tried := Tried(env.writeFaults, writes, f);
      writes, r := tried.0, tried.1;
    }

    /** Writes frames in order until one cannot be written. */
    method WriteFrames(all: seq<Frame>) returns (r: Result<(), WebSocketError>)
      modifies this`writes
      ensures View() == old(Perform(env, View(), all, []))
      ensures r == match Failure(env.writeFaults, |old(writes)|, |all|) case None => Ok(()) case Some(e) => Err(e)
    {
      var frames := all;
      while frames != []
        invariant Extend(env.writeFaults, writes, frames) == old(Extend(env.writeFaults, writes, all))
        invariant Failure(env.writeFaults, |writes|, |frames|) == Failure(env.writeFaults, |old(writes)|, |all|)
      {
        var frame := frames[0];
        var written := WriteFrame(frame);
        if written.Err? {
          return written;
        }
        frames := frames[1..];
      }
      return Ok(());
    }

    method SendToApp(m: ReceiveEvent) returns (r: Result<(), ApplicationResult>)
      modifies this`sends
      ensures (sends, r) == Tried(env.sendFaults, old(sends), m)
    {
      var tried := Tried(env.sendFaults, sends, m);
      sends, r := tried.0, tried.1;
    }

    /** A receive that is not dropped: an event that is queued, or else, after a wait, how the application ended. */
    method ReceiveFromApp() returns (r: Result<SendEvent, ApplicationResult>)
      modifies this`appRead, handle
      ensures FromApp(r) == old(NextTurn(env, View(), AppSide))
      ensures appRead == old(appRead) + if r.Ok? then 1 else 0
      ensures handle.View() == old(SharedAfter(env, View(), AppSide))
    {
      if appRead < |env.app| {
        r := Ok(env.app[appRead]);
        appRead := appRead + 1;
      } else {
        var result := handle.WaitForCompletion(false, env.task);
        r := Err(result.value);
      }
    }

    method Next(side: Side) returns (event: Event)
      modifies this`clientRead, this`appRead, this`turns, handle
      ensures event == old(EventOf(env.utf8, NextTurn(env, View(), side)))
      ensures View() == old(Turned(env, View(), side))
      ensures side.ClientSide? && old(clientRead) < |env.client| ==>
                clientRead == old(clientRead) + 1 && appRead == old(appRead)
      ensures side == AppSide && old(appRead) < |env.app| ==>
                clientRead == old(clientRead) && appRead == old(appRead) + 1
    {
      if side.ClientSide? && clientRead < |env.client| {
        if side.waiting && appRead >= |env.app| {
          var _ := handle.WaitForCompletion(false, Completion.Alive);
        }
        event := ReadEvent(env.utf8, env.client[clientRead]);
        turns := turns + [FromClient(env.client[clientRead])];
        clientRead := clientRead + 1;
      } else {
        var reply := ReceiveFromApp();
        turns := turns + [FromApp(reply)];
        event := ReplyEvent(reply);
      }
    }
  }

  datatype State = Starting | Running | Closed {

    method OnEvent(event: Event, ctx: Context) returns (s: State)
      modifies ctx
      ensures (ctx.View(), s) == old(if Closed? then (ctx.View(), Closed) else React(ctx.env, ctx.View(), event))
    {
      if Closed? {
        return Closed;
      }
      match event
      case FrameReceived(message) => s := OnFrameReceived(message, ctx);
      case AsgiEventReceived(asgi) => s := OnAsgiReceived(asgi, ctx);
      case ErrorOccurred(error) => s := OnError(error, ctx);
      case ConnectionClosed => s := CloseWith(1000, Ascii("Connection closed"), ctx);
    }

    method OnFrameReceived(message: ReceiveEvent, ctx: Context) returns (s: State)
      modifies ctx
      ensures (ctx.View(), s) == old(React(ctx.env, ctx.View(), FrameReceived(message)))
    {
      if message.WebsocketDisconnect? {
        s := CloseWith(message.code, message.reason, ctx);
        return;
      }
      PerformSmall(ctx.env, ctx.View(), CloseFrame(INTERNAL_ERROR), message);
      var sent := ctx.SendToApp(message);
      match sent
      case Ok(_) => s := Running;
      case Err(e) => s := OnError(AsError(e), ctx);
    }

    method OnAsgiReceived(asgi: SendEvent, ctx: Context) returns (s: State)
      modifies ctx
      ensures (ctx.View(), s) == old(React(ctx.env, ctx.View(), AsgiEventReceived(asgi)))
    {
      match asgi
      case WebsocketSend(bytes, text) => s := OnMessage(bytes, text, ctx);
      case WebsocketClose(code, reason) => s := CloseWith(code, reason, ctx);
      case _ => s := OnError(UnexpectedAsgiMessage(asgi), ctx);
    }

    method OnMessage(bytes: Option<Bytes>, text: Option<Bytes>, ctx: Context) returns (s: State)
      modifies ctx
      ensures var frames := Fragment(MessageOf(bytes, text), ctx.env.Max());
              (ctx.View(), s) == old(Finish(ctx.env, Perform(ctx.env, ctx.View(), frames, []),
                                            ClosingAfter(ctx.env, ctx.View(), Reaction(frames, [], None))))
    {
      var frames := ctx.env.builder.Build(bytes, text);
      ghost var closing := ClosingAfter(ctx.env, ctx.View(), Reaction(frames, [], None));
      var written := ctx.WriteFrames(frames);
      assert closing == if written.Err? then Some(ErrorClosing(WebsocketError(written.error))) else None;
      match written
      case Ok(_) => s := Running;
      case Err(e) => s := OnError(WebsocketError(e), ctx);
    }

    method OnError(error: ArasError, ctx: Context) returns (s: State)
      modifies ctx
      ensures (ctx.View(), s) == old(Finish(ctx.env, ctx.View(), Some(ErrorClosing(error))))
    {
      if error.WebsocketError? {
        match error.cause
        case InvalidCloseCode | InvalidCloseFrame =>
          s := CloseWith(1002, Ascii("Protocol error"), ctx);
          return;
        case InvalidUtf8 =>
          s := CloseWith(1007, Ascii("Invalid UTF-8 data received"), ctx);
          return;
        case _ =>
      }
      s := CloseWith(1011, Ascii("Internal server error"), ctx);
    }

    method CloseWith(code: u16, reason: seq<byte>, ctx: Context) returns (s: State)
      modifies ctx
      ensures (ctx.View(), s) == old(Finish(ctx.env, ctx.View(), Some(Closing(code, reason))))
    {
      var closing := Closing(code, reason);
      PerformSmall(ctx.env, ctx.View(), CloseFrame(closing), Disconnect(closing));
      var _ := ctx.WriteFrame(CloseFrame(closing));
      var _ := ctx.SendToApp(Disconnect(closing));
      s := Closed;
    }
  }

  method RunProtocol(ctx: Context, schedule: seq<Side>) returns (state: State)
    modifies ctx, ctx.handle
    ensures (ctx.View(), state) == old(Run(ctx.env, ctx.View(), Starting, schedule))
  {
    state := Starting;
    var rest := schedule;
    while !state.Closed? && rest != []
      invariant Run(ctx.env, ctx.View(), state, rest) == old(Run(ctx.env, ctx.View(), Starting, schedule))
      decreases |rest|
    {
      var event := ctx.Next(rest[0]);
      state := state.OnEvent(event, ctx);
      rest := rest[1..];
    }
  }
}
