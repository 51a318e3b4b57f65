/** The lifespan handshake with an application, and the run of the server around it. */
module Lifespan {
  import opened Prelude
  import opened Asgi

  /** Everything outside: which sends fail, and what the n-th wait for the application yields. */
  datatype Env = Env(sendFaults: nat -> Option<ApplicationResult>, replies: nat -> Reply)

  /** What was sent to the application, and how often it was waited for. */
  datatype Log = Log(sends: seq<Attempt<ReceiveEvent>>, waits: nat)

  // ---- The program ----

  /** The two handles to the application. */
  class AppLink {
    const env: Env
    var sends: seq<Attempt<ReceiveEvent>>
    var waits: nat

    ghost function View(): Log
      reads this
    {
      Log(sends, waits)
    }

    constructor (env: Env)
      ensures this.env == env && View() == Log([], 0)
    {
      this.env := env;
      sends, waits := [], 0;
    }

    method Send(m: ReceiveEvent) returns (r: Result<(), ApplicationResult>)
      modifies this
      ensures (sends, r) == Tried(env.sendFaults, old(sends), m) && waits == old(waits)
    {
      var tried := Tried(env.sendFaults, sends, m);
      sends, r := tried.0, tried.1;
    }

    method Receive() returns (r: Reply)
      modifies this
      ensures View() == Log(old(sends), old(waits) + 1) && r == env.replies(old(waits))
    {
      r := env.replies(waits);
      waits := waits + 1;
    }
  }

  /** Whether the application takes part in the lifespan protocol, or how its startup failed. */
  function StartupResult(sent: Option<ApplicationResult>, reply: Reply): Result<bool, ArasError> {
    if sent.Some? then Ok(false)
    else match reply
      case Elapsed => Err(Timeout)
      case Replied(Ok(StartupComplete)) => Ok(true)
      case Replied(Ok(StartupFailed(message))) => Err(StartupError(message))
      case Replied(Ok(e)) => Err(UnexpectedAsgiMessage(e))
      case Replied(Err(Completed)) => Ok(false)
      case Replied(Err(r)) => Err(AsError(r))
  }

  function ShutdownResult(sent: Option<ApplicationResult>, reply: Reply): Result<(), ArasError> {
    if sent.Some? then Err(AsError(sent.value))
    else match reply
      case Elapsed => Err(Timeout)
      case Replied(Ok(ShutdownComplete)) => Ok(())
      case Replied(Ok(ShutdownFailed(message))) => Err(ShutdownError(message))
      case Replied(Ok(e)) => Err(UnexpectedAsgiMessage(e))
      case Replied(Err(r)) => Err(AsError(r))
  }

  /** One handshake: the event is attempted, and an answer is waited for if it went through. */
  function Handshake(env: Env, log: Log, m: ReceiveEvent): Log {
    var sent := env.sendFaults(|log.sends|).None?;
    Log(log.sends + [Attempt(m, sent)], log.waits + if sent then 1 else 0)
  }

  method StartupLoop(link: AppLink) returns (r: Result<bool, ArasError>)
    modifies link
    ensures link.View() == old(Handshake(link.env, link.View(), Startup))
    ensures r == old(StartupResult(link.env.sendFaults(|link.sends|), link.env.replies(link.waits)))
  {
    var sent := link.Send(Startup);
    if sent.Err? {
      return Ok(false);
    }
    var reply := link.Receive();
    match reply
    case Elapsed => r := Err(Timeout);
    case Replied(Ok(StartupComplete)) => r := Ok(true);
    case Replied(Ok(StartupFailed(message))) => r := Err(StartupError(message));
    case Replied(Ok(e)) => r := Err(UnexpectedAsgiMessage(e));
    case Replied(Err(Completed)) => r := Ok(false);
    case Replied(Err(e)) => r := Err(AsError(e));
  }

  method ShutdownLoop(link: AppLink) returns (r: Result<(), ArasError>)
    modifies link
    ensures link.View() == old(Handshake(link.env, link.View(), Shutdown))
    ensures r == old(ShutdownResult(link.env.sendFaults(|link.sends|), link.env.replies(link.waits)))
  {
    var sent := link.Send(Shutdown);
    if sent.Err? {
      return Err(AsError(sent.error));
    }
    var reply := link.Receive();
    match reply
    case Elapsed => r := Err(Timeout);
    case Replied(Ok(ShutdownComplete)) => r := Ok(());
    case Replied(Ok(ShutdownFailed(message))) => r := Err(ShutdownError(message));
    case Replied(Ok(e)) => r := Err(UnexpectedAsgiMessage(e));
    case Replied(Err(e)) => r := Err(AsError(e));
  }

  class StartedLifespanHandler {
    const link: AppLink
    const enabled: bool

    constructor (link: AppLink, enabled: bool)
      ensures this.link == link && this.enabled == enabled
    {
      this.link := link;
      this.enabled := enabled;
    }

    method ShutDown() returns (r: Result<(), ArasError>)
      modifies link
      ensures link.View() == if enabled then old(Handshake(link.env, link.View(), Shutdown)) else old(link.View())
      ensures r == if enabled then old(ShutdownResult(link.env.sendFaults(|link.sends|), link.env.replies(link.waits)))
                   else Ok(())
    {
      if !enabled {
        return Ok(());
      }
      r := ShutdownLoop(link);
    }
  }

  /** A whole run of the server: what the application is sent, and how the run ends. */
  function ServerRun(env: Env, cancelled: bool, served: Result<(), ArasError>): (Log, Result<(), ArasError>) {
    var log := Handshake(env, Log([], 0), Startup);
    match StartupResult(env.sendFaults(0), env.replies(0))
    case Err(e) => (log, Err(e))
    case Ok(enabled) =>
      if !cancelled then (log, served)
      else if !enabled then (log, Ok(()))
      else (Handshake(env, log, Shutdown), ShutdownResult(env.sendFaults(1), env.replies(1)))
  }

  /** The server: `cancelled` says that cancellation wins over serving, which otherwise ends with `served`. */
  method RunServer(link: AppLink, cancelled: bool, served: Result<(), ArasError>) returns (r: Result<(), ArasError>)
    requires link.View() == Log([], 0)
    modifies link
    ensures (link.View(), r) == ServerRun(link.env, cancelled, served)
  {
    var started := StartupLoop(link);
    if started.Err? {
      return Err(started.error);
    }
    var handler := new StartedLifespanHandler(link, started.value);
    if cancelled {
      r := handler.ShutDown();
    } else {
      r := served;
    }
  }

  // ---- Whole runs ----

  /** The application has confirmed its startup. */
  predicate Confirms(env: Env) {
    env.sendFaults(0) == None && env.replies(0) == Replied(Ok(StartupComplete))
  }

  /**
   The application is sent a startup event, and a shutdown event after it if and only if it confirmed its
   startup and cancellation won.
   */
  lemma ShutdownExactly(env: Env, cancelled: bool, served: Result<(), ArasError>)
    ensures var sends := ServerRun(env, cancelled, served).0.sends;
            var confirmed := Confirms(env);
            && 1 <= |sends| <= 2 && sends[0].item == Startup
            && (|sends| == 2 <==> confirmed && cancelled)
            && (|sends| == 2 ==> sends[1].item == Shutdown && sends[0].ok)
  {
  }

  /** An application that does not take part is neither sent to nor waited for again, and the run ends as served. */
  lemma DisabledIsLeftAlone(env: Env, cancelled: bool, served: Result<(), ArasError>)
    requires env.sendFaults(0) != None || env.replies(0) == Replied(Err(Completed))
    ensures var (log, r) := ServerRun(env, cancelled, served);
            && log == Handshake(env, Log([], 0), Startup)
            && log.waits == (if env.sendFaults(0) == None then 1 else 0)
            && r == if cancelled then Ok(()) else served
  {
  }

  /** A run is shut down well only if the application confirmed the shutdown or never took part. */
  lemma CleanShutdown(env: Env, served: Result<(), ArasError>)
    ensures ServerRun(env, true, served).1.Ok? <==>
              || env.sendFaults(0) != None
              || env.replies(0) == Replied(Err(Completed))
              || (env.replies(0) == Replied(Ok(StartupComplete)) && env.sendFaults(1) == None
                  && env.replies(1) == Replied(Ok(ShutdownComplete)))
  {
  }

  /** A startup that fails, other than by not taking part, ends the run with the error of its cause. */
  lemma StartupErrors(env: Env, cancelled: bool, served: Result<(), ArasError>)
    requires env.sendFaults(0) == None
    ensures var r := ServerRun(env, cancelled, served).1;
            match env.replies(0)
            case Elapsed => r == Err(Timeout)
            case Replied(Ok(StartupComplete)) => !cancelled ==> r == served
            case Replied(Ok(StartupFailed(message))) => r == Err(StartupError(message))
            case Replied(Ok(other)) => r == Err(UnexpectedAsgiMessage(other))
            case Replied(Err(Completed)) => r == if cancelled then Ok(()) else served
            case Replied(Err(Failed(message))) => r == Err(ApplicationError(message))
            case Replied(Err(Unexpected)) => r == Err(AsError(Unexpected))
  {
  }

  /** A shutdown that is not confirmed ends the run with the error of its cause. */
  lemma ShutdownErrors(env: Env, served: Result<(), ArasError>)
    requires Confirms(env)
    ensures var r := ServerRun(env, true, served).1;
            if env.sendFaults(1).Some? then r == Err(AsError(env.sendFaults(1).value))
            else match env.replies(1)
              case Elapsed => r == Err(Timeout)
              case Replied(Ok(ShutdownComplete)) => r == Ok(())
              case Replied(Ok(ShutdownFailed(message))) => r == Err(ShutdownError(message))
              case Replied(Ok(other)) => r == Err(UnexpectedAsgiMessage(other))
              case Replied(Err(Completed)) => r == Err(ApplicationNotRunning)
              case Replied(Err(Failed(message))) => r == Err(ApplicationError(message))
              case Replied(Err(Unexpected)) => r == Err(AsError(Unexpected))
  {
  }
}
