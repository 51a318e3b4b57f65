/** The ASGI events, application outcomes and server errors that the protocol handlers exchange. */
module Asgi {
  import opened Prelude

  type Headers = seq<(seq<byte>, seq<byte>)>

  /** Events an application sends to the server. */
  datatype SendEvent =
    | StartupComplete
    | StartupFailed(message: string)
    | ShutdownComplete
    | ShutdownFailed(message: string)
    | HttpResponseStart(status: u16, headers: Headers)
    | HttpResponseBody(body: seq<byte>, moreBody: bool)
    | WebsocketAccept(subprotocol: Option<string>, headers: Headers)
    | WebsocketClose(code: u16, reason: seq<byte>)
    | WebsocketSend(bytes: Option<Bytes>, text: Option<Bytes>)

  /** Events the server sends to an application. */
  datatype ReceiveEvent =
    | Startup
    | Shutdown
    | HttpRequest(body: seq<byte>, moreBody: bool)
    | HttpDisconnect
    | WebsocketConnect
    | WebsocketDisconnect(code: u16, reason: seq<byte>)
    | WebsocketReceive(bytes: Option<seq<byte>>, text: Option<seq<byte>>)

  /** Why the application is no longer there. */
  datatype ApplicationResult = Completed | Unexpected | Failed(message: string)

  datatype WebSocketError =
    | ConnectionClosed
    | InvalidCloseCode
    | InvalidCloseFrame
    | InvalidUtf8
    | OtherWebSocketError(description: string)

  datatype ArasError =
    | Custom(message: string)
    | HttpError
    | WebsocketError(cause: WebSocketError)
    | ApplicationError(message: string)
    | ApplicationNotRunning
    | UnexpectedAsgiMessage(event: SendEvent)
    | StartupError(message: string)
    | ShutdownError(message: string)
    | Timeout

  /** What waiting for the application, for a limited time, yields. */
  datatype Reply = Elapsed | Replied(reply: Result<SendEvent, ApplicationResult>)

  /** The conversion used whenever a lost application is reported as a server error. */
  function AsError(result: ApplicationResult): (e: ArasError)
    ensures !e.WebsocketError?
  {
    match result
    case Completed => ApplicationNotRunning
    case Unexpected => ApplicationError("Application shutdown unexpectedly without sending a result")
    case Failed(message) => ApplicationError(message)
  }

  /** Each end of an application has its own error, which keeps the message of one that failed. */
  lemma EndsAreTold(message: string)
    ensures AsError(Completed) == ApplicationNotRunning
    ensures AsError(Failed(message)) == ApplicationError(message)
    ensures AsError(Unexpected) == ApplicationError("Application shutdown unexpectedly without sending a result")
  {
  }
}
