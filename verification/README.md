# Protocol handling in aras

`aras` is an ASGI protocol server.  This project models the part of it that sits between the wire and the
application, where events from both sides interleave and any write, send or wait can fail, and proves what
holds of every run of it.

| file | content |
|---|---|
| `Prelude.dfy` | integer widths, and logs of attempts of which an oracle decides the failures |
| `Asgi.dfy` | the events, application outcomes and errors |
| `Fragmentation.dfy` | the frame builder, on 64-bit words |
| `Reassembly.dfy` | the receiving end of a WebSocket, after section 5.4 of RFC 6455, written independently of the builder |
| `Websocket.dfy` | the connection loop: a mutable `Context`, the methods of `State`, and the fold they compute |
| `ConnectionTheorems.dfy` | what holds of every run of that loop |
| `Endings.dfy` | what a connection is told of the end of its application, and how it closes then |
| `Sessions.dfy` | the handshake around it, the event conversions, and echoing applications |
| `Completion.dfy` | the shared handle through which concurrent callers learn how the application ended |
| `Channels.dfy` | the bounded channels and the handles at their server ends |
| `Http.dfy` | the request body loop, the two joined tasks, and the response stream |
| `Subprotocols.dfy` | the parsing of the sub-protocol headers |
| `Lifespan.dfy` | the lifespan handshake and the run of the server around it |

How it is built.  Whatever is decided outside the server is a parameter: which side `select!` lets through
and how often (a schedule), which attempts fail (functions from the number of the attempt to its failure),
when a wait times out, how an application ends.  A theorem quantifies over all of these.  A schedule may stop
anywhere, so a statement about the state a schedule leads to is one about every prefix of every run.

The loops and state changes of the program are methods over classes, proved equal to functions over values.
The central device of the connection theorems is that reactions combine (`CombinePerform`, `CombineClosing`):
a run of any length equals one single reaction to everything it was asked to do (`RunSummary`), and every
statement about whole runs is read off that closed form.

Assumptions.

* The frame limit is positive wherever messages are sent (`Builder`).  `SplitEndsExactly` shows that the
  splitting loop ends exactly in that case.  The bound of a channel is positive.
* A buffer holds at most 2^63 - 1 bytes, as every Rust allocation does.
* A channel is first-in first-out and still delivers what is queued after it is closed.
* `read_frame` yields whole messages, loses nothing when `select!` drops it, and a failed write leaves nothing
  on the wire.
* Text is its UTF-8 bytes.  Which bytes are valid, and what lossy decoding makes of them, are parameters.

Where the program and its comments differ, the program is followed.  `aras/src/communication.rs:101` says that
a caller who finds the receiver taken will find the result cached, and lines 70-73 call the handle idempotent.
The lock on the receiver is released before the receiver is awaited, so this is not so for overlapping or
cancelled calls: `OverlappingCallsDisagree` gives a run, `UnexpectedExactly` says exactly when it happens, and
`SequentialCallsAgree` proves agreement for the remaining case.  `OutcomeLostForever` shows that a cancelled
taker takes the outcome with it.  In a connection that taker is a receive which `select!` drops: an application
may let go of its sending end and go on receiving, so that the server waits for its result while the client still
sends.  `ToldTruthExactly` and `ClosesNormallyExactly` say exactly what the connection is told and how it closes
then, and `DroppedWaitChangesClosing` gives a run.

Correct `more_body` flags depend on the size hint of the body: `MarkedExactly` gives the exact condition and
`WrongHintEndsTwice` a body.  Text that is not valid UTF-8 reaches the application as empty text: `EchoIdentity`
gives the exact condition under which nothing is lost and `InvalidTextIsLost` a message.  Whether a body stream
ever gives such a hint, and whether `read_frame` ever hands over such text, is up to libraries that are not part
of this model; the conditions are what the program relies on.

## Model

| member | source | states |
|---|---|---|
| Fragmentation.FrameBuilder.SplitBytes | aras/src/protocols/websocket.rs:430-443 | The loop cuts the data into pieces of the frame limit and terminates; no 64-bit sum in it overflows, for any limit and any buffer a Rust program can hold |
| Fragmentation.FrameBuilder.Build | aras/src/protocols/websocket.rs:404-428 | An event becomes the fragments of its message: the payloads make up the text if there is one, else the bytes, else nothing, under the data opcode for that; a limit of 0 is allowed for empty messages |
| Fragmentation.ChunksLossless | aras/src/protocols/websocket.rs:430-443 | The pieces concatenate to the data |
| Fragmentation.FragmentationPromise | aras/src/protocols/websocket.rs:404-443 | Lossless, every payload within the limit, data opcode exactly on the first and FIN exactly on the last frame, and as many frames as the length divided by the limit, rounded up, but at least one |
| Fragmentation.ChunksOptimal | aras/src/protocols/websocket.rs:430-443 | No other way of cutting the same data into pieces within the limit needs fewer pieces |
| Fragmentation.SplitEndsExactly | aras/src/protocols/websocket.rs:435-441 | The splitting loop, once entered, reaches its end if and only if the frame limit is positive; that it goes through these positions is an invariant of the loop in SplitBytes |
| Reassembly.ReassembleChunks | aras/src/protocols/websocket.rs:418-427 | An idle peer that has got the first j frames of a message holds exactly their payload, and has received the message once it has all |
| Reassembly.WholeMessagesExact | aras/src/protocols/websocket.rs:250-256 | The number of whole messages among the first j frames is exact: that many fit, one more does not |
| Reassembly.ReassemblePrefix | aras/src/protocols/websocket.rs:250-256 | Cut off after any frame, a stream of messages yields exactly the messages whose frames are all there, in order, and no violation of section 5.4 of RFC 6455 |
| Reassembly.FragmentReassemble | aras/src/protocols/websocket.rs:404-443 | Reassembly undoes fragmentation on every sequence of messages |
| Websocket.Context.WriteFrames | aras/src/protocols/websocket.rs:252-256 | Frames are attempted in order up to the first failure, which is the one reported |
| Websocket.Context.ReceiveFromApp | aras/src/communication.rs:132-141 | A receive that is not dropped yields the next queued event, or else what one finished wait on the handle returns, which changes the handle |
| Websocket.Context.Next | aras/src/protocols/websocket.rs:311-323 | One turn is consumed, from the side that is let through, and converted into an event; a client let through while the handle is awaited drops that wait, and what the wait took stays taken |
| Websocket.State.OnEvent | aras/src/protocols/websocket.rs:193-208 | The whole new state is that of the reaction table; a closed connection does nothing |
| Websocket.State.OnFrameReceived | aras/src/protocols/websocket.rs:210-227 | A client's message goes to the application, its disconnect or a failed send closes |
| Websocket.State.OnAsgiReceived | aras/src/protocols/websocket.rs:229-258 | An application's message goes to the client in fragments, its close or any other event closes |
| Websocket.State.OnMessage | aras/src/protocols/websocket.rs:250-258 | All fragments are written, or those before the first failure, which then closes the connection |
| Websocket.State.OnError | aras/src/protocols/websocket.rs:261-287 | Every error closes, with a code chosen by its kind |
| Websocket.State.CloseWith | aras/src/protocols/websocket.rs:289-300 | One close frame and one disconnect are attempted, in spite of failures, and the state is closed |
| Websocket.RunProtocol | aras/src/protocols/websocket.rs:82-89 | The loop computes the fold over the scheduled turns that stops at the first closing one: same logs, same final state |
| ConnectionTheorems.CombinePerform | aras/src/protocols/websocket.rs:193-259 | Two reactions in turn leave the same logs as one combined reaction |
| ConnectionTheorems.CombineClosing | aras/src/protocols/websocket.rs:193-259 | They also give the same cause to close |
| ConnectionTheorems.TurnSummary | aras/src/protocols/websocket.rs:86-89 | One more turn after an unbroken stretch is again one reaction to everything asked for |
| ConnectionTheorems.RunSummary | aras/src/protocols/websocket.rs:82-89 | Every run is a stretch in which nothing fails or closes, then at most one closing turn, and equals one reaction to everything asked for |
| ConnectionTheorems.RunFollows | aras/src/protocols/websocket.rs:311-323 | In every run both inputs are consumed in order without gaps, and the application's end is noticed only after all it sent |
| ConnectionTheorems.ClientReceives | aras/src/protocols/websocket.rs:229-259 | In every run the client reassembles exactly the first k messages among the events consumed from the application, k counting those written in full; at most the last one is missing, and then the connection is closed |
| ConnectionTheorems.DrainedBeforeClose | aras/src/protocols/websocket.rs:374-382 | If the end of the application was noticed, every event it queued was consumed before, and the client has received every message among them |
| ConnectionTheorems.ClosingIsCaused | aras/src/protocols/websocket.rs:261-300 | Code and reason of a closing are a fixed function of the first closing turn and the failed write, if any: the peer's, the application's, 1000, 1002, 1007 or 1011 |
| ConnectionTheorems.ClosesOnce | aras/src/protocols/websocket.rs:289-300 | A run that closes attempted exactly one close frame and one disconnect, as its last write and its last send; the bytes of the frame spell the same code and reason as the fields of the disconnect, and they are those of the closing cause |
| ConnectionTheorems.ClosesExactly | aras/src/protocols/websocket.rs:86-89 | A run is closed if and only if one of its turns was not a data message of the client or a message of the application, or a write or send failed; until then it takes every turn and is running |
| ConnectionTheorems.AsciiSpells | aras/src/protocols/websocket.rs:203 | The reasons the server gives are sent letter by letter |
| ConnectionTheorems.OpenRunNeverCloses | aras/src/protocols/websocket.rs:193-208 | A run that is not closed has attempted neither |
| ConnectionTheorems.ApplicationHears | aras/src/protocols/websocket.rs:210-227 | In every run the application gets the data messages among the frames consumed from the client, in order, with at most the last one missing, then at most one disconnect |
| Endings.ToldTruthExactly | aras/src/communication.rs:92-141 | A connection is told that the application is complete, or that it failed and with what message, if and only if that is so and no wait for the result was dropped in favour of the client before; otherwise it is told `Unexpected` |
| Endings.ClosesNormallyExactly | aras/src/protocols/websocket.rs:319-322 | A connection that closes because its application has ended closes with 1000 if and only if the application ran to its end and no wait for its result was dropped, and with 1011 otherwise |
| Endings.DroppedWaitChangesClosing | aras/src/protocols/websocket.rs:319-322 | A concrete application and client for which the scheduler alone decides between 1000 and 1011 |
| Sessions.AcceptClient | aras/src/protocols/websocket.rs:54-65 | The application is told of the client; a failed send, a timeout, its end, a refusal with its reason, an acceptance with its sub-protocol and headers, bad headers and any other event each give their own answer |
| Sessions.Handle | aras/src/protocols/websocket.rs:33-52 | The answer is an acceptance if and only if the application accepted in time with good headers, the upgrade was not rejected and the responses merge; a refusal if and only if it refused; each other case has its own error |
| Sessions.ConnectsExactly | aras/src/protocols/websocket.rs:43-65 | The exact conditions for a connection to be run |
| Sessions.SessionHears | aras/src/protocols/websocket.rs:43-49 | Over a session the application gets connect, then an order-preserving prefix of the data messages consumed from the client, with at most the last one missing, then at most one disconnect |
| Sessions.RefusedSession | aras/src/protocols/websocket.rs:43-46 | Without a connection the application gets at most connect, and no frame is written |
| Sessions.SessionDelivers | aras/src/protocols/websocket.rs:43-49 | Over a session the client gets the messages the application sends after its acceptance whole and in order, with at most the last one missing |
| Sessions.OnlyWebsocketEvents | aras/src/protocols/websocket.rs:326-396 | Events of other protocols never pass the conversions, so the last arm of the reaction to the application is never reached |
| Sessions.CloseEchoes | aras/src/protocols/websocket.rs:355-366 | A close frame is answered with the same payload if and only if it has a code and its reason survives lossy decoding |
| Sessions.EchoIdentity | aras/src/protocols/websocket.rs:336-354 | An echoed conversation is reassembled unchanged, for every frame limit, if and only if every text in it is valid UTF-8 or empty |
| Sessions.InvalidTextIsLost | aras/src/protocols/websocket.rs:346-350 | A concrete message that an echo does not give back: one byte of text that is not valid UTF-8 becomes empty text |
| Completion.StepKeepsPlace | aras/src/communication.rs:98-116 | Every step of any caller keeps the receiver in exactly one place: slot, one waiter, consumed, or lost |
| Completion.StepKeepsCache | aras/src/communication.rs:118-121 | Every step keeps the cache empty until the one who consumed the result has stored the true outcome |
| Completion.StepKeepsResults | aras/src/communication.rs:92-122 | Every step keeps each returned value either the true outcome of an ended application or `Unexpected` |
| Completion.ExecKeepsInv | aras/src/communication.rs:92-122 | All three hold after every interleaving of any number of calls with cancellation at any wait |
| Completion.ReportedFaithfully | aras/src/communication.rs:112-116 | Under every interleaving, a call is told that the application is complete only if it is, that it failed only with its very message, and otherwise `Unexpected` |
| Completion.RunsForward | aras/src/communication.rs:92-122 | However a run goes on, the receiver is never taken again, the cache never overwritten, and no answer revised |
| Completion.EmptyCacheExactly | aras/src/communication.rs:101-109 | The second read finds the cache empty if and only if another caller has taken the receiver and has not finished: it waits, is about to store, or was cancelled |
| Completion.UnexpectedExactly | aras/src/communication.rs:94-121 | A returned call got `Unexpected` if and only if the application vanished without a result, or at the call's second read another caller had taken the receiver and not finished |
| Completion.CancelSpoils | aras/src/communication.rs:98-116 | A call cancelled while it waits for the receiver loses it for good, and leaves cache and slot as they are |
| Completion.SequentialCallsAgree | aras/src/communication.rs:92-122 | Calls that neither overlap nor follow a cancelled one all return the same outcome, that of the task |
| Completion.SequentialCallsReport | aras/src/communication.rs:112-116 | Each of them is told that the application is complete, or failed with its very message |
| Completion.OutcomeLostForever | aras/src/communication.rs:98-121 | Once the caller who took the receiver is cancelled, every call begun later, by anyone, gets `Unexpected`, however the application ended |
| Completion.OverlappingCallsDisagree | aras/src/communication.rs:99-109 | A concrete run of two overlapping calls whose answers differ |
| Completion.ApplicationHandle.WaitForCompletion | aras/src/communication.rs:92-122 | One poll of a call returns the cached result; or completion, the very failure or `Unexpected` as the task ended, and caches that; or `Unexpected` if the receiver is gone; or is left waiting with the receiver taken |
| Completion.PollIsASchedule | aras/src/communication.rs:92-122 | A poll, of a new call or of one left waiting, is a schedule of the state machine, with the same answer, cache and slot |
| Channels.Channel.PollSend | aras/src/communication.rs:177-185 | A send is refused exactly by a closed channel, waits exactly at an open one with `capacity` items queued, and else appends |
| Channels.Channel.PollReceive | aras/src/communication.rs:187-195 | A receive yields the oldest item, or the end of a closed and drained channel, or waits |
| Channels.ReceiveInApp | aras/src/communication.rs:187-195 | The application gets the next event, and a disconnect once the server's end is gone and drained |
| Channels.ReceiveFromApp | aras/src/communication.rs:132-141 | One poll of the server's receive gets what is queued first, without touching the handle, and then what a poll of the handle gives, whether or not the task still runs |
| Channels.SendToApp | aras/src/communication.rs:151-159 | One poll of the server's send is accepted and queued exactly if an open channel holds fewer than its capacity, waits at a full one, and gives what a poll of the handle gives once it is closed |
| Channels.ChannelInOrder | aras/src/communication.rs:172-195 | Under every interleaving at most `capacity` items are queued, and the n-th receive is told the n-th item sent, or the end if there never is one |
| Channels.FillsToCapacity | aras/src/communication.rs:173-174 | An open channel takes items, in order, until exactly `capacity` are queued |
| Channels.ReceivesAtOnce | aras/src/communication.rs:187-195 | The next receive is told of the oldest queued item, or of the end of a closed and drained channel; else it waits |
| Channels.ClosedDrains | aras/src/communication.rs:187-195 | A closed channel takes nothing more and answers every receive, first with what is queued and then with its end, forever |
| Http.ReadBody | aras/src/protocols/http.rs:47-75 | The loop attempts exactly the body's events up to the first failed send, and ends with that failure, else with the timeout or broken part met, else well; and then the whole body has arrived |
| Http.BodyConserved | aras/src/protocols/http.rs:52-74 | The bodies of the events of a readable body concatenate to the request body, whatever the chunking and the hints |
| Http.ReadableExactly | aras/src/protocols/http.rs:55-59 | Reading ends without an error of its own if and only if no wait times out and no part is broken |
| Http.ReadMeansArrived | aras/src/protocols/http.rs:47-75 | After a successful read all events have arrived, they carry exactly the bytes of the request body, and they are marked correctly if and only if the hints hold |
| Http.MarkedExactly | aras/src/protocols/http.rs:61-72 | `more_body` is true on all events but the last and false on the last if and only if the size hint never says nothing is left while something is |
| Http.SoundHintsMark | aras/src/protocols/http.rs:61-72 | A sound size hint has that property, and the empty body ends too |
| Http.WrongHintEndsTwice | aras/src/protocols/http.rs:61-65 | A concrete body whose hint says too early that nothing is left, and of whose end the application is told twice |
| Http.OpenUntilLast | aras/src/protocols/http.rs:55-72 | However reading ends, with a timeout, a broken part or a failed send, every event attempted but the last has `more_body` true |
| Http.ExecOnTrack | aras/src/protocols/http.rs:33-36 | Under every interleaving of the joined tasks, reading the body does and comes to what it does uninterrupted, or is a prefix of it |
| Http.HandleSends | aras/src/protocols/http.rs:33-44 | Under every interleaving the application is sent a prefix of the body's events, then exactly one disconnect, which is last |
| Http.CutOffIsOpen | aras/src/protocols/http.rs:33-36 | The same for a body cut off by a failure of the response, wherever it stops |
| Http.OutcomeIsCaused | aras/src/protocols/http.rs:33-44 | The outcome is a response only if both tasks succeeded, and else the error of one of them that fails |
| Http.OutcomeIsTheAnswer | aras/src/protocols/http.rs:77-86 | If the body can be read and sent, the outcome is decided by the first answer alone: a response if and only if that is a response start with valid headers, and each other answer has its own error |
| Http.ResponseEndsAsAnswered | aras/src/protocols/http.rs:81-86 | Whatever becomes of the body, the response task ends with what the first answer calls for |
| Http.PullErrors | aras/src/protocols/http.rs:55-59 | Reading stops at the first wait that times out or part that is broken, with an error that says which |
| Http.SendErrors | aras/src/protocols/http.rs:65 | A failed send ends reading with the error of that failure |
| Http.JoinIsFinal | aras/src/protocols/http.rs:33-36 | The disconnect is attempted if and only if a task has failed or both have ended, and neither task does anything after that |
| Http.UnjoinedGoesOn | aras/src/protocols/http.rs:33-36 | Before that neither task is kept from going on |
| Http.SuccessIsComplete | aras/src/protocols/http.rs:33-86 | With a response, the whole request body has arrived, byte for byte, and the application's first event was a response start |
| Http.StreamResponse | aras/src/protocols/http.rs:88-104 | Each answer becomes one item, the bytes of a body event or an error that says what else it was, up to and including the first final body event or timeout, after which nothing is received |
| Http.StreamCarriesBody | aras/src/protocols/http.rs:88-104 | No problem on the way loses data: the items carry exactly the bytes of the body events up to the final one |
| Subprotocols.LinesJoin | aras/src/scope.rs:40-54 | Several header lines parse as one line joining them with commas |
| Subprotocols.ParsePrinted | aras/src/scope.rs:40-54 | A list printed with any whitespace, over any lines, between other headers and in any letter case of the name, parses back to itself |
| Subprotocols.NamesMatchButForCase | aras/src/scope.rs:44 | A header counts if and only if its name is `sec-websocket-protocol` in any letter case |
| Subprotocols.WhitespaceListed | aras/src/scope.rs:47 | Which characters are removed |
| Subprotocols.ParsedArePlain | aras/src/scope.rs:44-54 | No listed sub-protocol has a comma or whitespace |
| Subprotocols.SplitLossless | aras/src/scope.rs:49-53 | Joining what splitting yields gives the string back |
| Subprotocols.SplitJoin | aras/src/scope.rs:49-53 | Splitting undoes joining of comma-free pieces |
| Lifespan.StartupLoop | aras/src/protocols/lifespan.rs:72-92 | One startup event is attempted, an answer awaited only if it went through, and the verdict is a function of both |
| Lifespan.ShutdownLoop | aras/src/protocols/lifespan.rs:94-108 | The same for shutdown, where a failed send is an error |
| Lifespan.StartedLifespanHandler.ShutDown | aras/src/protocols/lifespan.rs:50-69 | A disabled handler does nothing and succeeds; an enabled one shuts down |
| Lifespan.RunServer | aras/src/server.rs:251-265 | A run of the server does to the application exactly what the specification of a whole run says |
| Lifespan.ShutdownExactly | aras/src/server.rs:257-264 | The events attempted are startup, and then shutdown if and only if startup was confirmed and cancellation won |
| Lifespan.DisabledIsLeftAlone | aras/src/protocols/lifespan.rs:53-57 | After a disabled startup nothing is sent or awaited again, whatever ends the run |
| Lifespan.CleanShutdown | aras/src/protocols/lifespan.rs:59-68 | A cancelled run ends well if and only if shutdown was confirmed or the application never took part |
| Lifespan.StartupErrors | aras/src/protocols/lifespan.rs:83-90 | A startup that is not confirmed ends the run with the error of its cause: timeout, failure with its message, another event, or the application's own end |
| Lifespan.ShutdownErrors | aras/src/protocols/lifespan.rs:99-106 | The same for a shutdown, where a failed send is a cause too |
| Asgi.EndsAreTold | aras/src/communication.rs:37-45 | Each end of an application has its own error, which keeps the message of one that failed |

## Left out

- The accept loop, the middleware stack, the server builder and the mapping of errors to responses: plumbing over libraries.
- The Python package, its conversions and its event loop.
- Masking, wire headers, and the automatic pong and close replies of the WebSocket library; the one close frame is the handler's own.
- Time: a timeout is an outcome of a wait that the environment may choose.
- Progress: both bounded channels can fill while the connection loop waits for its send, and nothing is claimed about that.
- The limit of 125 bytes on a close frame, which the program does not check.
- What bytes are valid UTF-8 and how the others are replaced.
- Checks of header values and status codes beyond whether they pass, and the merging of the two upgrade responses.
- Concurrency of the connection with the return of the upgrade response: the model runs the connection inside the handling of the request, before the responses are merged.
- Completion.ApplicationHandle.WaitForCompletion: is stated for a poll that finds the locks free; interleaving within a poll, and cancellation at the locks, are in the state machine of the same module.
- Websocket.Context.ReceiveFromApp: takes the application's task to have ended by the time a wait for it that is not dropped is over; a task that never ends gives no such turn.
- Websocket.Context.SendToApp: leaves open what a failed send reports of the application's end, since every report closes the connection with 1011; how it comes about is in `Channels.SendToApp`.
- Http.StreamResponse: is stated for a finite number of answers; after an error the program goes on receiving, so the stream need not end.
- The reaction to an application's event, one function in the program, is split in two methods; nothing of it is missing.
- Websocket.State.CloseWith: does not record that the close frame is attempted before the disconnect; the two go to different peers, and each has a log of its own.
- The wording of errors that are only logged, such as that of an unexpected opcode.
