# Multiplexed room transport

A Dafny model, with proofs, of how one physical WebSocket carries many collaboration rooms between an editor tab and the
server, and of the rules that decide who connects. `dafny verify dfyconfig.toml` verifies the whole project.

## Parts

- **Wire codec.** `Unicode` writes out what JavaScript strings and UTF-8 (sections 3 and 4 of RFC 3629) do, lone surrogates
  included. `Protocol` is the frame format as functions, its varuints LEB128 (section 7.6 of DWARF 5) held to 32 bits;
  `ProtocolProofs` proves round trip, canonical form and framing, `ProtocolFormat` the bytes and the reasons of refusals;
  `ProtocolCode` is the encoder and reader as objects.
- **Client multiplexer.** `SharedWebSocket` is the adapter as functions on its state, `SharedWebSocketProofs` the invariant
  and that every event keeps it, `SharedWebSocketLeaving` that whoever closes tells the server, `SharedWebSocketRuns` what
  that means for runs, `SharedWebSocketCodes` which close code everybody is told, `SharedWebSocketFaults` what failures and
  broken frames lead to, `RoomFrames` the language of a room's frames, `SharedWebSocketCode` the adapter as an object with
  virtual-socket objects.
- **Server session.** `MultiplexSession`, `MultiplexSessionProofs` (one event's pieces), `MultiplexSessionSteps` (whole
  events), `MultiplexSessionRuns` (whole runs), `MultiplexSessionSends` (what becomes of sends), `MultiplexSessionListeners`
  (every callback is made), `MultiplexSessionEndings` (frames out of place, silence, the end), `MultiplexSessionNames`
  (what it writes arrives as it is), `RoomIsolation` (non-interference), `MultiplexSessionExample` (a callback error while a
  room is open) and `MultiplexSessionCode` (the session as an object with adapter objects, its heartbeat included).
- **The whole.** `Transport` joins one client to a session per physical socket by two first-in first-out channels of encoded
  frames; `TransportProofs` keeps the joint invariant; `TransportRuns` states agreement, delivery and blamelessness;
  `TransportExample`, `TransportCrossing` and `TransportNamesake` are runs that show where its premises and limits lie.
- **Retry and admission.** `WebSocketClient`, `WebSocketClientCode` and `WebSocketClientRuns` are the retry machine,
  `WebSocketClientAnswers` how it answers closes, failures and statuses, `RefusalRetry` what a refused room makes it do,
  `ConnectionLimits` and `ConnectionLimitsCode` the admission limits, `RoomClientLimit` the room cap that clients apply to
  themselves.

## How the environment is modelled

A consumer callback of the client is a finite tree of public operations, each of which may trigger further callbacks, so
re-entrancy of any depth is covered; a callback that throws is one that ends early, because every handler catches or
finishes. What y-websocket does in a listener, whether a send completes at once, later or with an error, and what cleanup
listeners do are trees of the same kind on the server. Grant verification is an oracle with three answers: fresh, expired
but valid, invalid. The interval timer, pongs, physical closes and the delivery of the next frame in either direction are
events that may come at any time. In the whole transport every verdict may be given on every grant; that the grants which
verify are the client's own is a premise of blamelessness alone. Rooms may have any name. No frame carries a lone surrogate,
so a virtual socket of a name with one never opens; agreement and delivery for a room suppose only that no other name of the
client is read as it. Each physical socket has a session of its own, which starts with no rooms.

Every class method is proved to leave exactly the state that a specification function gives; the properties are proved of
those functions.

Close codes are those of sections 7.4.1 and 7.4.2 of RFC 6455 and the private ones of the repository.

## Where code and documentation differ

- The documentation calls decoding strict. The code accepts overlong varuints (`ProtocolProofs.OverlongIsAccepted`), and
  the model follows the code.
- A frame of type data has no end of its own, so the rejection of truncated and trailing bytes is a property of the other
  four types; `ProtocolProofs.DataFrameCut` and `ProtocolProofs.DataFrameExtended` say what happens to data.
- The server's half of the agreement can fail. A refusal of an earlier subscription can close a room's next virtual socket
  without an unsubscribe, and the server then keeps a room that the client has left: `TransportCrossing.ARefusalCrosses` is
  such a run, and `TransportRuns.ServedMeansSubscribed` says that this is the only way, with the exact condition.
- Two room names that differ only in a lone surrogate and U+FFFD are one room to the server. The client takes them for two,
  and closing one takes the other away: `TransportNamesake.ANamesakeTakesTheRoom`.
- A send callback can see an error while rooms are open, on an adapter that was closed already
  (`MultiplexSessionExample.ErrorWhileServing`); `MultiplexSessionRuns.CallbacksRunOnce` says that this is the only way.

## Model

| member | source | states |
|---|---|---|
| ProtocolCode.EncodeMessage | websocket-server/protocol.ts:235-282 | the growing encoder buffer ends up holding exactly the frame of the format, or the first field error is reported |
| ProtocolCode.WriteFields | websocket-server/protocol.ts:247-277 | the fields after the room name, or the first of their errors, by message type |
| ProtocolCode.DecodeMessage | websocket-server/protocol.ts:290-348 | the advancing reader accepts exactly the frames of the format, with the reason of the first failing check otherwise |
| ProtocolCode.Encoder.WriteVarUint | websocket-server/protocol.ts:119 | appends the shortest LEB128 form of a number |
| ProtocolCode.Encoder.WriteString | websocket-server/protocol.ts:106-121 | appends length and UTF-8 bytes, or reports too long and appends nothing |
| ProtocolCode.Reader.ReadVarUint | websocket-server/protocol.ts:153-180 | the accumulating loop reads a varuint of at most five bytes and 32 bits; leaving it by its bound, and so the final throw, never happens |
| ProtocolCode.Reader.ReadText | websocket-server/protocol.ts:182-201 | reads a bounded string, never past the input, invalid UTF-8 refused |
| ProtocolCode.Reader.AssertDone | websocket-server/protocol.ts:208-215 | reports trailing data exactly when bytes are left |
| ProtocolCode.DecodeFields | websocket-server/protocol.ts:309-347 | the fields after the room name, by message type |
| Unicode.Utf16RoundTrip | websocket-server/protocol.ts:106-121 | going through scalar values loses nothing exactly on text without lone surrogates |
| Unicode.TextRoundTrip | websocket-server/protocol.ts:106-121 | what the peer reads back is the text with lone surrogates replaced, and the text itself exactly when it has none |
| Unicode.TextCanonical | websocket-server/protocol.ts:194-200 | every accepted byte string is the one UTF-8 form of a well-formed text |
| ProtocolProofs.EncodeSucceedsExactly | websocket-server/protocol.ts:235-282 | encoding succeeds exactly on messages within the stated field bounds |
| ProtocolProofs.RoundTripNormalized | websocket-server/protocol.ts:235-348 | decoding an encoded message gives it back with lone surrogates replaced |
| ProtocolProofs.RoundTrip | websocket-server/protocol.ts:235-348 | for all five types and every payload the round trip gives the message itself exactly when its text is well formed |
| ProtocolProofs.LoneSurrogateIsReplaced | websocket-server/protocol.ts:106-121 | the input that shows why the round trip needs well-formed text |
| ProtocolProofs.VarUintForms | websocket-server/protocol.ts:153-180 | a 32-bit value has exactly one accepted varuint of each length from its shortest up to five bytes, and no other bytes are read as it |
| ProtocolProofs.CanonicalForm | websocket-server/protocol.ts:235-348 | re-encoding an accepted frame succeeds, decodes to the same message, is no longer, and has equal length only when the bytes are identical |
| ProtocolProofs.OverlongIsAccepted | websocket-server/protocol.ts:153-180 | an overlong version byte is accepted, so encoding after decoding is not the identity on bytes |
| ProtocolProofs.PrefixIsTruncated | websocket-server/protocol.ts:290-348 | every proper prefix of an accepted frame other than data is rejected as truncated |
| ProtocolProofs.ExtensionIsTrailing | websocket-server/protocol.ts:208-215 | every proper extension of an accepted frame other than data is rejected as trailing data |
| ProtocolProofs.DataFrameExtended | websocket-server/protocol.ts:324-330 | extending a data frame extends its payload |
| ProtocolProofs.DataFrameCut | websocket-server/protocol.ts:324-330 | cutting a data frame cuts its payload until none is left or the room name is cut, and says which error follows |
| ProtocolFormat.EncodesAsDocumented | websocket-server/protocol.ts:10-25 | a frame is, byte by byte, version 1, the type number, the room and the fields of that type, each in the documented encoding |
| ProtocolFormat.FramesOnTheWire | websocket-server/protocol.ts:73-82 | the bytes of one frame of each type |
| ProtocolFormat.TextOnTheWire | websocket-server/protocol.ts:106-121 | the bytes of a text with characters of every UTF-8 length |
| ProtocolFormat.VarUintIsLeb128 | websocket-server/protocol.ts:14-15 | a varuint is the shortest little-endian base-128 form of its number |
| ProtocolFormat.RefusedMessages | websocket-server/protocol.ts:235-282 | for each reason, exactly the messages that encoding refuses with it |
| ProtocolFormat.RefusedHeaders | websocket-server/protocol.ts:290-306 | wrong version, unknown type, oversized and missing varuints are refused with their reasons, whatever follows |
| ProtocolFormat.RefusedRooms | websocket-server/protocol.ts:182-206 | a room is refused as too long before its bytes are read, then as truncated, as no text, as empty |
| ProtocolFormat.RefusedFields | websocket-server/protocol.ts:309-347 | an empty or oversized grant, an empty payload and a code outside 4000..4999 are refused with their reasons |
| RoomFrames.UnbrokenIsInLanguage | src/shared-websocket.ts:103-107 | the running view of a room's frames is unbroken exactly when, read by positions, they are (subscribe data* unsubscribe?)* with a new virtual socket each round |
| SharedWebSocketProofs.ConstructKeeps | src/shared-websocket.ts:90-110 | the constructor keeps the client invariant, whether it opens the physical socket, subscribes at once or throws |
| SharedWebSocketProofs.SendKeeps | src/shared-websocket.ts:116-132 | send keeps the client invariant, also when the physical send throws |
| SharedWebSocketProofs.CloseKeeps | src/shared-websocket.ts:135-167 | closing a virtual socket keeps the client invariant whatever its callback does, leaves no live physical socket without a room, and puts its unsubscribe on the open physical socket or leaves that socket open no more |
| SharedWebSocketProofs.RunKeeps | src/shared-websocket.ts:160-166 | any nesting of public operations inside a callback keeps the client invariant |
| SharedWebSocketProofs.OpenedKeeps | src/shared-websocket.ts:193-214 | the open handler subscribes every room registered while connecting, once, and keeps the invariant when a send throws in the middle |
| SharedWebSocketProofs.MessageKeeps | src/shared-websocket.ts:216-275 | a message, well formed or not, keeps the client invariant and takes no socket back |
| SharedWebSocketProofs.ReceiveKeeps | src/shared-websocket.ts:229-275 | only a subscribed for its own room opens a virtual socket, only data for its own room reaches it, and a room_closed closes it |
| SharedWebSocketProofs.ClosedKeeps | src/shared-websocket.ts:291-314 | the close fan-out keeps the invariant even when callbacks close siblings or open the same room again |
| SharedWebSocketProofs.StepKeeps | src/shared-websocket.ts:63-315 | every event, with any re-entrant callbacks, keeps the client invariant and moves every socket forward only |
| SharedWebSocketProofs.OthersAreQuiet | src/shared-websocket.ts:193-315 | only a message opens a virtual socket, hands it data or makes the client close with a code |
| SharedWebSocketLeaving.CloseLeaves | src/shared-websocket.ts:135-167 | a virtual socket that closes by itself is outside its room on the wire afterwards, however deeply callbacks nest |
| SharedWebSocketLeaving.StepLeaves | src/shared-websocket.ts:193-315 | in every event whoever closes leaves its room on the open wire, but for the one that a room_closed refuses |
| SharedWebSocketRuns.RegistryIsLiveSockets | src/shared-websocket.ts:63-64 | at every return to the event loop the live virtual sockets are exactly the registered ones, one per room; a registered room has a physical socket, a live physical socket has a registered room, at most one physical socket is not closed |
| SharedWebSocketRuns.NobodyOutlivesTheSocket | src/shared-websocket.ts:291-313 | once a physical socket has closed, every virtual socket it carried is closed |
| SharedWebSocketRuns.CallbacksAreCounted | src/shared-websocket.ts:135-167 | onopen at most once, onclose exactly once per socket that closes |
| SharedWebSocketRuns.OnlyForward | src/shared-websocket.ts:135-167 | states, callbacks and what was sent only move forward over a run |
| SharedWebSocketRuns.ReplacedSocketIsSilent | src/shared-websocket.ts:193-196 | events of a replaced physical socket change nothing |
| SharedWebSocketRuns.FramesAreInTheLanguage | src/shared-websocket.ts:151-158 | on each physical socket every room's frames are in the language, each with its own socket's room and grant |
| SharedWebSocketRuns.RegisteredHasSubscribed | src/shared-websocket.ts:103-107 | a registered socket's subscribe has gone out as soon as frames can be sent, from the constructor or on open |
| SharedWebSocketRuns.SentIsOnTheWire | src/shared-websocket.ts:116-132 | while the physical socket is open all that was sent is on the wire in order; otherwise a prefix |
| SharedWebSocketRuns.IllFormedNeverOpens | src/shared-websocket.ts:229-243 | a virtual socket whose room name is not well-formed text never opens, whatever the server sends |
| SharedWebSocketRuns.OnlyTheRefusedStayInside | src/shared-websocket.ts:151-158 | in every run a closed virtual socket is still inside its room on the open wire only if a room_closed was delivered while it was registered |
| SharedWebSocketCodes.CloseReportsItsCode | src/shared-websocket.ts:112-114 | a virtual socket that its consumer closes reports the consumer's code |
| SharedWebSocketCodes.RoomClosedReportsItsCode | src/shared-websocket.ts:255-267 | a room_closed makes the room's virtual socket report the code in the frame |
| SharedWebSocketCodes.PhysicalCloseReportsItsCode | src/shared-websocket.ts:291-313 | every registered virtual socket reports the close event's code, unless the onclose of one registered earlier closed it first, and then that closing's code |
| SharedWebSocketCodes.StepTells | src/shared-websocket.ts:135-313 | in every event a virtual socket is told only a code that was asked for it, by the event or in its callbacks, and nothing once it is closed |
| SharedWebSocketCodes.CodeIsTheClosers | src/shared-websocket.ts:135-313 | over every run the one code that a closed virtual socket reported is one that some event of the run asked for it |
| SharedWebSocketFaults.BrokenFramesClose | src/shared-websocket.ts:221-274 | a frame that is no message, or one that only clients send, closes the physical socket with 4006 and does nothing else |
| SharedWebSocketFaults.OtherFramesCloseNormally | src/shared-websocket.ts:229-275 | no other frame makes the client close with a code |
| SharedWebSocketFaults.OpenSubscribesInOrder | src/shared-websocket.ts:193-214 | the open handler subscribes the registered rooms in the order of their registration; if a send fails those before it are out and the socket is closed |
| SharedWebSocketFaults.SendDecides | src/shared-websocket.ts:116-132 | send puts its data on the open wire and counts it, or closes the physical socket and counts nothing, or does nothing on a socket that is not open |
| SharedWebSocketFaults.ErrorsReachEverySocket | src/shared-websocket.ts:277-289 | an error event makes the callback of every registered socket |
| SharedWebSocketFaults.FramesReachTheirSocket | src/shared-websocket.ts:229-275 | a frame that its room's socket heeds makes that socket's callback |
| SharedWebSocketFaults.ReturnsFromOnclose | src/shared-websocket.ts:296-313 | a consumer may construct the room anew from within its onclose and gets a new physical socket |
| SharedWebSocketCode.Adapter.constructor | src/shared-websocket.ts:58-64 | a new adapter has no socket and no room |
| SharedWebSocketCode.Adapter.SendPhysicalMessage | src/shared-websocket.ts:179-183 | sends on an open physical socket only, and says whether that threw |
| SharedWebSocketCode.Adapter.ClosePhysicalSocketNormally | src/shared-websocket.ts:169-177 | closes a physical socket that is not closing yet |
| SharedWebSocketCode.Adapter.OpenPhysicalSocket | src/shared-websocket.ts:185-191 | makes the new physical socket the current one |
| SharedWebSocketCode.Adapter.Construct | src/shared-websocket.ts:90-110 | leaves the state that the specification's constructor gives; where it throws nothing changed |
| SharedWebSocketCode.Adapter.Send | src/shared-websocket.ts:116-132 | leaves the state that the specification's send gives |
| SharedWebSocketCode.Adapter.CloseVirtualSocket | src/shared-websocket.ts:135-167 | leaves the state that the specification's close gives, its callback's operations included |
| SharedWebSocketCode.Adapter.RunCallback | src/shared-websocket.ts:160-166 | performs a callback's operations in order |
| SharedWebSocketCode.Adapter.OnOpen | src/shared-websocket.ts:193-214 | the subscribe loop, with its two breaks, computes the specification's open step |
| SharedWebSocketCode.Adapter.OnMessage | src/shared-websocket.ts:216-275 | the message handler computes the specification's message step |
| SharedWebSocketCode.Adapter.OnError | src/shared-websocket.ts:277-289 | the error fan-out computes the specification's error step |
| SharedWebSocketCode.Adapter.OnClose | src/shared-websocket.ts:291-314 | the close fan-out over the snapshot computes the specification's close step |
| MultiplexSessionProofs.TransmitKeeps | websocket-server/multiplex-session.ts:147-175 | a send leaves the frame on an open socket, or no room at all and the socket closed |
| MultiplexSessionProofs.SendErrorKeeps | websocket-server/multiplex-session.ts:140-145 | after a send error every room is cleaned and the socket closed, whatever the listeners do meanwhile |
| MultiplexSessionProofs.CleanupKeeps | websocket-server/multiplex-session.ts:129-133 | cleaning up over a snapshot leaves no room, however deeply closings nest |
| MultiplexSessionProofs.CloseKeeps | websocket-server/multiplex-session.ts:225-237 | closing an open adapter takes its room away and leaves one report of it in the metrics, with the reason of whoever closed it, and announces the loss when the server decided it |
| MultiplexSessionProofs.SendOnKeeps | websocket-server/room-websocket.ts:20-32 | a send on an adapter keeps the session invariant, whatever its callback does; on a closed one it only calls back, with an error |
| MultiplexSessionProofs.RefuseKeeps | websocket-server/room-websocket.ts:26-29 | a send on a closed adapter leaves rooms, frames and adapters as they were |
| MultiplexSessionProofs.RunKeeps | websocket-server/multiplex-session.ts:243 | whatever y-websocket does within a callback keeps the session invariant |
| MultiplexSessionSends.CompletionDecides | websocket-server/multiplex-session.ts:151-163 | a pending send that fails leaves no room and a socket closed with 1011, callback or not; a callback that waited learns the outcome |
| MultiplexSessionSends.AFailureIsTheEnd | websocket-server/multiplex-session.ts:140-145 | over every run: once a pending send has been reported as failed, no room is served and the socket is not open, for good |
| MultiplexSessionSends.FailedTransmissionEnds | websocket-server/multiplex-session.ts:165-175 | a send that throws, completes with an error at once or cannot be encoded ends the session in the same way and says false |
| MultiplexSessionSends.SendIsWritten | websocket-server/room-websocket.ts:20-32 | an open adapter's data is the next frame and its callback waits for the outcome, or the session ends and the callback learns of it |
| MultiplexSessionSends.ServerCloseIsTold | websocket-server/multiplex-session.ts:225-237 | an adapter that the server closes is announced by the next frame with 4005 and reported as the server's doing |
| MultiplexSessionListeners.NewcomerIsHeard | websocket-server/multiplex-session.ts:239-243 | once acknowledged, a new adapter is given to y-websocket, which may use it at once |
| MultiplexSessionListeners.DataIsHeard | websocket-server/multiplex-session.ts:107 | data for a served room reaches its adapter's listener |
| MultiplexSessionListeners.CompletionIsHeard | websocket-server/multiplex-session.ts:151-163 | the callback of a pending send is run when the send completes, with an error or not |
| MultiplexSessionListeners.SendIsHeard | websocket-server/room-websocket.ts:20-32 | the callback of a send that completes, fails or is refused at once is run at once |
| MultiplexSessionListeners.ClosingIsHeard | websocket-server/room-websocket.ts:40-46 | whoever closes an adapter, the close listeners that y-websocket added are run |
| MultiplexSessionListeners.UnsubscribeIsHeard | websocket-server/multiplex-session.ts:245-259 | so they are when the client unsubscribes |
| MultiplexSessionSteps.AddRoomServes | websocket-server/multiplex-session.ts:218-244 | a new room is stored, acknowledged by the first frame and handed to y-websocket, or the session is over |
| MultiplexSessionSteps.BypassKeeps | websocket-server/multiplex-session.ts:261-267 | a bypass is counted, its refusal is the first frame sent unless that send fails, and the second one ends the session |
| MultiplexSessionSteps.BypassHandles | websocket-server/multiplex-session.ts:261-267 | a subscribe that is a bypass opens no room, reaches no inbox, and its subscriber is told unless the session is over |
| MultiplexSessionSteps.UnsubscribeServes | websocket-server/multiplex-session.ts:246-259 | an unsubscribe closes its room, whose adapter reports it as the client's doing; other rooms go only by what listeners do, and are announced; leaving an unknown room changes nothing |
| MultiplexSessionSteps.DataServes | websocket-server/multiplex-session.ts:98-108 | data reaches the inbox of its room's adapter and no other |
| MultiplexSessionSteps.HonestServes | websocket-server/multiplex-session.ts:76-122 | an honest frame costs no bypass and no close, and is served or refused with an announcement |
| MultiplexSessionSteps.KnownHandles | websocket-server/multiplex-session.ts:76-122 | whatever its grant is worth, a client's frame opens no room but its own, reaches no other inbox, and is answered |
| MultiplexSessionSteps.VerdictDecides | websocket-server/multiplex-session.ts:177-216 | the verdict on a grant fixes the answer and the metric: 4004 for an invalid grant, 4005 for one that has only expired, 4004 and a bypass for one whose room, user, blog or client differs, an adapter otherwise |
| MultiplexSessionSteps.OwnIsMatching | websocket-server/multiplex-session.ts:201-208 | the session's comparison of identities holds exactly when user and blog are equal and both grants name the same client, by WordPress id, else connection id, else none |
| RefusalRetry.OnlyAnExpiredGrantRetries | src/websocket-close-policy.ts:41-48 | told of the refusal's code, a live connection goes on exactly when its grant was the client's own and had only expired |
| MultiplexSessionSteps.OtherIdles | websocket-server/multiplex-session.ts:124-175 | an event other than a frame opens no room and announces every room it loses while the socket stays open |
| MultiplexSessionSteps.StepKeeps | websocket-server/multiplex-session.ts:76-277 | every event with every choice of the environment keeps the session invariant |
| MultiplexSessionEndings.BrokenFramesEnd | websocket-server/multiplex-session.ts:81-121 | a frame that is not binary, no message, or one that only servers send closes the session with 1002 |
| MultiplexSessionEndings.SecondBypassEnds | websocket-server/multiplex-session.ts:261-267 | the first bypass costs nothing but its refusal, the second closes the session with 1008 |
| MultiplexSessionEndings.StrayDataIsRefused | websocket-server/multiplex-session.ts:99-110 | data for a room not served is dropped if the room was once, else refused with 4004 and counted as a bypass |
| MultiplexSessionEndings.RepeatIsAcknowledged | websocket-server/multiplex-session.ts:178-182 | a subscribe for a served room is acknowledged again, whatever its grant is worth, and nothing else |
| MultiplexSessionEndings.UnansweredEnds | websocket-server/multiplex-session.ts:177-216 | a subscribe whose answer cannot be sent ends the session, whatever the answer |
| MultiplexSessionEndings.LateFramesAreNotRead | websocket-server/multiplex-session.ts:77-80 | a frame that arrives when the socket is closing already is not read; the rooms are cleaned up and nothing is sent |
| MultiplexSessionEndings.PhysicalCloseRecords | websocket-server/multiplex-session.ts:124-127 | the close event records the peak and leaves no room and no heartbeat |
| MultiplexSessionEndings.TickDecides | websocket-server/physical-heartbeat.ts:23-47 | a tick closes an empty session with 4001, terminates a silent one without a code, and pings any other, whose pong is then still to come |
| MultiplexSessionEndings.AnswerSpares | websocket-server/physical-heartbeat.ts:20-22 | after a pong the next tick only pings again |
| MultiplexSessionEndings.SilenceEnds | websocket-server/physical-heartbeat.ts:33-40 | in every run two ticks without a pong between them leave no open socket |
| MultiplexSessionRuns.OpenIffStored | websocket-server/multiplex-session.ts:218-237 | an adapter is open iff it is the one stored for its room; rooms and closedRooms are disjoint and cover every room that had an adapter |
| MultiplexSessionRuns.ReasonIsTheClosers | websocket-server/multiplex-session.ts:225-259 | the metrics report every closed adapter exactly once, with the reason of whoever closed it, and no open one |
| MultiplexSessionRuns.ReasonIsFinal | websocket-server/multiplex-session.ts:256-259 | entries left in expectedRoomCloses never add a report for an adapter that is closed, nor change the one made |
| MultiplexSessionRuns.RoomsAreCounted | websocket-server/metrics.ts:129-135 | opens minus closes is the number of rooms, and the session's peak is the most rooms there ever were at once |
| MultiplexSessionRuns.RecordedPeakIsTheMost | websocket-server/metrics.ts:148-150 | every peak that is recorded is the most rooms there were at once up to then, and there were that many |
| MultiplexSessionRuns.FramesObeyTheGrammar | websocket-server/multiplex-session.ts:147-175 | data follows a subscribed for the same adapter, active ever since; room_closed goes out only when the room has no adapter |
| MultiplexSessionNames.FramesArriveAsTheyAre | websocket-server/multiplex-session.ts:147-175 | every frame that a session writes can be encoded, and is read as it was written |
| MultiplexSessionRuns.ShutdownServesNothing | websocket-server/multiplex-session.ts:129-145 | after a close, the close event or the second bypass no room is left; bypasses never exceed two |
| MultiplexSessionRuns.ShutdownIsAbsorbing | websocket-server/multiplex-session.ts:76-80 | after shutdown no room is ever added and no frame sent |
| MultiplexSessionRuns.CallbacksRunOnce | websocket-server/multiplex-session.ts:151-163 | a send callback runs at most once; while rooms are left it sees an error exactly when its adapter was closed already at the call of send, and on a closed adapter it always does |
| MultiplexSessionExample.LateSendIsRefused | websocket-server/room-websocket.ts:26-29 | in every state a send on a closed adapter gives its callback an error at once, whatever rooms are left |
| MultiplexSessionExample.ErrorWhileServing | websocket-server/room-websocket.ts:26-29 | for any two rooms a run in which a callback sees an error while one of them is open |
| MultiplexSessionRuns.EmptySessionEnds | websocket-server/physical-heartbeat.ts:28-32 | a session without rooms does not survive a tick: closed with 4001, recorded as a zero-room timeout |
| MultiplexSessionRuns.NoPingAfterStop | websocket-server/physical-heartbeat.ts:48-56 | a stopped heartbeat pings no more and never restarts |
| MultiplexSessionRuns.TerminationNeedsSilence | websocket-server/physical-heartbeat.ts:33-40 | a client is found unresponsive only after a ping that no pong has answered since |
| MultiplexSessionCode.MultiplexSession.constructor | websocket-server/multiplex-session.ts:44-57 | a new session serves nothing |
| MultiplexSessionCode.MultiplexSession.CleanupRooms | websocket-server/multiplex-session.ts:129-133 | the loop over the snapshot computes the specification's cleanup |
| MultiplexSessionCode.MultiplexSession.HandlePhysicalSendError | websocket-server/multiplex-session.ts:140-145 | cleans up, then closes |
| MultiplexSessionCode.MultiplexSession.SendPhysicalMessage | websocket-server/multiplex-session.ts:147-175 | computes the specification's transmission and its result |
| MultiplexSessionCode.MultiplexSession.Close | websocket-server/room-websocket.ts:40-46 | RoomWebSocket.close with its listeners computes the specification's closing |
| MultiplexSessionCode.MultiplexSession.Send | websocket-server/room-websocket.ts:20-32 | RoomWebSocket.send computes the specification's send |
| MultiplexSessionCode.MultiplexSession.AddRoom | websocket-server/multiplex-session.ts:218-244 | a new adapter object, stored and acknowledged, gives the specification's state |
| MultiplexSessionCode.MultiplexSession.Subscribe | websocket-server/multiplex-session.ts:177-216 | computes the specification's subscribe step for every verdict on the grant |
| MultiplexSessionCode.MultiplexSession.Unsubscribe | websocket-server/multiplex-session.ts:246-259 | computes the specification's unsubscribe step |
| MultiplexSessionCode.MultiplexSession.RejectAuthorizationBypass | websocket-server/multiplex-session.ts:261-267 | computes the specification's bypass step |
| MultiplexSessionCode.MultiplexSession.HandlePhysicalMessage | websocket-server/multiplex-session.ts:76-122 | the message dispatch computes the specification's frame step |
| MultiplexSessionCode.MultiplexSession.Complete | websocket-server/multiplex-session.ts:151-163 | a late completion computes the specification's completion step |
| MultiplexSessionCode.MultiplexSession.HandlePhysicalClose | websocket-server/multiplex-session.ts:124-127 | the close event computes the specification's close step |
| MultiplexSessionCode.MultiplexSession.HandleTick | websocket-server/physical-heartbeat.ts:23-47 | the interval callback computes the specification's tick |
| RoomIsolation.RunLeaves | websocket-server/multiplex-session.ts:219-244 | what y-websocket does for one room leaves every other room alone while the socket stays open |
| RoomIsolation.StepLeaves | websocket-server/multiplex-session.ts:94-122 | an event of another room, or a tick, leaves this room alone while the socket stays open |
| RoomIsolation.StepInStep | websocket-server/multiplex-session.ts:94-122 | an event of a room goes the same way in sessions that the room cannot tell apart |
| RoomIsolation.RoomsDoNotInterfere | websocket-server/multiplex-session.ts:177-254 | in a run that leaves the socket open, a room's adapters, sends, closed-room memory and frames are those of the run of its own events alone |
| TransportProofs.ClientLinkKeeps | src/shared-websocket.ts:193-315 | what the client does by itself leaves the agreement with every session in order |
| TransportProofs.ToClientLinkKeeps | src/shared-websocket.ts:216-269 | delivering a session's next frame keeps the agreement, stale frames included |
| TransportProofs.ToServerLinkKeeps | websocket-server/multiplex-session.ts:76-122 | delivering the client's next frame, with any verdict on its grant, keeps the agreement and the delivery log |
| TransportProofs.ServerActsKeeps | websocket-server/multiplex-session.ts:124-254 | adapter closes and sends, send failures, ticks and the close event keep the agreement |
| TransportProofs.NextKeeps | websocket-server/multiplex-session.ts:76-122 | every step of client, channels and servers keeps the invariant of the whole, whatever rooms are called and grants are worth |
| TransportProofs.NobodyBlamesAfter | websocket-server/multiplex-session.ts:177-216 | while the grants that verify are the client's own, no step makes a server blame it |
| TransportRuns.QuiescentAgreement | src/shared-websocket.ts:193-269 | with both ends open and nothing on its way, whatever grants were worth, a registered virtual socket is open, and its room has an open adapter at the server, exactly when its name is well-formed text; provided no other name of the client is read as it |
| TransportRuns.ServedMeansSubscribed | src/shared-websocket.ts:255-267 | a room that the server serves then has a last subscriber that never unsubscribed; the client has it registered if and only if no step delivered that subscriber a room_closed, and any such frame was written before the server took its subscribe |
| TransportRuns.RefusalIsReported | src/shared-websocket.ts:255-267 | a room_closed that reaches the room's registered socket makes it report the code that the server wrote |
| TransportRuns.DeliveryIsAPrefix | websocket-server/multiplex-session.ts:98-108 | what reached the server from one virtual socket is a prefix of what it sent unless another name is read as its room, at adapters of its own room only, and inboxes hold nothing else |
| TransportRuns.DeliveryIsComplete | src/shared-websocket.ts:116-132 | once the channel has drained and the room is served, all that its last subscriber put on the wire has arrived, even from a socket that a stale refusal closed; with the physical socket open that is all it sent |
| TransportRuns.RegisteredDeliveryIsComplete | src/shared-websocket.ts:116-132 | in particular all that a registered socket sent has arrived |
| TransportRuns.ReceivedInOrder | src/shared-websocket.ts:245-253 | what a virtual socket received are the payloads of its room's data frames in the session's order, without a gap, from the frame after the one that opened it on, and up to the last one delivered while it is open |
| TransportRuns.HonestClientIsNeverBlamed | websocket-server/multiplex-session.ts:261-267 | a client whose verified grants are its own never meets a 1002 or 1008 close, never spends the bypass budget and never closes with 4006 |
| TransportExample.ARoomSettles | src/shared-websocket.ts:90-110 | for every room that fits a frame and every grant for it a run reaches quiescence with the room registered; its virtual socket is open exactly when the name is well-formed text, and stuck otherwise |
| TransportCrossing.ARefusalCrosses | src/shared-websocket.ts:255-267 | for any two rooms a run in which a refusal crosses the client's next subscription, so that the server goes on serving a room that the client has left |
| TransportNamesake.ANamesakeTakesTheRoom | websocket-server/protocol.ts:106-121 | for two names that the server reads as one, such as U+FFFD and a lone surrogate, a run in which closing one takes the other's room away unannounced |
| WebSocketClientCode.WebSocketConnection.Connect | src/websocket-client.ts:160-177 | connect up to its first await computes the specification's step |
| WebSocketClientCode.WebSocketConnection.HandleTokenFetched | src/websocket-client.ts:198-217 | a token that has come is used only while eligible; a throwing connect disposes of the connection |
| WebSocketClientCode.WebSocketConnection.HandleTokenFailed | src/websocket-client.ts:182-196 | a failed fetch is told with its retry and connects again |
| WebSocketClientCode.WebSocketConnection.HandleConnectionClose | src/websocket-client.ts:489-531 | the close handler computes the specification's close step |
| WebSocketClientCode.WebSocketConnection.HandleStatus | src/websocket-client.ts:536-561 | the status handler computes the specification's status step |
| WebSocketClientCode.WebSocketConnection.HandleSync | src/websocket-client.ts:566-571 | the sync handler computes the specification's sync step |
| WebSocketClientCode.WebSocketConnection.Dispose | src/websocket-client.ts:575-592 | disposing happens once |
| WebSocketClientRuns.BackoffRange | src/websocket-client.ts:128-130 | every backoff delay lies in 1000..15000 |
| WebSocketClientRuns.MetadataMeansRetry | src/websocket-close-policy.ts:28-79 | a retry is advertised only where it is made |
| WebSocketClientRuns.StepKeeps | src/websocket-client.ts:158-221 | every event keeps the retry invariant |
| WebSocketClientRuns.ExactlyOnePhase | src/websocket-client.ts:158-221 | a live connection is in exactly one of waiting, fetching a token and holding a socket |
| WebSocketClientRuns.TheEndIsTheEnd | src/websocket-client.ts:507-509 | once terminal or disposed of, nothing is waited for, fetched, connected or advertised any more |
| WebSocketClientRuns.AdvertisedIsWaited | src/websocket-client.ts:466-478 | an advertised delay is the delay then waited, in 1000..15000, unless the listener told disposed of the connection |
| WebSocketClientRuns.OnlySyncEndsADisconnection | src/websocket-client.ts:550-571 | after a disconnected status the next other status is a connected that a sync caused |
| WebSocketClientRuns.OutageDoublesTheWaits | src/websocket-client.ts:182-196 | in a token outage the waits are two, four and eight seconds and then fifteen |
| WebSocketClientAnswers.CloseDecides | src/websocket-client.ts:489-529 | a live connection ends exactly on 1002, 1008 or 4006 of the physical socket, on any room close but 4005, over the room limit, or if its listener disposes of it; otherwise it waits once, as advertised unless the close was 4002 or 4003; what is told is fixed for each |
| WebSocketClientAnswers.TokenFailureIsRetried | src/websocket-client.ts:182-196 | a token failure is told with its code and its wait, and never given up on |
| WebSocketClientAnswers.StableConnectionStartsOver | src/websocket-client.ts:536-549 | after the stable timer the next drop waits one second; without it the waits go on doubling |
| WebSocketClientAnswers.OnlyStabilityForgives | src/websocket-client.ts:536-549 | only that timer brings the attempts down, only a connected status starts it, any other stops it |
| WebSocketClientAnswers.StatusIsPassedOn | src/websocket-client.ts:550-573 | statuses are passed on as they are while no error shows, and a sync ends an error with one connected |
| WebSocketClientAnswers.RoomLimitIsTerminal | src/websocket-client.ts:482-484 | once over the room limit the next close is the last whatever its code, and not once the limit is no longer exceeded |
| WebSocketClientAnswers.TokenIsUsed | src/websocket-client.ts:199-220 | a fetched token is used for one attempt; if that throws the connection is disposed of |
| WebSocketClientAnswers.DestroyDisposesOnce | src/websocket-client.ts:574-594 | destroying disposes once of socket and timer, and waits and fetches under way come to nothing |
| ConnectionLimits.AdmissionStaysWithinLimits | websocket-server/connection-limits.ts:32-161 | over every history distinct users, admitted connections and distinct clients stay within the collaborator limit, the maximum, and the maximum less the buffer unless that is over half of it |
| ConnectionLimits.RefusedForAReason | websocket-server/server.ts:107-116 | an upgrade is refused with 4003 or 4002 exactly when the limit named is reached and the newcomer brings somebody new |
| ConnectionLimits.AdmittedAreCounted | websocket-server/server.ts:102-120 | whoever is admitted counts as a socket, a user and a client, whoever is refused only as a socket |
| ConnectionLimits.GoneAreForgotten | websocket-server/connection-limits.ts:18-30 | a socket that has gone no longer counts, and everybody else still does |
| ConnectionLimitsCode.Server.IsClientActive | websocket-server/connection-limits.ts:44-56 | the search finds a client exactly when one of the sockets is its; no id, or an empty one, is nobody's |
| ConnectionLimitsCode.Server.IsUserActive | websocket-server/connection-limits.ts:121-133 | the search finds a user exactly when one of the sockets is theirs |
| ConnectionLimitsCode.Server.GetActiveCollaboratorCount | websocket-server/connection-limits.ts:106-114 | the loop over the sockets counts the distinct users |
| ConnectionLimitsCode.Server.ShouldAllowConnection | websocket-server/connection-limits.ts:82-101 | decides by maximum, soft limit and whether the client is active |
| ConnectionLimitsCode.Server.ShouldAllowCollaborator | websocket-server/connection-limits.ts:143-161 | decides by the collaborator limit and whether the user is active |
| ConnectionLimitsCode.Server.HandleUpgrade | websocket-server/server.ts:102-120 | the new socket is counted, checked, and given its identity only when admitted |
| RoomClientLimit.ReadPresences | src/utilities/room-client-limit.ts:89-108 | the loop reads one connection per peer that has published, without a join time as infinitely late |
| RoomClientLimit.ReadExactlyThePublished | src/utilities/room-client-limit.ts:89-108 | a connection is read exactly for each peer that has published something |
| RoomClientLimit.ReadWithTheirTimes | src/utilities/room-client-limit.ts:100-104 | a connection is read with the time its peer has published, or as infinitely late |
| RoomClientLimit.ReadIdsAreDistinct | src/utilities/room-client-limit.ts:89-108 | distinct awareness keys give distinct connections |
| RoomClientLimit.IsLocalClientWithinLimit | src/utilities/room-client-limit.ts:140-159 | sorting a copy and searching it computes the verdict, for every limit |
| RoomClientLimit.ComparisonIsJoinOrder | src/utilities/room-client-limit.ts:114-116 | the difference that the sort compares by is negative exactly for the smaller join time, at equal times the smaller id, and for any time before none |
| RoomClientLimit.NoLimitEvictsNobody | src/utilities/room-client-limit.ts:65-67 | a limit that is not finite or not positive evicts nobody |
| RoomClientLimit.RankIsAhead | src/utilities/room-client-limit.ts:114-116 | a connection's rank is the number of connections that joined before it |
| RoomClientLimit.WithinMeansFewAhead | src/utilities/room-client-limit.ts:140-159 | a connection may stay exactly when fewer than the limit joined before it; one not listed may stay |
| RoomClientLimit.OrderDoesNotMatter | src/utilities/room-client-limit.ts:140-159 | the verdict does not depend on the listing order |
| RoomClientLimit.ExactlyTheLimitStays | src/utilities/room-client-limit.ts:140-159 | exactly the smaller of the number of connections and the limit rounded up stay |
| RoomClientLimit.SurvivorsAreStable | src/utilities/room-client-limit.ts:140-159 | once the others have left, everyone who stayed may still stay |
| RoomClientLimit.PartialViewsNeverEvict | src/utilities/room-client-limit.ts:152-156 | a client allowed on the full view is allowed on every partial one |
| RoomClientLimit.LaterJoinersDoNotMatter | src/utilities/room-client-limit.ts:114-116 | later joiners do not change a verdict |

## Left out

- Physical `close()` of the client reports its close event later, never from within the call; a browser does the same.
- Server listeners and send callbacks that throw, and the rethrow of an error after completion (`websocket-server/multiplex-session.ts:167-171`).
- Sockets are named by their numbers in order of making, and a virtual socket's registration holds such a number instead of a reference.
- `parseRoomUrl` and server URL normalisation: room and grant are taken as given.
- The WebSocket constructor's text, blob and string arguments: a payload is a sequence of bytes.
- Token signatures and HTTP upgrade parsing: the verdict on a grant is an answer from outside.
- Internals of y-websocket, Yjs, `ws` and lib0, apart from lib0's varuint and UTF-8 functions.
- Metrics other than room opens, room closes, close reasons, the peak and zero-room timeouts; logging and telemetry.
- The idempotence of `MultiplexSession.start`, and frames that arrive as several chunks.
- Timers are events without times: the stable-reset delay, the settle delay and the heartbeat interval have no length.
- Debug hooks of the retry machine; the provider is taken to report one close for each socket it held.
- `roomLimitExceeded` is set by an event; the awareness listeners that lead to it are not part of this model.
- Join times are real numbers or infinity: not-a-number and negative infinity are not modelled.
- `Array.prototype.sort` is written out as a stable insertion sort; only its result matters.
- Room presence on the WordPress heartbeat, REST controllers, settings, React components: plumbing that would add easy members.
- `getActiveClientCount`: a gauge that nothing decides by.
