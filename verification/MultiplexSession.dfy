/**
  The server end of one physical socket, as functions on its state: the rooms it
  serves, one adapter each. What y-websocket does with an adapter, when a send
  callback runs and what it does then, and whether a send fails are choices of
  the environment; those made while one event is handled form a finite tree.
*/
module MultiplexSession {
  import opened Basics
  import opened Sockets
  import opened Unicode
  import opened Protocol
  import opened OrderedMap

  const ROOM_REJECTED_CLOSE_CODE := 4004
  const ROOM_INTERRUPTED_CLOSE_CODE := 4005
  const MAX_AUTHORIZATION_BYPASS_ATTEMPTS: nat := 2
  const CONNECTION_TIMEOUT_CLOSE_CODE := 4001
  const PROTOCOL_ERROR_CLOSE_CODE := 1002
  const POLICY_CLOSE_CODE := 1008
  const SEND_FAILED_CLOSE_CODE := 1011

  datatype CloseReason =
    | AuthorizationRejected
    | GrantExpired
    | ClientUnsubscribe
    | ServerRoomClose
    | PhysicalConnectionClose

  // ---------- grants ----------

  datatype Payload = Payload(
    blogId: int,
    userId: int,
    roomName: Text,
    wpClientId: Option<Text>,
    connectionId: Option<Text>)

  /** What checking a grant's signature, fields and expiry says: the oracle that stands for the JWT library. */
  datatype Verification = Fresh(payload: Payload) | Stale(payload: Payload) | Invalid

  function EffectiveClientId(p: Payload): Text {
    if p.wpClientId.Some? then p.wpClientId.value
    else if p.connectionId.Some? then p.connectionId.value
    else []
  }

  predicate MatchesIdentity(p: Payload, initial: Payload) {
    && p.userId == initial.userId
    && p.blogId == initial.blogId
    && EffectiveClientId(p) == EffectiveClientId(initial)
  }

  // ---------- state ----------

  /** The adapters of a room are numbered in the order in which they were made. */
  datatype AdapterId = AdapterId(room: Text, serial: nat)

  /**
    A RoomWebSocket. handed says that y-websocket has been given it; closer is
    whoever called its close().
  */
  datatype Adapter = Adapter(
    open: bool,
    handed: bool,
    inbox: seq<Bytes>,
    closer: Option<CloseReason>)

  /** The adapters of a room, how many sends there were for it, and which of them have not completed yet (with a callback or not). */
  datatype Slot = Slot(adapters: seq<Adapter>, sends: nat, waiting: map<nat, bool>)

  /** A frame written to the physical socket, and the adapter active for its room at that moment. */
  datatype Emitted = Emitted(message: Message, active: Option<nat>)

  /**
    What the session reports to its metrics, in order; adapter says whose closing
    a close reason is about, if it is not about a refusal.
  */
  datatype Metric =
    | RoomOpen
    | RoomClose
    | RoomConnectionClose(reason: CloseReason, adapter: Option<AdapterId>)
    | PeakRooms(count: nat)
    | ZeroRoomTimeout

  /**
    A send callback that ran: for which send, whether its adapter was open when
    send was called, with an error or not, and how many rooms were left.
  */
  datatype Call = Call(room: Text, send: nat, open: bool, error: bool, roomsLeft: nat)

  datatype Heartbeat = Heartbeat(pongReceived: bool, stopped: bool, pings: nat)

  datatype Session = Session(
    initialGrant: Payload,
    physical: ReadyState,
    rooms: OMap<Text, nat>,
    closedRooms: set<Text>,
    expected: map<AdapterId, CloseReason>,
    bypass: nat,
    peak: nat,
    slots: map<Text, Slot>,
    out: seq<Emitted>,
    closes: seq<int>,
    metrics: seq<Metric>,
    calls: seq<Call>,
    heartbeat: Heartbeat)

  function Start(initialGrant: Payload): Session {
    Session(initialGrant, OPEN, OMap([], map[]), {}, map[], 0, 0, map[], [], [], [], [], Heartbeat(true, false, 0))
  }

  function SlotOf(s: Session, room: Text): Slot {
    if room in s.slots then s.slots[room] else Slot([], 0, map[])
  }

  function SetSlot(s: Session, room: Text, slot: Slot): Session {
    s.(slots := s.slots[room := slot])
  }

  predicate Exists(s: Session, id: AdapterId) {
    id.serial < |SlotOf(s, id.room).adapters|
  }

  predicate IsOpen(s: Session, id: AdapterId) {
    Exists(s, id) && SlotOf(s, id.room).adapters[id.serial].open
  }

  function SetAdapter(s: Session, id: AdapterId, a: Adapter): Session
    requires Exists(s, id)
  {
    var slot := SlotOf(s, id.room);
    SetSlot(s, id.room, slot.(adapters := slot.adapters[id.serial := a]))
  }

  function Active(s: Session, room: Text): Option<nat> {
    if room in s.rooms.entries then Some(s.rooms.entries[room]) else None
  }

  // ---------- what the environment may choose ----------

  /** What y-websocket does in a listener or a callback. */
  datatype Script = Stop | Do(op: Op, next: Script)

  datatype Op =
    | Send(id: AdapterId, payload: Bytes, how: Sending)
    | CloseAdapter(id: AdapterId, closing: Closing)

  /** How a send goes: its outcome, and what the callback passed along does. */
  datatype Sending = Sending(outcome: Outcome, callback: Callback)

  datatype Callback = NoCallback | Calls(script: Script)

  /** physical.send: it completes later, or at once, or fails at once, the frame written or not. */
  datatype Outcome = Queued | Accepted | Failed(wrote: bool, cleanup: Cleanup)

  /** An adapter closing: how the notice to the client goes, and what the other close listeners do. */
  datatype Closing = Closing(notice: Outcome, listener: Script)

  /** The closings of a cleanup, in order; beyond those scripted, listeners do nothing. */
  datatype Cleanup = Unscripted | Scripted(first: Closing, rest: Cleanup)

  // ---------- the pieces of a step ----------

  function ClosePhysicalSocket(s: Session, code: int): Session {
    if s.physical.Live() then s.(physical := CLOSING, closes := s.closes + [code]) else s
  }

  function Expect(s: Session, id: AdapterId, reason: CloseReason): Session {
    s.(expected := s.expected[id := reason])
  }

  // RoomWebSocket.close() on an open adapter, up to the end of the session's own listener but for the notice.
  function CloseCore(s: Session, id: AdapterId, closer: CloseReason): Session
    requires Exists(s, id)
  {
    var a := SlotOf(s, id.room).adapters[id.serial];
    var reason := if id in s.expected then s.expected[id] else ServerRoomClose;
    var told := SetAdapter(s, id, a.(open := false, closer := Some(closer))).(expected := s.expected - {id});
    if Active(s, id.room) == Some(id.serial) then
      told.(rooms := Delete(s.rooms, id.room),
            closedRooms := s.closedRooms + {id.room},
            metrics := s.metrics + [RoomClose, RoomConnectionClose(reason, Some(id))])
    else told
  }

  // Whether closing this adapter calls for a room_closed frame.
  predicate NeedsNotice(s: Session, id: AdapterId) {
    && Active(s, id.room) == Some(id.serial)
    && (id in s.expected ==> s.expected[id] == ServerRoomClose)
    && s.physical.OPEN?
  }

  predicate WasHanded(s: Session, id: AdapterId) {
    Exists(s, id) && SlotOf(s, id.room).adapters[id.serial].handed
  }

  function CountSend(s: Session, room: Text): Session {
    var slot := SlotOf(s, room);
    SetSlot(s, room, slot.(sends := slot.sends + 1))
  }

  function Emit(s: Session, m: Message): Session {
    if s.physical.OPEN? then s.(out := s.out + [Emitted(m, Active(s, m.room))]) else s
  }

  function LogCall(s: Session, room: Text, send: nat, error: bool, hasCallback: bool): Session {
    if hasCallback then s.(calls := s.calls + [Call(room, send, true, error, |s.rooms.keys|)]) else s
  }

  // RoomWebSocket.send() with a callback on a closed adapter: the callback has its error at once.
  function Refuse(s: Session, room: Text): Session {
    var send := SlotOf(s, room).sends;
    CountSend(s, room).(calls := s.calls + [Call(room, send, false, true, |s.rooms.keys|)])
  }

  function Wait(s: Session, room: Text, send: nat, hasCallback: bool): Session {
    var slot := SlotOf(s, room);
    SetSlot(s, room, slot.(waiting := slot.waiting[send := hasCallback]))
  }

  // Array.from(this.rooms.values()).
  function Snapshot(s: Session): seq<AdapterId> {
    seq(|s.rooms.keys|, i requires 0 <= i < |s.rooms.keys| =>
      AdapterId(s.rooms.keys[i], if s.rooms.keys[i] in s.rooms.entries then s.rooms.entries[s.rooms.keys[i]] else 0))
  }

  // The end of handlePhysicalSendError.
  function FailPhysical(s: Session): Session {
    ClosePhysicalSocket(s, SEND_FAILED_CLOSE_CODE)
  }

  // closeRoom for each adapter of a snapshot, no other listener doing anything.
  function CleanQuietly(s: Session, ids: seq<AdapterId>): Session
    decreases |ids|
  {
    if ids == [] then s
    else
      var expecting := Expect(s, ids[0], PhysicalConnectionClose);
      CleanQuietly(if IsOpen(expecting, ids[0]) then CloseCore(expecting, ids[0], PhysicalConnectionClose) else expecting, ids[1..])
  }

  // ---------- the mutually recursive part ----------

  // closeRoom for each adapter of a snapshot.
  function CleanEach(s: Session, ids: seq<AdapterId>, scripts: Cleanup): Session
    decreases scripts, |ids|, 0
  {
    if ids == [] then s
    else match scripts
      case Unscripted => CleanQuietly(s, ids)
      case Scripted(first, rest) =>
        CleanEach(Close(Expect(s, ids[0], PhysicalConnectionClose), ids[0], PhysicalConnectionClose, first), ids[1..], rest)
  }

  function CleanupRooms(s: Session, scripts: Cleanup): Session
    decreases scripts, |s.rooms.keys| + 1, 0
  {
    CleanEach(s, Snapshot(s), scripts)
  }

  // handlePhysicalSendError.
  function SendError(s: Session, scripts: Cleanup): Session
    decreases scripts, |s.rooms.keys| + 1, 1
  {
    FailPhysical(CleanupRooms(s, scripts))
  }

  // sendPhysicalMessage up to the callback; the flag is its result. A message that cannot be encoded fails unsent.
  function Transmit(s: Session, m: Message, outcome: Outcome, hasCallback: bool): (Session, bool)
    decreases outcome, 0, 0
  {
    var send := SlotOf(s, m.room).sends;
    var counted := CountSend(s, m.room);
    if outcome.Failed? then
      var written := if outcome.wrote && Encode(m).Ok? then Emit(counted, m) else counted;
      (LogCall(SendError(written, outcome.cleanup), m.room, send, true, hasCallback), false)
    else if Encode(m).Err? then
      (LogCall(FailPhysical(CleanQuietly(counted, Snapshot(counted))), m.room, send, true, hasCallback), false)
    else match outcome
      case Accepted => (LogCall(Emit(counted, m), m.room, send, false, hasCallback), true)
      case Queued => (Wait(Emit(counted, m), m.room, send, hasCallback), true)
  }

  // RoomWebSocket.close(), with the session's listener and then the others.
  function Close(s: Session, id: AdapterId, closer: CloseReason, how: Closing): Session
    decreases how, 0, 0
  {
    if !IsOpen(s, id) then s
    else
      var told := CloseCore(s, id, closer);
      var notified := if NeedsNotice(s, id) then Transmit(told, RoomClosed(id.room, ROOM_INTERRUPTED_CLOSE_CODE), how.notice, false).0 else told;
      if WasHanded(s, id) then Run(notified, how.listener) else notified
  }

  // RoomWebSocket.send(): on a closed adapter the callback gets an error at once.
  function SendOn(s: Session, id: AdapterId, payload: Bytes, how: Sending): Session
    decreases how, 0, 0
  {
    if !IsOpen(s, id) then
      match how.callback
      case NoCallback => s
      case Calls(script) => Run(Refuse(s, id.room), script)
    else
      var m := Data(id.room, payload);
      var sent := Transmit(s, m, how.outcome, how.callback.Calls?).0;
      match how.callback
      case NoCallback => sent
      case Calls(script) => if how.outcome.Queued? && Encode(m).Ok? then sent else Run(sent, script)
  }

  // y-websocket can act only on adapters it has been given.
  function Apply(s: Session, op: Op): Session
    decreases op, 0, 0
  {
    if !WasHanded(s, op.id) then s
    else match op
      case Send(id, payload, how) => SendOn(s, id, payload, how)
      case CloseAdapter(id, closing) => Close(s, id, ServerRoomClose, closing)
  }

  function Run(s: Session, script: Script): Session
    decreases script, 0, 0
  {
    match script
    case Stop => s
    case Do(op, next) => Run(Apply(s, op), next)
  }

  // ---------- handlers ----------

  /** The choices made while one frame is handled. */
  datatype Choices = Choices(verification: Verification, reply: Outcome, script: Script, cleanup: Cleanup)

  function ClosePhysical(s: Session, code: int, cleanup: Cleanup): Session {
    ClosePhysicalSocket(CleanupRooms(s, cleanup), code)
  }

  function SendRoomClosed(s: Session, room: Text, code: int, reply: Outcome): Session {
    Transmit(s, RoomClosed(room, code), reply, false).0
  }

  function RejectRoom(s: Session, room: Text, reply: Outcome): Session {
    SendRoomClosed(s.(metrics := s.metrics + [RoomConnectionClose(AuthorizationRejected, None)]), room, ROOM_REJECTED_CLOSE_CODE, reply)
  }

  function RejectAuthorizationBypass(s: Session, room: Text, choices: Choices): Session {
    var rejected := RejectRoom(s.(bypass := s.bypass + 1), room, choices.reply);
    if rejected.bypass >= MAX_AUTHORIZATION_BYPASS_ATTEMPTS
    then ClosePhysical(rejected, POLICY_CLOSE_CODE, choices.cleanup)
    else rejected
  }

  // A new adapter stored for its room, before anything is sent.
  function OpenRoom(s: Session, room: Text): Session {
    var slot := SlotOf(s, room);
    var rooms := Set(s.rooms, room, |slot.adapters|);
    SetSlot(s, room, slot.(adapters := slot.adapters + [Adapter(true, false, [], None)])).(
      rooms := rooms,
      peak := Max(s.peak, |rooms.keys|),
      closedRooms := s.closedRooms - {room},
      metrics := s.metrics + [RoomOpen])
  }

  // setupWSConnection: y-websocket has the adapter from now on.
  function HandOver(s: Session, id: AdapterId): Session {
    if Exists(s, id) then SetAdapter(s, id, SlotOf(s, id.room).adapters[id.serial].(handed := true)) else s
  }

  function AddRoom(s: Session, room: Text, choices: Choices): Session {
    var id := AdapterId(room, |SlotOf(s, room).adapters|);
    var (acknowledged, sent) := Transmit(OpenRoom(s, room), Subscribed(room), choices.reply, false);
    if !sent then acknowledged else Run(HandOver(acknowledged, id), choices.script)
  }

  function Authorize(s: Session, room: Text, payload: Payload, expired: bool, choices: Choices): Session {
    if payload.roomName != room || !MatchesIdentity(payload, s.initialGrant) then
      RejectAuthorizationBypass(s, room, choices)
    else if expired then
      SendRoomClosed(s.(metrics := s.metrics + [RoomConnectionClose(GrantExpired, None)]), room, ROOM_INTERRUPTED_CLOSE_CODE, choices.reply)
    else AddRoom(s, payload.roomName, choices)
  }

  function HandleSubscribe(s: Session, room: Text, choices: Choices): Session {
    if s.rooms.Has(room) then Transmit(s, Subscribed(room), choices.reply, false).0
    else match choices.verification
      case Invalid => RejectRoom(s, room, choices.reply)
      case Fresh(payload) => Authorize(s, room, payload, false, choices)
      case Stale(payload) => Authorize(s, room, payload, true, choices)
  }

  // The adapter emits 'message': its inbox grows, and y-websocket reacts.
  function Deliver(s: Session, id: AdapterId, payload: Bytes): Session {
    if !Exists(s, id) then s
    else
      var a := SlotOf(s, id.room).adapters[id.serial];
      SetAdapter(s, id, a.(inbox := a.inbox + [payload]))
  }

  function HandleData(s: Session, room: Text, payload: Bytes, choices: Choices): Session {
    if s.rooms.Has(room) then
      var id := AdapterId(room, s.rooms.entries[room]);
      var delivered := Deliver(s, id, payload);
      if WasHanded(delivered, id) then Run(delivered, choices.script) else delivered
    else if room in s.closedRooms then s
    else RejectAuthorizationBypass(s, room, choices)
  }

  function HandleUnsubscribe(s: Session, room: Text, choices: Choices): Session {
    if s.rooms.Has(room) then
      var id := AdapterId(room, s.rooms.entries[room]);
      Close(Expect(s, id, ClientUnsubscribe), id, ClientUnsubscribe, Closing(choices.reply, choices.script))
    else s
  }

  function HandleMessage(s: Session, m: Message, choices: Choices): Session {
    match m
    case Subscribe(room, _) => HandleSubscribe(s, room, choices)
    case Data(room, payload) => HandleData(s, room, payload, choices)
    case Unsubscribe(room) => HandleUnsubscribe(s, room, choices)
    case _ => ClosePhysical(s, PROTOCOL_ERROR_CLOSE_CODE, choices.cleanup)
  }

  function HandleFrame(s: Session, frame: Bytes, binary: bool, choices: Choices): Session {
    if !s.physical.OPEN? then CleanupRooms(s, choices.cleanup)
    else if !binary then ClosePhysical(s, PROTOCOL_ERROR_CLOSE_CODE, choices.cleanup)
    else match Decode(frame)
      case Err(_) => ClosePhysical(s, PROTOCOL_ERROR_CLOSE_CODE, choices.cleanup)
      case Ok(m) => HandleMessage(s, m, choices)
  }

  // A queued send reports; a second report of the same send finds it gone.
  function Complete(s: Session, room: Text, send: nat, error: bool, cleanup: Cleanup, callback: Script): Session {
    var slot := SlotOf(s, room);
    if send !in slot.waiting then s
    else
      var taken := SetSlot(s, room, slot.(waiting := slot.waiting - {send}));
      var handled := if error then SendError(taken, cleanup) else taken;
      var called := LogCall(handled, room, send, error, slot.waiting[send]);
      if slot.waiting[send] then Run(called, callback) else called
  }

  function HandlePhysicalClose(s: Session, cleanup: Cleanup): Session {
    CleanupRooms(s.(metrics := s.metrics + [PeakRooms(s.peak)]), cleanup)
  }

  // ---------- heartbeat ----------

  datatype Beat = Silent | Ping | Empty | Unresponsive

  // What a tick finds to do.
  function TickAction(h: Heartbeat, physical: ReadyState, hasRooms: bool): Beat {
    if h.stopped || !physical.OPEN? then Silent
    else if !hasRooms then Empty
    else if !h.pongReceived then Unresponsive
    else Ping
  }

  function Tick(s: Session, pingThrows: bool, cleanup: Cleanup): Session {
    match TickAction(s.heartbeat, s.physical, !s.rooms.IsEmpty())
    case Silent => s.(heartbeat := s.heartbeat.(stopped := true))
    case Empty =>
      ClosePhysical(s.(heartbeat := s.heartbeat.(stopped := true), metrics := s.metrics + [ZeroRoomTimeout]),
                    CONNECTION_TIMEOUT_CLOSE_CODE, cleanup)
    case Unresponsive => Terminate(CleanupRooms(s.(heartbeat := s.heartbeat.(stopped := true)), cleanup))
    case Ping =>
      if pingThrows
      then Terminate(CleanupRooms(s.(heartbeat := s.heartbeat.(pongReceived := false, stopped := true)), cleanup))
      else s.(heartbeat := s.heartbeat.(pongReceived := false, pings := s.heartbeat.pings + 1))
  }

  // physical.terminate().
  function Terminate(s: Session): Session {
    if s.physical.Live() then s.(physical := CLOSING) else s
  }

  // ---------- what can happen to a session ----------

  datatype Event =
    | Frame(frame: Bytes, binary: bool, choices: Choices)
    | Completed(room: Text, send: nat, error: bool, cleanup: Cleanup, callback: Script)
    | Adapters(op: Op)
    | ClosedFromOutside
    | PhysicalClose(cleanup: Cleanup)
    | TickEvent(pingThrows: bool, cleanup: Cleanup)
    | Pong

  function Step(s: Session, event: Event): Session {
    match event
    case Frame(frame, binary, choices) => HandleFrame(s, frame, binary, choices)
    case Completed(room, send, error, cleanup, callback) => Complete(s, room, send, error, cleanup, callback)
    case Adapters(op) => Apply(s, op)
    case ClosedFromOutside => s.(physical := if s.physical.Live() then CLOSING else s.physical)
    case PhysicalClose(cleanup) =>
      HandlePhysicalClose(s.(physical := CLOSED, heartbeat := s.heartbeat.(stopped := true)), cleanup)
    case TickEvent(pingThrows, cleanup) => if s.heartbeat.stopped then s else Tick(s, pingThrows, cleanup)
    case Pong => if s.heartbeat.stopped then s else s.(heartbeat := s.heartbeat.(pongReceived := true))
  }
}
