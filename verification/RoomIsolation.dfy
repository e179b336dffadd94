/** Rooms do not interfere: what one room sees of a session depends on that room's events alone. */
module RoomIsolation {
  import opened Basics
  import opened Sockets
  import opened Unicode
  import opened Protocol
  import opened OrderedMap
  import opened MultiplexSession
  import opened MultiplexSessionProofs
  import opened MultiplexSessionSteps
  import opened MultiplexSessionRuns

  // ---------- what belongs to a room ----------

  /** y-websocket, called for a room, acts on that room's adapters only. */
  predicate LocalScript(script: Script, room: Text) {
    match script
    case Stop => true
    case Do(op, next) => LocalOp(op, room) && LocalScript(next, room)
  }

  predicate LocalOp(op: Op, room: Text) {
    && op.id.room == room
    && match op
       case Send(_, _, how) => how.callback.Calls? ==> LocalScript(how.callback.script, room)
       case CloseAdapter(_, closing) => LocalScript(closing.listener, room)
  }

  /** The room an event is about, if it is about one. */
  function RoomOf(event: Event): Option<Text> {
    match event
    case Frame(frame, binary, _) => if binary && Decode(frame).Ok? then Some(Decode(frame).value.room) else None
    case Completed(room, _, _, _, _) => Some(room)
    case Adapters(op) => Some(op.id.room)
    case _ => None
  }

  predicate Local(event: Event) {
    RoomOf(event).Some? ==>
      match event
      case Frame(_, _, choices) => LocalScript(choices.script, RoomOf(event).value)
      case Completed(_, _, _, _, callback) => LocalScript(callback, RoomOf(event).value)
      case Adapters(op) => LocalOp(op, RoomOf(event).value)
      case _ => true
  }

  /** The events of one room, in order. */
  function Only(events: seq<Event>, room: Text): seq<Event> {
    if events == [] then []
    else
      var last := events[|events| - 1];
      Only(events[..|events| - 1], room) + if RoomOf(last) == Some(room) then [last] else []
  }

  /** The frames of one room, in order. */
  function FramesOf(out: seq<Emitted>, room: Text): seq<Emitted> {
    if out == [] then []
    else
      var last := out[|out| - 1];
      FramesOf(out[..|out| - 1], room) + if last.message.room == room then [last] else []
  }

  lemma FramesOfAppend(out: seq<Emitted>, e: Emitted, room: Text)
    ensures FramesOf(out + [e], room) == FramesOf(out, room) + if e.message.room == room then [e] else []
  {
    assert (out + [e])[..|out|] == out;
  }

  function Expected(s: Session, id: AdapterId): Option<CloseReason> {
    if id in s.expected then Some(s.expected[id]) else None
  }

  /** Two sessions that a room cannot tell apart: its adapters and sends, its place in rooms and closedRooms, its frames. */
  ghost predicate Alike(s: Session, u: Session, room: Text) {
    && s.physical.OPEN? && u.physical.OPEN?
    && s.initialGrant == u.initialGrant
    && SlotOf(s, room) == SlotOf(u, room)
    && Active(s, room) == Active(u, room)
    && (room in s.closedRooms <==> room in u.closedRooms)
    && (forall id: AdapterId | id.room == room :: Expected(s, id) == Expected(u, id))
    && FramesOf(s.out, room) == FramesOf(u.out, room)
  }

  // ---------- one transmission ----------

  function NextSlot(slot: Slot, outcome: Outcome, hasCallback: bool): Slot {
    slot.(sends := slot.sends + 1,
          waiting := if outcome.Queued? then slot.waiting[slot.sends := hasCallback] else slot.waiting)
  }

  // A transmission after which the socket is open has gone well, and changed only its room's slot.
  lemma TransmitOpen(s: Session, m: Message, outcome: Outcome, hasCallback: bool)
    requires Transmit(s, m, outcome, hasCallback).0.physical.OPEN?
    ensures var (t, ok) := Transmit(s, m, outcome, hasCallback);
            && ok && s.physical.OPEN? && Encode(m).Ok? && !outcome.Failed?
            && t == s.(slots := t.slots, out := s.out + [Emitted(m, Active(s, m.room))], calls := t.calls)
            && t.slots == s.slots[m.room := NextSlot(SlotOf(s, m.room), outcome, hasCallback)]
  {
    hide Encode, CleanQuietly, SendError;
    if outcome.Failed? {
      FailedIsNotOpen(WrittenFirst(s, m, outcome.wrote), outcome.cleanup);
    }
  }

  lemma FailedIsNotOpen(s: Session, cleanup: Cleanup)
    ensures !SendError(s, cleanup).physical.OPEN?
  {
  }

  // The other way round: on an open socket such a transmission goes well.
  lemma TransmitGoesWell(s: Session, m: Message, outcome: Outcome, hasCallback: bool)
    requires s.physical.OPEN? && Encode(m).Ok? && !outcome.Failed?
    ensures Transmit(s, m, outcome, hasCallback).0.physical.OPEN?
  {
    hide Encode;
  }

  lemma TransmitLeaves(s: Session, m: Message, outcome: Outcome, hasCallback: bool, room: Text)
    requires m.room != room
    ensures var t := Transmit(s, m, outcome, hasCallback).0;
            t.physical.OPEN? ==> Alike(s, t, room) && t.bypass == s.bypass
  {
    hide Transmit;
    if Transmit(s, m, outcome, hasCallback).0.physical.OPEN? {
      TransmitOpen(s, m, outcome, hasCallback);
      FramesOfAppend(s.out, Emitted(m, Active(s, m.room)), room);
      hide Encode;
    }
  }

  lemma TransmitMatches(s: Session, u: Session, m: Message, outcome: Outcome, hasCallback: bool)
    requires Alike(s, u, m.room)
    ensures var t := Transmit(s, m, outcome, hasCallback);
            var v := Transmit(u, m, outcome, hasCallback);
            t.0.physical.OPEN? ==> Alike(t.0, v.0, m.room) && t.0.bypass == s.bypass && v.0.bypass == u.bypass && t.1 && v.1
  {
    hide Transmit, Encode;
    if Transmit(s, m, outcome, hasCallback).0.physical.OPEN? {
      TransmitOpen(s, m, outcome, hasCallback);
      TransmitGoesWell(u, m, outcome, hasCallback);
      TransmitOpen(u, m, outcome, hasCallback);
      FramesOfAppend(s.out, Emitted(m, Active(s, m.room)), m.room);
      FramesOfAppend(u.out, Emitted(m, Active(u, m.room)), m.room);
    }
  }

  // ---------- closings and scripts ----------

  lemma CloseCoreLeaves(s: Session, id: AdapterId, closer: CloseReason, room: Text)
    requires Exists(s, id) && id.room != room && s.physical.OPEN?
    ensures var t := CloseCore(s, id, closer); Alike(s, t, room) && t.bypass == s.bypass && t.physical == s.physical
  {
    hide Without;
  }

  lemma CloseCoreMatches(s: Session, u: Session, id: AdapterId, closer: CloseReason)
    requires Alike(s, u, id.room) && Exists(s, id)
    ensures Exists(u, id)
    ensures Alike(CloseCore(s, id, closer), CloseCore(u, id, closer), id.room)
    ensures CloseCore(s, id, closer).bypass == s.bypass && CloseCore(u, id, closer).bypass == u.bypass
  {
    assert Expected(s, id) == Expected(u, id);
    hide Without, FramesOf;
  }

  lemma AlikeTransitive(s: Session, t: Session, u: Session, room: Text)
    requires Alike(s, t, room) && Alike(t, u, room)
    ensures Alike(s, u, room)
  {
    hide SlotOf, Active, FramesOf;
  }

  lemma {:induction false} CloseLeaves(s: Session, id: AdapterId, closer: CloseReason, how: Closing, room: Text)
    requires id.room != room && LocalScript(how.listener, id.room)
    ensures var t := Close(s, id, closer, how); t.physical.OPEN? ==> Alike(s, t, room) && t.bypass == s.bypass
    decreases how, 0, 0
  {
    if IsOpen(s, id) && Close(s, id, closer, how).physical.OPEN? {
      var told := CloseCore(s, id, closer);
      assert told.physical == s.physical;
      hide CloseCore, Alike, IsOpen, LocalScript, Transmit;
      var notice := RoomClosed(id.room, ROOM_INTERRUPTED_CLOSE_CODE);
      var notified := if NeedsNotice(s, id) then Transmit(told, notice, how.notice, false).0 else told;
      RunLeaves(notified, how.listener, id.room, room);
      assert notified.physical.OPEN? by { AlikeIsOpen(notified, Run(notified, how.listener), room); }
      TransmitLeaves(told, notice, how.notice, false, room);
      AlikeIsOpen(told, notified, room);
      CloseCoreLeaves(s, id, closer, room);
      ChainLeaves(s, told, notified, Close(s, id, closer, how), room);
    }
  }

  lemma AlikeIsOpen(s: Session, t: Session, room: Text)
    ensures Alike(s, t, room) ==> s.physical.OPEN? && t.physical.OPEN?
    ensures s.physical.OPEN? ==> Alike(s, s, room)
  {
  }

  lemma ChainLeaves(s: Session, told: Session, notified: Session, t: Session, room: Text)
    requires Alike(s, told, room) && (told == notified || Alike(told, notified, room)) && (notified == t || Alike(notified, t, room))
    ensures Alike(s, t, room)
  {
    hide SlotOf, Active, FramesOf;
  }

  lemma RefuseLeaves(s: Session, own: Text, room: Text)
    requires own != room && s.physical.OPEN?
    ensures Alike(s, Refuse(s, own), room) && Refuse(s, own).bypass == s.bypass
  {
  }

  lemma RefuseMatches(s: Session, u: Session, room: Text)
    requires Alike(s, u, room)
    ensures Alike(Refuse(s, room), Refuse(u, room), room)
    ensures Refuse(s, room).bypass == s.bypass && Refuse(u, room).bypass == u.bypass && Refuse(s, room).physical == s.physical
  {
    hide FramesOf;
  }

  lemma RefuseSocket(s: Session, room: Text)
    ensures Refuse(s, room).physical == s.physical
  {
  }

  lemma {:induction false} SendOnLeaves(s: Session, id: AdapterId, payload: Bytes, how: Sending, room: Text)
    requires id.room != room && (how.callback.Calls? ==> LocalScript(how.callback.script, id.room))
    ensures var t := SendOn(s, id, payload, how); t.physical.OPEN? ==> Alike(s, t, room) && t.bypass == s.bypass
    decreases how, 0, 0
  {
    AlikeIsOpen(s, s, room);
    RefuseSocket(s, id.room);
    hide Alike, IsOpen, LocalScript, Transmit, Encode, Refuse;
    var m := Data(id.room, payload);
    var sent := if IsOpen(s, id) then Transmit(s, m, how.outcome, how.callback.Calls?).0
                else if how.callback.Calls? then Refuse(s, id.room) else s;
    TransmitLeaves(s, m, how.outcome, how.callback.Calls?, room);
    if s.physical.OPEN? {
      RefuseLeaves(s, id.room, room);
    }
    AlikeIsOpen(s, sent, room);
    if how.callback.Calls? {
      RunLeaves(sent, how.callback.script, id.room, room);
      AlikeIsOpen(sent, Run(sent, how.callback.script), room);
      if SendOn(s, id, payload, how).physical.OPEN? {
        ChainLeaves(s, sent, sent, SendOn(s, id, payload, how), room);
      }
    }
  }

  lemma {:induction false} ApplyLeaves(s: Session, op: Op, own: Text, room: Text)
    requires own != room && LocalOp(op, own)
    ensures var t := Apply(s, op); t.physical.OPEN? ==> Alike(s, t, room) && t.bypass == s.bypass
    decreases op, 0, 0
  {
    AlikeIsOpen(s, s, room);
    hide Alike, WasHanded;
    match op
    case Send(id, payload, how) => SendOnLeaves(s, id, payload, how, room);
    case CloseAdapter(id, closing) => CloseLeaves(s, id, ServerRoomClose, closing, room);
  }

  /** What is done for another room leaves this one alone. */
  lemma {:induction false} RunLeaves(s: Session, script: Script, own: Text, room: Text)
    requires own != room && LocalScript(script, own)
    ensures var t := Run(s, script); t.physical.OPEN? ==> Alike(s, t, room) && t.bypass == s.bypass
    decreases script, 0, 0
  {
    AlikeIsOpen(s, s, room);
    if script.Do? && Run(s, script).physical.OPEN? {
      var mid := Apply(s, script.op);
      hide Alike, Apply, LocalOp;
      RunLeaves(mid, script.next, own, room);
      AlikeIsOpen(mid, Run(mid, script.next), room);
      ApplyLeaves(s, script.op, own, room);
      AlikeTransitive(s, mid, Run(mid, script.next), room);
    }
  }

  lemma RunStaysOpen(s: Session, script: Script, own: Text)
    requires LocalScript(script, own) && Run(s, script).physical.OPEN?
    ensures s.physical.OPEN?
  {
    var other := own + [0];
    assert |other| != |own|;
    RunLeaves(s, script, own, other);
  }

  lemma SameLooks(s: Session, u: Session, id: AdapterId)
    requires Alike(s, u, id.room)
    ensures Exists(s, id) == Exists(u, id) && IsOpen(s, id) == IsOpen(u, id) && WasHanded(s, id) == WasHanded(u, id)
    ensures NeedsNotice(s, id) == NeedsNotice(u, id)
  {
    assert Expected(s, id) == Expected(u, id);
  }

  lemma {:induction false} CloseMatches(s: Session, u: Session, id: AdapterId, closer: CloseReason, how: Closing)
    requires Alike(s, u, id.room) && LocalScript(how.listener, id.room)
    ensures var t := Close(s, id, closer, how);
            var v := Close(u, id, closer, how);
            t.physical.OPEN? ==> Alike(t, v, id.room) && t.bypass == s.bypass && v.bypass == u.bypass
    decreases how, 0, 0
  {
    SameLooks(s, u, id);
    if IsOpen(s, id) && Close(s, id, closer, how).physical.OPEN? {
      var told := CloseCore(s, id, closer);
      var told' := CloseCore(u, id, closer);
      CloseCoreMatches(s, u, id, closer);
      hide CloseCore, Alike, IsOpen, LocalScript, Transmit, NeedsNotice, WasHanded, Exists;
      var notice := RoomClosed(id.room, ROOM_INTERRUPTED_CLOSE_CODE);
      TransmitMatches(told, told', notice, how.notice, false);
      var notified := if NeedsNotice(s, id) then Transmit(told, notice, how.notice, false).0 else told;
      var notified' := if NeedsNotice(s, id) then Transmit(told', notice, how.notice, false).0 else told';
      if WasHanded(s, id) {
        RunStaysOpen(notified, how.listener, id.room);
        RunMatches(notified, notified', how.listener, id.room);
      }
    }
  }

  lemma {:induction false} SendOnMatches(s: Session, u: Session, id: AdapterId, payload: Bytes, how: Sending)
    requires Alike(s, u, id.room) && (how.callback.Calls? ==> LocalScript(how.callback.script, id.room))
    ensures var t := SendOn(s, id, payload, how);
            var v := SendOn(u, id, payload, how);
            t.physical.OPEN? ==> Alike(t, v, id.room) && t.bypass == s.bypass && v.bypass == u.bypass
    decreases how, 0, 0
  {
    SameLooks(s, u, id);
    hide Alike, IsOpen, LocalScript, Transmit, Encode, Refuse;
    if IsOpen(s, id) {
      var m := Data(id.room, payload);
      var sent := Transmit(s, m, how.outcome, how.callback.Calls?).0;
      var sent' := Transmit(u, m, how.outcome, how.callback.Calls?).0;
      TransmitMatches(s, u, m, how.outcome, how.callback.Calls?);
      if how.callback.Calls? && !(how.outcome.Queued? && Encode(m).Ok?) && SendOn(s, id, payload, how).physical.OPEN? {
        RunStaysOpen(sent, how.callback.script, id.room);
        RunMatches(sent, sent', how.callback.script, id.room);
      }
    } else if how.callback.Calls? {
      var refused := Refuse(s, id.room);
      RefuseMatches(s, u, id.room);
      if SendOn(s, id, payload, how).physical.OPEN? {
        RunMatches(refused, Refuse(u, id.room), how.callback.script, id.room);
      }
    }
  }

  lemma {:induction false} ApplyMatches(s: Session, u: Session, op: Op, room: Text)
    requires Alike(s, u, room) && LocalOp(op, room)
    ensures Apply(s, op).physical.OPEN? ==>
              Alike(Apply(s, op), Apply(u, op), room) && Apply(s, op).bypass == s.bypass && Apply(u, op).bypass == u.bypass
    decreases op, 0, 0
  {
    SameLooks(s, u, op.id);
    hide Alike, WasHanded;
    match op
    case Send(id, payload, how) => SendOnMatches(s, u, id, payload, how);
    case CloseAdapter(id, closing) => CloseMatches(s, u, id, ServerRoomClose, closing);
  }

  /** What is done for this room goes the same way in sessions it cannot tell apart. */
  lemma {:induction false} RunMatches(s: Session, u: Session, script: Script, room: Text)
    requires Alike(s, u, room) && LocalScript(script, room)
    ensures Run(s, script).physical.OPEN? ==>
              Alike(Run(s, script), Run(u, script), room) && Run(s, script).bypass == s.bypass && Run(u, script).bypass == u.bypass
    decreases script, 0, 0
  {
    if script.Do? && Run(s, script).physical.OPEN? {
      hide Alike, Apply, LocalOp;
      RunStaysOpen(Apply(s, script.op), script.next, room);
      ApplyMatches(s, u, script.op, room);
      RunMatches(Apply(s, script.op), Apply(u, script.op), script.next, room);
    }
  }

  // ---------- handlers, for another room ----------

  // t comes from s without touching the room, if the socket is open in it.
  ghost predicate Leaves(s: Session, t: Session, room: Text) {
    t.physical.OPEN? ==> Alike(s, t, room)
  }

  lemma LeavesTransitive(s: Session, t: Session, u: Session, room: Text)
    requires Leaves(s, t, room) && Leaves(t, u, room)
    ensures Leaves(s, u, room)
  {
    hide SlotOf, Active, FramesOf;
  }

  lemma RunScriptLeaves(s: Session, script: Script, own: Text, room: Text)
    requires own != room && LocalScript(script, own)
    ensures Leaves(s, Run(s, script), room)
  {
    hide Alike;
    RunLeaves(s, script, own, room);
  }

  lemma RejectLeaves(s: Session, own: Text, metrics: seq<Metric>, code: int, reply: Outcome, room: Text)
    requires own != room
    ensures Leaves(s, SendRoomClosed(s.(metrics := metrics), own, code, reply), room)
  {
    TransmitLeaves(s.(metrics := metrics), RoomClosed(own, code), reply, false, room);
    hide Transmit;
  }

  lemma CountedLeaves(s: Session, t: Session, room: Text)
    requires Leaves(s.(bypass := s.bypass + 1), t, room)
    ensures Leaves(s, t, room)
  {
    hide FramesOf;
  }

  lemma BypassLeaves(s: Session, own: Text, choices: Choices, room: Text)
    requires own != room
    ensures Leaves(s, RejectAuthorizationBypass(s, own, choices), room)
  {
    hide Alike, SendRoomClosed, CleanupRooms;
    var counted := s.(bypass := s.bypass + 1);
    RejectLeaves(counted, own, s.metrics + [RoomConnectionClose(AuthorizationRejected, None)], ROOM_REJECTED_CLOSE_CODE, choices.reply, room);
    CountedLeaves(s, RejectRoom(counted, own, choices.reply), room);
  }

  lemma OpenRoomLeaves(s: Session, own: Text, room: Text)
    requires own != room
    ensures Leaves(s, OpenRoom(s, own), room)
  {
  }

  lemma HandOverLeaves(s: Session, id: AdapterId, room: Text)
    requires id.room != room
    ensures Leaves(s, HandOver(s, id), room)
  {
  }

  lemma AddRoomLeaves(s: Session, own: Text, choices: Choices, room: Text)
    requires own != room && LocalScript(choices.script, own)
    ensures Leaves(s, AddRoom(s, own, choices), room)
  {
    var o := OpenRoom(s, own);
    var (a, ok) := Transmit(o, Subscribed(own), choices.reply, false);
    var id := AdapterId(own, |SlotOf(s, own).adapters|);
    OpenRoomLeaves(s, own, room);
    TransmitLeaves(o, Subscribed(own), choices.reply, false, room);
    hide Alike, OpenRoom, Transmit, HandOver, LocalScript;
    assert Leaves(o, a, room);
    hide Leaves;
    LeavesTransitive(s, o, a, room);
    HandOverLeaves(a, id, room);
    LeavesTransitive(s, a, HandOver(a, id), room);
    RunScriptLeaves(HandOver(a, id), choices.script, own, room);
    LeavesTransitive(s, HandOver(a, id), Run(HandOver(a, id), choices.script), room);
  }

  lemma DeliverLeaves(s: Session, id: AdapterId, payload: Bytes, room: Text)
    requires id.room != room
    ensures Leaves(s, Deliver(s, id, payload), room)
  {
  }

  lemma ExpectLeaves(s: Session, id: AdapterId, reason: CloseReason, room: Text)
    requires id.room != room
    ensures Leaves(s, Expect(s, id, reason), room)
  {
  }

  lemma UnsubscribeLeaves(s: Session, own: Text, choices: Choices, room: Text)
    requires s.physical.OPEN? && own != room && LocalScript(choices.script, own)
    ensures Leaves(s, HandleUnsubscribe(s, own, choices), room)
  {
    AlikeIsOpen(s, s, room);
    if s.rooms.Has(own) {
      var id := AdapterId(own, s.rooms.entries[own]);
      ExpectLeaves(s, id, ClientUnsubscribe, room);
      hide Alike, Close, Expect, LocalScript;
      CloseLeaves(Expect(s, id, ClientUnsubscribe), id, ClientUnsubscribe, Closing(choices.reply, choices.script), room);
      LeavesTransitive(s, Expect(s, id, ClientUnsubscribe), HandleUnsubscribe(s, own, choices), room);
    }
  }

  lemma DataLeaves(s: Session, own: Text, payload: Bytes, choices: Choices, room: Text)
    requires s.physical.OPEN? && own != room && LocalScript(choices.script, own)
    ensures Leaves(s, HandleData(s, own, payload, choices), room)
  {
    AlikeIsOpen(s, s, room);
    BypassLeaves(s, own, choices, room);
    if s.rooms.Has(own) {
      var id := AdapterId(own, s.rooms.entries[own]);
      DeliverLeaves(s, id, payload, room);
      hide Alike, Deliver, LocalScript;
      RunScriptLeaves(Deliver(s, id, payload), choices.script, own, room);
      LeavesTransitive(s, Deliver(s, id, payload), Run(Deliver(s, id, payload), choices.script), room);
    }
  }

  lemma AuthorizeLeaves(s: Session, own: Text, payload: Payload, expired: bool, choices: Choices, room: Text)
    requires own != room && LocalScript(choices.script, own)
    ensures Leaves(s, Authorize(s, own, payload, expired, choices), room)
  {
    hide Leaves, AddRoom, RejectAuthorizationBypass, SendRoomClosed, LocalScript, MatchesIdentity;
    if payload.roomName != own || !MatchesIdentity(payload, s.initialGrant) {
      BypassLeaves(s, own, choices, room);
    } else if expired {
      RejectLeaves(s, own, s.metrics + [RoomConnectionClose(GrantExpired, None)], ROOM_INTERRUPTED_CLOSE_CODE, choices.reply, room);
    } else {
      AddRoomLeaves(s, own, choices, room);
    }
  }

  lemma RepeatLeaves(s: Session, own: Text, reply: Outcome, room: Text)
    requires own != room
    ensures Leaves(s, Transmit(s, Subscribed(own), reply, false).0, room)
  {
    TransmitLeaves(s, Subscribed(own), reply, false, room);
    hide Transmit, Alike;
  }

  lemma SubscribeLeaves(s: Session, own: Text, choices: Choices, room: Text)
    requires own != room && LocalScript(choices.script, own)
    ensures Leaves(s, HandleSubscribe(s, own, choices), room)
  {
    hide Leaves, Authorize, SendRoomClosed, Transmit, LocalScript;
    RepeatLeaves(s, own, choices.reply, room);
    RejectLeaves(s, own, s.metrics + [RoomConnectionClose(AuthorizationRejected, None)], ROOM_REJECTED_CLOSE_CODE, choices.reply, room);
    if choices.verification.Fresh? {
      AuthorizeLeaves(s, own, choices.verification.payload, false, choices, room);
    } else if choices.verification.Stale? {
      AuthorizeLeaves(s, own, choices.verification.payload, true, choices, room);
    }
  }

  lemma ClosedIsNotOpen(s: Session, code: int, cleanup: Cleanup)
    ensures !ClosePhysical(s, code, cleanup).physical.OPEN?
  {
    hide CleanupRooms;
  }

  lemma FrameLeaves(s: Session, frame: Bytes, binary: bool, choices: Choices, room: Text)
    requires Inv(s) && Local(Frame(frame, binary, choices)) && RoomOf(Frame(frame, binary, choices)) != Some(room)
    ensures Leaves(s, HandleFrame(s, frame, binary, choices), room)
  {
    ClosedIsNotOpen(s, PROTOCOL_ERROR_CLOSE_CODE, choices.cleanup);
    hide Alike, Decode, ClosePhysical, HandleSubscribe, HandleData, HandleUnsubscribe, LocalScript;
    if !s.physical.OPEN? {
      CleanedInv(s, choices.cleanup);
    } else if binary && Decode(frame).Ok? {
      match Decode(frame).value
      case Subscribe(own, _) => SubscribeLeaves(s, own, choices, room);
      case Data(own, payload) => DataLeaves(s, own, payload, choices, room);
      case Unsubscribe(own) => UnsubscribeLeaves(s, own, choices, room);
      case _ =>
    }
  }

  lemma TakenLeaves(s: Session, own: Text, send: nat, room: Text)
    requires own != room
    ensures Leaves(s, Taken(s, own, send), room)
  {
  }

  lemma LogCallLeaves(s: Session, own: Text, send: nat, error: bool, hasCallback: bool, room: Text)
    ensures Leaves(s, LogCall(s, own, send, error, hasCallback), room)
  {
  }

  lemma CompletedLeaves(s: Session, own: Text, send: nat, error: bool, cleanup: Cleanup, callback: Script, room: Text)
    requires s.physical.OPEN? && own != room && LocalScript(callback, own)
    ensures Leaves(s, Complete(s, own, send, error, cleanup, callback), room)
  {
    AlikeIsOpen(s, s, room);
    if send in SlotOf(s, own).waiting {
      var taken := Taken(s, own, send);
      FailedIsNotOpen(taken, cleanup);
      TakenLeaves(s, own, send, room);
      hide Alike, LogCall, SendError, LocalScript;
      var handled := if error then SendError(taken, cleanup) else taken;
      var called := LogCall(handled, own, send, error, SlotOf(s, own).waiting[send]);
      LogCallLeaves(handled, own, send, error, SlotOf(s, own).waiting[send], room);
      assert Leaves(s, handled, room);
      LeavesTransitive(s, handled, called, room);
      RunScriptLeaves(called, callback, own, room);
      LeavesTransitive(s, called, Run(called, callback), room);
    }
  }

  lemma TickLeaves(s: Session, pingThrows: bool, cleanup: Cleanup, room: Text)
    requires s.physical.OPEN?
    ensures Leaves(s, Tick(s, pingThrows, cleanup), room)
  {
    hide CleanupRooms;
  }

  /** An event of another room, or of none, leaves this room alone while the socket stays open. */
  lemma StepLeaves(s: Session, event: Event, room: Text)
    requires Inv(s) && s.physical.OPEN? && Local(event) && RoomOf(event) != Some(room)
    ensures Leaves(s, Step(s, event), room)
  {
    AlikeIsOpen(s, s, room);
    match event
    case Frame(frame, binary, choices) =>
      hide Inv, Alike, HandleFrame;
      FrameLeaves(s, frame, binary, choices, room);
    case Completed(own, send, error, cleanup, callback) =>
      hide Inv, Alike, Complete;
      CompletedLeaves(s, own, send, error, cleanup, callback, room);
    case Adapters(op) =>
      hide Inv, Alike, Apply;
      ApplyLeaves(s, op, op.id.room, room);
    case ClosedFromOutside =>
    case PhysicalClose(cleanup) =>
      hide Inv, Alike, HandlePhysicalClose;
      PhysicalCloseIdles(s, cleanup);
    case TickEvent(pingThrows, cleanup) =>
      hide Inv, Alike, Tick;
      TickLeaves(s, pingThrows, cleanup, room);
    case Pong =>
  }

  // ---------- handlers, for this room ----------

  // From sessions alike to the room, the same step leads to sessions alike to it, and no more bypasses in the second.
  ghost predicate InStep(s: Session, u: Session, t: Session, v: Session, room: Text) {
    t.physical.OPEN? ==> Alike(t, v, room) && (u.bypass <= s.bypass ==> v.bypass <= t.bypass)
  }

  lemma RunInStep(s: Session, u: Session, script: Script, room: Text)
    requires LocalScript(script, room) && (s.physical.OPEN? ==> Alike(s, u, room))
    ensures InStep(s, u, Run(s, script), Run(u, script), room)
  {
    hide Alike;
    if Run(s, script).physical.OPEN? {
      RunStaysOpen(s, script, room);
      RunMatches(s, u, script, room);
    }
  }

  lemma SendRoomClosedInStep(s: Session, u: Session, metrics: seq<Metric>, metrics': seq<Metric>, code: int, reply: Outcome, room: Text)
    requires Alike(s, u, room)
    ensures var t := SendRoomClosed(s.(metrics := metrics), room, code, reply);
            var v := SendRoomClosed(u.(metrics := metrics'), room, code, reply);
            InStep(s, u, t, v, room) && (t.physical.OPEN? ==> t.bypass == s.bypass && v.bypass == u.bypass)
  {
    TransmitMatches(s.(metrics := metrics), u.(metrics := metrics'), RoomClosed(room, code), reply, false);
    hide Transmit;
  }

  lemma RejectInStep(s: Session, u: Session, reply: Outcome, room: Text)
    requires Alike(s, u, room)
    ensures var t := RejectRoom(s, room, reply);
            var v := RejectRoom(u, room, reply);
            t.physical.OPEN? ==> Alike(t, v, room) && t.bypass == s.bypass && v.bypass == u.bypass
  {
    var metric := RoomConnectionClose(AuthorizationRejected, None);
    SendRoomClosedInStep(s, u, s.metrics + [metric], u.metrics + [metric], ROOM_REJECTED_CLOSE_CODE, reply, room);
    hide SendRoomClosed, Alike;
  }

  lemma CountedMatches(s: Session, u: Session, room: Text)
    requires Alike(s, u, room)
    ensures Alike(s.(bypass := s.bypass + 1), u.(bypass := u.bypass + 1), room)
  {
    hide FramesOf;
  }

  // After a rejection: the socket is closed if that was one too many.
  lemma BypassTail(rejected: Session, rejected': Session, choices: Choices, room: Text)
    requires rejected.physical.OPEN? ==> Alike(rejected, rejected', room) && rejected'.bypass <= rejected.bypass
    ensures var t := AfterRejection(rejected, choices);
            t.physical.OPEN? ==> Alike(t, AfterRejection(rejected', choices), room) && AfterRejection(rejected', choices).bypass <= t.bypass
  {
    hide ClosePhysical, Alike;
    ClosedIsNotOpen(rejected, POLICY_CLOSE_CODE, choices.cleanup);
  }

  lemma BypassInStep(s: Session, u: Session, choices: Choices, room: Text)
    requires Alike(s, u, room) && u.bypass <= s.bypass
    ensures InStep(s, u, RejectAuthorizationBypass(s, room, choices), RejectAuthorizationBypass(u, room, choices), room)
  {
    var counted := s.(bypass := s.bypass + 1);
    var counted' := u.(bypass := u.bypass + 1);
    CountedMatches(s, u, room);
    hide RejectRoom, AfterRejection, Alike, RejectAuthorizationBypass;
    BypassShape(s, room, choices);
    BypassShape(u, room, choices);
    RejectInStep(counted, counted', choices.reply, room);
    BypassTail(RejectRoom(counted, room, choices.reply), RejectRoom(counted', room, choices.reply), choices, room);
  }

  lemma OpenRoomMatches(s: Session, u: Session, room: Text)
    requires Alike(s, u, room)
    ensures Alike(OpenRoom(s, room), OpenRoom(u, room), room)
  {
    hide FramesOf;
  }

  lemma HandOverMatches(s: Session, u: Session, id: AdapterId)
    requires Alike(s, u, id.room)
    ensures Alike(HandOver(s, id), HandOver(u, id), id.room)
  {
    hide FramesOf;
  }

  lemma AddRoomInStep(s: Session, u: Session, choices: Choices, room: Text)
    requires Alike(s, u, room) && LocalScript(choices.script, room)
    ensures InStep(s, u, AddRoom(s, room, choices), AddRoom(u, room, choices), room)
  {
    OpenRoomMatches(s, u, room);
    TransmitMatches(OpenRoom(s, room), OpenRoom(u, room), Subscribed(room), choices.reply, false);
    var a := Transmit(OpenRoom(s, room), Subscribed(room), choices.reply, false);
    var b := Transmit(OpenRoom(u, room), Subscribed(room), choices.reply, false);
    var id := AdapterId(room, |SlotOf(s, room).adapters|);
    assert id == AdapterId(room, |SlotOf(u, room).adapters|);
    assert OpenRoom(s, room).bypass == s.bypass && OpenRoom(u, room).bypass == u.bypass;
    assert HandOver(a.0, id).bypass == a.0.bypass && HandOver(b.0, id).bypass == b.0.bypass && HandOver(a.0, id).physical == a.0.physical;
    hide Alike, OpenRoom, Transmit, HandOver, LocalScript;
    if a.0.physical.OPEN? {
      HandOverMatches(a.0, b.0, id);
    }
    if a.1 {
      RunInStep(HandOver(a.0, id), HandOver(b.0, id), choices.script, room);
    }
  }

  lemma AuthorizeInStep(s: Session, u: Session, payload: Payload, expired: bool, choices: Choices, room: Text)
    requires Alike(s, u, room) && u.bypass <= s.bypass && LocalScript(choices.script, room)
    ensures InStep(s, u, Authorize(s, room, payload, expired, choices), Authorize(u, room, payload, expired, choices), room)
  {
    assert s.initialGrant == u.initialGrant;
    hide Alike, InStep, AddRoom, RejectAuthorizationBypass, SendRoomClosed, LocalScript, MatchesIdentity;
    if payload.roomName != room || !MatchesIdentity(payload, s.initialGrant) {
      BypassInStep(s, u, choices, room);
    } else if expired {
      SendRoomClosedInStep(s, u, s.metrics + [RoomConnectionClose(GrantExpired, None)],
                           u.metrics + [RoomConnectionClose(GrantExpired, None)], ROOM_INTERRUPTED_CLOSE_CODE, choices.reply, room);
    } else {
      AddRoomInStep(s, u, choices, room);
    }
  }

  lemma RepeatInStep(s: Session, u: Session, reply: Outcome, room: Text)
    requires Alike(s, u, room)
    ensures InStep(s, u, Transmit(s, Subscribed(room), reply, false).0, Transmit(u, Subscribed(room), reply, false).0, room)
  {
    TransmitMatches(s, u, Subscribed(room), reply, false);
    hide Transmit, Alike;
  }

  lemma SubscribeInStep(s: Session, u: Session, choices: Choices, room: Text)
    requires Alike(s, u, room) && u.bypass <= s.bypass && LocalScript(choices.script, room)
    ensures InStep(s, u, HandleSubscribe(s, room, choices), HandleSubscribe(u, room, choices), room)
  {
    assert s.rooms.Has(room) == u.rooms.Has(room);
    hide Alike, InStep, Authorize, Transmit, SendRoomClosed, LocalScript;
    RepeatInStep(s, u, choices.reply, room);
    SendRoomClosedInStep(s, u, s.metrics + [RoomConnectionClose(AuthorizationRejected, None)],
                         u.metrics + [RoomConnectionClose(AuthorizationRejected, None)], ROOM_REJECTED_CLOSE_CODE, choices.reply, room);
    if choices.verification.Fresh? {
      AuthorizeInStep(s, u, choices.verification.payload, false, choices, room);
    } else if choices.verification.Stale? {
      AuthorizeInStep(s, u, choices.verification.payload, true, choices, room);
    }
  }

  lemma DeliverMatches(s: Session, u: Session, id: AdapterId, payload: Bytes)
    requires Alike(s, u, id.room)
    ensures Alike(Deliver(s, id, payload), Deliver(u, id, payload), id.room)
    ensures Deliver(s, id, payload).bypass == s.bypass && Deliver(u, id, payload).bypass == u.bypass
  {
    hide FramesOf;
  }

  lemma DataInStep(s: Session, u: Session, payload: Bytes, choices: Choices, room: Text)
    requires Alike(s, u, room) && u.bypass <= s.bypass && LocalScript(choices.script, room)
    ensures InStep(s, u, HandleData(s, room, payload, choices), HandleData(u, room, payload, choices), room)
  {
    assert s.rooms.Has(room) == u.rooms.Has(room) && (room in s.closedRooms <==> room in u.closedRooms);
    if s.rooms.Has(room) {
      var id := AdapterId(room, s.rooms.entries[room]);
      assert u.rooms.entries[room] == id.serial by { assert Active(s, room) == Active(u, room); }
      DeliverMatches(s, u, id, payload);
      SameLooks(Deliver(s, id, payload), Deliver(u, id, payload), id);
      hide Alike, Deliver, LocalScript, WasHanded;
      RunInStep(Deliver(s, id, payload), Deliver(u, id, payload), choices.script, room);
    } else {
      hide Alike, LocalScript, RejectAuthorizationBypass;
      BypassInStep(s, u, choices, room);
    }
  }

  lemma ExpectMatches(s: Session, u: Session, id: AdapterId, reason: CloseReason)
    requires Alike(s, u, id.room)
    ensures Alike(Expect(s, id, reason), Expect(u, id, reason), id.room)
  {
    hide FramesOf;
    forall x: AdapterId | x.room == id.room
      ensures Expected(Expect(s, id, reason), x) == Expected(Expect(u, id, reason), x)
    {
      assert Expected(s, x) == Expected(u, x);
    }
  }

  lemma UnsubscribeInStep(s: Session, u: Session, choices: Choices, room: Text)
    requires Alike(s, u, room) && LocalScript(choices.script, room)
    ensures InStep(s, u, HandleUnsubscribe(s, room, choices), HandleUnsubscribe(u, room, choices), room)
  {
    assert s.rooms.Has(room) == u.rooms.Has(room);
    if s.rooms.Has(room) {
      var id := AdapterId(room, s.rooms.entries[room]);
      assert u.rooms.entries[room] == id.serial by { assert Active(s, room) == Active(u, room); }
      ExpectMatches(s, u, id, ClientUnsubscribe);
      assert Expect(s, id, ClientUnsubscribe).bypass == s.bypass && Expect(u, id, ClientUnsubscribe).bypass == u.bypass;
      hide Alike, Close, Expect, LocalScript;
      CloseMatches(Expect(s, id, ClientUnsubscribe), Expect(u, id, ClientUnsubscribe), id, ClientUnsubscribe, Closing(choices.reply, choices.script));
    }
  }

  lemma FrameInStep(s: Session, u: Session, frame: Bytes, binary: bool, choices: Choices, room: Text)
    requires Alike(s, u, room) && u.bypass <= s.bypass
    requires Local(Frame(frame, binary, choices)) && RoomOf(Frame(frame, binary, choices)) == Some(room)
    ensures InStep(s, u, HandleFrame(s, frame, binary, choices), HandleFrame(u, frame, binary, choices), room)
  {
    AlikeIsOpen(s, u, room);
    ClosedIsNotOpen(s, PROTOCOL_ERROR_CLOSE_CODE, choices.cleanup);
    hide Alike, Decode, ClosePhysical, HandleSubscribe, HandleData, HandleUnsubscribe, LocalScript;
    match Decode(frame).value
    case Subscribe(_, _) => SubscribeInStep(s, u, choices, room);
    case Data(_, payload) => DataInStep(s, u, payload, choices, room);
    case Unsubscribe(_) => UnsubscribeInStep(s, u, choices, room);
    case _ =>
  }

  lemma TakenMatches(s: Session, u: Session, send: nat, room: Text)
    requires Alike(s, u, room)
    ensures Alike(Taken(s, room, send), Taken(u, room, send), room)
    ensures Taken(s, room, send).bypass == s.bypass && Taken(u, room, send).bypass == u.bypass
  {
    hide FramesOf;
  }

  lemma LogCallMatches(s: Session, u: Session, send: nat, error: bool, hasCallback: bool, room: Text)
    requires Alike(s, u, room)
    ensures Alike(LogCall(s, room, send, error, hasCallback), LogCall(u, room, send, error, hasCallback), room)
    ensures LogCall(s, room, send, error, hasCallback).bypass == s.bypass && LogCall(u, room, send, error, hasCallback).bypass == u.bypass
  {
    hide FramesOf;
  }

  lemma CompletedInStep(s: Session, u: Session, send: nat, error: bool, cleanup: Cleanup, callback: Script, room: Text)
    requires Alike(s, u, room) && LocalScript(callback, room)
    ensures InStep(s, u, Complete(s, room, send, error, cleanup, callback), Complete(u, room, send, error, cleanup, callback), room)
  {
    assert SlotOf(s, room) == SlotOf(u, room);
    if send in SlotOf(s, room).waiting {
      var taken := Taken(s, room, send);
      var taken' := Taken(u, room, send);
      var hasCallback := SlotOf(s, room).waiting[send];
      FailedIsNotOpen(taken, cleanup);
      TakenMatches(s, u, send, room);
      if error {
        var called := LogCall(SendError(taken, cleanup), room, send, true, hasCallback);
        assert !called.physical.OPEN?;
        hide Alike, LogCall, SendError, LocalScript, Taken;
        if Run(called, callback).physical.OPEN? {
          RunStaysOpen(called, callback, room);
        }
      } else {
        LogCallMatches(taken, taken', send, error, hasCallback, room);
        hide Alike, LogCall, LocalScript, Taken;
        RunInStep(LogCall(taken, room, send, error, hasCallback), LogCall(taken', room, send, error, hasCallback), callback, room);
      }
    }
  }

  lemma StepInStep(s: Session, u: Session, event: Event, room: Text)
    requires Alike(s, u, room) && u.bypass <= s.bypass && Local(event) && RoomOf(event) == Some(room)
    ensures InStep(s, u, Step(s, event), Step(u, event), room)
  {
    hide Alike, HandleFrame, Complete, Apply, LocalScript, LocalOp, Decode;
    match event
    case Frame(frame, binary, choices) => FrameInStep(s, u, frame, binary, choices, room);
    case Completed(_, send, error, cleanup, callback) => CompletedInStep(s, u, send, error, cleanup, callback, room);
    case Adapters(op) => ApplyMatches(s, u, op, room);
    case _ =>
  }

  // ---------- whole runs ----------

  lemma AfterLast(s: Session, events: seq<Event>, last: Event)
    ensures After(s, events + [last]) == Step(After(s, events), last)
  {
    assert (events + [last])[..|events|] == events;
  }

  /**
    Non-interference: in a run that leaves the physical socket open, a room's
    adapters, inboxes and sends, its place in rooms and closedRooms and the frames
    sent for it are those of the run of its own events alone.
  */
  lemma {:induction false} RoomsDoNotInterfere(grant: Payload, events: seq<Event>, room: Text)
    requires forall i | 0 <= i < |events| :: Local(events[i])
    requires After(Start(grant), events).physical.OPEN?
    ensures var s := After(Start(grant), events);
            var alone := After(Start(grant), Only(events, room));
            && alone.physical.OPEN?
            && SlotOf(alone, room) == SlotOf(s, room)
            && Active(alone, room) == Active(s, room)
            && (room in alone.closedRooms <==> room in s.closedRooms)
            && FramesOf(alone.out, room) == FramesOf(s.out, room)
  {
    hide Local, Inv;
    RunAlike(grant, events, room);
  }

  lemma {:induction false} RunAlike(grant: Payload, events: seq<Event>, room: Text)
    requires forall i | 0 <= i < |events| :: Local(events[i])
    requires After(Start(grant), events).physical.OPEN?
    ensures var s := After(Start(grant), events);
            var alone := After(Start(grant), Only(events, room));
            Alike(s, alone, room) && alone.bypass <= s.bypass
  {
    if events == [] {
      AlikeIsOpen(Start(grant), Start(grant), room);
    } else {
      var init := events[..|events| - 1];
      var last := events[|events| - 1];
      var s := After(Start(grant), init);
      var alone := After(Start(grant), Only(init, room));
      hide Local, Inv, Step, Alike, Start, Moves, RoomOf;
      assert After(Start(grant), events) == Step(s, last);
      ReachableInv(grant, init);
      StepKeeps(s, last);
      OpenBefore(s, Step(s, last));
      RunAlike(grant, init, room);
      hide After;
      OneMore(s, alone, last, room);
      assert After(Start(grant), Only(events, room)) == if RoomOf(last) == Some(room) then Step(alone, last) else alone by {
        OnlyThen(Start(grant), events, room);
      }
    }
  }

  lemma OnlyThen(s: Session, events: seq<Event>, room: Text)
    requires events != []
    ensures var last := events[|events| - 1];
            var alone := After(s, Only(events[..|events| - 1], room));
            After(s, Only(events, room)) == if RoomOf(last) == Some(room) then Step(alone, last) else alone
  {
    hide RoomOf, Step;
    var init := Only(events[..|events| - 1], room);
    AfterLast(s, init, events[|events| - 1]);
    assert init + [] == init;
  }

  lemma OneMore(s: Session, alone: Session, last: Event, room: Text)
    requires Inv(s) && Local(last) && Alike(s, alone, room) && alone.bypass <= s.bypass
    requires s.physical.OPEN? && Step(s, last).physical.OPEN? && Moves(s, Step(s, last))
    ensures var v := if RoomOf(last) == Some(room) then Step(alone, last) else alone;
            Alike(Step(s, last), v, room) && v.bypass <= Step(s, last).bypass
  {
    hide Local, Inv, Step, Alike;
    if RoomOf(last) == Some(room) {
      StepInStep(s, alone, last, room);
    } else {
      StepLeaves(s, last, room);
      AlikeSwap(s, Step(s, last), alone, room);
      BypassGrows(s, Step(s, last));
    }
  }

  lemma OpenBefore(s: Session, t: Session)
    requires Moves(s, t) && t.physical.OPEN?
    ensures s.physical.OPEN?
  {
  }

  lemma BypassGrows(s: Session, t: Session)
    requires Moves(s, t)
    ensures s.bypass <= t.bypass
  {
  }

  lemma AlikeSwap(s: Session, t: Session, u: Session, room: Text)
    requires Alike(s, t, room) && Alike(s, u, room)
    ensures Alike(t, u, room)
  {
    hide SlotOf, Active, FramesOf;
  }
}
