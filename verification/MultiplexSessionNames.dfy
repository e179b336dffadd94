/** What a session says arrives as it is: its rooms, and the rooms of its frames, are well-formed text. */
module MultiplexSessionNames {
  import opened Basics
  import opened Sockets
  import opened Unicode
  import opened Protocol
  import opened OrderedMap
  import opened MultiplexSession
  import opened MultiplexSessionRuns
  import SP = MultiplexSessionProofs
  import Steps = MultiplexSessionSteps
  import ProtocolProofs

  /** Every room that had an adapter, and every room a frame was sent for, has a well-formed name. */
  ghost predicate Named(s: Session) {
    && (forall id: AdapterId | Exists(s, id) :: WellFormed(id.room))
    && (forall i | 0 <= i < |s.out| :: WellFormed(s.out[i].message.room))
  }

  // t has the frames of s, and adapters for no other rooms.
  lemma SameNames(s: Session, t: Session)
    requires Named(s) && t.out == s.out
    requires forall r | SlotOf(t, r).adapters != [] :: SlotOf(s, r).adapters != []
    ensures Named(t)
  {
    forall id: AdapterId | Exists(t, id)
      ensures WellFormed(id.room)
    {
      assert Exists(s, AdapterId(id.room, 0));
    }
  }

  lemma CountSendNamed(s: Session, room: Text)
    ensures var t := CountSend(s, room); t.out == s.out && forall r :: SlotOf(t, r).adapters == SlotOf(s, r).adapters
  {
  }

  lemma WaitNamed(s: Session, room: Text, send: nat, hasCallback: bool)
    ensures var t := Wait(s, room, send, hasCallback); t.out == s.out && forall r :: SlotOf(t, r).adapters == SlotOf(s, r).adapters
  {
  }

  lemma EmitNamed(s: Session, m: Message)
    requires Named(s) && WellFormed(m.room)
    ensures Named(Emit(s, m))
  {
    assert forall id: AdapterId :: Exists(Emit(s, m), id) == Exists(s, id);
    hide WellFormed, SlotOf;
  }

  lemma LogCallNamed(s: Session, room: Text, send: nat, error: bool, hasCallback: bool)
    requires Named(s)
    ensures Named(LogCall(s, room, send, error, hasCallback))
  {
    SameNames(s, LogCall(s, room, send, error, hasCallback));
  }

  lemma CloseCoreNamed(s: Session, id: AdapterId, closer: CloseReason)
    requires Named(s) && Exists(s, id)
    ensures Named(CloseCore(s, id, closer))
  {
    hide Delete, Named;
    SameNames(s, CloseCore(s, id, closer));
  }

  lemma FailPhysicalNamed(s: Session)
    requires Named(s)
    ensures Named(FailPhysical(s))
  {
    SameNames(s, FailPhysical(s));
  }

  lemma {:induction false} CleanQuietlyNamed(s: Session, ids: seq<AdapterId>)
    requires Named(s)
    ensures Named(CleanQuietly(s, ids))
    decreases |ids|
  {
    if ids != [] {
      var expecting := Expect(s, ids[0], PhysicalConnectionClose);
      SameNames(s, expecting);
      hide Named, CloseCore;
      var next := if IsOpen(expecting, ids[0]) then CloseCore(expecting, ids[0], PhysicalConnectionClose) else expecting;
      if IsOpen(expecting, ids[0]) {
        CloseCoreNamed(expecting, ids[0], PhysicalConnectionClose);
      }
      CleanQuietlyNamed(next, ids[1..]);
    }
  }

  // ---------- everything that may happen within one event ----------

  lemma {:induction false} CleanEachNamed(s: Session, ids: seq<AdapterId>, scripts: Cleanup)
    requires Named(s)
    ensures Named(CleanEach(s, ids, scripts))
    decreases scripts, |ids|, 0
  {
    if ids != [] {
      if scripts.Unscripted? {
        CleanQuietlyNamed(s, ids);
      } else {
        var expecting := Expect(s, ids[0], PhysicalConnectionClose);
        SameNames(s, expecting);
        hide Named, Close, Expect;
        CloseNamed(expecting, ids[0], PhysicalConnectionClose, scripts.first);
        CleanEachNamed(Close(expecting, ids[0], PhysicalConnectionClose, scripts.first), ids[1..], scripts.rest);
      }
    }
  }

  lemma {:induction false} CleanupNamed(s: Session, scripts: Cleanup)
    requires Named(s)
    ensures Named(CleanupRooms(s, scripts))
    decreases scripts, |s.rooms.keys| + 1, 0
  {
    hide Named;
    assert |Snapshot(s)| == |s.rooms.keys|;
    CleanEachNamed(s, Snapshot(s), scripts);
  }

  lemma {:induction false} SendErrorNamed(s: Session, scripts: Cleanup)
    requires Named(s)
    ensures Named(SendError(s, scripts))
    decreases scripts, |s.rooms.keys| + 1, 1
  {
    hide Named, CleanupRooms, FailPhysical;
    CleanupNamed(s, scripts);
    FailPhysicalNamed(CleanupRooms(s, scripts));
  }

  lemma {:induction false} TransmitNamed(s: Session, m: Message, outcome: Outcome, hasCallback: bool)
    requires Named(s) && WellFormed(m.room)
    ensures Named(Transmit(s, m, outcome, hasCallback).0)
    decreases outcome, 0, 0
  {
    var send := SlotOf(s, m.room).sends;
    var counted := CountSend(s, m.room);
    CountSendNamed(s, m.room);
    SameNames(s, counted);
    EmitNamed(counted, m);
    hide Named, Encode, WellFormed, CountSend, Emit, LogCall, FailPhysical, SendError, CleanQuietly, Wait;
    if outcome.Failed? {
      var written := if outcome.wrote && Encode(m).Ok? then Emit(counted, m) else counted;
      SendErrorNamed(written, outcome.cleanup);
      LogCallNamed(SendError(written, outcome.cleanup), m.room, send, true, hasCallback);
    } else if Encode(m).Err? {
      CleanQuietlyNamed(counted, Snapshot(counted));
      FailPhysicalNamed(CleanQuietly(counted, Snapshot(counted)));
      LogCallNamed(FailPhysical(CleanQuietly(counted, Snapshot(counted))), m.room, send, true, hasCallback);
    } else {
      LogCallNamed(Emit(counted, m), m.room, send, false, hasCallback);
      WaitNamed(Emit(counted, m), m.room, send, hasCallback);
      SameNames(Emit(counted, m), Wait(Emit(counted, m), m.room, send, hasCallback));
    }
  }

  lemma NameOf(s: Session, id: AdapterId)
    requires Named(s) && Exists(s, id)
    ensures WellFormed(id.room)
  {
  }

  lemma {:induction false} CloseNamed(s: Session, id: AdapterId, closer: CloseReason, how: Closing)
    requires Named(s)
    ensures Named(Close(s, id, closer, how))
    decreases how, 0, 0
  {
    if IsOpen(s, id) {
      NameOf(s, id);
      hide Named, CloseCore, Transmit, WellFormed, NeedsNotice, WasHanded;
      var told := CloseCore(s, id, closer);
      CloseCoreNamed(s, id, closer);
      var notice := RoomClosed(id.room, ROOM_INTERRUPTED_CLOSE_CODE);
      TransmitNamed(told, notice, how.notice, false);
      var notified := if NeedsNotice(s, id) then Transmit(told, notice, how.notice, false).0 else told;
      RunNamed(notified, how.listener);
    }
  }

  lemma {:induction false} SendOnNamed(s: Session, id: AdapterId, payload: Bytes, how: Sending)
    requires Named(s) && Exists(s, id)
    ensures Named(SendOn(s, id, payload, how))
    decreases how, 0, 0
  {
    NameOf(s, id);
    RefuseNamed(s, id.room);
    hide Named, Transmit, WellFormed, Refuse, IsOpen, Encode;
    TransmitNamed(s, Data(id.room, payload), how.outcome, how.callback.Calls?);
    var sent := if IsOpen(s, id) then Transmit(s, Data(id.room, payload), how.outcome, how.callback.Calls?).0 else Refuse(s, id.room);
    if how.callback.Calls? {
      RunNamed(sent, how.callback.script);
    }
  }

  lemma RefuseNamed(s: Session, room: Text)
    requires Named(s)
    ensures Named(Refuse(s, room))
  {
    CountSendNamed(s, room);
    SameNames(s, CountSend(s, room));
    hide Named;
    SameNames(CountSend(s, room), Refuse(s, room));
  }

  lemma {:induction false} ApplyNamed(s: Session, op: Op)
    requires Named(s)
    ensures Named(Apply(s, op))
    decreases op, 0, 0
  {
    hide Named, SendOn, Close;
    match op
    case Send(id, payload, how) =>
      if WasHanded(s, id) {
        SendOnNamed(s, id, payload, how);
      }
    case CloseAdapter(id, closing) => CloseNamed(s, id, ServerRoomClose, closing);
  }

  lemma {:induction false} RunNamed(s: Session, script: Script)
    requires Named(s)
    ensures Named(Run(s, script))
    decreases script, 0, 0
  {
    hide Named, Apply;
    match script
    case Stop =>
    case Do(op, next) =>
      ApplyNamed(s, op);
      RunNamed(Apply(s, op), next);
  }

  // ---------- events ----------

  lemma ClosePhysicalNamed(s: Session, code: int, cleanup: Cleanup)
    requires Named(s)
    ensures Named(ClosePhysical(s, code, cleanup))
  {
    CleanupNamed(s, cleanup);
    hide Named, CleanupRooms;
    SameNames(CleanupRooms(s, cleanup), ClosePhysical(s, code, cleanup));
  }

  lemma RefusalNamed(s: Session, metrics: seq<Metric>, room: Text, code: int, reply: Outcome)
    requires Named(s) && WellFormed(room)
    ensures Named(SendRoomClosed(s.(metrics := metrics), room, code, reply))
  {
    SameNames(s, s.(metrics := metrics));
    hide Named, Transmit, WellFormed;
    TransmitNamed(s.(metrics := metrics), RoomClosed(room, code), reply, false);
  }

  lemma BypassNamed(s: Session, room: Text, choices: Choices)
    requires Named(s) && WellFormed(room)
    ensures Named(RejectAuthorizationBypass(s, room, choices))
  {
    hide Named, SendRoomClosed, RejectAuthorizationBypass, ClosePhysical, WellFormed, SlotOf;
    var counted := s.(bypass := s.bypass + 1);
    CountedNamed(s);
    RefusalNamed(counted, s.metrics + [RoomConnectionClose(AuthorizationRejected, None)], room, ROOM_REJECTED_CLOSE_CODE, choices.reply);
    var rejected := RejectRoom(counted, room, choices.reply);
    ClosePhysicalNamed(rejected, POLICY_CLOSE_CODE, choices.cleanup);
    Steps.BypassShape(s, room, choices);
  }

  lemma CountedNamed(s: Session)
    requires Named(s)
    ensures Named(s.(bypass := s.bypass + 1))
  {
    SameNames(s, s.(bypass := s.bypass + 1));
  }

  lemma OpenRoomNamed(s: Session, room: Text)
    requires Named(s) && WellFormed(room)
    ensures Named(OpenRoom(s, room))
  {
    hide WellFormed, Set;
  }

  lemma HandOverNamed(s: Session, id: AdapterId)
    requires Named(s)
    ensures Named(HandOver(s, id))
  {
    hide Named;
    SameNames(s, HandOver(s, id));
  }

  lemma AddRoomNamed(s: Session, room: Text, choices: Choices)
    requires Named(s) && WellFormed(room)
    ensures Named(AddRoom(s, room, choices))
  {
    var o := OpenRoom(s, room);
    var id := AdapterId(room, |SlotOf(s, room).adapters|);
    hide Named, WellFormed, OpenRoom, Transmit, HandOver, Run;
    OpenRoomNamed(s, room);
    TransmitNamed(o, Subscribed(room), choices.reply, false);
    var (a, sent) := Transmit(o, Subscribed(room), choices.reply, false);
    HandOverNamed(a, id);
    RunNamed(HandOver(a, id), choices.script);
  }

  lemma SubscribeNamed(s: Session, room: Text, choices: Choices)
    requires Named(s) && WellFormed(room)
    ensures Named(HandleSubscribe(s, room, choices))
  {
    hide Named, WellFormed, Transmit, AddRoom, RejectAuthorizationBypass, SendRoomClosed, MatchesIdentity;
    TransmitNamed(s, Subscribed(room), choices.reply, false);
    RefusalNamed(s, s.metrics + [RoomConnectionClose(AuthorizationRejected, None)], room, ROOM_REJECTED_CLOSE_CODE, choices.reply);
    RefusalNamed(s, s.metrics + [RoomConnectionClose(GrantExpired, None)], room, ROOM_INTERRUPTED_CLOSE_CODE, choices.reply);
    BypassNamed(s, room, choices);
    AddRoomNamed(s, room, choices);
  }

  lemma DeliverNamed(s: Session, id: AdapterId, payload: Bytes)
    requires Named(s)
    ensures Named(Deliver(s, id, payload))
  {
    hide Named;
    SameNames(s, Deliver(s, id, payload));
  }

  lemma HandleMessageNamed(s: Session, m: Message, choices: Choices)
    requires Named(s) && WellFormed(m.room)
    ensures Named(HandleMessage(s, m, choices))
  {
    hide Named, WellFormed, HandleSubscribe, RejectAuthorizationBypass, ClosePhysical, Deliver, Run, Close, Expect, WasHanded;
    match m
    case Subscribe(room, _) => SubscribeNamed(s, room, choices);
    case Data(room, payload) =>
      BypassNamed(s, room, choices);
      if s.rooms.Has(room) {
        var id := AdapterId(room, s.rooms.entries[room]);
        DeliverNamed(s, id, payload);
        RunNamed(Deliver(s, id, payload), choices.script);
      }
    case Unsubscribe(room) =>
      if s.rooms.Has(room) {
        var id := AdapterId(room, s.rooms.entries[room]);
        SameNames(s, Expect(s, id, ClientUnsubscribe)) by { ExpectChangesNoName(s, id); }
        CloseNamed(Expect(s, id, ClientUnsubscribe), id, ClientUnsubscribe, Closing(choices.reply, choices.script));
      }
    case _ => ClosePhysicalNamed(s, PROTOCOL_ERROR_CLOSE_CODE, choices.cleanup);
  }

  lemma ExpectChangesNoName(s: Session, id: AdapterId)
    ensures var t := Expect(s, id, ClientUnsubscribe); t.out == s.out && forall r :: SlotOf(t, r) == SlotOf(s, r)
  {
  }

  lemma FrameNamed(s: Session, frame: Bytes, binary: bool, choices: Choices)
    requires Named(s)
    ensures Named(HandleFrame(s, frame, binary, choices))
  {
    hide Named, HandleMessage, ClosePhysical, CleanupRooms, Decode, Encode, WellFormed;
    CleanupNamed(s, choices.cleanup);
    ClosePhysicalNamed(s, PROTOCOL_ERROR_CLOSE_CODE, choices.cleanup);
    if Decode(frame).Ok? {
      ProtocolProofs.CanonicalForm(frame);
      HandleMessageNamed(s, Decode(frame).value, choices);
    }
  }

  lemma CompleteNamed(s: Session, room: Text, send: nat, error: bool, cleanup: Cleanup, callback: Script)
    requires Named(s)
    ensures Named(Complete(s, room, send, error, cleanup, callback))
  {
    var slot := SlotOf(s, room);
    if send in slot.waiting {
      var taken := SetSlot(s, room, slot.(waiting := slot.waiting - {send}));
      SameNames(s, taken);
      hide Named, SendError, LogCall, Run, SlotOf;
      SendErrorNamed(taken, cleanup);
      var handled := if error then SendError(taken, cleanup) else taken;
      LogCallNamed(handled, room, send, error, slot.waiting[send]);
      RunNamed(LogCall(handled, room, send, error, slot.waiting[send]), callback);
    }
  }

  lemma FlaggedNamed(s: Session, t: Session)
    requires Named(s) && t == s.(physical := t.physical, heartbeat := t.heartbeat, metrics := t.metrics)
    ensures Named(t)
  {
    SameNames(s, t);
  }

  lemma TerminatedNamed(s: Session, cleanup: Cleanup)
    requires Named(s)
    ensures Named(Terminate(CleanupRooms(s, cleanup)))
  {
    hide Named, CleanupRooms;
    CleanupNamed(s, cleanup);
    FlaggedNamed(CleanupRooms(s, cleanup), Terminate(CleanupRooms(s, cleanup)));
  }

  lemma TickNamed(s: Session, pingThrows: bool, cleanup: Cleanup)
    requires Named(s)
    ensures Named(Tick(s, pingThrows, cleanup))
  {
    hide Named, CleanupRooms, ClosePhysical, Terminate, SlotOf;
    var stopping := s.(heartbeat := s.heartbeat.(stopped := true));
    match TickAction(s.heartbeat, s.physical, !s.rooms.IsEmpty())
    case Silent => FlaggedNamed(s, Tick(s, pingThrows, cleanup));
    case Empty =>
      var noted := stopping.(metrics := s.metrics + [ZeroRoomTimeout]);
      FlaggedNamed(s, noted);
      ClosePhysicalNamed(noted, CONNECTION_TIMEOUT_CLOSE_CODE, cleanup);
    case Unresponsive =>
      FlaggedNamed(s, stopping);
      TerminatedNamed(stopping, cleanup);
    case Ping =>
      if pingThrows {
        var pinging := s.(heartbeat := s.heartbeat.(pongReceived := false, stopped := true));
        FlaggedNamed(s, pinging);
        TerminatedNamed(pinging, cleanup);
      } else {
        FlaggedNamed(s, Tick(s, pingThrows, cleanup));
      }
  }

  lemma StepNamed(s: Session, event: Event)
    requires Named(s)
    ensures Named(Step(s, event))
  {
    hide Named, HandleFrame, Complete, Apply, Tick, CleanupRooms;
    match event
    case Frame(frame, binary, choices) => FrameNamed(s, frame, binary, choices);
    case Completed(room, send, error, cleanup, callback) => CompleteNamed(s, room, send, error, cleanup, callback);
    case Adapters(op) => ApplyNamed(s, op);
    case ClosedFromOutside => SameNames(s, Step(s, event));
    case PhysicalClose(cleanup) =>
      var noted := s.(physical := CLOSED, heartbeat := s.heartbeat.(stopped := true), metrics := s.metrics + [PeakRooms(s.peak)]);
      SameNames(s, noted);
      CleanupNamed(noted, cleanup);
    case TickEvent(pingThrows, cleanup) => TickNamed(s, pingThrows, cleanup);
    case Pong => SameNames(s, Step(s, event));
  }

  lemma StartNamed(grant: Payload)
    ensures Named(Start(grant))
  {
  }

  lemma {:induction false} RunNames(grant: Payload, events: seq<Event>)
    ensures Named(After(Start(grant), events))
  {
    if events == [] {
      StartNamed(grant);
    } else {
      hide Named, Step, Start;
      RunNames(grant, events[..|events| - 1]);
      StepNamed(After(Start(grant), events[..|events| - 1]), events[|events| - 1]);
    }
  }

  /** Every frame that a session ever writes can be encoded, and its peer reads it as it was written. */
  lemma FramesArriveAsTheyAre(grant: Payload, events: seq<Event>, i: nat)
    requires i < |After(Start(grant), events).out|
    ensures var m := After(Start(grant), events).out[i].message;
            Encode(m).Ok? && Decode(Encode(m).value) == Ok(m)
  {
    var s := After(Start(grant), events);
    RunNames(grant, events);
    ReachableInv(grant, events);
    hide After, Encode, Decode;
    FrameFits(s, i);
    FramesObeyTheGrammar(grant, events, i);
    ProtocolProofs.RoundTrip(s.out[i].message);
  }

  lemma FrameFits(s: Session, i: nat)
    requires Steps.Inv(s) && i < |s.out|
    ensures WithinBounds(s.out[i].message)
  {
    assert SP.EmittedOk(s, i);
  }
}
