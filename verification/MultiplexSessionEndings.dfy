/** How a session answers frames that are out of place, and how it ends: the protocol broken, bypasses, silence. */
module MultiplexSessionEndings {
  import opened Basics
  import opened Sockets
  import opened Unicode
  import opened Protocol
  import opened OrderedMap
  import opened MultiplexSession
  import opened MultiplexSessionProofs
  import opened MultiplexSessionSteps
  import opened MultiplexSessionRuns
  import opened MultiplexSessionSends
  import ProtocolProofs

  // ---------- closing the physical socket ----------

  // Cleaning up without listeners says and sends nothing.
  lemma {:induction false} QuietCleanupIsSilent(s: Session, ids: seq<AdapterId>)
    ensures var t := CleanQuietly(s, ids); t.out == s.out && t.physical == s.physical && t.closes == s.closes
    decreases |ids|
  {
    if ids != [] {
      var expecting := Expect(s, ids[0], PhysicalConnectionClose);
      var next := if IsOpen(expecting, ids[0]) then CloseCore(expecting, ids[0], PhysicalConnectionClose) else expecting;
      assert next.out == s.out && next.physical == s.physical && next.closes == s.closes;
      hide CloseCore, IsOpen, Expect;
      QuietCleanupIsSilent(next, ids[1..]);
    }
  }

  lemma CleanupIsSilent(s: Session, cleanup: Cleanup)
    requires cleanup.Unscripted? || s.rooms.IsEmpty()
    ensures var t := CleanupRooms(s, cleanup); t.out == s.out && t.physical == s.physical && t.closes == s.closes
  {
    var ids := Snapshot(s);
    assert s.rooms.IsEmpty() ==> ids == [];
    hide Snapshot;
    QuietCleanupIsSilent(s, ids);
  }

  /** The session has ended an open socket with this code, unless a send failed first; no frame went out if the listeners did nothing. */
  predicate EndedWith(s: Session, t: Session, codes: seq<int>, cleanup: Cleanup) {
    && t.rooms.entries == map[] && t.physical.CLOSING?
    && (t.closes == s.closes + codes || t.closes == s.closes + [1011])
    && (cleanup.Unscripted? || s.rooms.IsEmpty() ==> t.closes == s.closes + codes && t.out == s.out)
  }

  lemma CleanedUp(s: Session, cleanup: Cleanup)
    requires Keeps(s) && s.physical.OPEN?
    ensures var t := CleanupRooms(s, cleanup);
            && t.rooms.entries == map[]
            && (if t.physical.OPEN? then t.closes == s.closes else t.physical.CLOSING? && t.closes == s.closes + [1011])
  {
    CleanupKeeps(s, cleanup);
    SizeOf(CleanupRooms(s, cleanup).rooms);
    hide CleanupRooms, AdaptersOk, MetricsOk, ReportsOk, OutOk, CallsOk, SlotOf, IsOpen, AdapterForward, SendsForward, Unrefused;
  }

  lemma ClosePhysicalEnds(s: Session, code: int, cleanup: Cleanup)
    requires Keeps(s) && s.physical.OPEN?
    ensures EndedWith(s, ClosePhysical(s, code, cleanup), [code], cleanup)
    ensures EndedWith(s, Terminate(CleanupRooms(s, cleanup)), [], cleanup)
  {
    hide CleanupRooms, Keeps;
    CleanedUp(s, cleanup);
    if cleanup.Unscripted? || s.rooms.IsEmpty() {
      CleanupIsSilent(s, cleanup);
    }
    assert s.closes + [] == s.closes;
  }

  /** It breaks the protocol: not binary, not a message, or a message that only servers send. */
  predicate Breaks(frame: Bytes, binary: bool) {
    !binary || match Decode(frame)
               case Err(_) => true
               case Ok(m) => m.Subscribed? || m.RoomClosed?
  }

  /** A frame that breaks the protocol closes an open session with 1002. */
  lemma BrokenFramesEnd(s: Session, frame: Bytes, binary: bool, choices: Choices)
    requires Inv(s) && s.physical.OPEN? && Breaks(frame, binary)
    ensures EndedWith(s, Step(s, Frame(frame, binary, choices)), [1002], choices.cleanup)
  {
    ClosePhysicalEnds(s, 1002, choices.cleanup);
    hide Decode, EndedWith, ClosePhysical, Keeps;
  }

  // A refusal that can be sent.
  predicate Sendable(room: Text, reply: Outcome) {
    !reply.Failed? && 1 <= |EncodeText(room)| <= 512
  }

  /** The second bypass closes the session with 1008, unless a send failed first; the first one costs nothing but the refusal. */
  lemma SecondBypassEnds(s: Session, room: Text, choices: Choices)
    requires Inv(s) && s.physical.OPEN? && Active(s, room).None?
    ensures var t := RejectAuthorizationBypass(s, room, choices);
            if !Sendable(room, choices.reply) then FailedAfter(s, t)
            else if s.bypass == 0 then t.physical.OPEN? && t.closes == s.closes
            else
              && t.rooms.entries == map[] && t.physical.CLOSING?
              && (t.closes == s.closes + [1008] || t.closes == s.closes + [1011])
              && (choices.cleanup.Unscripted? ==> t.closes == s.closes + [1008])
  {
    hide Keeps, Legal, Encode, WithinBounds, Transmit, EncodeText, RejectRoom, ClosePhysical, RejectAuthorizationBypass, Good, Moves, FailedAfter;
    var noted := s.(bypass := s.bypass + 1, metrics := s.metrics + [RoomConnectionClose(AuthorizationRejected, None)]);
    var rejected := RejectRoom(s.(bypass := s.bypass + 1), room, choices.reply);
    var m := RoomClosed(room, 4004);
    CountBypass(s);
    NoteKeeps(s.(bypass := s.bypass + 1), RoomConnectionClose(AuthorizationRejected, None));
    RejectionShape(s, room, choices.reply);
    BypassShape(s, room, choices);
    ProtocolProofs.EncodeSucceedsExactly(m);
    RefusalFits(room);
    if Sendable(room, choices.reply) {
      TransmitSucceeds(noted, m, choices.reply, false);
      OpenAndUnclosed(noted, m, rejected);
      ClosePhysicalEnds(rejected, 1008, choices.cleanup);
    } else {
      FailedTransmissionEnds(noted, m, choices.reply, false);
      FailedFrom(s, noted, rejected);
      DeadClosesNoMore(rejected, choices.cleanup);
    }
  }

  lemma RejectionShape(s: Session, room: Text, reply: Outcome)
    requires Active(s, room).None?
    ensures var noted := s.(bypass := s.bypass + 1, metrics := s.metrics + [RoomConnectionClose(AuthorizationRejected, None)]);
            && Legal(noted, RoomClosed(room, 4004)) && (Good(s.(bypass := s.bypass + 1), noted) ==> Keeps(noted))
            && RejectRoom(s.(bypass := s.bypass + 1), room, reply) == Transmit(noted, RoomClosed(room, 4004), reply, false).0
  {
    hide Transmit, Keeps, Mild, LossesAnnounced;
  }

  lemma RefusalFits(room: Text)
    ensures WithinBounds(RoomClosed(room, 4004)) <==> 1 <= |EncodeText(room)| <= 512
  {
    hide EncodeText;
  }

  // Bypasses and metrics aside, the session is the same.
  lemma FailedFrom(s: Session, noted: Session, t: Session)
    requires noted.physical == s.physical && noted.closes == s.closes && FailedAfter(noted, t)
    ensures FailedAfter(s, t) && (s.physical.OPEN? ==> t.physical.CLOSING?)
  {
  }

  lemma OpenAndUnclosed(s: Session, m: Message, t: Session)
    requires Transmitted(s, m, t, true) && s.physical.OPEN?
    ensures Keeps(t) && t.physical.OPEN? && t.closes == s.closes && t.bypass == s.bypass
  {
    hide Keeps, SlotOf, AdapterForward, SendsForward;
  }

  // Closing a session that a failed send has ended already adds nothing.
  lemma DeadClosesNoMore(s: Session, cleanup: Cleanup)
    requires Dead(s) && s.physical.CLOSING?
    ensures ClosePhysical(s, POLICY_CLOSE_CODE, cleanup) == s
  {
    assert Snapshot(s) == [];
    assert CleanupRooms(s, cleanup) == CleanEach(s, [], cleanup) == s;
  }

  // ---------- frames out of place ----------

  /** Data for a room that is not served is dropped if the room was once, and otherwise a bypass, refused with 4004. */
  lemma StrayDataIsRefused(s: Session, room: Text, payload: Bytes, choices: Choices)
    requires Inv(s) && s.physical.OPEN? && !s.rooms.Has(room)
    ensures var t := HandleMessage(s, Protocol.Message.Data(room, payload), choices);
            if room in s.closedRooms then t == s
            else RefusedFor(s, room, 4004, AuthorizationRejected, choices.reply, t) && t.bypass == s.bypass + 1
  {
    hide Inv, RefusedFor, RejectAuthorizationBypass;
    if room !in s.closedRooms {
      BypassIsTold(s, room, choices);
    }
  }

  /** A subscribe for a room that is served is acknowledged again, whatever its grant is worth, and does nothing else. */
  lemma RepeatIsAcknowledged(s: Session, room: Text, grant: Text, choices: Choices)
    requires Inv(s) && s.physical.OPEN? && s.rooms.Has(room)
    ensures var t := HandleMessage(s, Subscribe(room, grant), choices);
            if !Sendable(room, choices.reply) then FailedAfter(s, t)
            else
              && t.rooms == s.rooms && t.physical == s.physical && t.bypass == s.bypass
              && t.out == s.out + [Emitted(Subscribed(room), Some(s.rooms.entries[room]))]
              && forall id: AdapterId :: Exists(t, id) == Exists(s, id)
  {
    var m := Subscribed(room);
    SubscribedIsLegal(s, room);
    ProtocolProofs.EncodeSucceedsExactly(m);
    assert WithinBounds(m) <==> 1 <= |EncodeText(room)| <= 512 by { hide EncodeText; }
    hide Keeps, Legal, Encode, WithinBounds, Transmit, EncodeText, FailedAfter, Good, SlotOf;
    if Sendable(room, choices.reply) {
      TransmitSucceeds(s, m, choices.reply, false);
      SameAdapters(s, Transmit(s, m, choices.reply, false).0);
    } else {
      FailedTransmissionEnds(s, m, choices.reply, false);
    }
  }

  lemma SameAdapters(s: Session, t: Session)
    requires Good(s, t)
    ensures t.bypass == s.bypass && forall id: AdapterId :: Exists(t, id) == Exists(s, id)
  {
    assert forall id: AdapterId :: |SlotOf(t, id.room).adapters| == |SlotOf(s, id.room).adapters|;
    hide Keeps, SlotOf, AdapterForward, SendsForward;
  }

  /** Whatever a subscribe is answered with: if the answer cannot be sent, the session is over. */
  lemma UnansweredEnds(s: Session, room: Text, grant: Text, choices: Choices)
    requires Inv(s) && s.physical.OPEN? && !Sendable(room, choices.reply)
    ensures FailedAfter(s, HandleMessage(s, Subscribe(room, grant), choices))
  {
    hide Inv, FailedAfter, AddRoom, RejectAuthorizationBypass, SendRoomClosed, MatchesIdentity, Sendable;
    if s.rooms.Has(room) {
      RepeatIsAcknowledged(s, room, grant, choices);
    } else {
      SecondBypassEnds(s, room, choices);
      RefusalFails(s, AuthorizationRejected, room, 4004, choices.reply);
      RefusalFails(s, GrantExpired, room, 4005, choices.reply);
      AcknowledgementFails(s, room, grant, choices);
    }
  }

  lemma RefusalFails(s: Session, reason: CloseReason, room: Text, code: int, reply: Outcome)
    requires Inv(s) && s.physical.OPEN? && Active(s, room).None? && 4000 <= code <= 4999 && !Sendable(room, reply)
    ensures FailedAfter(s, SendRoomClosed(s.(metrics := s.metrics + [RoomConnectionClose(reason, None)]), room, code, reply))
  {
    var noted := s.(metrics := s.metrics + [RoomConnectionClose(reason, None)]);
    var m := RoomClosed(room, code);
    NoteKeeps(s, RoomConnectionClose(reason, None));
    assert Legal(noted, m);
    assert WithinBounds(m) ==> 1 <= |EncodeText(room)| <= 512;
    hide Keeps, Shrinks, SendsForward, LossesAnnounced, Legal, WithinBounds, Transmit, EncodeText, FailedAfter;
    FailedTransmissionEnds(noted, m, reply, false);
    FailedFrom(s, noted, Transmit(noted, m, reply, false).0);
  }

  lemma AcknowledgementFails(s: Session, room: Text, grant: Text, choices: Choices)
    requires Inv(s) && s.physical.OPEN? && !s.rooms.Has(room) && !Sendable(room, choices.reply)
    ensures FailedAfter(s, AddRoom(s, room, choices))
  {
    var m := Subscribed(room);
    var stored := OpenRoom(s, room);
    OpenRoomHandles(s, room, grant);
    assert stored.physical == s.physical && stored.closes == s.closes;
    assert WithinBounds(m) ==> 1 <= |EncodeText(room)| <= 512;
    hide Keeps, Handles, Legal, WithinBounds, Transmit, EncodeText, FailedAfter, OpenRoom, HandOver, Good;
    FailedTransmissionEnds(stored, m, choices.reply, false);
    FailedFrom(s, stored, Transmit(stored, m, choices.reply, false).0);
  }

  /**
    A frame that arrives when the socket is closing already, by whomever it was
    closed, is not read: the rooms are cleaned up, and nothing is sent or closed.
  */
  lemma LateFramesAreNotRead(s: Session, frame: Bytes, binary: bool, choices: Choices)
    requires Inv(s)
    ensures var closing := Step(s, ClosedFromOutside);
            var t := Step(closing, Frame(frame, binary, choices));
            && closing.rooms == s.rooms && closing.out == s.out && !closing.physical.OPEN?
            && t.rooms.entries == map[] && t.out == s.out && t.bypass == s.bypass && !t.physical.OPEN?
            && (forall id: AdapterId :: Exists(t, id) == Exists(s, id))
  {
    var closing := Step(s, ClosedFromOutside);
    StepKeeps(s, ClosedFromOutside);
    var t := CleanupRooms(closing, choices.cleanup);
    assert Step(closing, Frame(frame, binary, choices)) == t by { hide CleanupRooms, ClosePhysical, Decode; }
    CleanupKeeps(closing, choices.cleanup);
    SizeOf(t.rooms);
    assert forall id: AdapterId :: |SlotOf(t, id.room).adapters| == |SlotOf(closing, id.room).adapters|;
    assert closing.slots == s.slots;
    hide CleanupRooms, AdaptersOk, MetricsOk, ReportsOk, OutOk, CallsOk, SlotOf, IsOpen, AdapterForward, SendsForward, Unrefused, Moves;
  }

  // ---------- the heartbeat ----------

  /**
    A tick of a heartbeat that runs: an open session without rooms is closed with
    4001; one whose last ping is unanswered, or cannot be pinged, is terminated
    without a code, its rooms cleaned up; any other is pinged, and the pong that
    the next tick looks for is then still to come.
  */
  lemma TickDecides(s: Session, pingThrows: bool, cleanup: Cleanup)
    requires Inv(s) && !s.heartbeat.stopped
    ensures var t := Step(s, TickEvent(pingThrows, cleanup));
            if !s.physical.OPEN? then t == s.(heartbeat := s.heartbeat.(stopped := true))
            else if s.rooms.IsEmpty() then
              t.heartbeat.stopped && EndedWith(s, t, [4001], cleanup) && t.metrics == s.metrics + [ZeroRoomTimeout]
            else if !s.heartbeat.pongReceived || pingThrows then
              t.heartbeat.stopped && EndedWith(s, t, [], cleanup) && t.heartbeat.pings == s.heartbeat.pings
            else t == s.(heartbeat := Heartbeat(false, false, s.heartbeat.pings + 1))
  {
    hide Inv, EndedWith, Step;
    TickShape(s, pingThrows, cleanup);
    if s.physical.OPEN? && s.rooms.IsEmpty() {
      EmptyTick(s, pingThrows, cleanup);
    } else if s.physical.OPEN? && (!s.heartbeat.pongReceived || pingThrows) {
      StoppedEnds(s, if s.heartbeat.pongReceived then Heartbeat(false, true, s.heartbeat.pings) else s.heartbeat.(stopped := true), cleanup);
    }
  }

  lemma TickShape(s: Session, pingThrows: bool, cleanup: Cleanup)
    requires !s.heartbeat.stopped
    ensures var t := Step(s, TickEvent(pingThrows, cleanup));
            if !s.physical.OPEN? then t == s.(heartbeat := s.heartbeat.(stopped := true))
            else if s.rooms.IsEmpty() then true
            else if !s.heartbeat.pongReceived || pingThrows then
              t == Terminate(CleanupRooms(s.(heartbeat := if s.heartbeat.pongReceived then Heartbeat(false, true, s.heartbeat.pings)
                                                          else s.heartbeat.(stopped := true)), cleanup))
            else t == s.(heartbeat := Heartbeat(false, false, s.heartbeat.pings + 1))
  {
    hide CleanupRooms, Terminate, ClosePhysical;
  }

  lemma EmptyTick(s: Session, pingThrows: bool, cleanup: Cleanup)
    requires Inv(s) && s.physical.OPEN? && !s.heartbeat.stopped && s.rooms.IsEmpty()
    ensures var t := Step(s, TickEvent(pingThrows, cleanup));
            t.heartbeat.stopped && EndedWith(s, t, [4001], cleanup) && t.metrics == s.metrics + [ZeroRoomTimeout]
  {
    hide Inv, Step;
    EmptySessionEnds(s, pingThrows, cleanup);
    NoEntries(s);
  }

  lemma NoEntries(s: Session)
    requires Inv(s) && s.rooms.IsEmpty()
    ensures s.rooms.entries == map[]
  {
    SizeOf(s.rooms);
  }

  /** A client that answers is spared: with rooms and a pong since the last ping, the next tick only pings again. */
  lemma AnswerSpares(s: Session, cleanup: Cleanup)
    requires Inv(s) && s.physical.OPEN? && !s.heartbeat.stopped && !s.rooms.IsEmpty()
    ensures var t := Step(Step(s, Pong), TickEvent(false, cleanup));
            t == s.(heartbeat := Heartbeat(false, false, s.heartbeat.pings + 1))
  {
    var heard := Step(s, Pong);
    StepKeeps(s, Pong);
    hide Inv, Moves, EndedWith;
    TickDecides(heard, false, cleanup);
  }

  lemma StoppedEnds(s: Session, h: Heartbeat, cleanup: Cleanup)
    requires Inv(s) && s.physical.OPEN? && h.stopped && !s.heartbeat.stopped && h.pings == s.heartbeat.pings
    ensures var t := Terminate(CleanupRooms(s.(heartbeat := h), cleanup)); t.heartbeat == h && EndedWith(s, t, [], cleanup)
  {
    var stopped := s.(heartbeat := h);
    assert Flagged(s, stopped) by { hide Keeps, Level, PeakLevel, PeaksOk; }
    hide Keeps, Flagged, EndedWith, CleanupRooms, Idles, Moves;
    FlaggedIdles(s, stopped);
    ClosePhysicalEnds(stopped, 0, cleanup);
    FlaggedLeavesHeartbeat(s, stopped, cleanup);
    EndedFrom(s, stopped, Terminate(CleanupRooms(stopped, cleanup)), [], cleanup);
  }

  lemma EndedFrom(s: Session, u: Session, t: Session, codes: seq<int>, cleanup: Cleanup)
    requires u.rooms == s.rooms && u.closes == s.closes && u.out == s.out && EndedWith(u, t, codes, cleanup)
    ensures EndedWith(s, t, codes, cleanup)
  {
  }

  // The heartbeat stops only on a socket that is not open any more.
  predicate StoppedIsShut(s: Session) {
    s.heartbeat.stopped ==> !s.physical.OPEN?
  }

  lemma StaysStoppedAndShut(s: Session, event: Event)
    requires Inv(s) && StoppedIsShut(s)
    ensures StoppedIsShut(Step(s, event))
    ensures !event.TickEvent? && !event.Pong? && !event.PhysicalClose? ==> Step(s, event).heartbeat == s.heartbeat
  {
    StepKeeps(s, event);
    match event
    case Frame(frame, binary, choices) =>
      hide Inv, Moves, HandleFrame;
      FrameLeavesHeartbeat(s, frame, binary, choices);
      StaysNotOpen(s, HandleFrame(s, frame, binary, choices));
    case TickEvent(pingThrows, cleanup) =>
      hide Inv, Moves, Step, EndedWith;
      if s.heartbeat.stopped {
        StoppedTick(s, pingThrows, cleanup);
      } else {
        TickDecides(s, pingThrows, cleanup);
        EndedIsShut(s, Step(s, event), cleanup);
      }
    case PhysicalClose(cleanup) =>
      hide Inv, Moves, Step;
      PhysicalCloseRecords(s, cleanup);
    case Pong =>
    case _ =>
      hide Inv, Moves, Step;
      OthersLeaveHeartbeat(s, event);
      StaysNotOpen(s, Step(s, event));
  }

  lemma StaysNotOpen(s: Session, t: Session)
    requires Moves(s, t)
    ensures !s.physical.OPEN? ==> !t.physical.OPEN?
  {
  }

  lemma StoppedTick(s: Session, pingThrows: bool, cleanup: Cleanup)
    requires s.heartbeat.stopped
    ensures Step(s, TickEvent(pingThrows, cleanup)) == s
  {
  }

  lemma EndedIsShut(s: Session, t: Session, cleanup: Cleanup)
    ensures forall codes :: EndedWith(s, t, codes, cleanup) ==> t.physical.CLOSING? && t.rooms.entries == map[]
  {
  }

  /** The close event of the socket: the peak is recorded as the first thing, and no room is left, no socket open, no heartbeat running. */
  lemma PhysicalCloseRecords(s: Session, cleanup: Cleanup)
    requires Inv(s)
    ensures var t := Step(s, PhysicalClose(cleanup));
            && s.metrics + [PeakRooms(s.peak)] <= t.metrics
            && t.rooms.entries == map[] && t.physical.CLOSED? && t.heartbeat.stopped && t.out == s.out && t.closes == s.closes
  {
    ClosedDownIsFlagged(s);
    PhysicalCloseIs(s, cleanup);
    FlaggedIdles(s, ClosedDown(s));
    hide Keeps, Moves, Idles, Flagged, CleanupRooms, Step;
    ClosedIsShut(ClosedDown(s), cleanup);
  }

  lemma ClosedIsShut(s: Session, cleanup: Cleanup)
    requires Keeps(s) && s.physical.CLOSED?
    ensures var t := CleanupRooms(s, cleanup);
            && s.metrics <= t.metrics && t.rooms.entries == map[] && t.physical.CLOSED? && t.heartbeat == s.heartbeat
            && t.out == s.out && t.closes == s.closes
  {
    CleanupKeeps(s, cleanup);
    SizeOf(CleanupRooms(s, cleanup).rooms);
    hide CleanupRooms, AdaptersOk, MetricsOk, ReportsOk, OutOk, CallsOk, SlotOf, IsOpen, AdapterForward, SendsForward, Unrefused;
  }

  lemma {:induction false} StoppedAfterIsShut(grant: Payload, events: seq<Event>)
    ensures StoppedIsShut(After(Start(grant), events))
  {
    if events != [] {
      var before := events[..|events| - 1];
      StoppedAfterIsShut(grant, before);
      ReachableInv(grant, before);
      hide Inv, Step, StoppedIsShut;
      StaysStoppedAndShut(After(Start(grant), before), events[|events| - 1]);
    }
  }

  // No pong has come for the last ping, or the heartbeat has stopped.
  predicate Silent(s: Session) {
    s.heartbeat.stopped || !s.heartbeat.pongReceived
  }

  lemma TickIsSilent(s: Session, pingThrows: bool, cleanup: Cleanup)
    requires Inv(s)
    ensures Silent(Step(s, TickEvent(pingThrows, cleanup)))
  {
    hide Inv, EndedWith, Step;
    if s.heartbeat.stopped {
      StoppedTick(s, pingThrows, cleanup);
    } else {
      TickDecides(s, pingThrows, cleanup);
    }
  }

  lemma StaysSilent(s: Session, event: Event)
    requires Inv(s) && StoppedIsShut(s) && Silent(s) && !event.Pong?
    ensures Silent(Step(s, event))
  {
    hide Inv, Step;
    match event
    case TickEvent(pingThrows, cleanup) => TickIsSilent(s, pingThrows, cleanup);
    case PhysicalClose(cleanup) => PhysicalCloseRecords(s, cleanup);
    case _ => StaysStoppedAndShut(s, event);
  }

  lemma {:induction false} SilenceLasts(grant: Payload, before: seq<Event>, silent: seq<Event>)
    requires Silent(After(Start(grant), before)) && forall i | 0 <= i < |silent| :: !silent[i].Pong?
    ensures Silent(After(Start(grant), before + silent))
  {
    hide Inv, Step, Silent;
    if silent == [] {
      assert before + silent == before;
    } else {
      var n := |silent| - 1;
      SilenceLasts(grant, before, silent[..n]);
      ReachableInv(grant, before + silent[..n]);
      StoppedAfterIsShut(grant, before + silent[..n]);
      StaysSilent(After(Start(grant), before + silent[..n]), silent[n]);
      assert (before + silent)[..|before + silent| - 1] == before + silent[..n];
    }
  }

  /** A client that does not answer is cut off: two ticks without a pong between them leave no open socket and, if it was open, no room. */
  lemma SilenceEnds(grant: Payload, before: seq<Event>, silent: seq<Event>, pingThrows: bool, cleanup: Cleanup)
    requires before != [] && before[|before| - 1].TickEvent? && forall i | 0 <= i < |silent| :: !silent[i].Pong?
    ensures var s := After(Start(grant), before + silent);
            var t := Step(s, TickEvent(pingThrows, cleanup));
            !t.physical.OPEN? && (s.physical.OPEN? ==> t.rooms.entries == map[] && t.heartbeat.stopped)
  {
    var n := |before| - 1;
    var s := After(Start(grant), before + silent);
    ReachableInv(grant, before[..n]);
    hide Inv, Step, EndedWith, After;
    LastStep(Start(grant), before);
    TickIsSilent(After(Start(grant), before[..n]), before[n].pingThrows, before[n].cleanup);
    SilenceLasts(grant, before, silent);
    ReachableInv(grant, before + silent);
    StoppedAfterIsShut(grant, before + silent);
    if s.heartbeat.stopped {
      StoppedTick(s, pingThrows, cleanup);
    } else {
      TickDecides(s, pingThrows, cleanup);
      EndedIsShut(s, Step(s, TickEvent(pingThrows, cleanup)), cleanup);
    }
  }

  lemma LastStep(s: Session, events: seq<Event>)
    requires events != []
    ensures After(s, events) == Step(After(s, events[..|events| - 1]), events[|events| - 1])
  {
    hide Step;
  }
}
