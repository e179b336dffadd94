/** The promises of the server session, over whole runs. */
module MultiplexSessionRuns {
  import opened Basics
  import opened Sockets
  import opened Unicode
  import opened Protocol
  import opened OrderedMap
  import opened MultiplexSession
  import opened MultiplexSessionProofs
  import opened MultiplexSessionSteps

  function After(s: Session, events: seq<Event>): Session {
    if events == [] then s else Step(After(s, events[..|events| - 1]), events[|events| - 1])
  }

  lemma {:induction false} EventsKeep(s: Session, events: seq<Event>)
    requires Inv(s)
    ensures Inv(After(s, events)) && Moves(s, After(s, events))
  {
    if events == [] {
      MildReflexive(s);
      MildMoves(s, s);
    } else {
      var before := After(s, events[..|events| - 1]);
      hide Inv, Moves, Step;
      EventsKeep(s, events[..|events| - 1]);
      StepKeeps(before, events[|events| - 1]);
      MovesTransitive(s, before, After(s, events));
    }
  }

  lemma ReachableInv(grant: Payload, events: seq<Event>)
    ensures Inv(After(Start(grant), events))
  {
    StartInv(grant);
    EventsKeep(Start(grant), events);
  }

  /**
    An adapter is open exactly when it is the one stored for its room; a room is
    never both served and remembered as closed, and one that ever had an adapter
    is one or the other.
  */
  lemma OpenIffStored(grant: Payload, events: seq<Event>, id: AdapterId)
    ensures var s := After(Start(grant), events);
            && (IsOpen(s, id) <==> s.rooms.Has(id.room) && s.rooms.entries[id.room] == id.serial)
            && s.rooms.entries.Keys !! s.closedRooms
            && (Exists(s, id) ==> id.room in s.rooms.entries.Keys + s.closedRooms)
  {
    ReachableInv(grant, events);
    hide AdaptersOk, MetricsOk, ReportsOk, OutOk, CallsOk, SlotOf, After;
  }

  /**
    The close reports of the metrics log: one for every closed adapter, with the
    reason of whoever closed it, and none for an open one.
  */
  lemma ReasonIsTheClosers(grant: Payload, events: seq<Event>, id: AdapterId)
    requires Exists(After(Start(grant), events), id)
    ensures var s := After(Start(grant), events);
            var a := SlotOf(s, id.room).adapters[id.serial];
            if IsOpen(s, id) then a.closer == None && ReportsOf(s.metrics, id) == []
            else a.closer.Some? && ReportsOf(s.metrics, id) == [a.closer.value]
  {
    var s := After(Start(grant), events);
    ReachableInv(grant, events);
    hide RoomsOk, MetricsOk, OutOk, CallsOk, SlotOf, After, ReportsOf;
    assert AdapterOk(SlotOf(s, id.room).adapters[id.serial]);
    assert ReportsOf(s.metrics, id) == Due(s, id);
  }

  /** An adapter that has been closed and reported is never reported again, whatever happens later. */
  lemma ReasonIsFinal(grant: Payload, events: seq<Event>, later: seq<Event>, id: AdapterId)
    requires var s := After(Start(grant), events); Exists(s, id) && !IsOpen(s, id)
    ensures var s := After(Start(grant), events);
            var t := After(s, later);
            Exists(t, id) && !IsOpen(t, id) && |ReportsOf(t.metrics, id)| == 1 && ReportsOf(t.metrics, id) == ReportsOf(s.metrics, id)
  {
    var s := After(Start(grant), events);
    var t := After(s, later);
    ReachableInv(grant, events);
    EventsKeep(s, later);
    hide After, ReportsOf;
    assert AdapterOk(SlotOf(s, id.room).adapters[id.serial]);
    assert Ages(SlotOf(s, id.room).adapters[id.serial], SlotOf(t, id.room).adapters[id.serial]);
    hide RoomsOk, AdaptersOk, MetricsOk, OutOk, CallsOk;
    assert ReportsOf(s.metrics, id) == Due(s, id);
    assert ReportsOf(t.metrics, id) == Due(t, id);
  }

  function Opens(ms: seq<Metric>): nat {
    if ms == [] then 0 else Opens(ms[..|ms| - 1]) + if ms[|ms| - 1].RoomOpen? then 1 else 0
  }

  function Closes(ms: seq<Metric>): nat {
    if ms == [] then 0 else Closes(ms[..|ms| - 1]) + if ms[|ms| - 1].RoomClose? then 1 else 0
  }

  lemma {:induction false} LevelIsDifference(ms: seq<Metric>)
    ensures Level(ms) == Opens(ms) - Closes(ms)
  {
    if ms != [] {
      LevelIsDifference(ms[..|ms| - 1]);
    }
  }

  lemma {:induction false} PeakIsMaximum(ms: seq<Metric>, n: nat)
    requires n <= |ms|
    ensures Level(ms[..n]) <= PeakLevel(ms)
    ensures exists k :: 0 <= k <= |ms| && Level(ms[..k]) == PeakLevel(ms)
  {
    assert ms[..|ms|] == ms;
    if ms == [] {
      assert Level(ms[..0]) == PeakLevel(ms);
    } else {
      var init := ms[..|ms| - 1];
      PeakAtLeastLevel(ms);
      PeakIsMaximum(init, if n < |ms| then n else 0);
      if n < |ms| {
        assert init[..n] == ms[..n];
      }
      var k :| 0 <= k <= |init| && Level(init[..k]) == PeakLevel(init);
      assert init[..k] == ms[..k];
      assert Level(ms[..if PeakLevel(ms) == PeakLevel(init) then k else |ms|]) == PeakLevel(ms);
    }
  }

  // How many rooms the first n metrics say are open.
  function OpenAfter(ms: seq<Metric>, n: nat): int
    requires n <= |ms|
  {
    Opens(ms[..n]) - Closes(ms[..n])
  }

  /** most is the largest number of rooms that any of the first n prefixes of the log says are open. */
  ghost predicate MostOpen(ms: seq<Metric>, n: nat, most: int)
    requires n <= |ms|
  {
    && (forall k | 0 <= k <= n :: OpenAfter(ms, k) <= most)
    && (exists k :: 0 <= k <= n && OpenAfter(ms, k) == most)
  }

  lemma PeakIsMostOpen(ms: seq<Metric>, n: nat)
    requires n <= |ms|
    ensures MostOpen(ms, n, PeakLevel(ms[..n]))
  {
    hide Level, PeakLevel, Opens, Closes;
    forall k | 0 <= k <= n
      ensures OpenAfter(ms, k) == Level(ms[..n][..k]) <= PeakLevel(ms[..n])
    {
      assert ms[..n][..k] == ms[..k];
      LevelIsDifference(ms[..k]);
      PeakIsMaximum(ms[..n], k);
    }
    PeakIsMaximum(ms[..n], n);
    var k :| 0 <= k <= |ms[..n]| && Level(ms[..n][..k]) == PeakLevel(ms[..n]);
    assert OpenAfter(ms, k) == PeakLevel(ms[..n]);
  }

  lemma CountsOfInv(s: Session)
    requires Inv(s)
    ensures Level(s.metrics) == |s.rooms.entries| && PeakLevel(s.metrics) == s.peak && PeaksOk(s.metrics)
  {
    SizeOf(s.rooms);
    hide AdaptersOk, OutOk, CallsOk, Level, PeakLevel, PeaksOk;
  }

  /** Conservation: opens minus closes is the number of rooms, and the session's peak the most there ever were at once. */
  lemma RoomsAreCounted(grant: Payload, events: seq<Event>)
    ensures var s := After(Start(grant), events);
            && OpenAfter(s.metrics, |s.metrics|) == |s.rooms.entries|
            && MostOpen(s.metrics, |s.metrics|, s.peak)
  {
    var s := After(Start(grant), events);
    ReachableInv(grant, events);
    hide After;
    CountsOfInv(s);
    hide Inv, MetricsOk, ReportsOk, Opens, Closes, MostOpen, Level, PeakLevel, PeaksOk;
    assert s.metrics[..|s.metrics|] == s.metrics;
    LevelIsDifference(s.metrics);
    PeakIsMostOpen(s.metrics, |s.metrics|);
  }

  lemma {:induction false} PeakAt(ms: seq<Metric>, i: nat)
    requires i < |ms| && PeaksOk(ms)
    ensures PeakIs(ms[i], PeakLevel(ms[..i]))
  {
    if i < |ms| - 1 {
      PeakAt(ms[..|ms| - 1], i);
      assert ms[..|ms| - 1][..i] == ms[..i];
    }
  }

  /** Every peak that the metrics record is the most rooms there were at once up to then. */
  lemma RecordedPeakIsTheMost(grant: Payload, events: seq<Event>, i: nat)
    requires var ms := After(Start(grant), events).metrics; i < |ms| && ms[i].PeakRooms?
    ensures var ms := After(Start(grant), events).metrics; MostOpen(ms, i, ms[i].count)
  {
    var s := After(Start(grant), events);
    ReachableInv(grant, events);
    hide After;
    CountsOfInv(s);
    hide Inv, Level, PeakLevel, PeaksOk, MostOpen;
    PeakAt(s.metrics, i);
    PeakIsMostOpen(s.metrics, i);
  }

  /** Frame j is a subscribed for the adapter that sends frame i, active at every frame of the room in between. */
  predicate Backs(out: seq<Emitted>, j: nat, i: nat)
    requires j < i < |out|
  {
    && out[j].message == Subscribed(out[i].message.room) && out[i].active.Some?
    && forall k | j <= k <= i && out[k].message.room == out[i].message.room :: out[k].active == out[i].active
  }

  /**
    The grammar of the server's frames: data follows a subscribed for the same
    adapter, which was active at every frame of the room in between; room_closed
    is sent only when the room has no active adapter; nothing else is sent.
  */
  lemma FramesObeyTheGrammar(grant: Payload, events: seq<Event>, i: nat)
    requires i < |After(Start(grant), events).out|
    ensures var out := After(Start(grant), events).out;
            && (out[i].message.Subscribed? || out[i].message.Data? || out[i].message.RoomClosed?)
            && (out[i].message.Subscribed? ==> out[i].active.Some?)
            && (out[i].message.RoomClosed? ==> out[i].active.None?)
            && (out[i].message.Data? ==> exists j :: 0 <= j < i && Backs(out, j, i))
  {
    var s := After(Start(grant), events);
    ReachableInv(grant, events);
    hide RoomsOk, AdaptersOk, MetricsOk, ReportsOk, CallsOk, After, WithinBounds, Exists;
    assert EmittedOk(s, i);
    if s.out[i].message.Data? {
      var e := s.out[i];
      var j :| 0 <= j < i && Acknowledges(s.out[j], e.message.room, e.active.value) && Steady(s.out, e.message.room, e.active.value, j, i);
      assert Backs(s.out, j, i);
    }
  }

  // ---------- shutdown ----------

  /**
    A session that closed the physical socket, handled the close event or met its
    second bypass serves no room; bypasses never exceed two.
  */
  lemma ShutdownServesNothing(grant: Payload, events: seq<Event>)
    ensures var s := After(Start(grant), events);
            && s.bypass <= 2
            && (s.closes != [] || s.physical.CLOSED? || s.bypass == 2 ==> Dead(s))
  {
    ReachableInv(grant, events);
    hide RoomsOk, AdaptersOk, MetricsOk, ReportsOk, OutOk, CallsOk, After;
  }

  lemma DeadStepStaysDead(s: Session, event: Event)
    requires Inv(s) && Dead(s)
    ensures Dead(Step(s, event)) && Step(s, event).out == s.out
  {
    StepKeeps(s, event);
    if event.Frame? {
      hide Inv, Moves, CleanupRooms;
      CleanedInv(s, event.choices.cleanup);
      StaysShut(s, Step(s, event));
    } else {
      OtherIdles(s, event);
      hide Keeps, Moves, Step, Idles;
      StaysShut(s, Step(s, event));
      NoRoomBack(s, Step(s, event));
    }
  }

  lemma StaysShut(s: Session, t: Session)
    requires Moves(s, t) && Inv(s) && !s.physical.OPEN?
    ensures !t.physical.OPEN? && t.out == s.out
  {
    hide Keeps;
  }

  lemma NoRoomBack(s: Session, t: Session)
    requires Inv(s) && Inv(t) && Idles(s, t) && s.rooms.IsEmpty()
    ensures t.rooms.IsEmpty()
  {
    SizeOf(s.rooms);
    SizeOf(t.rooms);
    hide SlotOf, AdaptersOk, MetricsOk, ReportsOk, OutOk, CallsOk, IsOpen;
    assert t.rooms.entries.Keys == {};
  }

  /** Shutdown is absorbing: no room is ever added again and no further frame is sent, whatever happens. */
  lemma {:induction false} ShutdownIsAbsorbing(s: Session, events: seq<Event>)
    requires Inv(s) && Dead(s)
    ensures var t := After(s, events); Dead(t) && t.rooms.entries == map[] && t.out == s.out
  {
    if events == [] {
      SizeOf(s.rooms);
    } else {
      var before := After(s, events[..|events| - 1]);
      hide Inv, Step, Dead;
      EventsKeep(s, events[..|events| - 1]);
      ShutdownIsAbsorbing(s, events[..|events| - 1]);
      DeadStepStaysDead(before, events[|events| - 1]);
      EventsKeep(s, events);
      DeadIsEmpty(After(s, events));
    }
  }

  lemma DeadIsEmpty(s: Session)
    requires Inv(s) && Dead(s)
    ensures s.rooms.entries == map[]
  {
    SizeOf(s.rooms);
  }

  /**
    A send callback runs at most once. While rooms are left, it sees an error
    exactly when its adapter was closed already at the call of send; on a closed
    adapter it always does.
  */
  lemma CallbacksRunOnce(grant: Payload, events: seq<Event>, i: nat, j: nat)
    requires i < |After(Start(grant), events).calls| && j < |After(Start(grant), events).calls|
    ensures var calls := After(Start(grant), events).calls;
            && (calls[i].room == calls[j].room && calls[i].send == calls[j].send ==> i == j)
            && (calls[i].roomsLeft > 0 ==> (calls[i].error <==> !calls[i].open))
            && (!calls[i].open ==> calls[i].error)
  {
    var s := After(Start(grant), events);
    ReachableInv(grant, events);
    hide RoomsOk, AdaptersOk, MetricsOk, ReportsOk, OutOk, After, SlotSendsOk, SlotOf;
    assert CallOk(s, s.calls[i]);
  }

  // ---------- the heartbeat ----------

  /** A session without rooms does not survive a tick of its heartbeat. */
  lemma EmptySessionEnds(s: Session, pingThrows: bool, cleanup: Cleanup)
    requires Inv(s) && s.physical.OPEN? && !s.heartbeat.stopped && s.rooms.IsEmpty()
    ensures var t := Step(s, TickEvent(pingThrows, cleanup));
            && t.physical.CLOSING? && t.heartbeat.stopped && t.rooms == s.rooms && t.out == s.out
            && t.closes == s.closes + [4001] && t.metrics == s.metrics + [ZeroRoomTimeout] && t.heartbeat.pings == s.heartbeat.pings
  {
    var stopping := s.(heartbeat := s.heartbeat.(stopped := true), metrics := s.metrics + [ZeroRoomTimeout]);
    assert Snapshot(stopping) == [];
    assert CleanupRooms(stopping, cleanup) == stopping;
  }

  /** Nothing is pinged after the heartbeat has stopped, and it never starts again. */
  lemma NoPingAfterStop(s: Session, events: seq<Event>)
    requires Inv(s) && s.heartbeat.stopped
    ensures var t := After(s, events); t.heartbeat.stopped && t.heartbeat.pings == s.heartbeat.pings
  {
    EventsKeep(s, events);
    hide Inv, After;
  }

  lemma CleanupLeavesHeartbeat(s: Session, code: int, cleanup: Cleanup)
    requires Keeps(s)
    ensures CleanupRooms(s, cleanup).heartbeat == s.heartbeat && ClosePhysical(s, code, cleanup).heartbeat == s.heartbeat
  {
    CleanupKeeps(s, cleanup);
    hide Keeps, SendsForward, SlotOf, AdapterForward;
  }

  lemma BypassLeavesHeartbeat(s: Session, room: Text, choices: Choices)
    requires Inv(s) && s.physical.OPEN? && Active(s, room).None?
    ensures RejectAuthorizationBypass(s, room, choices).heartbeat == s.heartbeat
  {
    hide Inv, Keeps, Moves, RoomsFrom, Delivers, Tells, RejectAuthorizationBypass, SlotOf, Active;
    BypassHandles(s, room, [], choices);
  }

  lemma ServesHeartbeat(s: Session, m: Message, t: Session)
    requires Serves(s, m, t)
    ensures t.heartbeat == s.heartbeat
  {
  }

  lemma FrameLeavesHeartbeat(s: Session, frame: Bytes, binary: bool, choices: Choices)
    requires Inv(s)
    ensures HandleFrame(s, frame, binary, choices).heartbeat == s.heartbeat
  {
    hide Keeps, Decode, BypassOk, RejectAuthorizationBypass, ClosePhysical, AddRoom, MatchesIdentity, Matches, Serves;
    CleanupLeavesHeartbeat(s, PROTOCOL_ERROR_CLOSE_CODE, choices.cleanup);
    if s.physical.OPEN? && binary && Decode(frame).Ok? {
      var m := Decode(frame).value;
      OwnIsMatching(choices.verification, m.room, s.initialGrant);
      if Honest(s, m, choices) {
        HonestServes(s, m, choices);
        ServesHeartbeat(s, m, HandleMessage(s, m, choices));
      } else if m.Subscribe? || m.Data? {
        BypassLeavesHeartbeat(s, m.room, choices);
      }
    }
  }

  lemma OthersLeaveHeartbeat(s: Session, event: Event)
    requires Inv(s) && (event.Completed? || event.Adapters? || event.ClosedFromOutside?)
    ensures Step(s, event).heartbeat == s.heartbeat
  {
    match event
    case Adapters(op) =>
      ApplyKeeps(s, op);
      hide Keeps, SendsForward, SlotOf, AdapterForward;
    case Completed(room, send, error, cleanup, callback) =>
      if send in SlotOf(s, room).waiting {
        CompleteKeeps(s, room, send, error, cleanup, callback);
        hide Keeps, Complete, SlotOf, AdapterForward, LossesAnnounced, CalledBack;
      }
    case ClosedFromOutside =>
  }

  // Event number k is a tick that pinged.
  predicate PingsAt(s: Session, events: seq<Event>, k: nat)
    requires k < |events|
  {
    var before := After(s, events[..k]);
    && events[k].TickEvent? && !before.heartbeat.stopped
    && TickAction(before.heartbeat, before.physical, !before.rooms.IsEmpty()).Ping?
  }

  lemma PingsAtPrefix(s: Session, events: seq<Event>, k: nat, n: nat)
    requires k < n <= |events|
    ensures PingsAt(s, events[..n], k) <==> PingsAt(s, events, k)
  {
    assert events[..n][..k] == events[..k];
  }

  // The pong flag goes down only with a ping, and up with a pong.
  lemma PongFlag(s: Session, event: Event)
    requires Inv(s)
    ensures var t := Step(s, event);
            && (event.Pong? && !t.heartbeat.stopped ==> t.heartbeat.pongReceived)
            && (!t.heartbeat.pongReceived && !t.heartbeat.stopped && s.heartbeat.pongReceived ==>
                  event.TickEvent? && !s.heartbeat.stopped && TickAction(s.heartbeat, s.physical, !s.rooms.IsEmpty()).Ping?)
            && (!t.heartbeat.stopped ==> !s.heartbeat.stopped)
  {
    StepKeeps(s, event);
    if event.Frame? {
      hide Inv, Moves, HandleFrame;
      FrameLeavesHeartbeat(s, event.frame, event.binary, event.choices);
    } else if event.Completed? || event.Adapters? || event.ClosedFromOutside? {
      hide Inv, Moves, Step;
      OthersLeaveHeartbeat(s, event);
    } else if event.PhysicalClose? {
      hide Inv;
      PhysicalCloseStops(s, event.cleanup);
    } else if event.TickEvent? && !s.heartbeat.stopped {
      hide Inv;
      TickStops(s, event.pingThrows, event.cleanup);
    }
  }

  lemma PhysicalCloseStops(s: Session, cleanup: Cleanup)
    requires Inv(s)
    ensures Step(s, PhysicalClose(cleanup)).heartbeat.stopped
  {
    ClosedDownIsFlagged(s);
    PhysicalCloseIs(s, cleanup);
    FlaggedLeavesHeartbeat(s, ClosedDown(s), cleanup);
    hide Inv, CleanupRooms, Step, Flagged;
  }

  // However the session is flagged, its cleanup leaves the heartbeat.
  lemma FlaggedLeavesHeartbeat(s: Session, flagged: Session, cleanup: Cleanup)
    requires Inv(s) && Flagged(s, flagged)
    ensures CleanupRooms(flagged, cleanup).heartbeat == flagged.heartbeat
    ensures ClosePhysical(flagged, CONNECTION_TIMEOUT_CLOSE_CODE, cleanup).heartbeat == flagged.heartbeat
  {
    hide Keeps, Flagged, Moves, Idles, CleanupRooms, ClosePhysical;
    FlaggedIdles(s, flagged);
    CleanupLeavesHeartbeat(flagged, CONNECTION_TIMEOUT_CLOSE_CODE, cleanup);
  }

  lemma TickStops(s: Session, pingThrows: bool, cleanup: Cleanup)
    requires Inv(s)
    ensures Tick(s, pingThrows, cleanup).heartbeat.stopped || TickAction(s.heartbeat, s.physical, !s.rooms.IsEmpty()).Ping?
  {
    hide Inv, CleanupRooms, ClosePhysical, Level, PeakLevel, PeaksOk;
    var stopping := s.(heartbeat := s.heartbeat.(stopped := true));
    var noted := stopping.(metrics := s.metrics + [ZeroRoomTimeout]);
    OtherMetric(s.metrics, ZeroRoomTimeout);
    NoReport(s.metrics, ZeroRoomTimeout);
    FlaggedLeavesHeartbeat(s, stopping, cleanup);
    FlaggedLeavesHeartbeat(s, noted, cleanup);
  }

  // Event number k pinged, and no pong has come since.
  predicate Unanswered(s: Session, events: seq<Event>, k: nat)
    requires k < |events|
  {
    PingsAt(s, events, k) && forall i | k < i < |events| :: !events[i].Pong?
  }

  lemma UnansweredStill(s: Session, events: seq<Event>, k: nat, n: nat)
    requires k < n && n + 1 == |events| && Unanswered(s, events[..n], k) && !events[n].Pong?
    ensures Unanswered(s, events, k)
  {
    PingsAtPrefix(s, events, k, n);
    hide PingsAt;
    assert forall i | k < i < n :: events[i] == events[..n][i];
  }

  lemma {:induction false} UnansweredPing(grant: Payload, events: seq<Event>)
    requires var h := After(Start(grant), events).heartbeat; !h.pongReceived && !h.stopped
    ensures exists k :: 0 <= k < |events| && Unanswered(Start(grant), events, k)
  {
    if events != [] {
      var n := |events| - 1;
      var init := events[..n];
      var s := After(Start(grant), init);
      ReachableInv(grant, init);
      hide Inv, Step, Unanswered, TickAction, Start;
      PongFlag(s, events[n]);
      if s.heartbeat.pongReceived {
        PingedLast(Start(grant), events);
      } else {
        UnansweredPing(grant, init);
        var k :| 0 <= k < |init| && Unanswered(Start(grant), init, k);
        UnansweredStill(Start(grant), events, k, n);
      }
    }
  }

  lemma PingedLast(s: Session, events: seq<Event>)
    requires events != [] && PingsAt(s, events, |events| - 1)
    ensures Unanswered(s, events, |events| - 1)
  {
  }

  /** A tick finds the client unresponsive only when an earlier tick pinged it and no pong has come since: a full interval. */
  lemma TerminationNeedsSilence(grant: Payload, events: seq<Event>)
    requires var s := After(Start(grant), events);
             !s.heartbeat.stopped && TickAction(s.heartbeat, s.physical, !s.rooms.IsEmpty()).Unresponsive?
    ensures exists k :: 0 <= k < |events| && Unanswered(Start(grant), events, k)
  {
    hide After, Unanswered;
    UnansweredPing(grant, events);
  }
}
