/** Every event of the server session keeps its invariant, and what one event may change. */
module MultiplexSessionSteps {
  import opened Basics
  import opened Sockets
  import opened Unicode
  import opened Protocol
  import opened OrderedMap
  import opened MultiplexSession
  import opened MultiplexSessionProofs
  import ProtocolProofs

  /** What holds between events. */
  ghost predicate Inv(s: Session) {
    && Keeps(s)
    && BypassOk(s)
    && (s.physical.CLOSED? ==> s.rooms.IsEmpty())
    && !s.physical.CONNECTING?
  }

  /** Two authorization bypasses at most; after the second, the session is over. */
  predicate BypassOk(s: Session) {
    && s.bypass <= MAX_AUTHORIZATION_BYPASS_ATTEMPTS
    && (s.bypass == MAX_AUTHORIZATION_BYPASS_ATTEMPTS ==> Dead(s))
  }

  predicate Ages(a: Adapter, b: Adapter) {
    && (b.open ==> a.open)
    && (!a.open ==> b.closer == a.closer && b.inbox == a.inbox)
    && (a.handed ==> b.handed)
    && a.inbox <= b.inbox
  }

  /** What no event undoes. */
  ghost predicate Moves(s: Session, t: Session) {
    && t.initialGrant == s.initialGrant
    && s.physical.Rank() <= t.physical.Rank()
    && (t.physical == s.physical || !t.physical.OPEN?)
    && s.out <= t.out && s.closes <= t.closes && s.calls <= t.calls && s.metrics <= t.metrics
    && (!s.physical.OPEN? ==> t.out == s.out)
    && s.bypass <= t.bypass && s.peak <= t.peak
    && (s.heartbeat.stopped ==> t.heartbeat.stopped && t.heartbeat.pings == s.heartbeat.pings)
    && (forall id: AdapterId | Exists(s, id) ::
          Exists(t, id) && Ages(SlotOf(s, id.room).adapters[id.serial], SlotOf(t, id.room).adapters[id.serial]))
  }

  lemma MovesTransitive(s: Session, t: Session, u: Session)
    requires Moves(s, t) && Moves(t, u)
    ensures Moves(s, u)
  {
    forall id: AdapterId | Exists(s, id)
      ensures Exists(u, id) && Ages(SlotOf(s, id.room).adapters[id.serial], SlotOf(u, id.room).adapters[id.serial])
    {
      assert Exists(t, id);
    }
    hide SlotOf, Ages;
  }

  lemma MildMoves(s: Session, t: Session)
    requires Shrinks(s, t) && s.calls <= t.calls
    ensures Moves(s, t)
  {
    forall id: AdapterId | Exists(s, id)
      ensures Exists(t, id) && Ages(SlotOf(s, id.room).adapters[id.serial], SlotOf(t, id.room).adapters[id.serial])
    {
      assert |SlotOf(t, id.room).adapters| == |SlotOf(s, id.room).adapters|;
      assert AdapterForward(SlotOf(s, id.room).adapters[id.serial], SlotOf(t, id.room).adapters[id.serial]);
    }
    hide SlotOf, AdapterForward, Ages;
  }

  // t has the adapters of s.
  lemma SameSlotsMove(s: Session, t: Session)
    requires t.slots == s.slots
    ensures forall id: AdapterId | Exists(s, id) ::
              Exists(t, id) && Ages(SlotOf(s, id.room).adapters[id.serial], SlotOf(t, id.room).adapters[id.serial])
  {
  }

  // ---------- closing the physical socket ----------

  lemma ClosePhysicalSocketKeeps(s: Session, code: int)
    requires Keeps(s) && s.rooms.IsEmpty()
    ensures var t := ClosePhysicalSocket(s, code); Keeps(t) && Dead(t) && Moves(s, t)
  {
    var t := ClosePhysicalSocket(s, code);
    SameKeeps(s, t);
    SameSlots(s, t);
    SameSlotsMove(s, t);
    hide RoomsOk, AdaptersOk, MetricsOk, ReportsOk, OutOk, CallsOk, SlotOf, Ages;
  }

  lemma ClosePhysicalKeeps(s: Session, code: int, cleanup: Cleanup)
    requires Keeps(s)
    ensures var t := ClosePhysical(s, code, cleanup); Keeps(t) && Dead(t) && Moves(s, t) && t.bypass == s.bypass
  {
    var cleaned := CleanupRooms(s, cleanup);
    CleanupKeeps(s, cleanup);
    MildMoves(s, cleaned);
    hide Keeps, SlotOf, Moves, SendsForward;
    ClosePhysicalSocketKeeps(cleaned, code);
    MovesTransitive(s, cleaned, ClosePhysicalSocket(cleaned, code));
  }

  lemma TerminateKeeps(s: Session)
    requires Keeps(s) && s.rooms.IsEmpty()
    ensures var t := Terminate(s); Keeps(t) && Dead(t) && Moves(s, t) && t.bypass == s.bypass
  {
    var t := Terminate(s);
    SameKeeps(s, t);
    SameSlots(s, t);
    SameSlotsMove(s, t);
    hide RoomsOk, AdaptersOk, MetricsOk, ReportsOk, OutOk, CallsOk, SlotOf, Ages;
  }

  // ---------- what a frame does to rooms, inboxes and the client ----------

  // The adapter that frame m is for.
  function Target(s: Session, m: Message): Option<AdapterId> {
    if m.Data? && Active(s, m.room).Some? then Some(AdapterId(m.room, Active(s, m.room).value)) else None
  }

  /** Only a subscribe opens a room, and only its own, with a new adapter. */
  ghost predicate RoomsFrom(s: Session, m: Message, t: Session) {
    && (forall r | r in t.rooms.entries ::
          if r in s.rooms.entries then t.rooms.entries[r] == s.rooms.entries[r] else m.Subscribe? && r == m.room)
    && (forall id: AdapterId | Exists(t, id) && !Exists(s, id) :: m.Subscribe? && id.room == m.room)
  }

  /** Data goes into the inbox of its room's adapter, and nothing else goes into any inbox. */
  ghost predicate Delivers(s: Session, m: Message, t: Session) {
    forall id: AdapterId | Exists(t, id) ::
      SlotOf(t, id.room).adapters[id.serial].inbox
      == if !Exists(s, id) then []
         else SlotOf(s, id.room).adapters[id.serial].inbox + if Target(s, m) == Some(id) then [m.payload] else []
  }

  ghost predicate AnnouncedIn(t: Session, from: nat, m: Message) {
    exists i :: from <= i < |t.out| && t.out[i].message == m
  }

  /** Unless the socket is gone, a subscriber learns of success or refusal, and every other room lost is announced. */
  ghost predicate Tells(s: Session, m: Message, t: Session) {
    t.physical.OPEN? ==>
      && (forall r | r in s.rooms.entries && r !in t.rooms.entries && !(m.Unsubscribe? && r == m.room) :: Announced(t, r, |s.out|))
      && (m.Subscribe? ==>
            && (m.room in t.rooms.entries || Announced(t, m.room, |s.out|))
            && (AnnouncedIn(t, |s.out|, Subscribed(m.room)) || Announced(t, m.room, |s.out|)))
  }

  /** The frame cost the client nothing: no bypass counted, and no close but for a failed send. */
  predicate Free(s: Session, t: Session) {
    && t.bypass == s.bypass
    && s.closes <= t.closes
    && forall i | |s.closes| <= i < |t.closes| :: t.closes[i] == SEND_FAILED_CLOSE_CODE
  }

  ghost predicate Handles(s: Session, m: Message, t: Session) {
    && Keeps(t) && Moves(s, t)
    && RoomsFrom(s, m, t) && Delivers(s, m, t) && Unrefused(s, t)
    && t.heartbeat == s.heartbeat
    && (t.physical.CLOSED? ==> s.physical.CLOSED?)
  }

  ghost predicate Serves(s: Session, m: Message, t: Session) {
    Handles(s, m, t) && Free(s, t) && Tells(s, m, t)
  }

  lemma FreeThenMild(s: Session, u: Session, t: Session)
    requires Free(s, u) && Mild(u, t)
    ensures Free(s, t)
  {
    hide SlotOf, AdapterForward, SendsForward;
  }

  // No adapter is new, no inbox grew, and no room was added.
  ghost predicate Settles(u: Session, t: Session) {
    && (forall r | r in t.rooms.entries :: r in u.rooms.entries && t.rooms.entries[r] == u.rooms.entries[r])
    && (forall id: AdapterId :: Exists(t, id) == Exists(u, id))
    && (forall id: AdapterId | Exists(u, id) ::
          SlotOf(t, id.room).adapters[id.serial].inbox == SlotOf(u, id.room).adapters[id.serial].inbox)
  }

  lemma HandlesThenSettles(s: Session, m: Message, u: Session, t: Session)
    requires RoomsFrom(s, m, u) && Delivers(s, m, u) && Settles(u, t)
    ensures RoomsFrom(s, m, t) && Delivers(s, m, t)
  {
    hide Target;
  }

  lemma MildSettles(u: Session, t: Session)
    requires Shrinks(u, t)
    ensures Settles(u, t)
  {
    assert forall id: AdapterId :: |SlotOf(t, id.room).adapters| == |SlotOf(u, id.room).adapters|;
    assert forall id: AdapterId | Exists(u, id) ::
        AdapterForward(SlotOf(u, id.room).adapters[id.serial], SlotOf(t, id.room).adapters[id.serial]);
    hide SlotOf, SendsForward;
  }

  lemma HandlesThenMild(s: Session, m: Message, u: Session, t: Session)
    requires Handles(s, m, u) && Mild(u, t) && Keeps(t)
    ensures Handles(s, m, t)
  {
    MildMoves(u, t);
    hide Keeps, Moves, RoomsFrom, Delivers, SendsForward, Settles, SlotOf, AdapterForward;
    MovesTransitive(s, u, t);
    MildSettles(u, t);
    HandlesThenSettles(s, m, u, t);
  }

  lemma TellsThenGood(s: Session, m: Message, u: Session, t: Session)
    requires Tells(s, m, u) && s.out <= u.out && Shrinks(u, t) && LossesAnnounced(u, t)
    ensures Tells(s, m, t)
  {
    hide SlotOf, AdapterForward;
    assert forall i | 0 <= i < |u.out| :: t.out[i] == u.out[i];
    assert forall r :: Announced(u, r, |s.out|) ==> Announced(t, r, |s.out|);
    assert AnnouncedIn(u, |s.out|, Subscribed(m.room)) ==> AnnouncedIn(t, |s.out|, Subscribed(m.room));
    assert forall r :: Announced(t, r, |u.out|) ==> Announced(t, r, |s.out|);
  }

  lemma ServesThenGood(s: Session, m: Message, u: Session, t: Session)
    requires Serves(s, m, u) && Good(u, t)
    ensures Serves(s, m, t)
  {
    assert s.out <= u.out;
    hide Keeps, Shrinks, SendsForward, LossesAnnounced, Tells, Free, Moves, RoomsFrom, Delivers;
    HandlesThenMild(s, m, u, t);
    FreeThenMild(s, u, t);
    TellsThenGood(s, m, u, t);
  }

  lemma Untouched(s: Session, m: Message)
    requires Keeps(s) && Target(s, m).None?
    ensures Handles(s, m, s) && Free(s, s) && (!m.Subscribe? ==> Serves(s, m, s))
  {
    hide Keeps;
    assert forall a: Adapter :: Ages(a, a);
  }

  lemma GoodServes(s: Session, m: Message, t: Session)
    requires Keeps(s) && Good(s, t) && Target(s, m).None?
    requires t.physical.OPEN? && m.Subscribe? ==>
               && (m.room in t.rooms.entries || Announced(t, m.room, |s.out|))
               && (AnnouncedIn(t, |s.out|, Subscribed(m.room)) || Announced(t, m.room, |s.out|))
    ensures Serves(s, m, t)
  {
    Untouched(s, m);
    hide Keeps, Shrinks, SendsForward, Free, Moves, RoomsFrom, Delivers, Announced, AnnouncedIn;
    HandlesThenMild(s, m, s, t);
    FreeThenMild(s, s, t);
  }

  // ---------- refusals ----------

  lemma MetricsKeep(s: Session, t: Session)
    requires Keeps(s) && t == s.(metrics := t.metrics)
    requires Level(t.metrics) == Level(s.metrics) && PeakLevel(t.metrics) == PeakLevel(s.metrics) && PeaksOk(t.metrics)
    requires s.metrics <= t.metrics && SameReports(s.metrics, t.metrics)
    ensures Good(s, t)
  {
    SameKeeps(s, t);
    SameSlots(s, t);
    hide SlotOf, RoomsOk, AdaptersOk, ReportsOk, SameReports, OutOk, CallsOk, Level, PeakLevel, PeaksOk, SendsForward, LossesAnnounced;
  }

  lemma NoteKeeps(s: Session, m: Metric)
    requires Keeps(s) && !m.RoomOpen? && !m.RoomClose? && !m.PeakRooms? && (m.RoomConnectionClose? ==> m.adapter.None?)
    ensures Good(s, s.(metrics := s.metrics + [m]))
  {
    OtherMetric(s.metrics, m);
    NoReport(s.metrics, m);
    hide Good, Keeps, Level, PeakLevel, PeaksOk, SameReports;
    MetricsKeep(s, s.(metrics := s.metrics + [m]));
  }

  /** The first frame that the step sent refuses the room. */
  predicate Refused(s: Session, room: Text, code: int, t: Session) {
    |s.out| < |t.out| && t.out[|s.out|] == Emitted(RoomClosed(room, code), None)
  }

  /** The refusal went out, unless its own send failed and ended the session. */
  predicate Refuses(s: Session, room: Text, code: int, reply: Outcome, t: Session) {
    t.physical.OPEN? || (!reply.Failed? && WithinBounds(RoomClosed(room, code))) ==> Refused(s, room, code, t)
  }

  lemma RefusalWritten(s: Session, room: Text, code: int, reply: Outcome)
    requires Keeps(s) && s.physical.OPEN? && Active(s, room).None?
    ensures var t := Transmit(s, RoomClosed(room, code), reply, false).0; Good(s, t) && Refuses(s, room, code, reply, t)
  {
    var m := RoomClosed(room, code);
    var (t, ok) := Transmit(s, m, reply, false);
    ProtocolProofs.EncodeSucceedsExactly(m);
    assert Legal(s, m);
    hide Keeps, Legal, Good, Encode, WithinBounds;
    TransmitKeeps(s, m, reply, false);
    TransmittedIsGood(s, m, t, ok);
    if !reply.Failed? && WithinBounds(m) {
      TransmitSucceeds(s, m, reply, false);
    }
  }

  lemma RefusedIsAnnounced(s: Session, room: Text, code: int, t: Session)
    requires Refused(s, room, code, t)
    ensures Announced(t, room, |s.out|)
  {
    assert t.out[|s.out|].message == RoomClosed(room, code);
  }

  lemma RefuseServes(s: Session, metric: Metric, grant: Text, room: Text, code: int, reply: Outcome)
    requires Keeps(s) && s.physical.OPEN? && Active(s, room).None? && metric.RoomConnectionClose? && metric.adapter.None?
    ensures var t := SendRoomClosed(s.(metrics := s.metrics + [metric]), room, code, reply);
            && Serves(s, Subscribe(room, grant), t) && Good(s, t)
            && Refuses(s, room, code, reply, t)
            && (t.physical.OPEN? ==> Announced(t, room, |s.out|))
  {
    var noted := s.(metrics := s.metrics + [metric]);
    var t := SendRoomClosed(noted, room, code, reply);
    NoteKeeps(s, metric);
    hide Keeps, Serves, Shrinks, SendsForward, LossesAnnounced, Transmit;
    RefusalWritten(noted, room, code, reply);
    GoodTransitive(s, noted, t);
    if t.physical.OPEN? {
      RefusedIsAnnounced(s, room, code, t);
    }
    hide WithinBounds, Refused;
    GoodServes(s, Subscribe(room, grant), t);
  }

  // One more bypass on the books.
  lemma CountBypass(s: Session)
    requires Keeps(s)
    ensures var t := s.(bypass := s.bypass + 1); Keeps(t) && Moves(s, t)
  {
    var t := s.(bypass := s.bypass + 1);
    SameKeeps(s, t);
    SameSlots(s, t);
    SameSlotsMove(s, t);
    hide RoomsOk, AdaptersOk, MetricsOk, ReportsOk, OutOk, CallsOk, SlotOf, Ages;
  }

  // RejectRoom after the bypass is counted, at an open socket.
  lemma RejectKeeps(s: Session, room: Text, reply: Outcome)
    requires Keeps(s) && s.physical.OPEN? && Active(s, room).None?
    ensures var t := RejectRoom(s, room, reply);
            && Keeps(t) && Moves(s, t) && t.bypass == s.bypass && Good(s, t)
            && Refuses(s, room, ROOM_REJECTED_CLOSE_CODE, reply, t)
            && (t.physical.OPEN? ==> Announced(t, room, |s.out|))
  {
    var t := RejectRoom(s, room, reply);
    RefuseServes(s, RoomConnectionClose(AuthorizationRejected, None), [], room, ROOM_REJECTED_CLOSE_CODE, reply);
    hide Keeps, Mild, Moves, LossesAnnounced, Announced, SendRoomClosed, Refuses;
  }

  // What a bypass does after it is counted and refused.
  function AfterRejection(rejected: Session, choices: Choices): Session {
    if rejected.bypass >= MAX_AUTHORIZATION_BYPASS_ATTEMPTS then ClosePhysical(rejected, POLICY_CLOSE_CODE, choices.cleanup) else rejected
  }

  lemma BypassShape(s: Session, room: Text, choices: Choices)
    ensures RejectAuthorizationBypass(s, room, choices)
         == AfterRejection(RejectRoom(s.(bypass := s.bypass + 1), room, choices.reply), choices)
  {
    hide RejectRoom, ClosePhysical;
  }

  lemma StillRefused(s: Session, counted: Session, rejected: Session, t: Session, room: Text, code: int, reply: Outcome)
    requires Refuses(counted, room, code, reply, rejected) && counted.out == s.out && Moves(rejected, t)
    ensures Refuses(s, room, code, reply, t)
  {
    hide WithinBounds, SlotOf, Ages;
  }

  /** A bypass is counted and refused; the second one ends the session. */
  lemma BypassKeeps(s: Session, room: Text, choices: Choices)
    requires Inv(s) && s.physical.OPEN? && Active(s, room).None?
    ensures var t := RejectAuthorizationBypass(s, room, choices);
            && Inv(t) && Moves(s, t) && t.bypass == s.bypass + 1
            && (t.physical.OPEN? ==> t.bypass < MAX_AUTHORIZATION_BYPASS_ATTEMPTS)
            && Refuses(s, room, ROOM_REJECTED_CLOSE_CODE, choices.reply, t)
  {
    var counted := s.(bypass := s.bypass + 1);
    var rejected := RejectRoom(counted, room, choices.reply);
    CountBypass(s);
    RejectKeeps(counted, room, choices.reply);
    BypassShape(s, room, choices);
    hide Keeps, Good, Moves, LossesAnnounced, Announced, RejectRoom, Refuses, RejectAuthorizationBypass;
    MovesTransitive(s, counted, rejected);
    NeverClosedByItself(counted, rejected);
    ClosePhysicalKeeps(rejected, POLICY_CLOSE_CODE, choices.cleanup);
    var t := AfterRejection(rejected, choices);
    GoodMoves(rejected);
    MovesTransitive(s, rejected, t);
    StillRefused(s, counted, rejected, t, room, ROOM_REJECTED_CLOSE_CODE, choices.reply);
  }

  lemma GoodMoves(s: Session)
    ensures Moves(s, s)
  {
    MildReflexive(s);
    MildMoves(s, s);
  }

  lemma NeverClosedByItself(s: Session, t: Session)
    requires Good(s, t) && Keeps(s) && s.physical.OPEN?
    ensures t.physical.CLOSED? ==> t.rooms.IsEmpty()
  {
  }

  // Closing the physical socket of a session without rooms changes nothing a frame is asked about.
  lemma SameSettles(u: Session, t: Session)
    requires t.slots == u.slots && t.rooms == u.rooms
    ensures Settles(u, t)
  {
  }

  lemma HandlesThenCloses(s: Session, m: Message, u: Session, code: int)
    requires Handles(s, m, u) && u.rooms.IsEmpty()
    ensures Handles(s, m, ClosePhysicalSocket(u, code)) && Dead(ClosePhysicalSocket(u, code))
  {
    hide Keeps, Moves, RoomsFrom, Delivers, Settles, Dead;
    var t := ClosePhysicalSocket(u, code);
    ClosePhysicalSocketKeeps(u, code);
    SameSettles(u, t);
    MovesTransitive(s, u, t);
    HandlesThenSettles(s, m, u, t);
  }

  lemma CountedHandles(s: Session, m: Message)
    requires Keeps(s) && Target(s, m).None?
    ensures Handles(s, m, s.(bypass := s.bypass + 1))
  {
    CountBypass(s);
    hide Keeps, Moves;
  }

  // The tail of a bypass: nothing, or a cleanup and a close.
  lemma RejectedHandles(s: Session, m: Message, rejected: Session, choices: Choices)
    requires Handles(s, m, rejected) && (rejected.bypass < MAX_AUTHORIZATION_BYPASS_ATTEMPTS ==> Tells(s, m, rejected))
    ensures var t := AfterRejection(rejected, choices); Handles(s, m, t) && Tells(s, m, t)
  {
    hide Keeps, Mild, Handles, Tells, CleanupRooms, ClosePhysicalSocket;
    assert Keeps(rejected) by { HandledKeeps(s, m, rejected); }
    CleanupKeeps(rejected, choices.cleanup);
    var cleaned := CleanupRooms(rejected, choices.cleanup);
    HandlesThenMild(s, m, rejected, cleaned);
    HandlesThenCloses(s, m, cleaned, POLICY_CLOSE_CODE);
    DeadTells(s, m, ClosePhysicalSocket(cleaned, POLICY_CLOSE_CODE));
  }

  lemma HandledKeeps(s: Session, m: Message, t: Session)
    requires Handles(s, m, t)
    ensures Keeps(t)
  {
  }

  lemma DeadTells(s: Session, m: Message, t: Session)
    requires Dead(t)
    ensures Tells(s, m, t)
  {
  }

  /** A subscribe that is a bypass touches no room and no inbox, and the subscriber is told. */
  lemma BypassHandles(s: Session, room: Text, grant: Text, choices: Choices)
    requires Inv(s) && s.physical.OPEN? && Active(s, room).None?
    ensures var t := RejectAuthorizationBypass(s, room, choices);
            Handles(s, Subscribe(room, grant), t) && Tells(s, Subscribe(room, grant), t)
  {
    var m := Subscribe(room, grant);
    var counted := s.(bypass := s.bypass + 1);
    var rejected := RejectRoom(counted, room, choices.reply);
    CountedHandles(s, m);
    RejectKeeps(counted, room, choices.reply);
    BypassShape(s, room, choices);
    assert counted.out == s.out && counted.rooms == s.rooms;
    hide Keeps, Shrinks, SendsForward, Moves, Handles, Announced, RejectRoom, Refuses, RejectAuthorizationBypass, AfterRejection;
    HandlesThenMild(s, m, counted, rejected);
    RejectedHandles(s, m, rejected, choices);
  }

  // ---------- subscribing ----------

  lemma OpenRoomAdapters(s: Session, room: Text)
    requires !s.rooms.Has(room)
    ensures var id := AdapterId(room, |SlotOf(s, room).adapters|);
            var t := OpenRoom(s, room);
            && (forall x: AdapterId :: Exists(t, x) == (Exists(s, x) || x == id))
            && (forall x: AdapterId :: IsOpen(t, x) == (IsOpen(s, x) || x == id))
            && (forall x: AdapterId :: WasHanded(t, x) == WasHanded(s, x))
            && (forall x: AdapterId | Exists(s, x) :: SlotOf(t, x.room).adapters[x.serial] == SlotOf(s, x.room).adapters[x.serial])
            && SlotOf(t, room).adapters[id.serial] == Adapter(true, false, [], None)
            && (forall r :: SlotOf(t, r).sends == SlotOf(s, r).sends && SlotOf(t, r).waiting == SlotOf(s, r).waiting)
            && !Exists(s, id)
  {
  }

  lemma OpenRoomMetrics(s: Session, room: Text)
    requires MetricsOk(s) && !s.rooms.Has(room)
    ensures MetricsOk(OpenRoom(s, room))
  {
    LevelAppend(s.metrics, RoomOpen);
    assert OpenRoom(s, room).rooms.keys == s.rooms.keys + [room];
    hide SlotOf, Level, PeakLevel, PeaksOk;
  }

  lemma OpenRoomReports(s: Session, room: Text)
    requires ReportsOk(s) && !s.rooms.Has(room)
    ensures ReportsOk(OpenRoom(s, room))
  {
    var t := OpenRoom(s, room);
    NoReport(s.metrics, RoomOpen);
    OpenRoomAdapters(s, room);
    forall id: AdapterId
      ensures ReportsOf(t.metrics, id) == Due(t, id)
    {
      assert ReportsOf(s.metrics, id) == Due(s, id);
      assert Due(t, id) == Due(s, id);
    }
  }

  lemma OpenRoomRooms(s: Session, room: Text)
    requires RoomsOk(s) && !s.rooms.Has(room)
    ensures RoomsOk(OpenRoom(s, room))
  {
    var id := AdapterId(room, |SlotOf(s, room).adapters|);
    var t := OpenRoom(s, room);
    assert forall x: AdapterId :: Exists(t, x) == (Exists(s, x) || x == id) && IsOpen(t, x) == (IsOpen(s, x) || x == id) by {
      OpenRoomAdapters(s, room);
    }
    assert t.rooms == Set(s.rooms, room, id.serial) && t.closedRooms == s.closedRooms - {room};
    hide SlotOf, IsOpen, Exists, OpenRoom, Set;
    assert t.rooms.entries == s.rooms.entries[room := id.serial];
    forall r | r in t.rooms.entries
      ensures IsOpen(t, AdapterId(r, t.rooms.entries[r])) && r !in t.closedRooms
    {
      if r != room {
        assert IsOpen(s, AdapterId(r, s.rooms.entries[r]));
      }
    }
  }

  lemma OpenRoomAdaptersOk(s: Session, room: Text)
    requires AdaptersOk(s) && ExpectedOk(s) && !s.rooms.Has(room)
    ensures AdaptersOk(OpenRoom(s, room)) && ExpectedOk(OpenRoom(s, room))
  {
    OpenRoomAdapters(s, room);
    assert OpenRoom(s, room).expected == s.expected;
    hide SlotOf, IsOpen, Exists, OpenRoom;
  }

  lemma OpenRoomRest(s: Session, room: Text)
    requires Keeps(s) && !s.rooms.Has(room) && s.physical.OPEN?
    ensures var t := OpenRoom(s, room); OutOk(t) && ShutOk(t) && CallsOk(t)
  {
    var t := OpenRoom(s, room);
    OpenRoomAdapters(s, room);
    assert forall r :: SlotSendsOk(SlotOf(s, r)) ==> SlotSendsOk(SlotOf(t, r));
    hide SlotOf, WithinBounds, SlotSendsOk, Exists, WasHanded, RoomsOk, AdaptersOk, MetricsOk;
    assert forall i | 0 <= i < |s.out| :: EmittedOk(s, i) ==> EmittedOk(t, i);
    assert forall i | 0 <= i < |s.calls| :: CallOk(s, s.calls[i]) ==> CallOk(t, s.calls[i]);
  }

  lemma OpenRoomKeeps(s: Session, room: Text)
    requires Keeps(s) && !s.rooms.Has(room) && s.physical.OPEN?
    ensures var t := OpenRoom(s, room); Keeps(t) && Moves(s, t) && Legal(t, Subscribed(room))
  {
    OpenRoomRooms(s, room);
    OpenRoomAdaptersOk(s, room);
    OpenRoomMetrics(s, room);
    OpenRoomReports(s, room);
    OpenRoomRest(s, room);
    OpenRoomAdapters(s, room);
    hide SlotOf, RoomsOk, AdaptersOk, MetricsOk, ReportsOk, OutOk, CallsOk, ExpectedOk;
  }

  lemma HandOverAdapters(s: Session, id: AdapterId)
    requires Exists(s, id)
    ensures var t := HandOver(s, id);
            && t == s.(slots := t.slots)
            && (forall x: AdapterId :: Exists(t, x) == Exists(s, x) && IsOpen(t, x) == IsOpen(s, x) && WasHanded(t, x) == (WasHanded(s, x) || x == id))
            && (forall r :: SlotOf(t, r).sends == SlotOf(s, r).sends && SlotOf(t, r).waiting == SlotOf(s, r).waiting)
            && (forall x: AdapterId | Exists(s, x) :: HandedOver(SlotOf(s, x.room).adapters[x.serial], SlotOf(t, x.room).adapters[x.serial]))
  {
  }

  predicate HandedOver(a: Adapter, b: Adapter) {
    b == a.(handed := b.handed) && (a.handed ==> b.handed)
  }

  lemma SameBooks(s: Session, t: Session)
    requires CallsOk(s) && t.calls == s.calls
    requires forall r :: SlotOf(t, r).sends == SlotOf(s, r).sends && SlotOf(t, r).waiting == SlotOf(s, r).waiting
    ensures CallsOk(t)
  {
    assert forall r :: SlotSendsOk(SlotOf(s, r)) ==> SlotSendsOk(SlotOf(t, r));
    hide SlotOf, SlotSendsOk;
    assert forall i | 0 <= i < |s.calls| :: CallOk(s, s.calls[i]) ==> CallOk(t, s.calls[i]);
  }

  lemma HandOverKeeps(s: Session, id: AdapterId)
    requires Keeps(s) && Exists(s, id) && Acknowledged(s.out, id.room, id.serial, |s.out|)
    ensures Keeps(HandOver(s, id)) && Moves(s, HandOver(s, id))
  {
    var t := HandOver(s, id);
    hide RoomsOk, AdaptersOk, ReportsOk, OutOk, CallsOk, ExpectedOk, Exists, IsOpen, WasHanded, HandOver, SlotOf, Acknowledged, HandedOver, Ages;
    hide Level, PeakLevel, PeaksOk;
    HandOverAdapters(s, id);
    SameBooks(s, t);
    HandOverOut(s, id);
    HandOverStays(s, t);
  }

  // Adapters that only differ in being handed over.
  lemma HandOverStays(s: Session, t: Session)
    requires Keeps(s) && t == s.(slots := t.slots)
    requires forall x: AdapterId :: Exists(t, x) == Exists(s, x) && IsOpen(t, x) == IsOpen(s, x)
    requires forall x: AdapterId | Exists(s, x) ::
               Exists(t, x) && HandedOver(SlotOf(s, x.room).adapters[x.serial], SlotOf(t, x.room).adapters[x.serial])
    ensures RoomsOk(t) && AdaptersOk(t) && ReportsOk(t) && ExpectedOk(t)
    ensures forall x: AdapterId | Exists(s, x) :: Exists(t, x) && Ages(SlotOf(s, x.room).adapters[x.serial], SlotOf(t, x.room).adapters[x.serial])
  {
    assert forall a, b :: HandedOver(a, b) ==> Ages(a, b) && (AdapterOk(a) ==> AdapterOk(b)) && a.closer == b.closer;
    hide MetricsOk, OutOk, CallsOk, SlotOf, Ages, AdapterOk, HandedOver, ReportsOf, IsOpen;
    assert forall x: AdapterId :: Due(t, x) == Due(s, x);
  }

  lemma HandOverOut(s: Session, id: AdapterId)
    requires OutOk(s) && Exists(s, id) && Acknowledged(s.out, id.room, id.serial, |s.out|)
    ensures OutOk(HandOver(s, id))
  {
    var t := HandOver(s, id);
    HandOverAdapters(s, id);
    hide SlotOf, HandedOver, WithinBounds, Exists, WasHanded, HandOver;
    assert forall i | 0 <= i < |s.out| :: EmittedOk(s, i) ==> EmittedOk(t, i);
  }

  lemma OpenRoomDelivers(s: Session, room: Text, grant: Text)
    requires !s.rooms.Has(room)
    ensures var t := OpenRoom(s, room); RoomsFrom(s, Subscribe(room, grant), t) && Delivers(s, Subscribe(room, grant), t)
  {
    var t := OpenRoom(s, room);
    OpenRoomAdapters(s, room);
    assert t.rooms.entries == s.rooms.entries[room := |SlotOf(s, room).adapters|];
    hide SlotOf, IsOpen, WasHanded, OpenRoom, Exists;
  }

  lemma OpenRoomHandles(s: Session, room: Text, grant: Text)
    requires Keeps(s) && !s.rooms.Has(room) && s.physical.OPEN?
    ensures var t := OpenRoom(s, room); Handles(s, Subscribe(room, grant), t) && Free(s, t) && Legal(t, Subscribed(room))
  {
    OpenRoomKeeps(s, room);
    OpenRoomDelivers(s, room, grant);
    hide SlotOf, Keeps, Moves, Legal, RoomsFrom, Delivers;
  }

  lemma HandOverSettles(u: Session, id: AdapterId)
    requires Exists(u, id)
    ensures var t := HandOver(u, id);
            Settles(u, t) && t == u.(slots := t.slots)
  {
    HandOverAdapters(u, id);
    hide SlotOf, HandOver;
  }

  lemma HandOverServes(s: Session, m: Message, u: Session, id: AdapterId)
    requires Serves(s, m, u) && Exists(u, id) && Acknowledged(u.out, id.room, id.serial, |u.out|)
    ensures Serves(s, m, HandOver(u, id))
  {
    var t := HandOver(u, id);
    hide SlotOf, Keeps, Moves, HandOver, Announced, RoomsFrom, Delivers, Settles, Exists;
    HandOverKeeps(u, id);
    MovesTransitive(s, u, t);
    HandOverSettles(u, id);
    HandlesThenSettles(s, m, u, t);
    SameAnnouncements(u, t);
  }

  lemma SameAnnouncements(s: Session, t: Session)
    requires t.out == s.out
    ensures forall r, from: nat :: Announced(s, r, from) ==> Announced(t, r, from)
  {
  }

  /** The first frame that the step sent acknowledges the adapter. */
  predicate AcknowledgedFirst(s: Session, id: AdapterId, t: Session) {
    |s.out| < |t.out| && t.out[|s.out|] == Emitted(Subscribed(id.room), Some(id.serial))
  }

  lemma FirstIsAcknowledged(s: Session, room: Text, t: Session, ok: bool)
    requires s.physical.OPEN? && !s.rooms.Has(room) && Transmitted(OpenRoom(s, room), Subscribed(room), t, ok)
    ensures ok ==> var id := AdapterId(room, |SlotOf(s, room).adapters|);
                   && Exists(t, id) && Acknowledged(t.out, room, id.serial, |t.out|) && AcknowledgedFirst(s, id, t)
                   && room in t.rooms.entries
    ensures !ok ==> !t.physical.OPEN?
  {
    var serial := |SlotOf(s, room).adapters|;
    var o := OpenRoom(s, room);
    assert o.out == s.out && o.rooms.entries == s.rooms.entries[room := serial] && o.physical == s.physical;
    TransmittedIsGood(o, Subscribed(room), t, ok);
    assert Exists(o, AdapterId(room, serial));
    assert |SlotOf(t, room).adapters| == |SlotOf(o, room).adapters|;
    hide Good, SlotOf, OpenRoom;
    if ok {
      assert Acknowledges(t.out[|s.out|], room, serial);
    }
  }

  lemma OpenedTells(s: Session, room: Text, grant: Text, t: Session, ok: bool)
    requires Good(OpenRoom(s, room), t) && (!ok ==> !t.physical.OPEN?)
    requires ok ==> AcknowledgedFirst(s, AdapterId(room, |SlotOf(s, room).adapters|), t) && room in t.rooms.entries
    ensures Tells(s, Subscribe(room, grant), t)
  {
    var o := OpenRoom(s, room);
    assert o.out == s.out && o.rooms.entries == s.rooms.entries[room := |SlotOf(s, room).adapters|];
    hide Keeps, Shrinks, SendsForward, OpenRoom, SlotOf, Announced;
    if t.physical.OPEN? {
      assert t.out[|s.out|].message == Subscribed(room);
    }
  }

  // The new room is acknowledged on the wire.
  lemma AcknowledgedServes(s: Session, room: Text, grant: Text, t: Session, ok: bool)
    requires s.physical.OPEN? && !s.rooms.Has(room)
    requires Handles(s, Subscribe(room, grant), OpenRoom(s, room)) && Free(s, OpenRoom(s, room))
    requires Transmitted(OpenRoom(s, room), Subscribed(room), t, ok)
    ensures Serves(s, Subscribe(room, grant), t)
    ensures ok ==> var id := AdapterId(room, |SlotOf(s, room).adapters|);
                   Exists(t, id) && Acknowledged(t.out, room, id.serial, |t.out|) && AcknowledgedFirst(s, id, t)
    ensures !ok ==> !t.physical.OPEN?
  {
    var m := Subscribe(room, grant);
    var o := OpenRoom(s, room);
    TransmittedIsGood(o, Subscribed(room), t, ok);
    FirstIsAcknowledged(s, room, t, ok);
    hide Keeps, Shrinks, SendsForward, Free, Moves, Delivers, RoomsFrom, Transmitted, OpenRoom, SlotOf, Acknowledged, Exists, Tells;
    HandlesThenMild(s, m, o, t);
    FreeThenMild(s, o, t);
    OpenedTells(s, room, grant, t, ok);
  }

  // Handed over and run: the adapter stays handed, and its acknowledgement the first frame.
  lemma StaysHanded(s: Session, a: Session, id: AdapterId, t: Session)
    requires Exists(a, id) && AcknowledgedFirst(s, id, a) && Shrinks(HandOver(a, id), t)
    ensures WasHanded(t, id) && AcknowledgedFirst(s, id, t)
  {
    HandOverAdapters(a, id);
    assert |SlotOf(t, id.room).adapters| == |SlotOf(HandOver(a, id), id.room).adapters|;
    assert AdapterForward(SlotOf(HandOver(a, id), id.room).adapters[id.serial], SlotOf(t, id.room).adapters[id.serial]);
    hide SlotOf, HandOver, HandedOver;
  }

  /** A new room: stored, acknowledged by the first frame and handed to y-websocket, or the session is over. */
  lemma AddRoomServes(s: Session, room: Text, grant: Text, choices: Choices)
    requires Keeps(s) && !s.rooms.Has(room) && s.physical.OPEN?
    ensures var t := AddRoom(s, room, choices);
            var id := AdapterId(room, |SlotOf(s, room).adapters|);
            && Serves(s, Subscribe(room, grant), t)
            && (t.physical.OPEN? ==> WasHanded(t, id) && AcknowledgedFirst(s, id, t))
  {
    var m := Subscribe(room, grant);
    var id := AdapterId(room, |SlotOf(s, room).adapters|);
    var o := OpenRoom(s, room);
    OpenRoomHandles(s, room, grant);
    hide Keeps, Transmitted, Free, Moves, RoomsFrom, Delivers, Tells, Legal, OpenRoom, HandOver, Acknowledged, Exists, SlotOf, Shrinks, SendsForward, AcknowledgedFirst, WasHanded;
    var (a, ok) := Transmit(o, Subscribed(room), choices.reply, false);
    TransmitKeeps(o, Subscribed(room), choices.reply, false);
    AcknowledgedServes(s, room, grant, a, ok);
    if ok {
      HandOverServes(s, m, a, id);
      RunKeeps(HandOver(a, id), choices.script);
      ServesThenGood(s, m, HandOver(a, id), Run(HandOver(a, id), choices.script));
      StaysHanded(s, a, id, Run(HandOver(a, id), choices.script));
    }
  }

  lemma SubscribedIsLegal(s: Session, room: Text)
    requires s.rooms.Has(room)
    ensures Legal(s, Subscribed(room))
  {
  }

  // A room already served: the acknowledgement is repeated.
  lemma RepeatServes(s: Session, room: Text, grant: Text, reply: Outcome)
    requires Keeps(s) && s.rooms.Has(room) && s.physical.OPEN?
    ensures Serves(s, Subscribe(room, grant), Transmit(s, Subscribed(room), reply, false).0)
  {
    var (t, ok) := Transmit(s, Subscribed(room), reply, false);
    SubscribedIsLegal(s, room);
    assert Target(s, Subscribe(room, grant)).None?;
    hide Keeps, Serves, Legal, Target, Transmit, Transmitted, Good, Announced, AnnouncedIn;
    TransmitKeeps(s, Subscribed(room), reply, false);
    TransmittedIsGood(s, Subscribed(room), t, ok);
    SubscribedAnnounced(s, room, t, ok);
    GoodServes(s, Subscribe(room, grant), t);
  }

  // A subscribed was written, or the socket is gone.
  lemma SubscribedAnnounced(s: Session, room: Text, t: Session, ok: bool)
    requires s.physical.OPEN? && s.rooms.Has(room) && Transmitted(s, Subscribed(room), t, ok)
    ensures t.physical.OPEN? ==> room in t.rooms.entries && AnnouncedIn(t, |s.out|, Subscribed(room))
  {
    hide Good;
    if t.physical.OPEN? {
      assert t.out[|s.out|].message == Subscribed(room);
    }
  }

  // ---------- data ----------

  lemma DeliverAdapters(s: Session, id: AdapterId, payload: Bytes)
    requires IsOpen(s, id)
    ensures var t := Deliver(s, id, payload);
            && t == s.(slots := t.slots)
            && (forall x: AdapterId :: Exists(t, x) == Exists(s, x) && IsOpen(t, x) == IsOpen(s, x) && WasHanded(t, x) == WasHanded(s, x))
            && (forall r :: SlotOf(t, r).sends == SlotOf(s, r).sends && SlotOf(t, r).waiting == SlotOf(s, r).waiting)
            && (forall x: AdapterId | Exists(s, x) ::
                  var a := SlotOf(s, x.room).adapters[x.serial];
                  SlotOf(t, x.room).adapters[x.serial] == a.(inbox := a.inbox + if x == id then [payload] else []))
  {
  }

  predicate Received(a: Adapter, b: Adapter) {
    b == a.(inbox := b.inbox) && a.inbox <= b.inbox && (!a.open ==> b == a)
  }

  lemma DeliverKeeps(s: Session, id: AdapterId, payload: Bytes)
    requires Keeps(s) && IsOpen(s, id)
    ensures Keeps(Deliver(s, id, payload)) && Moves(s, Deliver(s, id, payload))
  {
    DeliverAdapters(s, id, payload);
    SameBooks(s, Deliver(s, id, payload));
    DeliverOut(s, id, payload);
    DeliverReceives(s, id, payload);
    hide CallsOk, OutOk, AdaptersOk, Exists, IsOpen, WasHanded, Deliver, Level, PeakLevel, PeaksOk, SlotOf, Ages;
  }

  lemma DeliverReceives(s: Session, id: AdapterId, payload: Bytes)
    requires AdaptersOk(s) && IsOpen(s, id)
    ensures var t := Deliver(s, id, payload);
            AdaptersOk(t) && forall x: AdapterId | Exists(s, x) :: Ages(SlotOf(s, x.room).adapters[x.serial], SlotOf(t, x.room).adapters[x.serial])
  {
    var t := Deliver(s, id, payload);
    DeliverAdapters(s, id, payload);
    forall x: AdapterId | Exists(s, x)
      ensures Received(SlotOf(s, x.room).adapters[x.serial], SlotOf(t, x.room).adapters[x.serial])
    {
      if x != id {
        assert SlotOf(t, x.room).adapters[x.serial].inbox == SlotOf(s, x.room).adapters[x.serial].inbox;
      }
    }
    hide Exists, IsOpen, WasHanded, Deliver, SlotOf;
    assert forall a, b :: Received(a, b) ==> Ages(a, b) && (AdapterOk(a) ==> AdapterOk(b));
    hide Ages, AdapterOk, Received;
  }

  lemma DeliverOut(s: Session, id: AdapterId, payload: Bytes)
    requires OutOk(s) && IsOpen(s, id)
    ensures OutOk(Deliver(s, id, payload))
  {
    var t := Deliver(s, id, payload);
    DeliverAdapters(s, id, payload);
    hide SlotOf, WithinBounds, Exists, WasHanded, Deliver;
    assert forall i | 0 <= i < |s.out| :: EmittedOk(s, i) ==> EmittedOk(t, i);
  }

  lemma DeliverServes(s: Session, room: Text, payload: Bytes)
    requires Keeps(s) && s.rooms.Has(room)
    ensures Serves(s, Protocol.Message.Data(room, payload), Deliver(s, AdapterId(room, s.rooms.entries[room]), payload))
  {
    var id := AdapterId(room, s.rooms.entries[room]);
    assert IsOpen(s, id);
    DeliverKeeps(s, id, payload);
    DeliverAdapters(s, id, payload);
    hide SlotOf, Keeps, Moves, Deliver, IsOpen;
  }

  lemma DataServes(s: Session, room: Text, payload: Bytes, choices: Choices)
    requires Keeps(s) && s.rooms.Has(room)
    ensures Serves(s, Protocol.Message.Data(room, payload), HandleData(s, room, payload, choices))
  {
    var id := AdapterId(room, s.rooms.entries[room]);
    var delivered := Deliver(s, id, payload);
    DeliverServes(s, room, payload);
    hide Moves, RoomsFrom, Delivers, Tells, Free, Keeps, Deliver, WasHanded, Mild;
    if WasHanded(delivered, id) {
      RunKeeps(delivered, choices.script);
      ServesThenGood(s, Protocol.Message.Data(room, payload), delivered, Run(delivered, choices.script));
    }
  }

  // ---------- unsubscribing ----------

  lemma QuietUnsubscribe(s: Session, room: Text, choices: Choices)
    requires RoomsOk(s) && s.rooms.Has(room) && choices.script.Stop?
    ensures var t := HandleUnsubscribe(s, room, choices);
            t.rooms == Delete(s.rooms, room) && t.out == s.out && t.physical == s.physical
  {
    var id := AdapterId(room, s.rooms.entries[room]);
    var expecting := Expect(s, id, ClientUnsubscribe);
    assert IsOpen(s, id);
    assert IsOpen(expecting, id) && !NeedsNotice(expecting, id);
    var told := CloseCore(expecting, id, ClientUnsubscribe);
    assert told.rooms == Delete(s.rooms, room) && told.out == s.out && told.physical == s.physical;
    assert Run(told, choices.script) == told;
    hide Delete, CloseCore, Transmit, Run, WasHanded, IsOpen;
  }

  /**
    An unsubscribe closes its room, whose adapter reports it as the client's own
    doing and does not announce it, and no other but through y-websocket's
    listeners; leaving an unknown room changes nothing.
  */
  lemma UnsubscribeServes(s: Session, room: Text, choices: Choices)
    requires Keeps(s)
    ensures var t := HandleUnsubscribe(s, room, choices);
            && Serves(s, Unsubscribe(room), t)
            && room !in t.rooms.entries
            && (s.rooms.Has(room) && choices.script.Stop? ==> t.rooms == Delete(s.rooms, room) && t.out == s.out)
            && (if s.rooms.Has(room) then Reported(t, AdapterId(room, s.rooms.entries[room]), ClientUnsubscribe) else t == s)
  {
    var m := Unsubscribe(room);
    Untouched(s, m);
    if s.rooms.Has(room) {
      var id := AdapterId(room, s.rooms.entries[room]);
      assert IsOpen(s, id);
      var expecting := Expect(s, id, ClientUnsubscribe);
      var t := Close(expecting, id, ClientUnsubscribe, Closing(choices.reply, choices.script));
      ExpectKeeps(s, id, ClientUnsubscribe);
      if choices.script.Stop? {
        QuietUnsubscribe(s, room, choices);
      }
      hide Core, Shrinks, SendsForward, SlotOf, Moves, RoomsFrom, Delivers, Free, Close, IsOpen, Reported, Delete;
      CloseKeeps(expecting, id, ClientUnsubscribe, Closing(choices.reply, choices.script));
      MildTransitive(s, expecting, t);
      HandlesThenMild(s, m, s, t);
      FreeThenMild(s, s, t);
    }
  }

  // ---------- frames ----------

  /** The grant names this client: by its WordPress client id, without that by its connection id, without both by none. */
  predicate NamesClient(p: Payload, id: Text) {
    match (p.wpClientId, p.connectionId)
    case (Some(client), _) => client == id
    case (None, Some(connection)) => connection == id
    case (None, None) => id == []
  }

  predicate SameClient(p: Payload, initial: Payload) {
    match (initial.wpClientId, initial.connectionId)
    case (Some(client), _) => NamesClient(p, client)
    case (None, Some(connection)) => NamesClient(p, connection)
    case (None, None) => NamesClient(p, [])
  }

  /** A grant of the client's own for the room: the room, user, blog and client are those of the physical socket's first grant. */
  predicate OwnGrant(p: Payload, room: Text, initial: Payload) {
    && p.roomName == room
    && p.userId == initial.userId
    && p.blogId == initial.blogId
    && SameClient(p, initial)
  }

  predicate Matches(v: Verification, room: Text, initial: Payload) {
    v.Invalid? || OwnGrant(v.payload, room, initial)
  }

  /** The session's own comparison comes to that. */
  lemma OwnIsMatching(v: Verification, room: Text, initial: Payload)
    ensures Matches(v, room, initial) <==> v.Invalid? || (v.payload.roomName == room && MatchesIdentity(v.payload, initial))
  {
  }

  /** What an honest client sends: matching grants, and data only where it is or was a subscriber. */
  predicate Honest(s: Session, m: Message, choices: Choices) {
    match m
    case Subscribe(room, _) => s.rooms.Has(room) || Matches(choices.verification, room, s.initialGrant)
    case Data(room, _) => s.rooms.Has(room) || room in s.closedRooms
    case Unsubscribe(_) => true
    case _ => false
  }

  // What a refusal says to the client and to the metrics.
  predicate RefusedFor(s: Session, room: Text, code: int, reason: CloseReason, reply: Outcome, t: Session) {
    && Refuses(s, room, code, reply, t)
    && s.metrics + [RoomConnectionClose(reason, None)] <= t.metrics
  }

  lemma RefusalIsTold(s: Session, reason: CloseReason, room: Text, code: int, reply: Outcome)
    requires Keeps(s) && s.physical.OPEN? && Active(s, room).None?
    ensures var t := SendRoomClosed(s.(metrics := s.metrics + [RoomConnectionClose(reason, None)]), room, code, reply);
            RefusedFor(s, room, code, reason, reply, t) && t.bypass == s.bypass
  {
    var noted := s.(metrics := s.metrics + [RoomConnectionClose(reason, None)]);
    var t := SendRoomClosed(noted, room, code, reply);
    RefuseServes(s, RoomConnectionClose(reason, None), [], room, code, reply);
    NoteKeeps(s, RoomConnectionClose(reason, None));
    hide Keeps, Serves, Transmit, Refuses, SlotOf, AdapterForward, SendsForward, LossesAnnounced;
    RefusalWritten(noted, room, code, reply);
  }

  lemma BypassIsTold(s: Session, room: Text, choices: Choices)
    requires Inv(s) && s.physical.OPEN? && Active(s, room).None?
    ensures var t := RejectAuthorizationBypass(s, room, choices);
            RefusedFor(s, room, ROOM_REJECTED_CLOSE_CODE, AuthorizationRejected, choices.reply, t) && t.bypass == s.bypass + 1
  {
    var counted := s.(bypass := s.bypass + 1);
    var rejected := RejectRoom(counted, room, choices.reply);
    CountBypass(s);
    RefusalIsTold(counted, AuthorizationRejected, room, ROOM_REJECTED_CLOSE_CODE, choices.reply);
    RejectKeeps(counted, room, choices.reply);
    BypassShape(s, room, choices);
    BypassKeeps(s, room, choices);
    assert s.metrics + [RoomConnectionClose(AuthorizationRejected, None)] <= rejected.metrics;
    hide Keeps, Good, Moves, LossesAnnounced, Announced, SendRoomClosed, Refuses, RejectAuthorizationBypass, ClosePhysical;
    ClosePhysicalKeeps(rejected, POLICY_CLOSE_CODE, choices.cleanup);
    MetricsGrow(rejected, ClosePhysical(rejected, POLICY_CLOSE_CODE, choices.cleanup));
  }

  lemma MetricsGrow(s: Session, t: Session)
    requires Moves(s, t)
    ensures s.metrics <= t.metrics
  {
  }

  /** What each verdict on a grant comes to, for a room that is not served yet. */
  predicate Answered(s: Session, room: Text, choices: Choices, t: Session) {
    match choices.verification
    case Invalid => RefusedFor(s, room, 4004, AuthorizationRejected, choices.reply, t) && t.bypass == s.bypass
    case Stale(payload) =>
      if Matches(choices.verification, room, s.initialGrant)
      then RefusedFor(s, room, 4005, GrantExpired, choices.reply, t) && t.bypass == s.bypass
      else RefusedFor(s, room, 4004, AuthorizationRejected, choices.reply, t) && t.bypass == s.bypass + 1
    case Fresh(payload) =>
      if Matches(choices.verification, room, s.initialGrant)
      then
        var id := AdapterId(room, |SlotOf(s, room).adapters|);
        (t.physical.OPEN? ==> WasHanded(t, id) && AcknowledgedFirst(s, id, t)) && t.bypass == s.bypass
      else RefusedFor(s, room, 4004, AuthorizationRejected, choices.reply, t) && t.bypass == s.bypass + 1
  }

  /**
    The verdict decides: an invalid grant is refused with 4004, one that has only
    expired with 4005, one for another room or identity with 4004 and counted, and
    a fresh one of the client's own is served.
  */
  lemma VerdictDecides(s: Session, room: Text, grant: Text, choices: Choices)
    requires Inv(s) && s.physical.OPEN? && !s.rooms.Has(room)
    ensures Answered(s, room, choices, HandleMessage(s, Subscribe(room, grant), choices))
  {
    hide Keeps, Serves, RefusedFor, AddRoom, RejectAuthorizationBypass, SendRoomClosed, MatchesIdentity, Matches, WasHanded, AcknowledgedFirst;
    OwnIsMatching(choices.verification, room, s.initialGrant);
    BypassIsTold(s, room, choices);
    RefusalIsTold(s, AuthorizationRejected, room, ROOM_REJECTED_CLOSE_CODE, choices.reply);
    RefusalIsTold(s, GrantExpired, room, ROOM_INTERRUPTED_CLOSE_CODE, choices.reply);
    AddRoomServes(s, room, grant, choices);
    ServedFree(s, Subscribe(room, grant), AddRoom(s, room, choices));
  }

  lemma ServedFree(s: Session, m: Message, t: Session)
    requires Serves(s, m, t)
    ensures t.bypass == s.bypass
  {
  }

  /** An honest frame costs the client nothing and is served as its kind demands. */
  lemma HonestServes(s: Session, m: Message, choices: Choices)
    requires Keeps(s) && s.physical.OPEN? && Honest(s, m, choices)
    ensures Serves(s, m, HandleMessage(s, m, choices))
  {
    hide Serves, Keeps, MatchesIdentity, Matches, AddRoom, Good;
    OwnIsMatching(choices.verification, m.room, s.initialGrant);
    match m
    case Subscribe(room, grant) =>
      if s.rooms.Has(room) {
        RepeatServes(s, room, grant, choices.reply);
      } else {
        RefuseServes(s, RoomConnectionClose(AuthorizationRejected, None), grant, room, ROOM_REJECTED_CLOSE_CODE, choices.reply);
        RefuseServes(s, RoomConnectionClose(GrantExpired, None), grant, room, ROOM_INTERRUPTED_CLOSE_CODE, choices.reply);
        AddRoomServes(s, room, grant, choices);
      }
    case Data(room, payload) =>
      if s.rooms.Has(room) {
        DataServes(s, room, payload, choices);
      } else {
        Untouched(s, m);
        assert HandleData(s, room, payload, choices) == s;
        hide Target;
        assert Serves(s, m, s);
      }
    case Unsubscribe(room) => UnsubscribeServes(s, room, choices);
  }

  lemma ServedInv(s: Session, m: Message, t: Session)
    requires Inv(s) && s.physical.OPEN? && Serves(s, m, t)
    ensures Inv(t) && Moves(s, t)
  {
    StaysConnected(s, t);
    hide Keeps, Moves;
  }

  lemma StaysConnected(s: Session, t: Session)
    requires Moves(s, t) && !s.physical.CONNECTING?
    ensures !t.physical.CONNECTING?
  {
  }

  lemma ClosesInv(s: Session, code: int, cleanup: Cleanup)
    requires Inv(s)
    ensures var t := ClosePhysical(s, code, cleanup); Inv(t) && Moves(s, t)
  {
    ClosePhysicalKeeps(s, code, cleanup);
    StaysConnected(s, ClosePhysical(s, code, cleanup));
    hide Keeps, Moves, ClosePhysical;
  }

  /** A frame that a client of this program may send, whatever its grants are worth. */
  predicate Known(s: Session, m: Message) {
    match m
    case Subscribe(_, _) => true
    case Data(room, _) => s.rooms.Has(room) || room in s.closedRooms
    case Unsubscribe(_) => true
    case _ => false
  }

  lemma ServesTells(s: Session, m: Message, t: Session)
    requires Serves(s, m, t)
    ensures Handles(s, m, t) && Tells(s, m, t)
  {
  }

  /** Whatever a grant is worth, its frame opens no other room, reaches no other inbox, and its subscriber is told. */
  lemma KnownHandles(s: Session, m: Message, choices: Choices)
    requires Inv(s) && s.physical.OPEN? && Known(s, m)
    ensures var t := HandleMessage(s, m, choices); Inv(t) && Moves(s, t) && Handles(s, m, t) && Tells(s, m, t)
    ensures m.Unsubscribe? ==> m.room !in HandleMessage(s, m, choices).rooms.entries
  {
    if m.Unsubscribe? {
      UnsubscribeServes(s, m.room, choices);
    }
    hide HandleUnsubscribe, Reported, Keeps, Moves, Serves, Handles, Tells, BypassOk, RejectAuthorizationBypass, AddRoom, MatchesIdentity, Matches;
    OwnIsMatching(choices.verification, m.room, s.initialGrant);
    if Honest(s, m, choices) {
      HonestServes(s, m, choices);
      ServedInv(s, m, HandleMessage(s, m, choices));
      ServesTells(s, m, HandleMessage(s, m, choices));
    } else {
      BypassKeeps(s, m.room, choices);
      BypassHandles(s, m.room, m.grant, choices);
    }
  }

  lemma HandleMessageKeeps(s: Session, m: Message, choices: Choices)
    requires Inv(s) && s.physical.OPEN?
    ensures var t := HandleMessage(s, m, choices); Inv(t) && Moves(s, t)
  {
    hide Keeps, Moves, Serves, BypassOk, RejectAuthorizationBypass, ClosePhysical, AddRoom, MatchesIdentity, Matches;
    OwnIsMatching(choices.verification, m.room, s.initialGrant);
    if Honest(s, m, choices) {
      HonestServes(s, m, choices);
      ServedInv(s, m, HandleMessage(s, m, choices));
    } else if m.Subscribed? || m.RoomClosed? {
      ClosesInv(s, PROTOCOL_ERROR_CLOSE_CODE, choices.cleanup);
    } else {
      BypassKeeps(s, m.room, choices);
    }
  }

  lemma HandleFrameKeeps(s: Session, frame: Bytes, binary: bool, choices: Choices)
    requires Inv(s)
    ensures var t := HandleFrame(s, frame, binary, choices); Inv(t) && Moves(s, t)
  {
    hide Keeps, Moves, BypassOk, ClosePhysical, HandleMessage, Decode;
    if !s.physical.OPEN? {
      CleanedInv(s, choices.cleanup);
    } else if binary && Decode(frame).Ok? {
      HandleMessageKeeps(s, Decode(frame).value, choices);
    } else {
      ClosesInv(s, PROTOCOL_ERROR_CLOSE_CODE, choices.cleanup);
    }
  }

  lemma GoodInv(s: Session, t: Session)
    requires Inv(s) && Shrinks(s, t) && s.calls <= t.calls && Keeps(t)
    ensures Inv(t) && Moves(s, t)
  {
    MildMoves(s, t);
    SizeOf(s.rooms);
    SizeOf(t.rooms);
    hide Moves, SlotOf, AdaptersOk, OutOk, CallsOk, MetricsOk, ReportsOk, SendsForward, IsOpen;
    assert s.rooms.IsEmpty() ==> t.rooms.entries == map[];
  }

  lemma CleanedInv(s: Session, cleanup: Cleanup)
    requires Inv(s)
    ensures var t := CleanupRooms(s, cleanup); Inv(t) && Moves(s, t) && t.rooms.IsEmpty()
  {
    CleanupKeeps(s, cleanup);
    hide Keeps, Shrinks, Moves;
    GoodInv(s, CleanupRooms(s, cleanup));
  }

  // ---------- the other events ----------

  // A queued send is taken out of the waiting ones.
  function Taken(s: Session, room: Text, send: nat): Session {
    var slot := SlotOf(s, room);
    SetSlot(s, room, slot.(waiting := slot.waiting - {send}))
  }

  lemma TakenKeeps(s: Session, room: Text, send: nat)
    requires Keeps(s) && send in SlotOf(s, room).waiting
    ensures var t := Taken(s, room, send); Keeps(t) && Mild(s, t) && LossesAnnounced(s, t) && Reserved(t, room, send)
  {
    var t := Taken(s, room, send);
    assert Plain(s, t);
    PlainKeeps(s, t);
    PlainOut(s, t);
    hide RoomsOk, AdaptersOk, ExpectedOk, MetricsOk, ReportsOk, ShutOk, OutOk, Shrinks, LossesAnnounced, Plain;
    assert SlotOf(t, room) == SlotOf(s, room).(waiting := SlotOf(s, room).waiting - {send});
    assert forall r | r != room :: SlotOf(t, r) == SlotOf(s, r);
    hide SlotOf, Taken;
    assert SlotSendsOk(SlotOf(s, room));
    assert forall r :: SlotSendsOk(SlotOf(s, r)) ==> SlotSendsOk(SlotOf(t, r));
    assert forall i | 0 <= i < |s.calls| :: CallOk(s, s.calls[i]) ==> CallOk(t, s.calls[i]);
  }

  /** What an event other than a frame may do: lose rooms, and tell the client of it. */
  ghost predicate Idles(s: Session, t: Session) {
    && Settles(s, t)
    && Unrefused(s, t)
    && LossesAnnounced(s, t)
    && t.bypass == s.bypass
    && Blameless(s, t)
  }

  // No close that the client is to blame for.
  predicate Blameless(s: Session, t: Session) {
    && s.closes <= t.closes
    && forall i | |s.closes| <= i < |t.closes| :: t.closes[i] == SEND_FAILED_CLOSE_CODE || t.closes[i] == CONNECTION_TIMEOUT_CLOSE_CODE
  }

  lemma IdlesTransitive(s: Session, t: Session, u: Session)
    requires Moves(s, t) && Moves(t, u) && Idles(s, t) && Idles(t, u)
    ensures Idles(s, u)
  {
    hide SlotOf, Ages;
    forall r | u.physical.OPEN? && r in s.rooms.entries && r !in u.rooms.entries
      ensures Announced(u, r, |s.out|)
    {
      if r !in t.rooms.entries {
        var i :| |s.out| <= i < |t.out| && t.out[i].message.RoomClosed? && t.out[i].message.room == r;
        assert u.out[i] == t.out[i];
      } else {
        assert Announced(u, r, |t.out|);
      }
    }
  }

  lemma ShrinksIdles(s: Session, t: Session)
    requires Inv(s) && Keeps(t) && Shrinks(s, t) && s.calls <= t.calls && LossesAnnounced(s, t)
    ensures Inv(t) && Moves(s, t) && Idles(s, t)
  {
    GoodInv(s, t);
    MildSettles(s, t);
    hide Keeps, Moves, LossesAnnounced, SlotOf, Settles, AdapterForward;
  }

  lemma GoodIdles(s: Session, t: Session)
    requires Inv(s) && Good(s, t)
    ensures Inv(t) && Moves(s, t) && Idles(s, t)
  {
    hide Keeps, Shrinks, LossesAnnounced;
    ShrinksIdles(s, t);
  }

  /** The callback of this send has been run since, told of an error or of none. */
  predicate CalledBack(s: Session, t: Session, room: Text, send: nat, error: bool) {
    exists i :: |s.calls| <= i < |t.calls| && t.calls[i].room == room && t.calls[i].send == send && t.calls[i].error == error
  }

  lemma CallIsLogged(s: Session, handled: Session, t: Session, room: Text, send: nat, error: bool)
    requires s.calls <= handled.calls && LogCall(handled, room, send, error, true).calls <= t.calls
    ensures CalledBack(s, t, room, send, error)
  {
    assert t.calls[|handled.calls|] == LogCall(handled, room, send, error, true).calls[|handled.calls|];
  }

  lemma ShrinksStaysDead(s: Session, t: Session)
    requires Keeps(s) && Keeps(t) && Dead(s) && Shrinks(s, t)
    ensures Dead(t)
  {
    SizeOf(s.rooms);
    SizeOf(t.rooms);
    hide AdaptersOk, MetricsOk, ReportsOk, OutOk, CallsOk, SlotOf, IsOpen, AdapterForward;
    assert t.rooms.entries == map[];
  }

  /** A send that completes, whatever its cleanup and its callback do. An error leaves no room and no open socket, callback or not. */
  lemma CompleteKeeps(s: Session, room: Text, send: nat, error: bool, cleanup: Cleanup, callback: Script)
    requires Keeps(s) && send in SlotOf(s, room).waiting
    ensures var t := Complete(s, room, send, error, cleanup, callback);
            && Keeps(t) && Shrinks(s, t) && LossesAnnounced(s, t) && s.calls <= t.calls
            && (error ==> Dead(t))
            && (SlotOf(s, room).waiting[send] ==> CalledBack(s, t, room, send, error))
  {
    var taken := Taken(s, room, send);
    var handled := if error then SendError(taken, cleanup) else taken;
    var hasCallback := SlotOf(s, room).waiting[send];
    var called := LogCall(handled, room, send, error, hasCallback);
    TakenKeeps(s, room, send);
    GoodReflexive(taken);
    SendErrorKeeps(taken, cleanup);
    assert Good(taken, handled);
    ReservedKept(taken, handled, room, send);
    hide Keeps, Shrinks, SendsForward, LossesAnnounced, Reserved, Taken, SendError, SlotOf, LogCall, CalledBack, Dead;
    LogCallKeeps(handled, room, send, error, hasCallback);
    RunKeeps(called, callback);
    GoodReflexive(called);
    var t := if hasCallback then Run(called, callback) else called;
    ShrinksTransitive(s, taken, handled);
    AnnouncedTransitive(s, taken, handled);
    ShrinksTransitive(s, handled, called);
    AnnouncedTransitive(s, handled, called);
    ShrinksTransitive(s, called, t);
    AnnouncedTransitive(s, called, t);
    CallsGrow(s, taken, handled, called, t);
    if error {
      ShrinksStaysDead(handled, called);
      ShrinksStaysDead(called, t);
    }
    if hasCallback {
      CallIsLogged(s, handled, t, room, send, error);
    }
  }

  lemma CompleteIdles(s: Session, room: Text, send: nat, error: bool, cleanup: Cleanup, callback: Script)
    requires Inv(s)
    ensures var t := Complete(s, room, send, error, cleanup, callback); Inv(t) && Moves(s, t) && Idles(s, t)
  {
    hide Shrinks, LossesAnnounced, Moves, Idles, SlotOf, CalledBack;
    if send in SlotOf(s, room).waiting {
      CompleteKeeps(s, room, send, error, cleanup, callback);
      hide Complete, Keeps;
      ShrinksIdles(s, Complete(s, room, send, error, cleanup, callback));
    } else {
      GoodReflexive(s);
      GoodIdles(s, s);
    }
  }

  lemma CallsGrow(s: Session, taken: Session, handled: Session, called: Session, t: Session)
    requires SendsForward(s, taken) && SendsForward(taken, handled) && SendsForward(called, t)
    requires handled.calls <= called.calls
    ensures s.calls <= handled.calls && called.calls <= t.calls && s.calls <= t.calls
  {
    hide SlotOf;
  }

  lemma ApplyIdles(s: Session, op: Op)
    requires Inv(s)
    ensures var t := Apply(s, op); Inv(t) && Moves(s, t) && Idles(s, t)
  {
    hide Keeps, Good, Moves, Idles, Apply;
    ApplyKeeps(s, op);
    GoodIdles(s, Apply(s, op));
  }

  // t differs from s in the socket's state, the heartbeat, and what the metrics were told besides rooms.
  ghost predicate Flagged(s: Session, t: Session) {
    && t == s.(physical := t.physical, heartbeat := t.heartbeat, metrics := t.metrics)
    && s.physical.Rank() <= t.physical.Rank() && (t.physical == s.physical || !t.physical.OPEN?)
    && (s.heartbeat.stopped ==> t.heartbeat.stopped && t.heartbeat.pings == s.heartbeat.pings)
    && Level(t.metrics) == Level(s.metrics) && PeakLevel(t.metrics) == PeakLevel(s.metrics)
    && (PeaksOk(s.metrics) ==> PeaksOk(t.metrics))
    && s.metrics <= t.metrics && SameReports(s.metrics, t.metrics)
  }

  lemma FlaggedIdles(s: Session, t: Session)
    requires Keeps(s) && Flagged(s, t)
    ensures Keeps(t) && Moves(s, t) && Idles(s, t)
  {
    var noted := s.(metrics := t.metrics);
    MetricsKeep(s, noted);
    SameKeeps(noted, t);
    SameSlots(s, t);
    SameSlotsMove(s, t);
    hide RoomsOk, AdaptersOk, MetricsOk, ReportsOk, OutOk, CallsOk, SlotOf, Ages, Level, PeakLevel, PeaksOk, Good;
  }

  lemma NothingAnnouncedWhenDead(s: Session, t: Session)
    requires Dead(t)
    ensures LossesAnnounced(s, t)
  {
  }

  // A cleanup, then perhaps a close() of the physical socket.
  lemma EndingIdles(s: Session, cleanup: Cleanup, t: Session)
    requires Keeps(s)
    requires var cleaned := CleanupRooms(s, cleanup);
             (t == cleaned && !s.physical.OPEN?) || t == ClosePhysicalSocket(cleaned, CONNECTION_TIMEOUT_CLOSE_CODE) || t == Terminate(cleaned)
    ensures Keeps(t) && Dead(t) && Moves(s, t) && Idles(s, t)
  {
    var cleaned := CleanupRooms(s, cleanup);
    CleanupKeeps(s, cleanup);
    MildSettles(s, cleaned);
    MildMoves(s, cleaned);
    EndingBlameless(s, cleaned, t);
    assert t.slots == cleaned.slots && t.rooms == cleaned.rooms && t.bypass == s.bypass;
    assert Dead(cleaned) || s.physical.OPEN?;
    hide Keeps, Shrinks, Moves, SendsForward, Settles, LossesAnnounced, Blameless, ClosePhysicalSocket, Terminate;
    ClosePhysicalSocketKeeps(cleaned, CONNECTION_TIMEOUT_CLOSE_CODE);
    TerminateKeeps(cleaned);
    MovesTransitive(s, cleaned, t);
    SettlesOnly(s, cleaned, t);
    NothingAnnouncedWhenDead(s, t);
  }

  lemma EndingBlameless(s: Session, cleaned: Session, t: Session)
    requires Shrinks(s, cleaned)
    requires t == cleaned || t == ClosePhysicalSocket(cleaned, CONNECTION_TIMEOUT_CLOSE_CODE) || t == Terminate(cleaned)
    ensures Blameless(s, t)
  {
    hide SlotOf, AdapterForward;
  }

  lemma SettlesOnly(s: Session, cleaned: Session, t: Session)
    requires Settles(s, cleaned) && t.slots == cleaned.slots && t.rooms == cleaned.rooms
    ensures Settles(s, t)
  {
  }

  lemma DeadInv(s: Session, t: Session)
    requires Inv(s) && Keeps(t) && Dead(t) && t.bypass == s.bypass && Moves(s, t)
    ensures Inv(t)
  {
    StaysConnected(s, t);
    hide Keeps, Moves;
  }

  lemma EndedIdles(s: Session, flagged: Session, cleanup: Cleanup, t: Session)
    requires Inv(s) && Flagged(s, flagged)
    requires var cleaned := CleanupRooms(flagged, cleanup);
             (t == cleaned && !flagged.physical.OPEN?) || t == ClosePhysicalSocket(cleaned, CONNECTION_TIMEOUT_CLOSE_CODE) || t == Terminate(cleaned)
    ensures Inv(t) && Dead(t) && Moves(s, t) && Idles(s, t)
  {
    hide Keeps, Moves, Idles;
    FlaggedIdles(s, flagged);
    EndingIdles(flagged, cleanup, t);
    MovesTransitive(s, flagged, t);
    IdlesTransitive(s, flagged, t);
    IdlesBypass(s, t);
    DeadInv(s, t);
  }

  lemma IdlesBypass(s: Session, t: Session)
    requires Idles(s, t)
    ensures t.bypass == s.bypass
  {
  }

  lemma FlaggedInv(s: Session, t: Session)
    requires Inv(s) && Flagged(s, t) && (t.physical == s.physical || t.physical.CLOSING?)
    ensures Inv(t) && Moves(s, t) && Idles(s, t)
  {
    FlaggedIdles(s, t);
    hide Keeps, Moves, Idles;
  }

  /** A tick: nothing, a ping, or the end of a session that is empty or unresponsive. */
  lemma TickIdles(s: Session, pingThrows: bool, cleanup: Cleanup)
    requires Inv(s) && !s.heartbeat.stopped
    ensures var t := Tick(s, pingThrows, cleanup);
            Inv(t) && Moves(s, t) && Idles(s, t)
  {
    hide Inv, Keeps, Moves, Idles, ClosePhysicalSocket, Terminate, CleanupRooms, Level, PeakLevel, PeaksOk;
    var stopping := s.(heartbeat := s.heartbeat.(stopped := true));
    OtherMetric(s.metrics, ZeroRoomTimeout);
    NoReport(s.metrics, ZeroRoomTimeout);
    var t := Tick(s, pingThrows, cleanup);
    match TickAction(s.heartbeat, s.physical, !s.rooms.IsEmpty())
    case Silent => FlaggedInv(s, t);
    case Empty => EndedIdles(s, stopping.(metrics := s.metrics + [ZeroRoomTimeout]), cleanup, t);
    case Unresponsive => EndedIdles(s, stopping, cleanup, t);
    case Ping =>
      if pingThrows {
        EndedIdles(s, s.(heartbeat := s.heartbeat.(pongReceived := false, stopped := true)), cleanup, t);
      } else {
        FlaggedInv(s, t);
      }
  }

  // The session when the close event has been noted, before it cleans up.
  function ClosedDown(s: Session): Session {
    s.(physical := CLOSED, heartbeat := s.heartbeat.(stopped := true), metrics := s.metrics + [PeakRooms(s.peak)])
  }

  lemma ClosedDownIsFlagged(s: Session)
    requires Inv(s)
    ensures Flagged(s, ClosedDown(s)) && !ClosedDown(s).physical.OPEN?
  {
    hide Level, PeakLevel, PeaksOk, SameReports;
    OtherMetric(s.metrics, PeakRooms(s.peak));
    NoReport(s.metrics, PeakRooms(s.peak));
  }

  lemma PhysicalCloseIs(s: Session, cleanup: Cleanup)
    ensures Step(s, PhysicalClose(cleanup)) == CleanupRooms(ClosedDown(s), cleanup)
  {
    hide CleanupRooms;
  }

  lemma PhysicalCloseIdles(s: Session, cleanup: Cleanup)
    requires Inv(s)
    ensures var t := Step(s, PhysicalClose(cleanup)); Inv(t) && Dead(t) && Moves(s, t) && Idles(s, t)
  {
    hide Inv, Moves, Idles, CleanupRooms, Dead, Step, Flagged, ClosedDown;
    ClosedDownIsFlagged(s);
    PhysicalCloseIs(s, cleanup);
    EndedIdles(s, ClosedDown(s), cleanup, CleanupRooms(ClosedDown(s), cleanup));
  }

  /** Whatever happens besides a frame. */
  lemma OtherIdles(s: Session, event: Event)
    requires Inv(s) && !event.Frame?
    ensures var t := Step(s, event); Inv(t) && Moves(s, t) && Idles(s, t)
  {
    hide Inv, Moves, Idles, Complete, Apply, Tick, HandlePhysicalClose, Level, PeakLevel, PeaksOk;
    match event
    case Completed(room, send, error, cleanup, callback) => CompleteIdles(s, room, send, error, cleanup, callback);
    case Adapters(op) => ApplyIdles(s, op);
    case ClosedFromOutside => FlaggedInv(s, Step(s, event));
    case PhysicalClose(cleanup) => PhysicalCloseIdles(s, cleanup);
    case TickEvent(pingThrows, cleanup) =>
      FlaggedInv(s, s);
      if !s.heartbeat.stopped {
        TickIdles(s, pingThrows, cleanup);
      }
    case Pong => FlaggedInv(s, Step(s, event));
  }

  /** Every event keeps the invariant. */
  lemma StepKeeps(s: Session, event: Event)
    requires Inv(s)
    ensures Inv(Step(s, event)) && Moves(s, Step(s, event))
  {
    hide Inv, Moves, Idles, HandleFrame;
    if event.Frame? {
      HandleFrameKeeps(s, event.frame, event.binary, event.choices);
    } else {
      OtherIdles(s, event);
    }
  }

  lemma StartInv(grant: Payload)
    ensures Inv(Start(grant))
  {
  }
}
