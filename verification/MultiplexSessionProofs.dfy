/** What the server session keeps through every event and every choice of its environment. */
module MultiplexSessionProofs {
  import opened Basics
  import opened Sockets
  import opened Unicode
  import opened Protocol
  import opened OrderedMap
  import opened MultiplexSession
  import ProtocolProofs

  // ---------- the invariant ----------

  /** rooms holds exactly the open adapters; a room that ever had one is in rooms or closedRooms, never both. */
  ghost predicate RoomsOk(s: Session) {
    && s.rooms.Valid()
    && (forall r | r in s.rooms.entries :: IsOpen(s, AdapterId(r, s.rooms.entries[r])) && r !in s.closedRooms)
    && (forall id: AdapterId | IsOpen(s, id) :: Active(s, id.room) == Some(id.serial))
    && (forall id: AdapterId | Exists(s, id) :: id.room in s.rooms.entries || id.room in s.closedRooms)
  }

  /** Nobody has closed an open adapter; a closed one was closed by somebody. */
  predicate AdapterOk(a: Adapter) {
    a.open <==> a.closer.None?
  }

  ghost predicate AdaptersOk(s: Session) {
    forall id: AdapterId | Exists(s, id) :: AdapterOk(SlotOf(s, id.room).adapters[id.serial])
  }

  /** The close reasons that a metrics log reports for an adapter, in order. */
  function ReportsOf(ms: seq<Metric>, id: AdapterId): seq<CloseReason> {
    if ms == [] then []
    else
      var last := ms[|ms| - 1];
      ReportsOf(ms[..|ms| - 1], id) + if last.RoomConnectionClose? && last.adapter == Some(id) then [last.reason] else []
  }

  /** What should have been reported for it: the reason of whoever closed it, once. */
  function Due(s: Session, id: AdapterId): seq<CloseReason> {
    if !Exists(s, id) then []
    else
      var a := SlotOf(s, id.room).adapters[id.serial];
      if a.closer.Some? then [a.closer.value] else []
  }

  /** Every closed adapter has been reported once, with the reason of whoever closed it, and no other. */
  ghost predicate ReportsOk(s: Session) {
    forall id: AdapterId :: ReportsOf(s.metrics, id) == Due(s, id)
  }

  // Two logs that report the same closings.
  ghost predicate SameReports(ms: seq<Metric>, ms': seq<Metric>) {
    forall id: AdapterId :: ReportsOf(ms', id) == ReportsOf(ms, id)
  }

  /** Entries left in expectedRoomCloses are all of closed adapters, whose report is past. */
  ghost predicate ExpectedOk(s: Session) {
    forall id | id in s.expected :: Past(s, id)
  }

  predicate Past(s: Session, id: AdapterId) {
    Exists(s, id) && !IsOpen(s, id)
  }

  // How many rooms a metrics log says are open, and the most it ever said.
  function Level(ms: seq<Metric>): int {
    if ms == [] then 0
    else
      Level(ms[..|ms| - 1])
      + match ms[|ms| - 1]
        case RoomOpen => 1
        case RoomClose => -1
        case _ => 0
  }

  function PeakLevel(ms: seq<Metric>): int {
    if ms == [] then 0 else Max(PeakLevel(ms[..|ms| - 1]), Level(ms))
  }

  // Every peak in the log is the most that the log before it says.
  predicate PeaksOk(ms: seq<Metric>) {
    ms == [] || (PeaksOk(ms[..|ms| - 1]) && PeakIs(ms[|ms| - 1], PeakLevel(ms[..|ms| - 1])))
  }

  predicate PeakIs(m: Metric, most: int) {
    m.PeakRooms? ==> m.count == most
  }

  /** Opens minus closes is the number of rooms; the peak, and each one recorded, is the most there ever were so far. */
  predicate MetricsOk(s: Session) {
    Level(s.metrics) == |s.rooms.keys| && PeakLevel(s.metrics) == s.peak && PeaksOk(s.metrics)
  }

  predicate Acknowledges(e: Emitted, room: Text, serial: nat) {
    e.message == Subscribed(room) && e.active == Some(serial)
  }

  // The frames of the room from number j on, up to number n, went out while adapter serial was active.
  predicate Steady(out: seq<Emitted>, room: Text, serial: nat, j: nat, n: nat) {
    forall k | j <= k < n && k < |out| && out[k].message.room == room :: out[k].active == Some(serial)
  }

  // A `subscribed` for adapter (room, serial) is among the first n frames, and the adapter has been active ever since.
  ghost predicate Acknowledged(out: seq<Emitted>, room: Text, serial: nat, n: nat) {
    exists j :: 0 <= j < n && j < |out| && Acknowledges(out[j], room, serial) && Steady(out, room, serial, j, n)
  }

  /**
    Frame i of the session: data goes out only for an adapter that has been
    acknowledged and has stayed the room's own since; room_closed only when the
    room has none.
  */
  ghost predicate EmittedOk(s: Session, i: nat)
    requires i < |s.out|
  {
    var e := s.out[i];
    && WithinBounds(e.message)
    && (e.active.Some? ==> Exists(s, AdapterId(e.message.room, e.active.value)))
    && match e.message
       case Subscribed(_) => e.active.Some?
       case Data(room, _) => e.active.Some? && Acknowledged(s.out, room, e.active.value, i)
       case RoomClosed(_, _) => e.active.None?
       case _ => false
  }

  ghost predicate OutOk(s: Session) {
    && (forall i | 0 <= i < |s.out| :: EmittedOk(s, i))
    && (forall id: AdapterId | WasHanded(s, id) && IsOpen(s, id) :: Acknowledged(s.out, id.room, id.serial, |s.out|))
  }

  /** Once the session has closed the physical socket, it serves no room and is not open. */
  predicate Dead(s: Session) {
    !s.physical.OPEN? && s.rooms.IsEmpty()
  }

  predicate ShutOk(s: Session) {
    s.closes != [] ==> Dead(s)
  }

  predicate SlotSendsOk(slot: Slot) {
    forall k | k in slot.waiting :: k < slot.sends
  }

  predicate CallOk(s: Session, c: Call) {
    && c.send < SlotOf(s, c.room).sends
    && c.send !in SlotOf(s, c.room).waiting
    && (if c.open then c.error ==> c.roomsLeft == 0 else c.error)
  }

  /**
    A send callback runs at most once. On an adapter that was open it sees an
    error only when every room has been cleaned; on a closed one always.
  */
  ghost predicate CallsOk(s: Session) {
    && (forall room :: SlotSendsOk(SlotOf(s, room)))
    && (forall i | 0 <= i < |s.calls| :: CallOk(s, s.calls[i]))
    && (forall i, j | 0 <= i < j < |s.calls| :: s.calls[i].room != s.calls[j].room || s.calls[i].send != s.calls[j].send)
  }

  // Everything but what expectedRoomCloses says.
  ghost predicate Core(s: Session) {
    && RoomsOk(s)
    && AdaptersOk(s)
    && MetricsOk(s)
    && ReportsOk(s)
    && OutOk(s)
    && ShutOk(s)
    && CallsOk(s)
  }

  ghost predicate Keeps(s: Session) {
    Core(s) && ExpectedOk(s)
  }

  // ---------- what a piece of a step may change ----------

  predicate AdapterForward(a: Adapter, b: Adapter) {
    && (b.open ==> a.open)
    && (!a.open ==> b == a)
    && b.handed == a.handed
    && b.inbox == a.inbox
  }

  ghost predicate Announced(t: Session, room: Text, from: nat) {
    exists i :: from <= i < |t.out| && t.out[i].message.RoomClosed? && t.out[i].message.room == room
  }

  /** No room that is served afterwards has been refused or announced as closed meanwhile. */
  predicate Unrefused(s: Session, t: Session) {
    forall i | |s.out| <= i < |t.out| && t.out[i].message.RoomClosed? :: t.out[i].message.room !in t.rooms.entries
  }

  /**
    Rooms are only lost, adapters only close, frames are only added, and nothing is
    sent on a socket that is not open. The socket is closed only once, with 1011.
  */
  ghost predicate Shrinks(s: Session, t: Session) {
    && t.initialGrant == s.initialGrant && t.bypass == s.bypass && t.peak == s.peak
    && (if t.physical == s.physical then t.closes == s.closes
        else s.physical.Live() && t.physical.CLOSING? && t.closes == s.closes + [1011])
    && s.out <= t.out
    && (!s.physical.OPEN? ==> t.out == s.out)
    && Unrefused(s, t)
    && (forall r | r in t.rooms.entries :: r in s.rooms.entries && t.rooms.entries[r] == s.rooms.entries[r])
    && s.closedRooms <= t.closedRooms && s.metrics <= t.metrics
    && (forall room :: |SlotOf(t, room).adapters| == |SlotOf(s, room).adapters|)
    && (forall id: AdapterId | Exists(s, id) ::
          AdapterForward(SlotOf(s, id.room).adapters[id.serial], SlotOf(t, id.room).adapters[id.serial]))
    && t.heartbeat == s.heartbeat
  }

  // Sends and callbacks: numbers are taken afresh, and nothing of before is called.
  ghost predicate SendsForward(s: Session, t: Session) {
    && (forall room :: SlotOf(s, room).sends <= SlotOf(t, room).sends)
    && (forall room, k | k in SlotOf(t, room).waiting :: k in SlotOf(s, room).waiting || k >= SlotOf(s, room).sends)
    && s.calls <= t.calls
    && (forall i | |s.calls| <= i < |t.calls| :: t.calls[i].send >= SlotOf(s, t.calls[i].room).sends)
  }

  /** While the physical socket stays open, every room that is lost is announced to the client. */
  ghost predicate LossesAnnounced(s: Session, t: Session) {
    t.physical.OPEN? ==> forall r | r in s.rooms.entries && r !in t.rooms.entries :: Announced(t, r, |s.out|)
  }

  ghost predicate Mild(s: Session, t: Session) {
    Shrinks(s, t) && SendsForward(s, t)
  }

  ghost predicate Good(s: Session, t: Session) {
    Keeps(t) && Mild(s, t) && LossesAnnounced(s, t)
  }

  lemma MildReflexive(s: Session)
    ensures Mild(s, s) && LossesAnnounced(s, s)
  {
  }

  lemma ShrinksTransitive(s: Session, t: Session, u: Session)
    requires Shrinks(s, t) && Shrinks(t, u)
    ensures Shrinks(s, u)
  {
    forall id: AdapterId | Exists(s, id)
      ensures AdapterForward(SlotOf(s, id.room).adapters[id.serial], SlotOf(u, id.room).adapters[id.serial])
    {
      assert |SlotOf(t, id.room).adapters| == |SlotOf(s, id.room).adapters|;
      assert Exists(t, id);
    }
  }

  lemma SendsTransitive(s: Session, t: Session, u: Session)
    requires SendsForward(s, t) && SendsForward(t, u)
    ensures SendsForward(s, u)
  {
    hide SlotOf;
  }

  lemma MildTransitive(s: Session, t: Session, u: Session)
    requires Mild(s, t) && Mild(t, u)
    ensures Mild(s, u)
  {
    hide Shrinks, SendsForward;
    ShrinksTransitive(s, t, u);
    SendsTransitive(s, t, u);
  }

  lemma AnnouncedTransitive(s: Session, t: Session, u: Session)
    requires Shrinks(s, t) && Shrinks(t, u) && LossesAnnounced(s, t) && LossesAnnounced(t, u)
    ensures LossesAnnounced(s, u)
  {
    hide SlotOf, AdapterForward;
    forall r | u.physical.OPEN? && r in s.rooms.entries && r !in u.rooms.entries
      ensures Announced(u, r, |s.out|)
    {
      if r !in t.rooms.entries {
        assert Announced(t, r, |s.out|);
        var i :| |s.out| <= i < |t.out| && t.out[i].message.RoomClosed? && t.out[i].message.room == r;
        assert u.out[i] == t.out[i];
      } else {
        assert Announced(u, r, |t.out|);
      }
    }
  }

  lemma GoodTransitive(s: Session, t: Session, u: Session)
    requires Good(s, t) && Good(t, u)
    ensures Good(s, u)
  {
    MildTransitive(s, t, u);
    AnnouncedTransitive(s, t, u);
    hide Keeps, Shrinks, SendsForward, LossesAnnounced;
  }

  // ---------- the smallest pieces ----------

  // t differs from s only in how sends and callbacks are counted.
  ghost predicate Plain(s: Session, t: Session) {
    && t == s.(slots := t.slots, calls := t.calls)
    && (forall room :: SlotOf(t, room).adapters == SlotOf(s, room).adapters)
  }

  lemma PlainKeeps(s: Session, t: Session)
    requires Plain(s, t)
    ensures RoomsOk(s) ==> RoomsOk(t)
    ensures AdaptersOk(s) ==> AdaptersOk(t)
    ensures ExpectedOk(s) ==> ExpectedOk(t)
    ensures MetricsOk(s) ==> MetricsOk(t)
    ensures ReportsOk(s) ==> ReportsOk(t)
    ensures ShutOk(s) ==> ShutOk(t)
    ensures Shrinks(s, t) && LossesAnnounced(s, t)
  {
    hide SlotOf, AdapterOk, Level, PeakLevel, PeaksOk;
    assert forall id: AdapterId :: Exists(t, id) == Exists(s, id);
    assert forall id: AdapterId :: IsOpen(t, id) == IsOpen(s, id);
    assert forall id: AdapterId :: Due(t, id) == Due(s, id);
    hide Due, ReportsOf;
  }

  lemma PlainOut(s: Session, t: Session)
    requires Plain(s, t) && OutOk(s)
    ensures OutOk(t)
  {
    hide SlotOf;
    assert forall id: AdapterId :: Exists(t, id) == Exists(s, id) && WasHanded(t, id) == WasHanded(s, id);
    forall i | 0 <= i < |t.out|
      ensures EmittedOk(t, i)
    {
      assert EmittedOk(s, i);
    }
  }

  // Send number k of the room is in use, and nobody has been called for it.
  ghost predicate Reserved(s: Session, room: Text, k: nat) {
    && k < SlotOf(s, room).sends
    && k !in SlotOf(s, room).waiting
    && forall i | 0 <= i < |s.calls| && s.calls[i].room == room :: s.calls[i].send != k
  }

  lemma CountSendKeeps(s: Session, room: Text)
    requires Keeps(s)
    ensures var t := CountSend(s, room);
            Good(s, t) && Reserved(t, room, SlotOf(s, room).sends) && Plain(s, t) && t.calls == s.calls
            && (forall r | r != room :: SlotOf(t, r) == SlotOf(s, r)) && SlotOf(t, room).sends == SlotOf(s, room).sends + 1
  {
    var t := CountSend(s, room);
    assert Plain(s, t);
    PlainKeeps(s, t);
    PlainOut(s, t);
    hide RoomsOk, AdaptersOk, ExpectedOk, MetricsOk, ReportsOk, ShutOk, OutOk, Shrinks, LossesAnnounced, Plain;
    assert SlotOf(t, room) == SlotOf(s, room).(sends := SlotOf(s, room).sends + 1);
    assert forall r | r != room :: SlotOf(t, r) == SlotOf(s, r);
    hide SlotOf, CountSend;
    assert SlotSendsOk(SlotOf(s, room));
    assert forall r :: SlotSendsOk(SlotOf(s, r)) ==> SlotSendsOk(SlotOf(t, r));
    assert forall i | 0 <= i < |s.calls| :: CallOk(s, s.calls[i]) ==> CallOk(t, s.calls[i]);
    forall i | 0 <= i < |t.calls| && t.calls[i].room == room
      ensures t.calls[i].send != SlotOf(s, room).sends
    {
      assert CallOk(s, s.calls[i]);
    }
  }

  lemma WaitKeeps(s: Session, room: Text, k: nat, hasCallback: bool)
    requires Keeps(s) && Reserved(s, room, k)
    ensures var t := Wait(s, room, k, hasCallback);
            Keeps(t) && Shrinks(s, t) && LossesAnnounced(s, t) && Plain(s, t)
  {
    var t := Wait(s, room, k, hasCallback);
    assert Plain(s, t);
    PlainKeeps(s, t);
    PlainOut(s, t);
    hide RoomsOk, AdaptersOk, ExpectedOk, MetricsOk, ReportsOk, ShutOk, OutOk, Shrinks, LossesAnnounced;
    assert SlotSendsOk(SlotOf(s, room));
    assert forall r :: SlotSendsOk(SlotOf(s, r)) ==> SlotSendsOk(SlotOf(t, r));
    forall i | 0 <= i < |t.calls|
      ensures CallOk(t, t.calls[i])
    {
      assert CallOk(s, s.calls[i]);
    }
  }

  lemma CallLogged(s: Session, c: Call)
    requires Keeps(s) && Reserved(s, c.room, c.send)
    requires if c.open then c.error ==> c.roomsLeft == 0 else c.error
    ensures var t := s.(calls := s.calls + [c]);
            Keeps(t) && Shrinks(s, t) && LossesAnnounced(s, t) && Plain(s, t)
  {
    var t := s.(calls := s.calls + [c]);
    assert Plain(s, t);
    PlainKeeps(s, t);
    PlainOut(s, t);
    hide RoomsOk, AdaptersOk, ExpectedOk, MetricsOk, ReportsOk, ShutOk, OutOk, Shrinks, LossesAnnounced;
    assert forall r :: SlotOf(t, r) == SlotOf(s, r);
    forall i | 0 <= i < |t.calls|
      ensures CallOk(t, t.calls[i])
    {
      if i < |s.calls| {
        assert CallOk(s, s.calls[i]);
      }
    }
  }

  lemma LogCallKeeps(s: Session, room: Text, k: nat, error: bool, hasCallback: bool)
    requires Keeps(s) && Reserved(s, room, k) && (error ==> s.rooms.keys == [])
    ensures var t := LogCall(s, room, k, error, hasCallback);
            Keeps(t) && Shrinks(s, t) && LossesAnnounced(s, t) && Plain(s, t)
  {
    MildReflexive(s);
    if hasCallback {
      CallLogged(s, Call(room, k, true, error, |s.rooms.keys|));
    }
    hide Keeps, Shrinks, LossesAnnounced, Reserved;
  }

  // A frame the session may send now.
  ghost predicate Legal(s: Session, m: Message) {
    match m
    case Subscribed(room) => Active(s, room).Some?
    case Data(room, _) => Active(s, room).Some? && WasHanded(s, AdapterId(room, Active(s, room).value))
    case RoomClosed(room, _) => Active(s, room).None?
    case _ => false
  }

  lemma AcknowledgedGrows(out: seq<Emitted>, out': seq<Emitted>, room: Text, serial: nat, n: nat, n': nat)
    requires out <= out' && n <= n' && n <= |out| && Acknowledged(out, room, serial, n)
    requires Steady(out', room, serial, n, n')
    ensures Acknowledged(out', room, serial, n')
  {
    var j :| 0 <= j < n && j < |out| && Acknowledges(out[j], room, serial) && Steady(out, room, serial, j, n);
    assert Acknowledges(out'[j], room, serial);
    forall k | j <= k < n' && k < |out'| && out'[k].message.room == room
      ensures out'[k].active == Some(serial)
    {
      if k < n {
        assert out'[k] == out[k];
      }
    }
  }

  lemma EmitOut(s: Session, m: Message)
    requires RoomsOk(s) && OutOk(s) && Legal(s, m) && WithinBounds(m)
    ensures OutOk(Emit(s, m))
  {
    var t := Emit(s, m);
    assert forall id: AdapterId :: Exists(t, id) == Exists(s, id) && IsOpen(t, id) == IsOpen(s, id) && WasHanded(t, id) == WasHanded(s, id);
    hide WithinBounds, SlotOf, Exists, IsOpen, WasHanded;
    if s.physical.OPEN? {
      forall id: AdapterId | WasHanded(t, id) && IsOpen(t, id)
        ensures Acknowledged(t.out, id.room, id.serial, |t.out|)
      {
        AcknowledgedGrows(s.out, t.out, id.room, id.serial, |s.out|, |t.out|);
      }
      forall i | 0 <= i < |t.out|
        ensures EmittedOk(t, i)
      {
        if i < |s.out| {
          assert EmittedOk(s, i);
          if s.out[i].message.Data? {
            AcknowledgedGrows(s.out, t.out, s.out[i].message.room, s.out[i].active.value, i, i);
          }
        } else if m.Data? {
          AcknowledgedGrows(s.out, t.out, m.room, Active(s, m.room).value, |s.out|, i);
        }
      }
    }
  }

  // t has everything of s but the frames.
  lemma SameButOut(s: Session, t: Session)
    requires Keeps(s) && t == s.(out := t.out)
    ensures RoomsOk(t) && AdaptersOk(t) && MetricsOk(t) && ReportsOk(t) && CallsOk(t) && ExpectedOk(t) && ShutOk(t)
    ensures forall r :: SlotOf(t, r) == SlotOf(s, r)
  {
    assert forall r :: SlotOf(t, r) == SlotOf(s, r);
    assert forall id: AdapterId :: Due(t, id) == Due(s, id);
    hide SlotOf, AdapterOk, Level, PeakLevel, PeaksOk, SlotSendsOk, OutOk, Due, ReportsOf;
    assert forall i | 0 <= i < |s.calls| :: CallOk(s, s.calls[i]) ==> CallOk(t, s.calls[i]);
  }

  lemma EmitMild(s: Session, m: Message)
    requires Legal(s, m)
    ensures Mild(s, Emit(s, m)) && LossesAnnounced(s, Emit(s, m))
  {
    assert forall r :: SlotOf(Emit(s, m), r) == SlotOf(s, r);
    hide SlotOf;
  }

  lemma EmitKeeps(s: Session, m: Message)
    requires Keeps(s) && Legal(s, m) && WithinBounds(m)
    ensures Good(s, Emit(s, m))
    ensures s.physical.OPEN? ==> Emit(s, m).out == s.out + [Emitted(m, Active(s, m.room))]
  {
    EmitOut(s, m);
    SameButOut(s, Emit(s, m));
    EmitMild(s, m);
    hide Legal, WithinBounds, RoomsOk, AdaptersOk, MetricsOk, ReportsOk, CallsOk, ExpectedOk, ShutOk, OutOk, SlotOf, Mild, LossesAnnounced;
  }

  // ---------- closing one adapter ----------

  lemma LevelAppend(ms: seq<Metric>, m: Metric)
    ensures Level(ms + [m]) == Level(ms) + (match m case RoomOpen => 1 case RoomClose => -1 case _ => 0)
    ensures PeakLevel(ms + [m]) == Max(PeakLevel(ms), Level(ms + [m]))
    ensures PeaksOk(ms + [m]) == (PeaksOk(ms) && PeakIs(m, PeakLevel(ms)))
  {
    assert (ms + [m])[..|ms|] == ms;
  }

  lemma {:induction false} PeakAtLeastLevel(ms: seq<Metric>)
    ensures Level(ms) <= PeakLevel(ms) && 0 <= PeakLevel(ms)
  {
    if ms != [] {
      PeakAtLeastLevel(ms[..|ms| - 1]);
    }
  }

  // A metric that says nothing of the number of rooms.
  lemma OtherMetric(ms: seq<Metric>, m: Metric)
    requires !m.RoomOpen? && !m.RoomClose?
    ensures Level(ms + [m]) == Level(ms) && PeakLevel(ms + [m]) == PeakLevel(ms)
    ensures PeaksOk(ms) && PeakIs(m, PeakLevel(ms)) ==> PeaksOk(ms + [m])
  {
    LevelAppend(ms, m);
    PeakAtLeastLevel(ms);
  }

  lemma ClosedMetrics(ms: seq<Metric>, reason: CloseReason, id: AdapterId)
    ensures var told := ms + [RoomClose, RoomConnectionClose(reason, Some(id))];
            && Level(told) == Level(ms) - 1 && PeakLevel(told) == PeakLevel(ms) && (PeaksOk(ms) ==> PeaksOk(told))
  {
    var report := RoomConnectionClose(reason, Some(id));
    assert ms + [RoomClose, report] == ms + [RoomClose] + [report];
    LevelAppend(ms, RoomClose);
    PeakAtLeastLevel(ms);
    OtherMetric(ms + [RoomClose], report);
  }

  lemma ReportsAppend(ms: seq<Metric>, m: Metric, id: AdapterId)
    ensures ReportsOf(ms + [m], id)
         == ReportsOf(ms, id) + if m.RoomConnectionClose? && m.adapter == Some(id) then [m.reason] else []
  {
    assert (ms + [m])[..|ms|] == ms;
  }

  // A metric that reports no closing of an adapter.
  lemma NoReport(ms: seq<Metric>, m: Metric)
    requires m.RoomConnectionClose? ==> m.adapter.None?
    ensures SameReports(ms, ms + [m])
  {
    forall id: AdapterId
      ensures ReportsOf(ms + [m], id) == ReportsOf(ms, id)
    {
      ReportsAppend(ms, m, id);
    }
  }

  lemma ClosedReports(ms: seq<Metric>, reason: CloseReason, id: AdapterId, x: AdapterId)
    ensures ReportsOf(ms + [RoomClose, RoomConnectionClose(reason, Some(id))], x)
         == ReportsOf(ms, x) + if x == id then [reason] else []
  {
    var report := RoomConnectionClose(reason, Some(id));
    assert ms + [RoomClose, report] == ms + [RoomClose] + [report];
    ReportsAppend(ms, RoomClose, x);
    ReportsAppend(ms + [RoomClose], report, x);
  }

  // What the listener will report is what the closer stands for.
  predicate Named(s: Session, id: AdapterId, closer: CloseReason) {
    closer == if id in s.expected then s.expected[id] else ServerRoomClose
  }

  /** The adapter is closed, by closer. */
  predicate ClosedBy(s: Session, id: AdapterId, closer: CloseReason) {
    Exists(s, id) && !IsOpen(s, id) && SlotOf(s, id.room).adapters[id.serial].closer == Some(closer)
  }

  /** The adapter is closed, and the metrics have one report of it: that closer closed it. */
  predicate Reported(s: Session, id: AdapterId, closer: CloseReason) {
    ClosedBy(s, id, closer) && ReportsOf(s.metrics, id) == [closer]
  }

  lemma ReportIsMade(s: Session, id: AdapterId, closer: CloseReason)
    requires ReportsOk(s) && ClosedBy(s, id, closer)
    ensures Reported(s, id, closer)
  {
    assert ReportsOf(s.metrics, id) == Due(s, id);
  }

  lemma CloseCoreReports(s: Session, id: AdapterId, closer: CloseReason)
    requires Exists(s, id) && Named(s, id, closer)
    ensures ClosedBy(CloseCore(s, id, closer), id, closer)
  {
    hide Delete;
  }

  lemma CloseCoreReportsOk(s: Session, id: AdapterId, closer: CloseReason)
    requires RoomsOk(s) && AdaptersOk(s) && ReportsOk(s) && IsOpen(s, id) && Named(s, id, closer)
    ensures ReportsOk(CloseCore(s, id, closer))
  {
    var t := CloseCore(s, id, closer);
    assert Active(s, id.room) == Some(id.serial);
    assert AdapterOk(SlotOf(s, id.room).adapters[id.serial]);
    assert t.metrics == s.metrics + [RoomClose, RoomConnectionClose(closer, Some(id))];
    CloseCoreAdapters(s, id, closer);
    CloseCoreReports(s, id, closer);
    forall x: AdapterId
      ensures ReportsOf(t.metrics, x) == Due(t, x)
    {
      ClosedReports(s.metrics, closer, id, x);
      assert Due(t, x) == if x == id then [closer] else Due(s, x);
      assert ReportsOf(s.metrics, x) == Due(s, x);
    }
  }

  // Who is open, handed and how many there are, after one adapter closed.
  lemma CloseCoreAdapters(s: Session, id: AdapterId, closer: CloseReason)
    requires IsOpen(s, id)
    ensures var t := CloseCore(s, id, closer);
            && (forall x: AdapterId :: Exists(t, x) == Exists(s, x))
            && (forall x: AdapterId :: IsOpen(t, x) == (IsOpen(s, x) && x != id))
            && (forall x: AdapterId :: WasHanded(t, x) == WasHanded(s, x))
            && (forall x: AdapterId | Exists(s, x) && x != id :: SlotOf(t, x.room).adapters[x.serial] == SlotOf(s, x.room).adapters[x.serial])
            && (forall r :: |SlotOf(t, r).adapters| == |SlotOf(s, r).adapters| && SlotOf(t, r).sends == SlotOf(s, r).sends
                         && SlotOf(t, r).waiting == SlotOf(s, r).waiting)
  {
    hide Delete;
  }

  lemma CloseCoreMetrics(s: Session, id: AdapterId, closer: CloseReason)
    requires RoomsOk(s) && MetricsOk(s) && IsOpen(s, id) && Named(s, id, closer)
    ensures MetricsOk(CloseCore(s, id, closer))
  {
    assert Active(s, id.room) == Some(id.serial);
    ClosedMetrics(s.metrics, closer, id);
    WithoutSize(s.rooms.keys, id.room);
    hide RoomsOk, SlotOf, Without, Level, PeakLevel, PeaksOk;
  }

  lemma CloseCoreRooms(s: Session, id: AdapterId, closer: CloseReason)
    requires RoomsOk(s) && AdaptersOk(s) && IsOpen(s, id) && Named(s, id, closer)
    ensures var t := CloseCore(s, id, closer); RoomsOk(t) && AdaptersOk(t)
  {
    var t := CloseCore(s, id, closer);
    assert forall x: AdapterId :: Exists(t, x) == Exists(s, x) && IsOpen(t, x) == (IsOpen(s, x) && x != id) by {
      CloseCoreAdapters(s, id, closer);
    }
    assert AdaptersOk(t) by {
      CloseCoreAdaptersOk(s, id, closer);
    }
    assert Active(s, id.room) == Some(id.serial);
    assert t.rooms == Delete(s.rooms, id.room) && t.closedRooms == s.closedRooms + {id.room};
    hide SlotOf, AdaptersOk, Delete, CloseCore, IsOpen, Exists;
    RoomRemoved(s, t, id);
  }

  // Facts about what is open and stored that are enough for the rooms to stay in order.
  lemma RoomRemoved(s: Session, t: Session, id: AdapterId)
    requires RoomsOk(s) && Active(s, id.room) == Some(id.serial)
    requires t.rooms == Delete(s.rooms, id.room) && t.closedRooms == s.closedRooms + {id.room}
    requires forall x: AdapterId :: Exists(t, x) == Exists(s, x) && IsOpen(t, x) == (IsOpen(s, x) && x != id)
    ensures RoomsOk(t)
  {
    hide SlotOf, IsOpen, Exists, Delete;
    assert t.rooms.entries == s.rooms.entries - {id.room};
  }

  lemma CloseCoreAdaptersOk(s: Session, id: AdapterId, closer: CloseReason)
    requires AdaptersOk(s) && IsOpen(s, id) && Named(s, id, closer)
    ensures AdaptersOk(CloseCore(s, id, closer))
  {
    var t := CloseCore(s, id, closer);
    CloseCoreAdapters(s, id, closer);
    assert AdapterOk(SlotOf(t, id.room).adapters[id.serial]);
    hide SlotOf, AdapterOk, CloseCore, IsOpen, Exists;
  }

  lemma CloseCoreOut(s: Session, id: AdapterId, closer: CloseReason)
    requires OutOk(s) && IsOpen(s, id)
    ensures OutOk(CloseCore(s, id, closer))
  {
    var t := CloseCore(s, id, closer);
    CloseCoreAdapters(s, id, closer);
    hide SlotOf, Without, WithinBounds, Exists, IsOpen, WasHanded;
    forall i | 0 <= i < |t.out|
      ensures EmittedOk(t, i)
    {
      assert EmittedOk(s, i);
    }
  }

  lemma CloseCoreCalls(s: Session, id: AdapterId, closer: CloseReason)
    requires CallsOk(s) && IsOpen(s, id)
    ensures CallsOk(CloseCore(s, id, closer))
  {
    var t := CloseCore(s, id, closer);
    CloseCoreAdapters(s, id, closer);
    assert forall r :: SlotSendsOk(SlotOf(s, r)) ==> SlotSendsOk(SlotOf(t, r));
    hide SlotOf, Without, SlotSendsOk, Exists, IsOpen;
    forall i | 0 <= i < |t.calls|
      ensures CallOk(t, t.calls[i])
    {
      assert CallOk(s, s.calls[i]);
    }
  }

  lemma CloseCoreRest(s: Session, id: AdapterId, closer: CloseReason)
    requires Core(s) && IsOpen(s, id) && Named(s, id, closer)
    requires forall x | x in s.expected && x != id :: Past(s, x)
    ensures var t := CloseCore(s, id, closer); OutOk(t) && ShutOk(t) && CallsOk(t) && ExpectedOk(t)
  {
    CloseCoreAdapters(s, id, closer);
    CloseCoreOut(s, id, closer);
    CloseCoreCalls(s, id, closer);
    assert Active(s, id.room) == Some(id.serial);
    SizeOf(s.rooms);
    hide SlotOf, Without, OutOk, CallsOk, MetricsOk, ReportsOk, AdaptersOk;
  }

  lemma CloseCoreMild(s: Session, id: AdapterId, closer: CloseReason)
    requires IsOpen(s, id)
    ensures Mild(s, CloseCore(s, id, closer))
  {
    var t := CloseCore(s, id, closer);
    CloseCoreAdapters(s, id, closer);
    assert AdapterForward(SlotOf(s, id.room).adapters[id.serial], SlotOf(t, id.room).adapters[id.serial]);
    hide SlotOf, Without;
  }

  lemma CloseCoreKeeps(s: Session, id: AdapterId, closer: CloseReason)
    requires Core(s) && IsOpen(s, id) && Named(s, id, closer)
    requires forall x | x in s.expected && x != id :: Past(s, x)
    ensures var t := CloseCore(s, id, closer);
            && Keeps(t) && Mild(s, t)
            && t.rooms == Delete(s.rooms, id.room) && Active(t, id.room) == None
            && t.out == s.out && t.physical == s.physical && ClosedBy(t, id, closer)
  {
    CloseCoreReportsOk(s, id, closer);
    assert Active(s, id.room) == Some(id.serial);
    CloseCoreReports(s, id, closer);
    CloseCoreRooms(s, id, closer);
    CloseCoreMetrics(s, id, closer);
    CloseCoreRest(s, id, closer);
    CloseCoreMild(s, id, closer);
    CloseCoreAdapters(s, id, closer);
    hide RoomsOk, AdaptersOk, MetricsOk, ReportsOk, OutOk, ShutOk, CallsOk, ExpectedOk, Mild, SlotOf, Without, ClosedBy;
  }

  // t has the rooms, frames and callbacks of s.
  predicate SameRooms(s: Session, t: Session) {
    && t.rooms == s.rooms && t.closedRooms == s.closedRooms && t.slots == s.slots
    && t.out == s.out && t.peak == s.peak && t.calls == s.calls
  }

  lemma SameSlots(s: Session, t: Session)
    requires t.slots == s.slots
    ensures forall r :: SlotOf(t, r) == SlotOf(s, r)
    ensures forall x: AdapterId :: Exists(t, x) == Exists(s, x) && IsOpen(t, x) == IsOpen(s, x) && WasHanded(t, x) == WasHanded(s, x)
  {
  }

  lemma SameKeeps(s: Session, t: Session)
    requires SameRooms(s, t)
    ensures RoomsOk(s) ==> RoomsOk(t)
    ensures AdaptersOk(s) ==> AdaptersOk(t)
    ensures MetricsOk(s) && t.metrics == s.metrics ==> MetricsOk(t)
    ensures ReportsOk(s) && SameReports(s.metrics, t.metrics) ==> ReportsOk(t)
    ensures OutOk(s) ==> OutOk(t)
    ensures CallsOk(s) ==> CallsOk(t)
    ensures SendsForward(s, t) && LossesAnnounced(s, t)
  {
    SameSlots(s, t);
    assert forall id: AdapterId :: Due(t, id) == Due(s, id);
    hide SlotOf, AdapterOk, WithinBounds, SlotSendsOk, Level, PeakLevel, PeaksOk, Due, ReportsOf;
    assert forall i | 0 <= i < |s.out| :: EmittedOk(s, i) ==> EmittedOk(t, i);
    assert forall i | 0 <= i < |s.calls| :: CallOk(s, s.calls[i]) ==> CallOk(t, s.calls[i]);
  }

  lemma ExpectMild(s: Session, id: AdapterId, reason: CloseReason)
    requires Core(s)
    ensures var t := Expect(s, id, reason); Core(t) && Mild(s, t) && LossesAnnounced(s, t)
  {
    var t := Expect(s, id, reason);
    SameKeeps(s, t);
    SameSlots(s, t);
    hide RoomsOk, AdaptersOk, MetricsOk, ReportsOk, OutOk, CallsOk, SlotOf, IsOpen;
  }

  lemma ExpectKeeps(s: Session, id: AdapterId, reason: CloseReason)
    requires Keeps(s) && Exists(s, id)
    ensures var t := Expect(s, id, reason);
            && Core(t) && Mild(s, t) && LossesAnnounced(s, t)
            && (IsOpen(s, id) <==> IsOpen(t, id)) && Named(t, id, reason)
            && (forall x | x in t.expected && x != id :: Past(t, x))
            && (!IsOpen(s, id) ==> Keeps(t))
  {
    hide Core, Mild, LossesAnnounced;
    ExpectMild(s, id, reason);
    SameSlots(s, Expect(s, id, reason));
    hide SlotOf;
  }

  // ---------- the physical socket ----------

  lemma FailPhysicalKeeps(s: Session)
    requires Keeps(s) && s.rooms.IsEmpty()
    ensures var t := FailPhysical(s); Good(s, t) && Dead(t) && t.rooms == s.rooms
  {
    var t := FailPhysical(s);
    SameKeeps(s, t);
    SameSlots(s, t);
    hide RoomsOk, AdaptersOk, MetricsOk, ReportsOk, OutOk, CallsOk, SlotOf, SendsForward;
  }

  // ---------- cleaning up ----------

  // Every room still served is in ids, which are all adapters of the session.
  ghost predicate Covers(s: Session, ids: seq<AdapterId>) {
    && (forall id | id in ids :: Exists(s, id))
    && forall r | r in s.rooms.entries :: AdapterId(r, s.rooms.entries[r]) in ids
  }

  lemma SnapshotCovers(s: Session)
    requires RoomsOk(s)
    ensures Covers(s, Snapshot(s))
  {
    hide SlotOf;
    forall id | id in Snapshot(s)
      ensures Exists(s, id)
    {
      var i :| 0 <= i < |Snapshot(s)| && Snapshot(s)[i] == id;
      assert s.rooms.keys[i] in s.rooms.entries;
      assert IsOpen(s, id);
    }
    forall r | r in s.rooms.entries
      ensures AdapterId(r, s.rooms.entries[r]) in Snapshot(s)
    {
      var i :| 0 <= i < |s.rooms.keys| && s.rooms.keys[i] == r;
      assert Snapshot(s)[i] == AdapterId(r, s.rooms.entries[r]);
    }
  }

  // After one closing, the rest of the snapshot still covers what is left.
  lemma CoversTheRest(s: Session, t: Session, ids: seq<AdapterId>)
    requires ids != [] && Covers(s, ids) && Shrinks(s, t) && RoomsOk(t) && !IsOpen(t, ids[0])
    ensures Covers(t, ids[1..])
  {
    hide SlotOf, AdapterForward;
    assert ids == [ids[0]] + ids[1..];
    forall r | r in t.rooms.entries
      ensures AdapterId(r, t.rooms.entries[r]) in ids[1..]
    {
      assert IsOpen(t, AdapterId(r, t.rooms.entries[r]));
      assert AdapterId(r, s.rooms.entries[r]) in ids;
    }
  }

  lemma CoveredByNothing(s: Session)
    requires RoomsOk(s) && Covers(s, [])
    ensures s.rooms.IsEmpty()
  {
    hide IsOpen, Exists;
    SizeOf(s.rooms);
    assert s.rooms.entries.Keys == {};
  }

  // closeRoom on one adapter, open or not, no other listener doing anything.
  function CloseOneQuietly(s: Session, id: AdapterId): Session {
    var expecting := Expect(s, id, PhysicalConnectionClose);
    if IsOpen(expecting, id) then CloseCore(expecting, id, PhysicalConnectionClose) else expecting
  }

  lemma CloseOneQuietlyKeeps(s: Session, id: AdapterId)
    requires Keeps(s) && Exists(s, id)
    ensures var t := CloseOneQuietly(s, id); Keeps(t) && Mild(s, t) && !IsOpen(t, id) && t.physical == s.physical
  {
    var expecting := Expect(s, id, PhysicalConnectionClose);
    ExpectKeeps(s, id, PhysicalConnectionClose);
    hide Core, Keeps, Mild;
    if IsOpen(expecting, id) {
      CloseCoreKeeps(expecting, id, PhysicalConnectionClose);
      MildTransitive(s, expecting, CloseCore(expecting, id, PhysicalConnectionClose));
    }
  }

  lemma {:induction false} CleanQuietlyKeeps(s: Session, ids: seq<AdapterId>)
    requires Keeps(s) && Covers(s, ids)
    ensures var t := CleanQuietly(s, ids); Keeps(t) && Mild(s, t) && t.rooms.IsEmpty()
    decreases |ids|
  {
    if ids == [] {
      MildReflexive(s);
      CoveredByNothing(s);
    } else {
      var next := CloseOneQuietly(s, ids[0]);
      CloseOneQuietlyKeeps(s, ids[0]);
      CoversTheRest(s, next, ids);
      hide Core, Keeps, Mild, Covers, CloseCore, Expect, IsOpen;
      CleanQuietlyKeeps(next, ids[1..]);
      MildTransitive(s, next, CleanQuietly(next, ids[1..]));
    }
  }

  // ---------- sending ----------

  lemma ReservedKept(s: Session, t: Session, room: Text, k: nat)
    requires Reserved(s, room, k) && SendsForward(s, t)
    ensures Reserved(t, room, k)
  {
    hide SlotOf;
  }

  // The books as seen from before send number k was counted.
  lemma LogCallSends(s: Session, u: Session, room: Text, k: nat, error: bool, hasCallback: bool)
    requires SendsForward(s, u) && k >= SlotOf(s, room).sends
    ensures SendsForward(s, LogCall(u, room, k, error, hasCallback))
  {
    var t := LogCall(u, room, k, error, hasCallback);
    assert forall r :: SlotOf(t, r) == SlotOf(u, r);
    hide SlotOf;
  }

  lemma WaitSends(s: Session, u: Session, room: Text, k: nat, hasCallback: bool)
    requires SendsForward(s, u) && k >= SlotOf(s, room).sends
    ensures SendsForward(s, Wait(u, room, k, hasCallback))
  {
  }

  lemma LegalWhenPlain(s: Session, t: Session, m: Message)
    requires Plain(s, t) && Legal(s, m)
    ensures Legal(t, m) && Active(t, m.room) == Active(s, m.room)
  {
  }

  /** What sendPhysicalMessage leaves: the frame on an open socket, or no room at all. */
  ghost predicate Transmitted(s: Session, m: Message, t: Session, ok: bool) {
    && Good(s, t)
    && (ok ==> Written(s, m, t))
    && (!ok ==> Dead(t))
  }

  predicate Written(s: Session, m: Message, t: Session) {
    && t.rooms == s.rooms && t.physical == s.physical
    && (s.physical.OPEN? ==> t.out == s.out + [Emitted(m, Active(s, m.room))])
  }

  // The send is counted and, if wanted, the frame written; nothing has been said of its completion.
  lemma Counted(s: Session, m: Message, write: bool)
    requires Keeps(s) && Legal(s, m) && WithinBounds(m)
    ensures var counted := CountSend(s, m.room);
            var t := if write then Emit(counted, m) else counted;
            && Good(s, t) && Reserved(t, m.room, SlotOf(s, m.room).sends)
            && (write ==> Written(s, m, t))
  {
    var counted := CountSend(s, m.room);
    CountSendKeeps(s, m.room);
    LegalWhenPlain(s, counted, m);
    hide Keeps, WithinBounds, Shrinks, SlotOf, Legal;
    if write {
      EmitKeeps(counted, m);
      GoodTransitive(s, counted, Emit(counted, m));
      ReservedKept(counted, Emit(counted, m), m.room, SlotOf(s, m.room).sends);
    }
  }

  // A reserved send is logged or awaited, seen from before it was counted.
  lemma Settled(s: Session, u: Session, room: Text, k: nat, error: bool, hasCallback: bool)
    requires Good(s, u) && Reserved(u, room, k) && k >= SlotOf(s, room).sends && (error ==> u.rooms.keys == [])
    ensures Good(s, LogCall(u, room, k, error, hasCallback))
    ensures Good(s, Wait(u, room, k, hasCallback))
  {
    LogCallKeeps(u, room, k, error, hasCallback);
    LogCallSends(s, u, room, k, error, hasCallback);
    WaitKeeps(u, room, k, hasCallback);
    WaitSends(s, u, room, k, hasCallback);
    hide Keeps, Shrinks, SlotOf, SendsForward, LossesAnnounced, Reserved;
    ShrinksTransitive(s, u, LogCall(u, room, k, error, hasCallback));
    AnnouncedTransitive(s, u, LogCall(u, room, k, error, hasCallback));
    ShrinksTransitive(s, u, Wait(u, room, k, hasCallback));
    AnnouncedTransitive(s, u, Wait(u, room, k, hasCallback));
  }

  lemma StillWritten(s: Session, m: Message, u: Session, k: nat, hasCallback: bool)
    requires Written(s, m, u)
    ensures Written(s, m, LogCall(u, m.room, k, false, hasCallback)) && Written(s, m, Wait(u, m.room, k, hasCallback))
  {
  }

  // A transmission that does not fail at once.
  lemma TransmitShape(s: Session, m: Message, outcome: Outcome, hasCallback: bool)
    requires Encode(m).Ok? && !outcome.Failed?
    ensures var sent := Emit(CountSend(s, m.room), m);
            var k := SlotOf(s, m.room).sends;
            Transmit(s, m, outcome, hasCallback)
            == (if outcome.Queued? then Wait(sent, m.room, k, hasCallback) else LogCall(sent, m.room, k, false, hasCallback), true)
  {
    hide Encode, Wait, LogCall, Emit, CountSend, SlotOf;
  }

  lemma TransmitSucceeds(s: Session, m: Message, outcome: Outcome, hasCallback: bool)
    requires Keeps(s) && Legal(s, m) && Encode(m).Ok? && !outcome.Failed?
    ensures Transmit(s, m, outcome, hasCallback).1
    ensures Transmitted(s, m, Transmit(s, m, outcome, hasCallback).0, true)
  {
    var k := SlotOf(s, m.room).sends;
    ProtocolProofs.EncodeSucceedsExactly(m);
    hide WithinBounds, Encode;
    Counted(s, m, true);
    hide Keeps, SlotOf, Legal, Good, Reserved, CountSend, Emit, LogCall, Wait, Written, Transmit;
    TransmitShape(s, m, outcome, hasCallback);
    Settled(s, Emit(CountSend(s, m.room), m), m.room, k, false, hasCallback);
    StillWritten(s, m, Emit(CountSend(s, m.room), m), k, hasCallback);
  }

  // A send that failed, once the rooms are cleaned and the socket closed.
  lemma FailureLogged(s: Session, w: Session, u: Session, room: Text, hasCallback: bool)
    requires Good(s, w) && Reserved(w, room, SlotOf(s, room).sends)
    requires Good(w, u) && Dead(u)
    ensures var t := LogCall(u, room, SlotOf(s, room).sends, true, hasCallback);
            Good(s, t) && Dead(t)
  {
    GoodTransitive(s, w, u);
    ReservedKept(w, u, room, SlotOf(s, room).sends);
    hide Keeps, SlotOf, Shrinks, SendsForward, LossesAnnounced, Reserved;
    Settled(s, u, room, SlotOf(s, room).sends, true, hasCallback);
  }

  /** A send on a closed adapter leaves everything but the books of sends and callbacks as it was. */
  lemma RefuseKeeps(s: Session, room: Text)
    requires Keeps(s)
    ensures Good(s, Refuse(s, room)) && Plain(s, Refuse(s, room))
  {
    var counted := CountSend(s, room);
    var call := Call(room, SlotOf(s, room).sends, false, true, |s.rooms.keys|);
    CountSendKeeps(s, room);
    CallLogged(counted, call);
    RefuseSends(s, room);
    hide Keeps, Shrinks, SendsForward, LossesAnnounced, Reserved, SlotOf, CountSend;
    ShrinksTransitive(s, counted, Refuse(s, room));
    AnnouncedTransitive(s, counted, Refuse(s, room));
  }

  lemma RefuseSends(s: Session, room: Text)
    ensures SendsForward(s, Refuse(s, room))
  {
  }

  // Once every room is cleaned, the socket is closed.
  lemma CleanThenFail(s: Session, cleaned: Session)
    requires Keeps(cleaned) && Mild(s, cleaned) && cleaned.rooms.IsEmpty()
    ensures Good(s, FailPhysical(cleaned)) && Dead(FailPhysical(cleaned))
  {
    FailPhysicalKeeps(cleaned);
    hide Keeps, Shrinks, SendsForward, FailPhysical;
    MildTransitive(s, cleaned, FailPhysical(cleaned));
  }

  // An unencodable message fails like a send that throws, here with listeners that do nothing.
  lemma TransmitUnencodable(s: Session, m: Message, outcome: Outcome, hasCallback: bool)
    requires Keeps(s) && Encode(m).Err? && !outcome.Failed?
    ensures !Transmit(s, m, outcome, hasCallback).1
    ensures Transmitted(s, m, Transmit(s, m, outcome, hasCallback).0, false)
  {
    var counted := CountSend(s, m.room);
    CountSendKeeps(s, m.room);
    assert RoomsOk(counted);
    SnapshotCovers(counted);
    hide Encode, Keeps, Good, Reserved, Covers, Snapshot, CountSend, FailPhysical, Mild;
    CleanQuietlyKeeps(counted, Snapshot(counted));
    CleanThenFail(counted, CleanQuietly(counted, Snapshot(counted)));
    FailureLogged(s, counted, FailPhysical(CleanQuietly(counted, Snapshot(counted))), m.room, hasCallback);
  }

  // ---------- everything that may happen within one event ----------

  // While the physical socket stays open, every room that is lost, but for one, is announced.
  ghost predicate LossesAnnouncedBut(s: Session, t: Session, room: Text) {
    t.physical.OPEN? ==> forall r | r in s.rooms.entries && r !in t.rooms.entries && r != room :: Announced(t, r, |s.out|)
  }

  lemma {:induction false} TransmitKeeps(s: Session, m: Message, outcome: Outcome, hasCallback: bool)
    requires Keeps(s) && Legal(s, m)
    ensures var (t, ok) := Transmit(s, m, outcome, hasCallback); Transmitted(s, m, t, ok)
    decreases outcome, 0, 0
  {
    hide Keeps, Legal, Transmitted, Encode, Reserved, SlotOf;
    if outcome.Failed? {
      var written := WrittenFirst(s, m, outcome.wrote);
      CountedOrWritten(s, m, outcome.wrote);
      GoodKeeps(s, written);
      SendErrorKeeps(written, outcome.cleanup);
      FailureLogged(s, written, SendError(written, outcome.cleanup), m.room, hasCallback);
      FailedTransmits(s, m, outcome, hasCallback);
    } else if Encode(m).Err? {
      TransmitUnencodable(s, m, outcome, hasCallback);
    } else {
      TransmitSucceeds(s, m, outcome, hasCallback);
    }
  }

  // The send is counted, and written if it could be encoded and was.
  function WrittenFirst(s: Session, m: Message, wrote: bool): Session {
    if wrote && Encode(m).Ok? then Emit(CountSend(s, m.room), m) else CountSend(s, m.room)
  }

  lemma CountedOrWritten(s: Session, m: Message, wrote: bool)
    requires Keeps(s) && Legal(s, m)
    ensures var t := WrittenFirst(s, m, wrote); Good(s, t) && Reserved(t, m.room, SlotOf(s, m.room).sends)
  {
    ProtocolProofs.EncodeSucceedsExactly(m);
    hide WithinBounds, Encode, Keeps, Shrinks, SendsForward, LossesAnnounced, SlotOf, Reserved, Legal, CountSend;
    CountSendKeeps(s, m.room);
    if Encode(m).Ok? {
      Counted(s, m, wrote);
    }
  }

  lemma FailedTransmits(s: Session, m: Message, outcome: Outcome, hasCallback: bool)
    requires outcome.Failed?
    requires var t := LogCall(SendError(WrittenFirst(s, m, outcome.wrote), outcome.cleanup), m.room, SlotOf(s, m.room).sends, true, hasCallback);
             Good(s, t) && Dead(t)
    ensures !Transmit(s, m, outcome, hasCallback).1
    ensures Transmitted(s, m, Transmit(s, m, outcome, hasCallback).0, false)
  {
    hide Good, Encode, SlotOf, Emit, CountSend, LogCall;
  }

  lemma {:induction false} SendErrorKeeps(s: Session, scripts: Cleanup)
    requires Keeps(s)
    ensures Good(s, SendError(s, scripts)) && Dead(SendError(s, scripts))
    decreases scripts, |s.rooms.keys| + 1, 1
  {
    CleanupKeeps(s, scripts);
    CleanThenFail(s, CleanupRooms(s, scripts));
  }

  /** Cleaning up serves no room afterwards, whatever the listeners do meanwhile. */
  lemma {:induction false} CleanupKeeps(s: Session, scripts: Cleanup)
    requires Keeps(s)
    ensures var t := CleanupRooms(s, scripts); Keeps(t) && Mild(s, t) && t.rooms.IsEmpty()
    decreases scripts, |s.rooms.keys| + 1, 0
  {
    SnapshotCovers(s);
    hide Keeps, Mild, Covers;
    assert |Snapshot(s)| == |s.rooms.keys|;
    CleanEachKeeps(s, Snapshot(s), scripts);
  }

  lemma {:induction false} CleanEachKeeps(s: Session, ids: seq<AdapterId>, scripts: Cleanup)
    requires Keeps(s) && Covers(s, ids)
    ensures var t := CleanEach(s, ids, scripts); Keeps(t) && Mild(s, t) && t.rooms.IsEmpty()
    decreases scripts, |ids|, 0
  {
    if ids == [] {
      MildReflexive(s);
      CoveredByNothing(s);
    } else if scripts.Unscripted? {
      CleanQuietlyKeeps(s, ids);
    } else {
      var expecting := Expect(s, ids[0], PhysicalConnectionClose);
      var next := Close(expecting, ids[0], PhysicalConnectionClose, scripts.first);
      ExpectKeeps(s, ids[0], PhysicalConnectionClose);
      CloseKeeps(expecting, ids[0], PhysicalConnectionClose, scripts.first);
      hide Core, Keeps, Shrinks, SendsForward, Expect, IsOpen, Covers;
      MildTransitive(s, expecting, next);
      CleanStep(s, next, ids);
      CleanEachKeeps(next, ids[1..], scripts.rest);
      MildTransitive(s, next, CleanEach(next, ids[1..], scripts.rest));
    }
  }

  lemma CleanStep(s: Session, next: Session, ids: seq<AdapterId>)
    requires ids != [] && Covers(s, ids) && Mild(s, next) && Keeps(next) && !IsOpen(next, ids[0])
    ensures Covers(next, ids[1..])
  {
    CoversTheRest(s, next, ids);
  }

  // Whether closing this adapter is in order: the listener will name its closer.
  ghost predicate Closable(s: Session, id: AdapterId, closer: CloseReason) {
    && Core(s)
    && (forall x | x in s.expected && x != id :: Past(s, x))
    && (if IsOpen(s, id) then Named(s, id, closer) else ExpectedOk(s))
  }

  lemma StaysClosed(s: Session, t: Session, id: AdapterId)
    requires Shrinks(s, t) && !IsOpen(s, id)
    ensures !IsOpen(t, id)
  {
    assert |SlotOf(t, id.room).adapters| == |SlotOf(s, id.room).adapters|;
    if Exists(s, id) {
      assert AdapterForward(SlotOf(s, id.room).adapters[id.serial], SlotOf(t, id.room).adapters[id.serial]);
    }
  }

  lemma StaysClosedBy(s: Session, t: Session, id: AdapterId, closer: CloseReason)
    requires Shrinks(s, t) && ClosedBy(s, id, closer)
    ensures ClosedBy(t, id, closer)
  {
    assert |SlotOf(t, id.room).adapters| == |SlotOf(s, id.room).adapters|;
    assert AdapterForward(SlotOf(s, id.room).adapters[id.serial], SlotOf(t, id.room).adapters[id.serial]);
  }

  // Losses after the closing itself are announced; the closed room is the one that may not be.
  lemma LossesAfterClosing(s: Session, told: Session, t: Session, room: Text)
    requires told.rooms == Delete(s.rooms, room) && told.out == s.out && LossesAnnounced(told, t)
    ensures LossesAnnouncedBut(s, t, room)
  {
    hide Delete;
    forall r | t.physical.OPEN? && r in s.rooms.entries && r !in t.rooms.entries && r != room
      ensures Announced(t, r, |s.out|)
    {
      assert r in told.rooms.entries;
      assert Announced(t, r, |told.out|);
    }
  }

  // The notice of a closing that the server itself decided.
  lemma NoticeAnnounces(s: Session, told: Session, notified: Session, t: Session, room: Text, ok: bool)
    requires told.out == s.out && told.physical == s.physical
    requires Transmitted(told, RoomClosed(room, ROOM_INTERRUPTED_CLOSE_CODE), notified, ok) && Shrinks(notified, t)
    requires LossesAnnouncedBut(s, t, room)
    ensures LossesAnnounced(s, t)
  {
    hide Keeps, SlotOf, Dead;
    if t.physical.OPEN? {
      assert notified.physical.OPEN?;
      assert Shrinks(told, notified);
      assert !ok ==> !notified.physical.OPEN? by {
        NotOpenWhenDead(notified);
      }
      assert told.physical.OPEN?;
      assert t.out[|s.out|] == notified.out[|s.out|];
      assert Announced(t, room, |s.out|);
    }
  }

  lemma NotOpenWhenDead(s: Session)
    ensures Dead(s) ==> !s.physical.OPEN?
  {
  }

  lemma GoodReflexive(s: Session)
    requires Keeps(s)
    ensures Good(s, s)
  {
    MildReflexive(s);
  }

  lemma TransmittedIsGood(s: Session, m: Message, t: Session, ok: bool)
    requires Transmitted(s, m, t, ok)
    ensures Good(s, t)
  {
    hide Good;
  }

  lemma ReportOfKept(s: Session, id: AdapterId, closer: CloseReason)
    requires Keeps(s) && ClosedBy(s, id, closer)
    ensures Reported(s, id, closer)
  {
    ReportIsMade(s, id, closer);
  }

  // The closing and what followed it, put together.
  lemma CloseDone(s: Session, told: Session, t: Session, id: AdapterId, closer: CloseReason)
    requires Mild(s, told) && told.rooms == Delete(s.rooms, id.room) && told.out == s.out && ClosedBy(told, id, closer)
    requires Good(told, t)
    ensures Keeps(t) && Mild(s, t) && LossesAnnouncedBut(s, t, id.room)
    ensures Reported(t, id, closer) && !IsOpen(t, id) && id.room !in t.rooms.entries
  {
    assert id.room !in told.rooms.entries;
    StaysClosedBy(told, t, id, closer);
    hide Core, SlotOf, Delete, ReportsOf;
    ReportOfKept(t, id, closer);
    hide Keeps, IsOpen, ClosedBy;
    MildTransitive(s, told, t);
    LossesAfterClosing(s, told, t, id.room);
  }

  lemma NothingToAnnounce(s: Session, t: Session)
    requires Mild(s, t) && !s.physical.OPEN?
    ensures LossesAnnounced(s, t)
  {
  }

  // The closing up to its notice, which is owed exactly for the server's own on an open socket.
  lemma ClosingStarts(s: Session, id: AdapterId, closer: CloseReason)
    requires Closable(s, id, closer) && IsOpen(s, id)
    ensures var told := CloseCore(s, id, closer);
            && Keeps(told) && Mild(s, told) && told.rooms == Delete(s.rooms, id.room)
            && told.out == s.out && told.physical == s.physical && ClosedBy(told, id, closer)
            && Legal(told, RoomClosed(id.room, ROOM_INTERRUPTED_CLOSE_CODE))
            && (NeedsNotice(s, id) <==> closer == ServerRoomClose && s.physical.OPEN?)
  {
    hide Core, Keeps, Mild, CloseCore, Delete, ClosedBy, IsOpen, Past;
    OpenIsActive(s, id);
    CloseCoreKeeps(s, id, closer);
  }

  lemma OpenIsActive(s: Session, id: AdapterId)
    requires Core(s) && IsOpen(s, id)
    ensures Active(s, id.room) == Some(id.serial)
  {
  }

  lemma {:induction false} CloseKeeps(s: Session, id: AdapterId, closer: CloseReason, how: Closing)
    requires Closable(s, id, closer)
    ensures var t := Close(s, id, closer, how);
            && Keeps(t) && Mild(s, t) && !IsOpen(t, id)
            && (IsOpen(s, id) ==> Reported(t, id, closer) && id.room !in t.rooms.entries)
            && LossesAnnouncedBut(s, t, id.room)
            && (closer == ServerRoomClose ==> LossesAnnounced(s, t))
    decreases how, 0, 0
  {
    if !IsOpen(s, id) {
      MildReflexive(s);
      hide Reported;
    } else {
      var notice := RoomClosed(id.room, ROOM_INTERRUPTED_CLOSE_CODE);
      var told := CloseCore(s, id, closer);
      ClosingStarts(s, id, closer);
      hide Closable, Core, Keeps, Mild, Good, Transmitted, IsOpen, Legal, NeedsNotice, Active, Named, CloseCore, Delete, LossesAnnounced, LossesAnnouncedBut, WasHanded, Reported, ClosedBy;
      var (noticed, ok) := Transmit(told, notice, how.notice, false);
      TransmitKeeps(told, notice, how.notice, false);
      TransmittedIsGood(told, notice, noticed, ok);
      GoodReflexive(told);
      var notified := if NeedsNotice(s, id) then noticed else told;
      assert Keeps(notified) by { GoodKeeps(told, notified); }
      GoodReflexive(notified);
      RunKeeps(notified, how.listener);
      var t := if WasHanded(s, id) then Run(notified, how.listener) else notified;
      GoodTransitive(told, notified, t);
      CloseDone(s, told, t, id, closer);
      if closer == ServerRoomClose {
        CloseAnnounces(s, told, notified, t, id.room, ok);
      }
    }
  }

  // The server's own closing is announced while the socket is open.
  lemma CloseAnnounces(s: Session, told: Session, notified: Session, t: Session, room: Text, ok: bool)
    requires told.out == s.out && told.physical == s.physical && Good(notified, t) && Mild(s, t) && LossesAnnouncedBut(s, t, room)
    requires s.physical.OPEN? ==> Transmitted(told, RoomClosed(room, ROOM_INTERRUPTED_CLOSE_CODE), notified, ok)
    ensures LossesAnnounced(s, t)
  {
    hide Keeps, Shrinks, SendsForward, LossesAnnounced, LossesAnnouncedBut, Transmitted;
    if s.physical.OPEN? {
      NoticeAnnounces(s, told, notified, t, room, ok);
    } else {
      NothingToAnnounce(s, t);
    }
  }

  lemma GoodKeeps(s: Session, t: Session)
    requires Good(s, t)
    ensures Keeps(t)
  {
  }

  lemma GoodShrinks(s: Session, t: Session)
    requires Good(s, t)
    ensures Shrinks(s, t)
  {
  }

  lemma LegalData(s: Session, id: AdapterId, payload: Bytes)
    requires Keeps(s) && WasHanded(s, id) && IsOpen(s, id)
    ensures Legal(s, Data(id.room, payload))
  {
    assert Active(s, id.room) == Some(id.serial);
  }

  lemma {:induction false} SendOnKeeps(s: Session, id: AdapterId, payload: Bytes, how: Sending)
    requires Keeps(s) && WasHanded(s, id)
    ensures Good(s, SendOn(s, id, payload, how))
    decreases how, 1, 0
  {
    hide Keeps, Good, IsOpen, WasHanded, Encode, Refuse;
    GoodReflexive(s);
    if IsOpen(s, id) {
      SentKeeps(s, id, payload, how);
    } else if how.callback.Calls? {
      var refused := Refuse(s, id.room);
      RefuseKeeps(s, id.room);
      GoodKeeps(s, refused);
      RunKeeps(refused, how.callback.script);
      GoodTransitive(s, refused, Run(refused, how.callback.script));
    }
  }

  // The send itself, and the callback if it runs at once.
  lemma {:induction false} SentKeeps(s: Session, id: AdapterId, payload: Bytes, how: Sending)
    requires Keeps(s) && WasHanded(s, id) && IsOpen(s, id)
    ensures var sent := Transmit(s, Data(id.room, payload), how.outcome, how.callback.Calls?).0;
            Good(s, sent) && (how.callback.Calls? ==> Good(s, Run(sent, how.callback.script)))
    decreases how, 0, 1
  {
    hide Keeps, Good, Transmitted, Legal, IsOpen, WasHanded, Encode;
    var m := Data(id.room, payload);
    LegalData(s, id, payload);
    var (sent, ok) := Transmit(s, m, how.outcome, how.callback.Calls?);
    TransmitKeeps(s, m, how.outcome, how.callback.Calls?);
    TransmittedIsGood(s, m, sent, ok);
    GoodKeeps(s, sent);
    if how.callback.Calls? {
      RunKeeps(sent, how.callback.script);
      GoodTransitive(s, sent, Run(sent, how.callback.script));
    }
  }

  lemma {:induction false} ApplyKeeps(s: Session, op: Op)
    requires Keeps(s)
    ensures Good(s, Apply(s, op))
    decreases op, 0, 0
  {
    GoodReflexive(s);
    match op
    case Send(id, payload, how) =>
      hide Keeps, Good, SendOn;
      if WasHanded(s, id) {
        SendOnKeeps(s, id, payload, how);
      }
    case CloseAdapter(id, closing) =>
      if IsOpen(s, id) {
        assert Named(s, id, ServerRoomClose);
      }
      hide Core, Shrinks, SendsForward, Close, IsOpen, WasHanded;
      CloseKeeps(s, id, ServerRoomClose, closing);
  }

  /** Whatever y-websocket does within a callback, as deep as it goes. */
  lemma {:induction false} RunKeeps(s: Session, script: Script)
    requires Keeps(s)
    ensures Good(s, Run(s, script))
    decreases script, 0, 0
  {
    GoodReflexive(s);
    match script
    case Stop =>
    case Do(op, next) =>
      hide Keeps, Good, Apply;
      ApplyKeeps(s, op);
      GoodKeeps(s, Apply(s, op));
      RunKeeps(Apply(s, op), next);
      GoodTransitive(s, Apply(s, op), Run(Apply(s, op), next));
  }
}
