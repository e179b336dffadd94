/**
  Every listener and callback that the session owes is run. What a script does is
  seen by what it closes: an adapter that the script closes is closed afterwards.
*/
module MultiplexSessionListeners {
  import opened Basics
  import opened Sockets
  import opened Unicode
  import opened Protocol
  import opened OrderedMap
  import opened MultiplexSession
  import opened MultiplexSessionProofs
  import opened MultiplexSessionSteps
  import opened MultiplexSessionSends
  import opened MultiplexSessionEndings
  import ProtocolProofs

  /** The script itself, not a callback that it leads to, closes the adapter. */
  predicate ClosesItself(script: Script, id: AdapterId) {
    script.Do? && ((script.op.CloseAdapter? && script.op.id == id) || ClosesItself(script.next, id))
  }

  lemma HandedStays(s: Session, t: Session, id: AdapterId)
    requires Good(s, t) && WasHanded(s, id)
    ensures WasHanded(t, id)
  {
    assert AdapterForward(SlotOf(s, id.room).adapters[id.serial], SlotOf(t, id.room).adapters[id.serial]);
    assert |SlotOf(t, id.room).adapters| == |SlotOf(s, id.room).adapters|;
    hide Keeps, SlotOf, AdapterForward, SendsForward, LossesAnnounced;
  }

  lemma GoodStaysClosed(s: Session, t: Session, id: AdapterId)
    requires Good(s, t) && !IsOpen(s, id)
    ensures !IsOpen(t, id)
  {
    hide Keeps, Shrinks, SendsForward, LossesAnnounced, IsOpen;
    StaysClosed(s, t, id);
  }

  lemma OpCloses(s: Session, id: AdapterId, closing: Closing)
    requires Keeps(s) && WasHanded(s, id)
    ensures !IsOpen(Apply(s, CloseAdapter(id, closing)), id)
  {
    if IsOpen(s, id) {
      assert Named(s, id, ServerRoomClose);
    }
    hide Core, Mild, Close, IsOpen, WasHanded, Reported, LossesAnnounced, LossesAnnouncedBut;
    CloseKeeps(s, id, ServerRoomClose, closing);
  }

  /** A script that runs does what it says. */
  lemma {:induction false} RunCloses(s: Session, script: Script, id: AdapterId)
    requires Keeps(s) && WasHanded(s, id) && ClosesItself(script, id)
    ensures !IsOpen(Run(s, script), id)
    decreases script
  {
    hide Keeps, Good, Apply, IsOpen, WasHanded;
    var next := Apply(s, script.op);
    ApplyKeeps(s, script.op);
    GoodKeeps(s, next);
    RunKeeps(next, script.next);
    if script.op.CloseAdapter? && script.op.id == id {
      OpCloses(s, id, script.op.closing);
      GoodStaysClosed(next, Run(next, script.next), id);
    } else {
      HandedStays(s, next, id);
      RunCloses(next, script.next, id);
    }
  }

  /** Data for a served room reaches y-websocket's listener. */
  lemma DataIsHeard(s: Session, room: Text, payload: Bytes, choices: Choices, id: AdapterId)
    requires Inv(s) && s.physical.OPEN? && s.rooms.Has(room) && WasHanded(s, AdapterId(room, s.rooms.entries[room]))
    requires WasHanded(s, id) && ClosesItself(choices.script, id)
    ensures !IsOpen(HandleMessage(s, Protocol.Message.Data(room, payload), choices), id)
  {
    var active := AdapterId(room, s.rooms.entries[room]);
    var delivered := Deliver(s, active, payload);
    DeliverServes(s, room, payload);
    hide Inv, Keeps, Serves, Deliver, IsOpen, WasHanded, ClosesItself, Run;
    ServedHandedStays(s, Protocol.Message.Data(room, payload), delivered, id);
    ServedHandedStays(s, Protocol.Message.Data(room, payload), delivered, active);
    RunCloses(delivered, choices.script, id);
  }

  lemma ServedHandedStays(s: Session, m: Message, t: Session, id: AdapterId)
    requires Serves(s, m, t) && WasHanded(s, id)
    ensures Keeps(t) && WasHanded(t, id)
  {
    assert Ages(SlotOf(s, id.room).adapters[id.serial], SlotOf(t, id.room).adapters[id.serial]);
    hide Keeps, SlotOf, RoomsFrom, Delivers, Tells, Free;
  }

  /** A callback that waited is run when its send completes. */
  lemma CompletionIsHeard(s: Session, room: Text, send: nat, error: bool, cleanup: Cleanup, callback: Script, id: AdapterId)
    requires Inv(s) && send in SlotOf(s, room).waiting && SlotOf(s, room).waiting[send]
    requires WasHanded(s, id) && ClosesItself(callback, id)
    ensures !IsOpen(Step(s, Completed(room, send, error, cleanup, callback)), id)
  {
    var taken := Taken(s, room, send);
    var handled := if error then SendError(taken, cleanup) else taken;
    var called := LogCall(handled, room, send, error, true);
    assert Step(s, Completed(room, send, error, cleanup, callback)) == Run(called, callback) by { hide SendError, LogCall, Run, Keeps; }
    hide Keeps, Shrinks, SendsForward, LossesAnnounced, Reserved, Taken, SendError, LogCall, Run, ClosesItself, IsOpen, WasHanded, SlotOf;
    TakenKeeps(s, room, send);
    HandedStays(s, taken, id);
    GoodReflexive(taken);
    SendErrorKeeps(taken, cleanup);
    HandedStays(taken, handled, id);
    ReservedKept(taken, handled, room, send);
    LogCallKeeps(handled, room, send, error, true);
    PlainHandedStays(handled, called, id);
    RunCloses(called, callback, id);
  }

  lemma PlainHandedStays(s: Session, t: Session, id: AdapterId)
    requires Plain(s, t) && WasHanded(s, id)
    ensures WasHanded(t, id)
  {
    assert SlotOf(t, id.room).adapters == SlotOf(s, id.room).adapters;
    hide SlotOf;
  }

  lemma SendShape(s: Session, from: AdapterId, payload: Bytes, how: Sending)
    requires WasHanded(s, from) && how.callback.Calls?
    requires IsOpen(s, from) ==> !how.outcome.Queued? || Encode(Data(from.room, payload)).Err?
    ensures Step(s, Adapters(Send(from, payload, how))) == SendOn(s, from, payload, how)
            == Run(if IsOpen(s, from) then Transmit(s, Data(from.room, payload), how.outcome, true).0 else Refuse(s, from.room), how.callback.script)
  {
    hide IsOpen, WasHanded, Encode, Refuse;
  }

  /** The callback of a send is run at once if the adapter is closed, or the send completes or fails at once. */
  lemma SendIsHeard(s: Session, from: AdapterId, payload: Bytes, how: Sending, id: AdapterId)
    requires Inv(s) && WasHanded(s, from) && how.callback.Calls?
    requires IsOpen(s, from) ==> !how.outcome.Queued? || !WithinBounds(Data(from.room, payload))
    requires WasHanded(s, id) && ClosesItself(how.callback.script, id)
    ensures !IsOpen(Step(s, Adapters(Send(from, payload, how))), id)
  {
    hide Keeps, Good, IsOpen, WasHanded, Encode, WithinBounds, ClosesItself, Run, Transmit, Transmitted, Legal, Refuse, Step;
    var m := Data(from.room, payload);
    ProtocolProofs.EncodeSucceedsExactly(m);
    SendShape(s, from, payload, how);
    var sent := if IsOpen(s, from) then Transmit(s, m, how.outcome, true).0 else Refuse(s, from.room);
    if IsOpen(s, from) {
      LegalData(s, from, payload);
      TransmitKeeps(s, m, how.outcome, true);
      TransmittedIsGood(s, m, sent, Transmit(s, m, how.outcome, true).1);
    } else {
      RefuseKeeps(s, from.room);
    }
    GoodKeeps(s, sent);
    HandedStays(s, sent, id);
    RunCloses(sent, how.callback.script, id);
  }

  /** Whoever closes a handed adapter, y-websocket's close listener is run. */
  lemma ClosingIsHeard(s: Session, closed: AdapterId, closer: CloseReason, how: Closing, id: AdapterId)
    requires Closable(s, closed, closer) && IsOpen(s, closed) && WasHanded(s, closed)
    requires WasHanded(s, id) && ClosesItself(how.listener, id)
    ensures !IsOpen(Close(s, closed, closer, how), id)
  {
    var notice := RoomClosed(closed.room, ROOM_INTERRUPTED_CLOSE_CODE);
    var told := CloseCore(s, closed, closer);
    var notified := if NeedsNotice(s, closed) then Transmit(told, notice, how.notice, false).0 else told;
    assert Close(s, closed, closer, how) == Run(notified, how.listener) by { hide CloseCore, NeedsNotice, Transmit, Run; }
    ClosingStarts(s, closed, closer);
    hide Closable, Core, Keeps, Mild, Good, Transmitted, IsOpen, Legal, NeedsNotice, CloseCore, Delete, ClosedBy, Run, Transmit, ClosesItself, WasHanded;
    MildHandedStays(s, told, id);
    TransmitKeeps(told, notice, how.notice, false);
    TransmittedIsGood(told, notice, Transmit(told, notice, how.notice, false).0, Transmit(told, notice, how.notice, false).1);
    GoodReflexive(told);
    GoodKeeps(told, notified);
    HandedStays(told, notified, id);
    RunCloses(notified, how.listener, id);
  }

  lemma MildHandedStays(s: Session, t: Session, id: AdapterId)
    requires Mild(s, t) && WasHanded(s, id)
    ensures WasHanded(t, id)
  {
    assert AdapterForward(SlotOf(s, id.room).adapters[id.serial], SlotOf(t, id.room).adapters[id.serial]);
    assert |SlotOf(t, id.room).adapters| == |SlotOf(s, id.room).adapters|;
    hide SlotOf, AdapterForward, SendsForward;
  }

  /** So it is when the client unsubscribes. */
  lemma UnsubscribeIsHeard(s: Session, room: Text, choices: Choices, id: AdapterId)
    requires Inv(s) && s.physical.OPEN? && s.rooms.Has(room) && WasHanded(s, AdapterId(room, s.rooms.entries[room]))
    requires WasHanded(s, id) && ClosesItself(choices.script, id)
    ensures !IsOpen(HandleMessage(s, Unsubscribe(room), choices), id)
  {
    hide Inv, Core, Keeps, Mild, Closable, IsOpen, WasHanded, ClosesItself, Close, LossesAnnounced, Past, Named, Expect;
    var active := AdapterId(room, s.rooms.entries[room]);
    var expecting := Expect(s, active, ClientUnsubscribe);
    MayBeLeft(s, room);
    MildHandedStays(s, expecting, active);
    MildHandedStays(s, expecting, id);
    ClosingIsHeard(expecting, active, ClientUnsubscribe, Closing(choices.reply, choices.script), id);
  }

  lemma MayBeLeft(s: Session, room: Text)
    requires Inv(s) && s.rooms.Has(room)
    ensures var active := AdapterId(room, s.rooms.entries[room]);
            var expecting := Expect(s, active, ClientUnsubscribe);
            Closable(expecting, active, ClientUnsubscribe) && IsOpen(expecting, active) && Mild(s, expecting)
  {
    var active := AdapterId(room, s.rooms.entries[room]);
    assert IsOpen(s, active);
    ExpectKeeps(s, active, ClientUnsubscribe);
    hide Core, Keeps, Mild, IsOpen, LossesAnnounced, Past;
  }

  /** A newcomer is given to y-websocket, which may use it at once. */
  lemma NewcomerIsHeard(s: Session, room: Text, choices: Choices)
    requires Inv(s) && s.physical.OPEN? && !s.rooms.Has(room) && Sendable(room, choices.reply)
    requires ClosesItself(choices.script, AdapterId(room, |SlotOf(s, room).adapters|))
    ensures !IsOpen(AddRoom(s, room, choices), AdapterId(room, |SlotOf(s, room).adapters|))
  {
    var id := AdapterId(room, |SlotOf(s, room).adapters|);
    var m := Subscribed(room);
    var stored := OpenRoom(s, room);
    var acknowledged := Transmit(stored, m, choices.reply, false).0;
    OpenRoomHandles(s, room, []);
    HandledKeeps(s, Subscribe(room, []), stored);
    ProtocolProofs.EncodeSucceedsExactly(m);
    assert WithinBounds(m) <==> 1 <= |EncodeText(room)| <= 512 by { hide EncodeText; }
    hide Inv, Keeps, Handles, Serves, Free, Legal, Good, OpenRoom, HandOver, Transmit, Transmitted, Encode, WithinBounds, EncodeText, Run, ClosesItself;
    hide IsOpen, WasHanded, SlotOf, Exists, Acknowledged, HandedOver, Moves;
    TransmitSucceeds(stored, m, choices.reply, false);
    AcknowledgedServes(s, room, [], acknowledged, true);
    KeptByServing(s, Subscribe(room, []), acknowledged);
    HandOverKeeps(acknowledged, id);
    HandOverAdapters(acknowledged, id);
    RunCloses(HandOver(acknowledged, id), choices.script, id);
  }

  lemma KeptByServing(s: Session, m: Message, t: Session)
    requires Serves(s, m, t)
    ensures Keeps(t)
  {
  }
}
