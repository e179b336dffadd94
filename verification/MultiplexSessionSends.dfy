/** What becomes of a send: written, called back, or failed, which ends the session. */
module MultiplexSessionSends {
  import opened Basics
  import opened Sockets
  import opened Unicode
  import opened Protocol
  import opened OrderedMap
  import opened MultiplexSession
  import opened MultiplexSessionProofs
  import opened MultiplexSessionSteps
  import opened MultiplexSessionRuns
  import ProtocolProofs

  // ---------- failed sends ----------

  /** No room is left and the socket is not open; if it was, it has been closed with 1011 and with nothing else. */
  predicate FailedAfter(s: Session, t: Session) {
    && t.rooms.entries == map[] && !t.physical.OPEN?
    && (s.physical.OPEN? ==> t.physical.CLOSING? && t.closes == s.closes + [1011])
  }

  lemma ShrinksIsFailed(s: Session, t: Session)
    requires Keeps(t) && Shrinks(s, t) && Dead(t)
    ensures FailedAfter(s, t)
  {
    SizeOf(t.rooms);
    hide AdaptersOk, MetricsOk, ReportsOk, OutOk, CallsOk, SlotOf, IsOpen, AdapterForward;
  }

  lemma GoodIsFailed(s: Session, t: Session)
    requires Good(s, t) && Dead(t)
    ensures FailedAfter(s, t)
  {
    hide Keeps, Shrinks, SendsForward, LossesAnnounced, FailedAfter;
    ShrinksIsFailed(s, t);
  }

  /**
    A pending send that reports an error ends the session, whether or not anybody
    asked to be called back; whoever did is told of the error. One that reports
    success is told of as such.
  */
  lemma CompletionDecides(s: Session, room: Text, send: nat, error: bool, cleanup: Cleanup, callback: Script)
    requires Inv(s) && send in SlotOf(s, room).waiting
    ensures var t := Step(s, Completed(room, send, error, cleanup, callback));
            && (error ==> FailedAfter(s, t))
            && (SlotOf(s, room).waiting[send] ==> CalledBack(s, t, room, send, error))
            && send !in SlotOf(t, room).waiting
  {
    CompleteKeeps(s, room, send, error, cleanup, callback);
    var t := Complete(s, room, send, error, cleanup, callback);
    hide Keeps, Shrinks, SendsForward, LossesAnnounced, FailedAfter, Complete, CalledBack, SlotOf;
    if error {
      ShrinksIsFailed(s, t);
    }
    CompletedIsGone(s, room, send, error, cleanup, callback);
  }

  lemma CompletedIsGone(s: Session, room: Text, send: nat, error: bool, cleanup: Cleanup, callback: Script)
    requires Inv(s) && send in SlotOf(s, room).waiting
    ensures send !in SlotOf(Complete(s, room, send, error, cleanup, callback), room).waiting
  {
    var taken := Taken(s, room, send);
    var handled := if error then SendError(taken, cleanup) else taken;
    var called := LogCall(handled, room, send, error, SlotOf(s, room).waiting[send]);
    TakenKeeps(s, room, send);
    GoodReflexive(taken);
    SendErrorKeeps(taken, cleanup);
    ReservedKept(taken, handled, room, send);
    assert handled.slots == called.slots;
    assert send !in SlotOf(called, room).waiting && send < SlotOf(called, room).sends;
    hide Keeps, Shrinks, LossesAnnounced, Taken, SendError, LogCall;
    LogCallKeeps(handled, room, send, error, SlotOf(s, room).waiting[send]);
    RunKeeps(called, callback);
  }

  lemma {:induction false} AfterBoth(s: Session, first: seq<Event>, second: seq<Event>)
    ensures After(s, first + second) == After(After(s, first), second)
  {
    hide Step;
    if second == [] {
      assert first + second == first;
    } else {
      AfterBoth(s, first, second[..|second| - 1]);
      assert (first + second)[..|first + second| - 1] == first + second[..|second| - 1];
    }
  }

  /** Event number k reports that a send which was pending has failed. */
  predicate FailureAt(s: Session, events: seq<Event>, k: nat)
    requires k < |events|
  {
    events[k].Completed? && events[k].error && events[k].send in SlotOf(After(s, events[..k]), events[k].room).waiting
  }

  /** Over every run: once a pending send has been reported as failed, no room is served and the socket is not open, for good. */
  lemma AFailureIsTheEnd(grant: Payload, events: seq<Event>, k: nat)
    requires k < |events| && FailureAt(Start(grant), events, k)
    ensures var t := After(Start(grant), events); t.rooms.entries == map[] && !t.physical.OPEN?
  {
    hide Inv, Moves, Keeps, Shrinks, LossesAnnounced, CalledBack, After, Complete, SlotOf, Step;
    var s := After(Start(grant), events[..k]);
    var e := events[k];
    ReachableInv(grant, events[..k]);
    assert events == events[..k] + [e] + events[k + 1..];
    AfterBoth(Start(grant), events[..k], [e]);
    AfterBoth(Start(grant), events[..k] + [e], events[k + 1..]);
    AfterOne(s, e);
    FailedAndShut(s, e);
    ShutdownIsAbsorbing(Step(s, e), events[k + 1..]);
  }

  lemma AfterOne(s: Session, event: Event)
    ensures After(s, [event]) == Step(s, event)
  {
    hide Step;
    assert [event][..0] == [];
  }

  lemma FailedAndShut(s: Session, e: Event)
    requires Inv(s) && e.Completed? && e.error && e.send in SlotOf(s, e.room).waiting
    ensures Inv(Step(s, e)) && Dead(Step(s, e))
  {
    StepKeeps(s, e);
    hide Keeps, Moves, Shrinks, LossesAnnounced, CalledBack, Complete, SlotOf;
    CompleteKeeps(s, e.room, e.send, true, e.cleanup, e.callback);
  }

  /** A transmission that fails at once, or cannot be encoded, ends the session in the same way, whoever asked to be called back. */
  lemma FailedTransmissionEnds(s: Session, m: Message, outcome: Outcome, hasCallback: bool)
    requires Keeps(s) && Legal(s, m) && (outcome.Failed? || !WithinBounds(m))
    ensures var (t, sent) := Transmit(s, m, outcome, hasCallback);
            && Good(s, t) && !sent && Dead(t) && FailedAfter(s, t)
            && (hasCallback ==> CalledBack(s, t, m.room, SlotOf(s, m.room).sends, true))
  {
    var (t, sent) := Transmit(s, m, outcome, hasCallback);
    ProtocolProofs.EncodeSucceedsExactly(m);
    hide WithinBounds, Encode, FailedAfter, CalledBack, Legal;
    if outcome.Failed? {
      FailedAtOnce(s, m, outcome, hasCallback);
    } else {
      TransmitUnencodable(s, m, outcome, hasCallback);
      if hasCallback {
        UnencodableIsCalled(s, m, outcome);
      }
    }
    GoodIsFailed(s, t);
  }

  lemma FailedAtOnce(s: Session, m: Message, outcome: Outcome, hasCallback: bool)
    requires Keeps(s) && Legal(s, m) && outcome.Failed?
    ensures var (t, sent) := Transmit(s, m, outcome, hasCallback);
            && Good(s, t) && !sent && Dead(t)
            && (hasCallback ==> CalledBack(s, t, m.room, SlotOf(s, m.room).sends, true))
  {
    var (t, sent) := Transmit(s, m, outcome, hasCallback);
    var written := WrittenFirst(s, m, outcome.wrote);
    var failed := SendError(written, outcome.cleanup);
    assert t == LogCall(failed, m.room, SlotOf(s, m.room).sends, true, hasCallback) && !sent by {
      hide SendError, LogCall, Encode, SlotOf, Emit, CountSend;
    }
    CountedOrWritten(s, m, outcome.wrote);
    SendErrorKeeps(written, outcome.cleanup);
    hide Keeps, Shrinks, LossesAnnounced, Legal, Transmit, SendError, CalledBack, LogCall, WrittenFirst, SlotOf, Reserved;
    FailureLogged(s, written, failed, m.room, hasCallback);
    if hasCallback {
      CallIsLogged(s, failed, t, m.room, SlotOf(s, m.room).sends, true);
    }
  }

  lemma UnencodableIsCalled(s: Session, m: Message, outcome: Outcome)
    requires Keeps(s) && Encode(m).Err? && !outcome.Failed?
    ensures CalledBack(s, Transmit(s, m, outcome, true).0, m.room, SlotOf(s, m.room).sends, true)
  {
    var counted := CountSend(s, m.room);
    var cleaned := CleanQuietly(counted, Snapshot(counted));
    CountSendKeeps(s, m.room);
    assert RoomsOk(counted);
    SnapshotCovers(counted);
    hide Encode, Keeps, Shrinks, LossesAnnounced, Reserved, Covers, Snapshot, CountSend, CalledBack, SlotOf, CleanQuietly;
    CleanQuietlyKeeps(counted, Snapshot(counted));
    CallIsLogged(s, FailPhysical(cleaned), Transmit(s, m, outcome, true).0, m.room, SlotOf(s, m.room).sends, true);
  }

  // ---------- what an adapter sends and closes ----------

  /** The callback has been run with no error, or is awaited, or none was asked for. */
  predicate Pending(s: Session, t: Session, room: Text, how: Sending) {
    var send := SlotOf(s, room).sends;
    if how.outcome.Accepted? then how.callback.Calls? ==> CalledBack(s, t, room, send, false)
    else send in SlotOf(t, room).waiting && (SlotOf(t, room).waiting[send] <==> how.callback.Calls?)
  }

  /**
    What y-websocket sends on an open adapter: while the socket is open, the next
    frame is its data, and the callback waits for the outcome; a send that fails or
    has nothing to send ends the session and says so to the callback.
  */
  lemma SendIsWritten(s: Session, id: AdapterId, payload: Bytes, how: Sending)
    requires Inv(s) && WasHanded(s, id) && IsOpen(s, id)
    ensures var t := Step(s, Adapters(Send(id, payload, how)));
            if how.outcome.Failed? || !WithinBounds(Data(id.room, payload)) then
              && FailedAfter(s, t)
              && (how.callback.Calls? ==> CalledBack(s, t, id.room, SlotOf(s, id.room).sends, true))
            else
              && (s.physical.OPEN? ==> |s.out| < |t.out| && t.out[|s.out|] == Emitted(Data(id.room, payload), Some(id.serial)))
              && (how.outcome.Queued? || how.callback.NoCallback? ==> Pending(s, t, id.room, how) && t.rooms == s.rooms && t.physical == s.physical)
              && (how.outcome.Accepted? && how.callback.Calls? ==> CalledBack(s, t, id.room, SlotOf(s, id.room).sends, false))
  {
    var m := Data(id.room, payload);
    LegalData(s, id, payload);
    OpenIsActive(s, id);
    ProtocolProofs.EncodeSucceedsExactly(m);
    hide Keeps, WithinBounds, Encode, Legal, FailedAfter, CalledBack, Pending, Active, SlotOf;
    if how.outcome.Failed? || !WithinBounds(m) {
      SendFails(s, id, payload, how);
    } else {
      SendGoes(s, id, payload, how);
    }
  }

  lemma SendFails(s: Session, id: AdapterId, payload: Bytes, how: Sending)
    requires Keeps(s) && WasHanded(s, id) && IsOpen(s, id) && Legal(s, Data(id.room, payload))
    requires how.outcome.Failed? || !WithinBounds(Data(id.room, payload))
    ensures var t := SendOn(s, id, payload, how);
            FailedAfter(s, t) && (how.callback.Calls? ==> CalledBack(s, t, id.room, SlotOf(s, id.room).sends, true))
  {
    var m := Data(id.room, payload);
    var sent := Transmit(s, m, how.outcome, how.callback.Calls?).0;
    ProtocolProofs.EncodeSucceedsExactly(m);
    hide Keeps, WithinBounds, Encode, Legal, FailedAfter, CalledBack, SlotOf, Transmit, Shrinks, SendsForward, LossesAnnounced, WasHanded, IsOpen;
    FailedTransmissionEnds(s, m, how.outcome, how.callback.Calls?);
    if how.callback.Calls? {
      var t := Run(sent, how.callback.script);
      RunKeeps(sent, how.callback.script);
      GoodTransitive(s, sent, t);
      ShrinksStaysDead(sent, t);
      GoodIsFailed(s, t);
      StillCalled(s, sent, t, id.room, SlotOf(s, id.room).sends, true);
    }
  }

  lemma StillCalled(s: Session, u: Session, t: Session, room: Text, send: nat, error: bool)
    requires CalledBack(s, u, room, send, error) && Good(u, t)
    ensures CalledBack(s, t, room, send, error)
  {
    hide Keeps, Shrinks, LossesAnnounced, SlotOf;
    var i :| |s.calls| <= i < |u.calls| && u.calls[i].room == room && u.calls[i].send == send && u.calls[i].error == error;
    assert t.calls[i] == u.calls[i];
  }

  lemma SendGoes(s: Session, id: AdapterId, payload: Bytes, how: Sending)
    requires Keeps(s) && WasHanded(s, id) && IsOpen(s, id) && Legal(s, Data(id.room, payload)) && Active(s, id.room) == Some(id.serial)
    requires !how.outcome.Failed? && Encode(Data(id.room, payload)).Ok?
    ensures var t := SendOn(s, id, payload, how);
            && (s.physical.OPEN? ==> |s.out| < |t.out| && t.out[|s.out|] == Emitted(Data(id.room, payload), Some(id.serial)))
            && (how.outcome.Queued? || how.callback.NoCallback? ==> Pending(s, t, id.room, how) && t.rooms == s.rooms && t.physical == s.physical)
            && (how.outcome.Accepted? && how.callback.Calls? ==> CalledBack(s, t, id.room, SlotOf(s, id.room).sends, false))
  {
    var m := Data(id.room, payload);
    var sent := Transmit(s, m, how.outcome, how.callback.Calls?).0;
    hide Keeps, Encode, Legal, CalledBack, SlotOf, Transmit, Shrinks, SendsForward, LossesAnnounced, WasHanded, IsOpen, Pending, Active;
    TransmitSucceeds(s, m, how.outcome, how.callback.Calls?);
    SentIsPending(s, m, how);
    if how.callback.Calls? && how.outcome.Accepted? {
      var t := Run(sent, how.callback.script);
      RunKeeps(sent, how.callback.script);
      StillCalled(s, sent, t, id.room, SlotOf(s, id.room).sends, false);
      OutGrows(sent, t);
    }
  }

  lemma OutGrows(s: Session, t: Session)
    requires Good(s, t)
    ensures s.out <= t.out
  {
  }

  lemma SentIsPending(s: Session, m: Message, how: Sending)
    requires Keeps(s) && Encode(m).Ok? && !how.outcome.Failed?
    ensures var sent := Transmit(s, m, how.outcome, how.callback.Calls?).0;
            && Pending(s, sent, m.room, how)
            && (how.outcome.Accepted? && how.callback.Calls? ==> CalledBack(s, sent, m.room, SlotOf(s, m.room).sends, false))
  {
    var written := Emit(CountSend(s, m.room), m);
    TransmitShape(s, m, how.outcome, how.callback.Calls?);
    assert s.calls == written.calls;
    hide Keeps, Encode, Transmit, CalledBack, Emit, CountSend;
    if how.outcome.Accepted? && how.callback.Calls? {
      CallIsLogged(s, written, Transmit(s, m, how.outcome, true).0, m.room, SlotOf(s, m.room).sends, false);
    }
  }

  /** An adapter that y-websocket closes: the next frame tells the client, with the code of an interruption, 4005. */
  lemma ServerCloseIsTold(s: Session, id: AdapterId, closing: Closing)
    requires Inv(s) && WasHanded(s, id) && IsOpen(s, id) && s.physical.OPEN?
    ensures var t := Step(s, Adapters(CloseAdapter(id, closing)));
            && !IsOpen(t, id) && Reported(t, id, ServerRoomClose)
            && (t.physical.OPEN? || (!closing.notice.Failed? && 1 <= |EncodeText(id.room)| <= 512) ==>
                  |s.out| < |t.out| && t.out[|s.out|] == Emitted(RoomClosed(id.room, 4005), None))
            && (closing.notice.Failed? ==> FailedAfter(s, t))
  {
    hide Keeps, Mild, CloseCore, Close, Transmit, Run, LossesAnnounced, LossesAnnouncedBut, Reported, ClosedBy, NeedsNotice;
    hide Inv, Delete, FailedAfter, Legal, EncodeText, Closable;
    var told := CloseCore(s, id, ServerRoomClose);
    var noticed := Transmit(told, RoomClosed(id.room, 4005), closing.notice, false).0;
    var t := Close(s, id, ServerRoomClose, closing);
    MayBeClosed(s, id);
    CloseKeeps(s, id, ServerRoomClose, closing);
    ClosingStarts(s, id, ServerRoomClose);
    CloseShape(s, id, closing);
    NoticeOut(told, id.room, closing.notice);
    GoodKeeps(told, noticed);
    RunKeeps(noticed, closing.listener);
    NoticeStays(s, told, noticed, t, id.room, closing.notice);
  }

  lemma MayBeClosed(s: Session, id: AdapterId)
    requires Inv(s) && IsOpen(s, id)
    ensures Closable(s, id, ServerRoomClose)
  {
    assert Named(s, id, ServerRoomClose);
  }

  lemma CloseShape(s: Session, id: AdapterId, closing: Closing)
    requires WasHanded(s, id) && IsOpen(s, id) && NeedsNotice(s, id)
    ensures Step(s, Adapters(CloseAdapter(id, closing))) == Close(s, id, ServerRoomClose, closing)
            == Run(Transmit(CloseCore(s, id, ServerRoomClose), RoomClosed(id.room, 4005), closing.notice, false).0, closing.listener)
  {
    hide CloseCore, Transmit, Run, IsOpen, WasHanded, NeedsNotice;
  }

  lemma NoticeOut(told: Session, room: Text, notice: Outcome)
    requires Keeps(told) && Legal(told, RoomClosed(room, 4005)) && told.physical.OPEN?
    ensures var noticed := Transmit(told, RoomClosed(room, 4005), notice, false).0;
            && Good(told, noticed)
            && (noticed.physical.OPEN? || (!notice.Failed? && 1 <= |EncodeText(room)| <= 512) ==>
                  noticed.out == told.out + [Emitted(RoomClosed(room, 4005), None)])
            && (notice.Failed? ==> Dead(noticed))
  {
    var m := RoomClosed(room, 4005);
    var (noticed, ok) := Transmit(told, m, notice, false);
    assert Active(told, room).None?;
    ProtocolProofs.EncodeSucceedsExactly(m);
    assert WithinBounds(m) <==> 1 <= |EncodeText(room)| <= 512;
    hide Keeps, Legal, Good, Encode, WithinBounds, Transmit, EncodeText;
    TransmitKeeps(told, m, notice, false);
    TransmittedIsGood(told, m, noticed, ok);
    if notice.Failed? || !WithinBounds(m) {
      FailedTransmissionEnds(told, m, notice, false);
    } else {
      TransmitSucceeds(told, m, notice, false);
    }
  }

  lemma NoticeStays(s: Session, told: Session, noticed: Session, t: Session, room: Text, notice: Outcome)
    requires Keeps(noticed) && Mild(s, told) && told.out == s.out && told.physical == s.physical && Good(told, noticed) && Good(noticed, t)
    requires notice.Failed? ==> Dead(noticed)
    requires noticed.physical.OPEN? || (!notice.Failed? && 1 <= |EncodeText(room)| <= 512) ==>
               noticed.out == told.out + [Emitted(RoomClosed(room, 4005), None)]
    ensures t.physical.OPEN? || (!notice.Failed? && 1 <= |EncodeText(room)| <= 512) ==>
              |s.out| < |t.out| && t.out[|s.out|] == Emitted(RoomClosed(room, 4005), None)
    ensures notice.Failed? ==> FailedAfter(s, t)
  {
    GoodShrinks(noticed, t);
    assert noticed.out <= t.out && (t.physical.OPEN? ==> noticed.physical.OPEN?);
    GoodShrinks(told, noticed);
    hide Keeps, Shrinks, SendsForward, LossesAnnounced, FailedAfter, EncodeText, Dead;
    if notice.Failed? {
      ShrinksStaysDead(noticed, t);
      ShrinksTransitive(s, told, noticed);
      ShrinksTransitive(s, noticed, t);
      ShrinksIsFailed(s, t);
    }
  }
}
