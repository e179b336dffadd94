/** The session as the program has it: an object whose methods update its fields, and adapters that are objects too. */
module MultiplexSessionCode {
  import opened Basics
  import opened Sockets
  import opened Unicode
  import opened Protocol
  import opened OrderedMap
  import Spec = MultiplexSession

  /** A room-scoped socket for y-websocket; closer is who closed it. */
  class RoomWebSocket {
    var readyState: ReadyState
    var handed: bool
    var inbox: seq<Bytes>
    var closer: Option<Spec.CloseReason>

    constructor ()
      ensures Value() == Spec.Adapter(true, false, [], None)
    {
      readyState, handed, inbox, closer := OPEN, false, [], None;
    }

    function Value(): Spec.Adapter
      reads this
    {
      Spec.Adapter(readyState.OPEN?, handed, inbox, closer)
    }
  }

  /** The sockets made for a room, how many frames were sent for it, and which sends are not completed. */
  datatype RoomSlot = RoomSlot(sockets: seq<RoomWebSocket>, sends: nat, waiting: map<nat, bool>)

  ghost predicate Owned(slots: map<Text, RoomSlot>, made: set<RoomWebSocket>) {
    && (forall r, i | r in slots && 0 <= i < |slots[r].sockets| :: slots[r].sockets[i] in made)
    && (forall r, i, q, j | r in slots && 0 <= i < |slots[r].sockets| && q in slots && 0 <= j < |slots[q].sockets| ::
          slots[r].sockets[i] == slots[q].sockets[j] ==> r == q && i == j)
  }

  ghost function AdaptersOf(sockets: seq<RoomWebSocket>): (adapters: seq<Spec.Adapter>)
    reads sockets
    ensures |adapters| == |sockets| && forall i | 0 <= i < |sockets| :: adapters[i] == sockets[i].Value()
  {
    seq(|sockets|, i requires 0 <= i < |sockets| reads sockets => sockets[i].Value())
  }

  ghost function SlotsOf(slots: map<Text, RoomSlot>, made: set<RoomWebSocket>): map<Text, Spec.Slot>
    requires Owned(slots, made)
    reads made
  {
    map r | r in slots :: Spec.Slot(AdaptersOf(slots[r].sockets), slots[r].sends, slots[r].waiting)
  }

  // A room's slot is replaced by one with the same sockets.
  lemma SlotReplaced(slots: map<Text, RoomSlot>, made: set<RoomWebSocket>, room: Text, slot: RoomSlot)
    requires Owned(slots, made) && slot.sockets == (if room in slots then slots[room].sockets else [])
    ensures Owned(slots[room := slot], made)
    ensures SlotsOf(slots[room := slot], made)
         == SlotsOf(slots, made)[room := Spec.Slot(AdaptersOf(slot.sockets), slot.sends, slot.waiting)]
  {
    var updated := slots[room := slot];
    assert forall r | r in updated :: updated[r].sockets == if r in slots then slots[r].sockets else [];
    assert Owned(updated, made);
    hide Owned;
  }

  // A room's slot gets one more socket, a new one.
  lemma SlotExtended(slots: map<Text, RoomSlot>, made: set<RoomWebSocket>, room: Text, slot: RoomSlot, socket: RoomWebSocket)
    requires Owned(slots, made) && socket !in made
    requires slot == if room in slots then slots[room] else RoomSlot([], 0, map[])
    ensures var updated := slots[room := slot.(sockets := slot.sockets + [socket])];
            && Owned(updated, made + {socket})
            && SlotsOf(updated, made + {socket})
               == SlotsOf(slots, made)[room := Spec.Slot(AdaptersOf(slot.sockets) + [socket.Value()], slot.sends, slot.waiting)]
  {
    var updated := slots[room := slot.(sockets := slot.sockets + [socket])];
    assert updated[room].sockets == slot.sockets + [socket];
    assert forall r | r in updated && r != room :: updated[r] == slots[r];
    assert Owned(updated, made + {socket});
    assert AdaptersOf(updated[room].sockets) == AdaptersOf(slot.sockets) + [socket.Value()];
  }

  class MultiplexSession {
    const initialGrant: Spec.Payload
    var physical: ReadyState
    var rooms: OMap<Text, nat>
    var closedRooms: set<Text>
    var expectedRoomCloses: map<Spec.AdapterId, Spec.CloseReason>
    var authorizationBypassAttempts: nat
    var peakRoomCount: nat
    var slots: map<Text, RoomSlot>
    ghost var made: set<RoomWebSocket>
    var out: seq<Spec.Emitted>
    var closes: seq<int>
    var metrics: seq<Spec.Metric>
    var calls: seq<Spec.Call>
    var heartbeat: Spec.Heartbeat

    ghost predicate Valid()
      reads this
    {
      Owned(slots, made)
    }

    ghost function State(): Spec.Session
      requires Valid()
      reads this, made
    {
      Spec.Session(initialGrant, physical, rooms, closedRooms, expectedRoomCloses, authorizationBypassAttempts, peakRoomCount,
                   SlotsOf(slots, made), out, closes, metrics, calls, heartbeat)
    }

    twostate predicate Grew()
      reads this
    {
      old(made) <= made && fresh(made - old(made))
    }

    constructor (initialGrant: Spec.Payload)
      ensures Valid() && State() == Spec.Start(initialGrant) && made == {}
    {
      this.initialGrant := initialGrant;
      physical, rooms, closedRooms, expectedRoomCloses := OPEN, OMap([], map[]), {}, map[];
      authorizationBypassAttempts, peakRoomCount, slots, made := 0, 0, map[], {};
      out, closes, metrics, calls := [], [], [], [];
      heartbeat := Spec.Heartbeat(true, false, 0);
    }

    function Slot(room: Text): RoomSlot
      reads this
    {
      if room in slots then slots[room] else RoomSlot([], 0, map[])
    }

    predicate Exists(id: Spec.AdapterId)
      reads this
    {
      id.serial < |Slot(id.room).sockets|
    }

    function Socket(id: Spec.AdapterId): RoomWebSocket
      requires Exists(id)
      reads this
    {
      Slot(id.room).sockets[id.serial]
    }

    // What the specification sees of a slot and of an adapter.
    lemma Seen(id: Spec.AdapterId)
      requires Valid()
      ensures Spec.SlotOf(State(), id.room) == Spec.Slot(AdaptersOf(Slot(id.room).sockets), Slot(id.room).sends, Slot(id.room).waiting)
      ensures Spec.Exists(State(), id) == Exists(id)
      ensures Exists(id) ==> Socket(id) in made && Spec.SlotOf(State(), id.room).adapters[id.serial] == Socket(id).Value()
    {
    }

    // One adapter was updated: the state changed there only.
    twostate lemma Changed(id: Spec.AdapterId)
      requires old(Valid()) && Valid() && old(Exists(id)) && unchanged(this)
      requires forall o | o in made && o != Socket(id) :: unchanged(o)
      ensures Spec.Exists(old(State()), id)
      ensures State() == Spec.SetAdapter(old(State()), id, Socket(id).Value())
    {
      Seen(id);
      var was := old(State());
      var want := Spec.SetAdapter(was, id, Socket(id).Value());
      forall r | r in slots
        ensures State().slots[r] == want.slots[r]
      {
        assert AdaptersOf(slots[r].sockets) == want.slots[r].adapters;
      }
      assert State().slots == want.slots;
    }

    // The slot of a room is replaced by one with the same sockets.
    method SetSlot(room: Text, slot: RoomSlot)
      requires Valid() && slot.sockets == Slot(room).sockets
      modifies this`slots
      ensures Valid()
      ensures State() == Spec.SetSlot(old(State()), room, Spec.SlotOf(old(State()), room).(sends := slot.sends, waiting := slot.waiting))
    {
      SlotReplaced(slots, made, room, slot);
      Seen(Spec.AdapterId(room, 0));
      hide Owned, SlotsOf, AdaptersOf;
      slots := slots[room := slot];
    }

    method ClosePhysicalSocket(code: int)
      requires Valid()
      modifies this`physical, this`closes
      ensures Valid() && State() == Spec.ClosePhysicalSocket(old(State()), code)
    {
      if physical.Live() {
        physical := CLOSING;
        closes := closes + [code];
      }
    }

    // RoomWebSocket.close() on an open socket, as far as the socket itself goes.
    method MarkClosed(id: Spec.AdapterId, closer: Spec.CloseReason)
      requires Valid() && Exists(id)
      modifies Socket(id)
      ensures Valid() && Spec.Exists(old(State()), id)
      ensures var a := Spec.SlotOf(old(State()), id.room).adapters[id.serial];
              State() == Spec.SetAdapter(old(State()), id, a.(open := false, closer := Some(closer)))
    {
      var socket := Socket(id);
      Seen(id);
      socket.readyState := CLOSED;
      socket.closer := Some(closer);
      Changed(id);
    }

    method Unregister(id: Spec.AdapterId, closeReason: Spec.CloseReason)
      requires Valid()
      modifies this`rooms, this`closedRooms, this`metrics
      ensures Valid()
      ensures State() == old(State()).(
                rooms := Delete(old(rooms), id.room),
                closedRooms := old(closedRooms) + {id.room},
                metrics := old(metrics) + [Spec.RoomClose, Spec.RoomConnectionClose(closeReason, Some(id))])
    {
      hide Owned, SlotsOf;
      rooms := Delete(rooms, id.room);
      closedRooms := closedRooms + {id.room};
      metrics := metrics + [Spec.RoomClose, Spec.RoomConnectionClose(closeReason, Some(id))];
    }

    method Unexpect(id: Spec.AdapterId)
      requires Valid()
      modifies this`expectedRoomCloses
      ensures Valid() && State() == old(State()).(expected := old(expectedRoomCloses) - {id})
    {
      expectedRoomCloses := expectedRoomCloses - {id};
    }

    // The close listener that addRoom installs, but for the notice to the client.
    method Forget(id: Spec.AdapterId, closer: Spec.CloseReason)
      requires Valid() && Exists(id)
      modifies this`rooms, this`closedRooms, this`expectedRoomCloses, this`metrics, Socket(id)
      ensures Valid() && Spec.Exists(old(State()), id) && State() == Spec.CloseCore(old(State()), id, closer)
    {
      hide Owned, SlotsOf, AdaptersOf, Spec.SlotOf, Delete;
      var closeReason := if id in expectedRoomCloses then expectedRoomCloses[id] else Spec.ServerRoomClose;
      MarkClosed(id, closer);
      Unexpect(id);
      if rooms.Has(id.room) && rooms.entries[id.room] == id.serial {
        Unregister(id, closeReason);
      }
    }
  
    // What the specification sees of an adapter, without its slot.
    lemma Looks(id: Spec.AdapterId)
      requires Valid()
      ensures Spec.Exists(State(), id) == Exists(id)
      ensures Spec.IsOpen(State(), id) == (Exists(id) && Socket(id).readyState.OPEN?)
      ensures Spec.WasHanded(State(), id) == (Exists(id) && Socket(id).handed)
      ensures Spec.SlotOf(State(), id.room).sends == Slot(id.room).sends && Spec.SlotOf(State(), id.room).waiting == Slot(id.room).waiting
    {
      Seen(id);
    }

    method Expect(id: Spec.AdapterId, reason: Spec.CloseReason)
      requires Valid()
      modifies this`expectedRoomCloses
      ensures Valid() && State() == Spec.Expect(old(State()), id, reason)
    {
      expectedRoomCloses := expectedRoomCloses[id := reason];
    }

    // Array.from(this.rooms.values()), as numbers.
    method Snapshot() returns (ids: seq<Spec.AdapterId>)
      requires Valid()
      ensures ids == Spec.Snapshot(State())
    {
      ids := seq(|rooms.keys|, i requires 0 <= i < |rooms.keys| reads this =>
        Spec.AdapterId(rooms.keys[i], if rooms.keys[i] in rooms.entries then rooms.entries[rooms.keys[i]] else 0));
    }

    method Emit(m: Message)
      requires Valid()
      modifies this`out
      ensures Valid() && State() == Spec.Emit(old(State()), m)
    {
      if physical.OPEN? {
        out := out + [Spec.Emitted(m, if rooms.Has(m.room) then Some(rooms.entries[m.room]) else None)];
      }
    }

    method CountSend(room: Text)
      requires Valid()
      modifies this`slots
      ensures Valid() && State() == Spec.CountSend(old(State()), room)
    {
      Looks(Spec.AdapterId(room, 0));
      SetSlot(room, Slot(room).(sends := Slot(room).sends + 1));
    }

    method Wait(room: Text, send: nat, hasCallback: bool)
      requires Valid()
      modifies this`slots
      ensures Valid() && State() == Spec.Wait(old(State()), room, send, hasCallback)
    {
      Looks(Spec.AdapterId(room, 0));
      SetSlot(room, Slot(room).(waiting := Slot(room).waiting[send := hasCallback]));
    }

    method LogCall(room: Text, send: nat, error: bool, hasCallback: bool)
      requires Valid()
      modifies this`calls
      ensures Valid() && State() == Spec.LogCall(old(State()), room, send, error, hasCallback)
    {
      if hasCallback {
        calls := calls + [Spec.Call(room, send, true, error, |rooms.keys|)];
      }
    }

    // RoomWebSocket.send() with a callback on a closed socket.
    method Refuse(room: Text)
      requires Valid()
      modifies this`slots, this`calls
      ensures Valid() && State() == Spec.Refuse(old(State()), room)
    {
      hide Owned, SlotsOf, Spec.SlotOf, Spec.CountSend;
      Looks(Spec.AdapterId(room, 0));
      var send := Slot(room).sends;
      CountSend(room);
      calls := calls + [Spec.Call(room, send, false, true, |rooms.keys|)];
    }

    // The end of handlePhysicalSendError.
    method FailPhysical()
      requires Valid()
      modifies this`physical, this`closes
      ensures Valid() && State() == Spec.FailPhysical(old(State()))
    {
      ClosePhysicalSocket(Spec.SEND_FAILED_CLOSE_CODE);
    }

    // cleanupRooms when no other listener does anything.
    method CleanQuietly(ids: seq<Spec.AdapterId>)
      requires Valid()
      modifies this, made
      ensures Valid() && made == old(made) && State() == Spec.CleanQuietly(old(State()), ids)
    {
      hide Owned, SlotsOf, AdaptersOf, Spec.CloseCore, Spec.SlotOf;
      var i := 0;
      assert ids[0..] == ids;
      while i < |ids|
        invariant i <= |ids| && Valid() && made == old(made)
        invariant Spec.CleanQuietly(State(), ids[i..]) == Spec.CleanQuietly(old(State()), ids)
      {
        assert ids[i..][0] == ids[i] && ids[i..][1..] == ids[i + 1..];
        Expect(ids[i], Spec.PhysicalConnectionClose);
        Looks(ids[i]);
        if Exists(ids[i]) && Socket(ids[i]).readyState.OPEN? {
          Owns(ids[i]);
          Forget(ids[i], Spec.PhysicalConnectionClose);
        }
        i := i + 1;
      }
    }

    lemma Owns(id: Spec.AdapterId)
      requires Valid() && Exists(id)
      ensures Socket(id) in made
    {
    }
  
    // ---------- what may happen within one event ----------

    /** cleanupRooms: every room of a snapshot is closed, whatever the listeners do meanwhile. */
    method CleanupRooms(scripts: Spec.Cleanup)
      requires Valid()
      modifies this, made
      ensures Valid() && made == old(made) && State() == Spec.CleanupRooms(old(State()), scripts)
      decreases scripts, |rooms.keys| + 1, 0
    {
      hide Owned, SlotsOf, AdaptersOf, Spec.CloseCore, Spec.SlotOf;
      var ids := Snapshot();
      var i, rest := 0, scripts;
      assert ids[0..] == ids;
      while i < |ids| && rest.Scripted?
        invariant i <= |ids| && Valid() && made == old(made)
        invariant rest == scripts || rest < scripts
        invariant Spec.CleanEach(State(), ids[i..], rest) == Spec.CleanupRooms(old(State()), scripts)
        decreases |ids| - i
      {
        assert ids[i..][0] == ids[i] && ids[i..][1..] == ids[i + 1..];
        Expect(ids[i], Spec.PhysicalConnectionClose);
        Close(ids[i], Spec.PhysicalConnectionClose, rest.first);
        i, rest := i + 1, rest.rest;
      }
      if i < |ids| {
        CleanQuietly(ids[i..]);
      }
    }

    method HandlePhysicalSendError(scripts: Spec.Cleanup)
      requires Valid()
      modifies this, made
      ensures Valid() && made == old(made) && State() == Spec.SendError(old(State()), scripts)
      decreases scripts, |rooms.keys| + 1, 1
    {
      CleanupRooms(scripts);
      FailPhysical();
    }

    // encodeMessage threw: complete is called with its error.
    method FailUnencodable(room: Text, send: nat, hasCallback: bool)
      requires Valid()
      modifies this, made
      ensures Valid() && made == old(made)
      ensures var s := old(State());
              State() == Spec.LogCall(Spec.FailPhysical(Spec.CleanQuietly(s, Spec.Snapshot(s))), room, send, true, hasCallback)
    {
      hide Owned, SlotsOf, Spec.LogCall, Spec.FailPhysical;
      var ids := Snapshot();
      CleanQuietly(ids);
      FailPhysical();
      LogCall(room, send, true, hasCallback);
    }

    /** sendPhysicalMessage up to the callback; ok is its result. */
    method SendPhysicalMessage(m: Message, outcome: Spec.Outcome, hasCallback: bool) returns (ok: bool)
      requires Valid()
      modifies this, made
      ensures Valid() && made == old(made) && (State(), ok) == Spec.Transmit(old(State()), m, outcome, hasCallback)
      decreases outcome, 0, 0
    {
      hide Owned, SlotsOf, AdaptersOf, Spec.CloseCore, Encode, Spec.SlotOf, Spec.CountSend, Spec.Wait, Spec.Emit, Spec.LogCall;
      Looks(Spec.AdapterId(m.room, 0));
      var send := Slot(m.room).sends;
      CountSend(m.room);
      if outcome.Failed? {
        if outcome.wrote && Encode(m).Ok? {
          Emit(m);
        }
        HandlePhysicalSendError(outcome.cleanup);
        LogCall(m.room, send, true, hasCallback);
        return false;
      }
      if Encode(m).Err? {
        FailUnencodable(m.room, send, hasCallback);
        return false;
      }
      ok := true;
      match outcome
      case Accepted =>
        Emit(m);
        LogCall(m.room, send, false, hasCallback);
      case Queued =>
        Emit(m);
        Wait(m.room, send, hasCallback);
    }

    /** RoomWebSocket.close(): the session's listener, the notice it may owe the client, then the other listeners. */
    method Close(id: Spec.AdapterId, closer: Spec.CloseReason, how: Spec.Closing)
      requires Valid()
      modifies this, made
      ensures Valid() && made == old(made) && State() == Spec.Close(old(State()), id, closer, how)
      decreases how, 0, 0
    {
      hide Owned, SlotsOf, AdaptersOf, Spec.CloseCore, Spec.SlotOf, Spec.IsOpen, Spec.Exists, Spec.WasHanded;
      Looks(id);
      if !Exists(id) || !Socket(id).readyState.OPEN? {
        return;
      }
      Owns(id);
      var handed := Socket(id).handed;
      var needsNotice := rooms.Has(id.room) && rooms.entries[id.room] == id.serial
                         && (id in expectedRoomCloses ==> expectedRoomCloses[id] == Spec.ServerRoomClose) && physical.OPEN?;
      Forget(id, closer);
      if needsNotice {
        var _ := SendPhysicalMessage(RoomClosed(id.room, Spec.ROOM_INTERRUPTED_CLOSE_CODE), how.notice, false);
      }
      if handed {
        RunCallback(how.listener);
      }
    }

    /** RoomWebSocket.send(). */
    method Send(id: Spec.AdapterId, payload: Bytes, how: Spec.Sending)
      requires Valid()
      modifies this, made
      ensures Valid() && made == old(made) && State() == Spec.SendOn(old(State()), id, payload, how)
      decreases how, 0, 0
    {
      hide Owned, SlotsOf, AdaptersOf, Encode, Spec.SlotOf, Spec.IsOpen, Spec.Exists, Spec.Refuse;
      Looks(id);
      var later := false;
      if Exists(id) && Socket(id).readyState.OPEN? {
        var m := Data(id.room, payload);
        var _ := SendPhysicalMessage(m, how.outcome, how.callback.Calls?);
        later := how.outcome.Queued? && Encode(m).Ok?;
      } else if how.callback.Calls? {
        Refuse(id.room);
      }
      if how.callback.Calls? && !later {
        RunCallback(how.callback.script);
      }
    }

    method Apply(op: Spec.Op)
      requires Valid()
      modifies this, made
      ensures Valid() && made == old(made) && State() == Spec.Apply(old(State()), op)
      decreases op, 0, 0
    {
      Looks(op.id);
      if !Exists(op.id) || !Socket(op.id).handed {
        return;
      }
      match op
      case Send(id, payload, how) => Send(id, payload, how);
      case CloseAdapter(id, closing) => Close(id, Spec.ServerRoomClose, closing);
    }

    /** What y-websocket does in a listener or a callback. */
    method RunCallback(script: Spec.Script)
      requires Valid()
      modifies this, made
      ensures Valid() && made == old(made) && State() == Spec.Run(old(State()), script)
      decreases script, 0, 0
    {
      match script
      case Stop =>
      case Do(op, next) =>
        Apply(op);
        RunCallback(next);
    }
  
    // ---------- handlers ----------

    method ClosePhysical(code: int, cleanup: Spec.Cleanup)
      requires Valid()
      modifies this, made
      ensures Valid() && made == old(made) && State() == Spec.ClosePhysical(old(State()), code, cleanup)
    {
      hide Owned, SlotsOf, Spec.CleanupRooms, Spec.ClosePhysicalSocket;
      CleanupRooms(cleanup);
      ClosePhysicalSocket(code);
    }

    method Record(metric: Spec.Metric)
      requires Valid()
      modifies this`metrics
      ensures Valid() && State() == old(State()).(metrics := old(metrics) + [metric])
    {
      metrics := metrics + [metric];
    }

    method SendRoomClosed(room: Text, code: int, reply: Spec.Outcome)
      requires Valid()
      modifies this, made
      ensures Valid() && made == old(made) && State() == Spec.SendRoomClosed(old(State()), room, code, reply)
    {
      hide Owned, SlotsOf, Spec.Transmit;
      var _ := SendPhysicalMessage(RoomClosed(room, code), reply, false);
    }

    method RejectRoom(room: Text, reply: Spec.Outcome)
      requires Valid()
      modifies this, made
      ensures Valid() && made == old(made) && State() == Spec.RejectRoom(old(State()), room, reply)
    {
      hide Owned, SlotsOf, Spec.SendRoomClosed;
      Record(Spec.RoomConnectionClose(Spec.AuthorizationRejected, None));
      SendRoomClosed(room, Spec.ROOM_REJECTED_CLOSE_CODE, reply);
    }

    method CountBypass()
      requires Valid()
      modifies this`authorizationBypassAttempts
      ensures Valid() && State() == old(State()).(bypass := old(authorizationBypassAttempts) + 1)
    {
      authorizationBypassAttempts := authorizationBypassAttempts + 1;
    }

    method RejectAuthorizationBypass(room: Text, choices: Spec.Choices)
      requires Valid()
      modifies this, made
      ensures Valid() && made == old(made) && State() == Spec.RejectAuthorizationBypass(old(State()), room, choices)
    {
      hide Owned, SlotsOf, Spec.RejectRoom, Spec.ClosePhysical;
      CountBypass();
      RejectRoom(room, choices.reply);
      if authorizationBypassAttempts >= Spec.MAX_AUTHORIZATION_BYPASS_ATTEMPTS {
        ClosePhysical(Spec.POLICY_CLOSE_CODE, choices.cleanup);
      }
    }

    // A socket not known yet goes into the room's slot.
    method Adopt(room: Text, socket: RoomWebSocket)
      requires Valid() && socket !in made
      modifies this`slots, this`made
      ensures Valid() && made == old(made) + {socket}
      ensures var slot := Spec.SlotOf(old(State()), room);
              State() == Spec.SetSlot(old(State()), room, slot.(adapters := slot.adapters + [socket.Value()]))
    {
      Seen(Spec.AdapterId(room, 0));
      SlotExtended(slots, made, room, Slot(room), socket);
      hide Owned, SlotsOf, AdaptersOf, Spec.SlotOf;
      slots := slots[room := Slot(room).(sockets := Slot(room).sockets + [socket])];
      made := made + {socket};
    }

    // A new adapter in the room's slot.
    method MakeSocket(room: Text)
      requires Valid()
      modifies this`slots, this`made
      ensures Valid() && Grew()
      ensures var slot := Spec.SlotOf(old(State()), room);
              State() == Spec.SetSlot(old(State()), room, slot.(adapters := slot.adapters + [Spec.Adapter(true, false, [], None)]))
    {
      var socket := new RoomWebSocket();
      assert State() == old(State());
      hide Owned, SlotsOf, AdaptersOf, Spec.SlotOf;
      Adopt(room, socket);
    }

    method Store(room: Text, serial: nat)
      requires Valid()
      modifies this`rooms, this`peakRoomCount, this`closedRooms, this`metrics
      ensures Valid()
      ensures var stored := Set(old(rooms), room, serial);
              State() == old(State()).(rooms := stored, peak := Max(old(peakRoomCount), |stored.keys|),
                                       closedRooms := old(closedRooms) - {room}, metrics := old(metrics) + [Spec.RoomOpen])
    {
      hide Owned, SlotsOf;
      rooms := Set(rooms, room, serial);
      peakRoomCount := Max(peakRoomCount, |rooms.keys|);
      closedRooms := closedRooms - {room};
      metrics := metrics + [Spec.RoomOpen];
    }

    // setupWSConnection: y-websocket has the socket from now on.
    method HandOver(id: Spec.AdapterId)
      requires Valid()
      modifies made
      ensures Valid() && State() == Spec.HandOver(old(State()), id)
    {
      Seen(id);
      if Exists(id) {
        Socket(id).handed := true;
        Changed(id);
      }
    }

    method AddRoom(room: Text, choices: Spec.Choices)
      requires Valid()
      modifies this, made
      ensures Valid() && Grew() && State() == Spec.AddRoom(old(State()), room, choices)
    {
      var id := Spec.AdapterId(room, |Slot(room).sockets|);
      Seen(id);
      hide Owned, SlotsOf, AdaptersOf, Spec.Transmit, Spec.HandOver, Spec.Run, Set;
      MakeSocket(room);
      Store(room, id.serial);
      assert State() == Spec.OpenRoom(old(State()), room);
      var sent := SendPhysicalMessage(Subscribed(room), choices.reply, false);
      if sent {
        HandOver(id);
        RunCallback(choices.script);
      }
    }
  
    /** subscribe, with the grant's verification as an answer from outside. */
    method Subscribe(room: Text, choices: Spec.Choices)
      requires Valid()
      modifies this, made
      ensures Valid() && Grew() && State() == Spec.HandleSubscribe(old(State()), room, choices)
    {
      hide Owned, SlotsOf, Spec.Transmit, Spec.AddRoom, Spec.RejectAuthorizationBypass, Spec.SendRoomClosed, Spec.MatchesIdentity;
      if rooms.Has(room) {
        var _ := SendPhysicalMessage(Subscribed(room), choices.reply, false);
        return;
      }
      if choices.verification.Invalid? {
        RejectRoom(room, choices.reply);
        return;
      }
      var payload := choices.verification.payload;
      if payload.roomName != room || !Spec.MatchesIdentity(payload, initialGrant) {
        RejectAuthorizationBypass(room, choices);
      } else if choices.verification.Stale? {
        Record(Spec.RoomConnectionClose(Spec.GrantExpired, None));
        SendRoomClosed(room, Spec.ROOM_INTERRUPTED_CLOSE_CODE, choices.reply);
      } else {
        AddRoom(payload.roomName, choices);
      }
    }

    // The adapter emits 'message'.
    method Deliver(id: Spec.AdapterId, payload: Bytes)
      requires Valid()
      modifies made
      ensures Valid() && State() == Spec.Deliver(old(State()), id, payload)
    {
      Seen(id);
      if Exists(id) {
        Socket(id).inbox := Socket(id).inbox + [payload];
        Changed(id);
      }
    }

    method ReceiveData(room: Text, payload: Bytes, choices: Spec.Choices)
      requires Valid()
      modifies this, made
      ensures Valid() && made == old(made) && State() == Spec.HandleData(old(State()), room, payload, choices)
    {
      hide Owned, SlotsOf, AdaptersOf, Spec.Deliver, Spec.RejectAuthorizationBypass, Spec.Run, Spec.WasHanded;
      if rooms.Has(room) {
        var id := Spec.AdapterId(room, rooms.entries[room]);
        Deliver(id, payload);
        Looks(id);
        if Exists(id) && Socket(id).handed {
          RunCallback(choices.script);
        }
      } else if room !in closedRooms {
        RejectAuthorizationBypass(room, choices);
      }
    }

    method Unsubscribe(room: Text, choices: Spec.Choices)
      requires Valid()
      modifies this, made
      ensures Valid() && made == old(made) && State() == Spec.HandleUnsubscribe(old(State()), room, choices)
    {
      hide Owned, SlotsOf, Spec.Close, Spec.Expect;
      if rooms.Has(room) {
        var id := Spec.AdapterId(room, rooms.entries[room]);
        Expect(id, Spec.ClientUnsubscribe);
        Close(id, Spec.ClientUnsubscribe, Spec.Closing(choices.reply, choices.script));
      }
    }

    /** handlePhysicalMessage. */
    method HandlePhysicalMessage(frame: Bytes, isBinary: bool, choices: Spec.Choices)
      requires Valid()
      modifies this, made
      ensures Valid() && Grew() && State() == Spec.HandleFrame(old(State()), frame, isBinary, choices)
    {
      hide Owned, SlotsOf, Spec.HandleSubscribe, Spec.HandleData, Spec.HandleUnsubscribe, Spec.ClosePhysical, Spec.CleanupRooms, Decode;
      if !physical.OPEN? {
        CleanupRooms(choices.cleanup);
        return;
      }
      var message := Decode(frame);
      if !isBinary || message.Err? {
        ClosePhysical(Spec.PROTOCOL_ERROR_CLOSE_CODE, choices.cleanup);
        return;
      }
      match message.value
      case Subscribe(room, _) => Subscribe(room, choices);
      case Data(room, payload) => ReceiveData(room, payload, choices);
      case Unsubscribe(room) => Unsubscribe(room, choices);
      case _ => ClosePhysical(Spec.PROTOCOL_ERROR_CLOSE_CODE, choices.cleanup);
    }

    /** A queued send reports: the complete function that sendPhysicalMessage made for it. */
    method Complete(room: Text, send: nat, error: bool, cleanup: Spec.Cleanup, callback: Spec.Script)
      requires Valid()
      modifies this, made
      ensures Valid() && made == old(made) && State() == Spec.Complete(old(State()), room, send, error, cleanup, callback)
    {
      hide Owned, SlotsOf, AdaptersOf, Spec.SendError, Spec.LogCall, Spec.Run, Spec.SlotOf;
      Looks(Spec.AdapterId(room, 0));
      var slot := Slot(room);
      if send !in slot.waiting {
        return;
      }
      SetSlot(room, slot.(waiting := slot.waiting - {send}));
      if error {
        HandlePhysicalSendError(cleanup);
      }
      LogCall(room, send, error, slot.waiting[send]);
      if slot.waiting[send] {
        RunCallback(callback);
      }
    }

    method StopHeartbeat()
      requires Valid()
      modifies this`heartbeat
      ensures Valid() && State() == old(State()).(heartbeat := old(heartbeat).(stopped := true))
    {
      if heartbeat.stopped {
        return;
      }
      heartbeat := heartbeat.(stopped := true);
    }

    method MarkPhysicalClosed()
      requires Valid()
      modifies this`physical
      ensures Valid() && State() == old(State()).(physical := CLOSED)
    {
      physical := CLOSED;
    }

    /** The close event of the physical socket: its heartbeat stops, and the session cleans up. */
    method HandlePhysicalClose(cleanup: Spec.Cleanup)
      requires Valid()
      modifies this, made
      ensures Valid() && made == old(made) && State() == Spec.Step(old(State()), Spec.PhysicalClose(cleanup))
    {
      hide Owned, SlotsOf, Spec.CleanupRooms;
      MarkPhysicalClosed();
      StopHeartbeat();
      Record(Spec.PeakRooms(peakRoomCount));
      CleanupRooms(cleanup);
    }

    method Terminate()
      requires Valid()
      modifies this`physical
      ensures Valid() && State() == Spec.Terminate(old(State()))
    {
      if physical.Live() {
        physical := CLOSING;
      }
    }

    method SendPing()
      requires Valid()
      modifies this`heartbeat
      ensures Valid() && State() == old(State()).(heartbeat := old(heartbeat).(pongReceived := false, pings := old(heartbeat.pings) + 1))
    {
      heartbeat := heartbeat.(pongReceived := false, pings := heartbeat.pings + 1);
    }

    method ForgetPong()
      requires Valid()
      modifies this`heartbeat
      ensures Valid() && State() == old(State()).(heartbeat := old(heartbeat).(pongReceived := false))
    {
      heartbeat := heartbeat.(pongReceived := false);
    }

    method GiveUp(cleanup: Spec.Cleanup)
      requires Valid()
      modifies this, made
      ensures Valid() && made == old(made)
      ensures State() == Spec.Terminate(Spec.CleanupRooms(old(State()).(heartbeat := old(heartbeat).(stopped := true)), cleanup))
    {
      hide Owned, SlotsOf, Spec.CleanupRooms, Spec.Terminate;
      StopHeartbeat();
      CleanupRooms(cleanup);
      Terminate();
    }

    /** The interval callback of the heartbeat. */
    method HandleTick(pingThrows: bool, cleanup: Spec.Cleanup)
      requires Valid() && !heartbeat.stopped
      modifies this, made
      ensures Valid() && made == old(made) && State() == Spec.Tick(old(State()), pingThrows, cleanup)
    {
      hide Owned, SlotsOf, Spec.CleanupRooms, Spec.Terminate, Spec.ClosePhysical;
      if !physical.OPEN? {
        StopHeartbeat();
      } else if rooms.IsEmpty() {
        StopHeartbeat();
        Record(Spec.ZeroRoomTimeout);
        ClosePhysical(Spec.CONNECTION_TIMEOUT_CLOSE_CODE, cleanup);
      } else if !heartbeat.pongReceived {
        GiveUp(cleanup);
      } else if pingThrows {
        ForgetPong();
        GiveUp(cleanup);
      } else {
        SendPing();
      }
    }

    /** handlePong; it is not called once the heartbeat has stopped. */
    method HandlePong()
      requires Valid() && !heartbeat.stopped
      modifies this`heartbeat
      ensures Valid() && State() == Spec.Step(old(State()), Spec.Pong)
    {
      heartbeat := heartbeat.(pongReceived := true);
    }
  }
}
