/** A send callback can see an error while rooms are open: the run that shows why the condition on it is needed. */
module MultiplexSessionExample {
  import opened Basics
  import opened Sockets
  import opened Unicode
  import opened Protocol
  import opened OrderedMap
  import opened MultiplexSession
  import opened MultiplexSessionProofs
  import opened MultiplexSessionSteps
  import opened MultiplexSessionRuns
  import RoomIsolation
  import ProtocolProofs

  function Choosing(payload: Payload): Choices {
    Choices(Fresh(payload), Accepted, Stop, Unscripted)
  }

  // y-websocket sends on the adapter and passes a callback that does nothing.
  function SendsOn(id: AdapterId, payload: Bytes): Event {
    Adapters(Send(id, payload, Sending(Accepted, Calls(Stop))))
  }

  // Rooms a and b are opened, a is left, and then y-websocket sends on a's adapter.
  function LateSend(a: Text, b: Text, grant: Text, initial: Payload, payload: Bytes): seq<Event> {
    [Frame(FrameOf(Subscribe(a, grant)), true, Choosing(initial.(roomName := a))),
     Frame(FrameOf(Subscribe(b, grant)), true, Choosing(initial.(roomName := b))),
     Frame(FrameOf(Unsubscribe(a)), true, Choosing(initial)),
     SendsOn(AdapterId(a, 0), payload)]
  }

  // The session serves the room with its first adapter, which y-websocket has.
  predicate Serving(s: Session, room: Text) {
    Active(s, room) == Some(0) && |SlotOf(s, room).adapters| == 1 && IsOpen(s, AdapterId(room, 0)) && WasHanded(s, AdapterId(room, 0))
  }

  // The session knows nothing of the room.
  predicate Unknown(s: Session, room: Text) {
    room !in s.rooms.entries && SlotOf(s, room).adapters == []
  }

  lemma ReadsFrameAs(s: Session, m: Message, choices: Choices)
    requires s.physical.OPEN? && WithinBounds(m)
    ensures Step(s, Frame(FrameOf(m), true, choices)) == HandleMessage(s, NormalizedMessage(m), choices)
  {
    ProtocolProofs.RoundTripNormalized(m);
    hide Encode, Decode, HandleMessage, WithinBounds, NormalizedMessage;
  }

  lemma ReadsFrame(s: Session, m: Message, choices: Choices)
    requires s.physical.OPEN? && WithinBounds(m) && WellFormedMessage(m)
    ensures Step(s, Frame(FrameOf(m), true, choices)) == HandleMessage(s, m, choices)
  {
    assert NormalizedMessage(m) == m;
    hide Step, HandleMessage, FrameOf, WithinBounds, WellFormedMessage, NormalizedMessage;
    ReadsFrameAs(s, m, choices);
  }

  lemma TransmitsWell(s: Session, m: Message)
    requires s.physical.OPEN? && WithinBounds(m)
    ensures var (t, ok) := Transmit(s, m, Accepted, false);
            && ok && t == s.(slots := t.slots, out := s.out + [Emitted(m, Active(s, m.room))], calls := t.calls)
            && t.slots == s.slots[m.room := RoomIsolation.NextSlot(SlotOf(s, m.room), Accepted, false)]
  {
    ProtocolProofs.EncodeSucceedsExactly(m);
    hide Encode, WithinBounds, Transmit;
    RoomIsolation.TransmitGoesWell(s, m, Accepted, false);
    RoomIsolation.TransmitOpen(s, m, Accepted, false);
  }

  // An unknown room is opened; the other one stays as it is.
  lemma Opens(s: Session, room: Text, other: Text, choices: Choices)
    requires s.physical.OPEN? && WithinBounds(Subscribed(room)) && Unknown(s, room) && other != room
    requires choices.reply == Accepted && choices.script == Stop
    ensures var t := AddRoom(s, room, choices);
            && t.physical.OPEN? && t.initialGrant == s.initialGrant && Serving(t, room)
            && t.rooms == Set(s.rooms, room, 0) && t.out == s.out + [Emitted(Subscribed(room), Some(0))]
            && SlotOf(t, other) == SlotOf(s, other)
  {
    var o := OpenRoom(s, room);
    TransmitsWell(o, Subscribed(room));
    hide Transmit, WithinBounds, Set;
  }

  lemma Subscribes(s: Session, room: Text, other: Text, grant: Text)
    requires s.physical.OPEN? && WithinBounds(Subscribe(room, grant)) && Unknown(s, room) && other != room
    ensures var t := HandleMessage(s, Subscribe(room, grant), Choosing(s.initialGrant.(roomName := room)));
            && t.physical.OPEN? && t.initialGrant == s.initialGrant && Serving(t, room)
            && t.rooms == Set(s.rooms, room, 0) && t.out == s.out + [Emitted(Subscribed(room), Some(0))]
            && SlotOf(t, other) == SlotOf(s, other)
  {
    Opens(s, room, other, Choosing(s.initialGrant.(roomName := room)));
    hide AddRoom, Serving, WithinBounds, Set;
  }

  // The room is left: its adapter is closed, the other room stays.
  lemma Leaves(s: Session, room: Text, choices: Choices)
    requires Keeps(s) && s.physical.OPEN? && Serving(s, room) && choices.script == Stop
    ensures var t := HandleMessage(s, Unsubscribe(room), choices);
            && !IsOpen(t, AdapterId(room, 0)) && WasHanded(t, AdapterId(room, 0))
            && t.rooms == Delete(s.rooms, room)
  {
    var t := HandleUnsubscribe(s, room, choices);
    UnsubscribeServes(s, room, choices);
    assert Ages(SlotOf(s, room).adapters[0], SlotOf(t, room).adapters[0]);
    hide Keeps, HandleUnsubscribe, RoomsFrom, Delivers, Tells, Free, Delete;
  }

  /** On a closed adapter the callback has its error at once, whatever rooms are left. */
  lemma LateSendIsRefused(s: Session, id: AdapterId, payload: Bytes)
    requires WasHanded(s, id) && !IsOpen(s, id)
    ensures Step(s, SendsOn(id, payload)).calls == s.calls + [Call(id.room, SlotOf(s, id.room).sends, false, true, |s.rooms.keys|)]
  {
    var how := Sending(Accepted, Calls(Stop));
    assert SendOn(s, id, payload, how) == Run(Refuse(s, id.room), Stop) == Refuse(s, id.room);
    assert Apply(s, Send(id, payload, how)) == SendOn(s, id, payload, how);
    hide SendOn, WasHanded, IsOpen;
  }

  lemma OneByOne(e1: Event, e2: Event, e3: Event, e4: Event)
    ensures [e1, e2, e3, e4] == [] + [e1] + [e2] + [e3] + [e4]
  {
  }

  lemma FourEvents(s: Session, e1: Event, e2: Event, e3: Event, e4: Event)
    ensures After(s, [e1, e2, e3, e4]) == Step(Step(Step(Step(s, e1), e2), e3), e4)
  {
    OneByOne(e1, e2, e3, e4);
    hide Step;
    RoomIsolation.AfterLast(s, [], e1);
    RoomIsolation.AfterLast(s, [] + [e1], e2);
    RoomIsolation.AfterLast(s, [] + [e1] + [e2], e3);
    RoomIsolation.AfterLast(s, [] + [e1] + [e2] + [e3], e4);
  }

  lemma OneRoomLeft(a: Text, b: Text)
    requires a != b
    ensures var left := Delete(Set(Set(OMap([], map[]), a, 0 as nat), b, 0), a); |left.keys| == 1
  {
    assert [a, b][1..] == [b] && [b][1..] == [];
    assert Without<Text>([], a) == [];
    assert Without([b], a) == [b] + [];
    assert Without([a, b], a) == Without([b], a);
  }

  /** For any two rooms there is a run in which a send callback sees an error while one of them is open. */
  lemma ErrorWhileServing(a: Text, b: Text, grant: Text, initial: Payload, payload: Bytes)
    requires a != b && WithinBounds(Subscribe(a, grant)) && WithinBounds(Subscribe(b, grant))
    requires WellFormed(a) && WellFormed(b) && WellFormed(grant)
    ensures var s := After(Start(initial), LateSend(a, b, grant, initial, payload));
            && s.calls != [] && var c := s.calls[|s.calls| - 1];
            c.room == a && c.error && !c.open && c.roomsLeft == 1
  {
    var s0 := Start(initial);
    var events := LateSend(a, b, grant, initial, payload);
    assert s0.physical.OPEN? && s0.initialGrant == initial && Unknown(s0, a) && Unknown(s0, b) && s0.rooms == OMap([], map[]);
    assert WithinBounds(Unsubscribe(a));
    StartInv(initial);
    FourEvents(s0, events[0], events[1], events[2], events[3]);
    OneRoomLeft(a, b);
    hide Start, Step, HandleMessage, FrameOf, WithinBounds, WellFormed, Set, Delete, Inv, SendsOn, After;
    ReadsFrame(s0, Subscribe(a, grant), Choosing(initial.(roomName := a)));
    Subscribes(s0, a, b, grant);
    var s1 := Step(s0, events[0]);
    StepKeeps(s0, events[0]);
    StillUnknown(s0, s1, a, b);
    ReadsFrame(s1, Subscribe(b, grant), Choosing(initial.(roomName := b)));
    Subscribes(s1, b, a, grant);
    var s2 := Step(s1, events[1]);
    StepKeeps(s1, events[1]);
    StillServing(s1, s2, a, b);
    ReadsFrame(s2, Unsubscribe(a), Choosing(initial));
    KeptByInv(s2);
    Leaves(s2, a, Choosing(initial));
    var s3 := Step(s2, events[2]);
    LateSendIsRefused(s3, AdapterId(a, 0), payload);
  }

  lemma KeptByInv(s: Session)
    requires Inv(s)
    ensures Keeps(s)
  {
  }

  lemma StillUnknown(s: Session, t: Session, room: Text, other: Text)
    requires Unknown(s, other) && other != room && t.rooms == Set(s.rooms, room, 0) && SlotOf(t, other) == SlotOf(s, other)
    ensures Unknown(t, other)
  {
  }

  lemma StillServing(s: Session, t: Session, room: Text, other: Text)
    requires Serving(s, room) && other != room && t.rooms == Set(s.rooms, other, 0) && SlotOf(t, room) == SlotOf(s, room)
    ensures Serving(t, room)
  {
  }
}
