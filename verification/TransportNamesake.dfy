/**
  Two names that the server reads as one: the run that shows why agreement supposes
  that no other name of the client is read as the room's.
*/
module TransportNamesake {
  import opened Basics
  import opened Sockets
  import opened Unicode
  import opened Protocol
  import opened OrderedMap
  import opened RoomFrames
  import opened Transport
  import opened TransportRuns
  import opened TransportExample
  import opened TransportCrossing
  import C = SharedWebSocket
  import S = MultiplexSession
  import SP = MultiplexSessionProofs
  import Steps = MultiplexSessionSteps
  import RoomIsolation
  import Served = MultiplexSessionExample

  /** What the run ends in: nothing on its way, and an open virtual socket of a room that the server does not serve. */
  predicate Deserted(sys: System, room: Text) {
    && sys.client.physical == Some(0) && Quiescent(sys, 0)
    && sys.client.registry.Has(room) && sys.client.registry.entries[room] < |sys.client.virtuals|
    && sys.client.virtuals[sys.client.registry.entries[room]].state.OPEN?
    && !sys.links[0].session.rooms.Has(room)
  }

  // A session that serves the room as the only one, open, in good order.
  ghost predicate ServesOne(s: S.Session, room: Text, initial: S.Payload) {
    && Steps.Inv(s) && s.physical.OPEN? && s.initialGrant == initial && Served.Serving(s, room)
  }

  lemma FirstServes(room: Text, other: Text, grant: Text, initial: S.Payload)
    requires WithinBounds(Subscribe(room, grant)) && other != room
    ensures var s := S.Start(initial);
            var t := S.HandleMessage(s, Subscribe(room, grant), Served.Choosing(initial.(roomName := room)));
            ServesOne(t, room, initial) && t.out == [S.Emitted(Subscribed(room), Some(0))]
  {
    var s := S.Start(initial);
    StartsUnknown(initial, room, other);
    Steps.StartInv(initial);
    hide S.Start, S.HandleMessage, Steps.Inv, Served.Serving, Served.Unknown, WithinBounds, Set;
    Served.Subscribes(s, room, other, grant);
    Steps.HandleMessageKeeps(s, Subscribe(room, grant), Served.Choosing(initial.(roomName := room)));
  }

  // A room already served is acknowledged once more.
  lemma ServesAgain(s: S.Session, room: Text, grant: Text, initial: S.Payload)
    requires ServesOne(s, room, initial) && WithinBounds(Subscribed(room))
    ensures var t := S.HandleMessage(s, Subscribe(room, grant), Served.Choosing(initial));
            ServesOne(t, room, initial) && t.out == s.out + [S.Emitted(Subscribed(room), Some(0))]
  {
    Steps.HandleMessageKeeps(s, Subscribe(room, grant), Served.Choosing(initial));
    Served.TransmitsWell(s, Subscribed(room));
    hide Steps.Inv, S.Transmit, WithinBounds;
  }

  // One unsubscribe is enough to take the room away, and the client is not told.
  lemma LeavesIt(s: S.Session, room: Text, initial: S.Payload)
    requires ServesOne(s, room, initial)
    ensures var t := S.HandleMessage(s, Unsubscribe(room), Served.Choosing(initial));
            t.physical.OPEN? && t.out == s.out && !t.rooms.Has(room)
  {
    hide Steps.BypassOk, S.HandleUnsubscribe, SP.AdaptersOk, SP.MetricsOk, SP.ReportsOk, SP.OutOk, SP.ShutOk, SP.CallsOk, SP.ExpectedOk;
    Steps.QuietUnsubscribe(s, room, Served.Choosing(initial));
  }

  // The client's frames, its sockets and its rooms when the namesake has left.
  function LastWire(a: Text, b: Text, grant: Text): seq<Packet> {
    FirstWire(a, b, grant) + [Packet(Unsubscribe(b), 1)]
  }

  function LastSockets(a: Text, b: Text, grant: Text): seq<C.Virtual> {
    [Registered(a, grant, CONNECTING), Gone(b, grant, 1000)]
  }

  function LastRooms(a: Text, b: Text): OMap<Text, nat> {
    Delete(FirstRooms(a, b), b)
  }

  lemma LastFromFirst(a: Text, b: Text, grant: Text)
    ensures FirstSockets(a, b, grant)[1 := Gone(b, grant, 1000)] == LastSockets(a, b, grant)
    ensures |FirstSockets(a, b, grant)| == 2 && FirstSockets(a, b, grant)[1] == Registered(b, grant, CONNECTING)
    ensures Registered(b, grant, CONNECTING).room == b && Registered(b, grant, CONNECTING).grant == grant
    ensures var wire := LastWire(a, b, grant);
            && |wire| == 3 && wire[0].message == Subscribe(a, grant) && wire[1].message == Subscribe(b, grant)
            && wire[2].message == Unsubscribe(b)
  {
  }

  lemma LastRegistered(a: Text, b: Text)
    requires a != b
    ensures FirstRooms(a, b).Valid() && FirstRooms(a, b).Has(b) && FirstRooms(a, b).entries[b] == 1
    ensures LastRooms(a, b).Valid() && LastRooms(a, b).Has(a) && LastRooms(a, b).entries[a] == 0 && !LastRooms(a, b).IsEmpty()
  {
    Registrations(a, b);
    hide Delete;
  }

  // What the namesake's frames are read as.
  lemma ReadsAs(a: Text, b: Text, grant: Text)
    requires Normalized(b) == a && WithinBounds(Subscribe(a, grant))
    ensures WithinBounds(Subscribe(b, grant)) && WithinBounds(Unsubscribe(b)) && WithinBounds(Subscribed(a)) && Fits(Subscribed(a))
    ensures NormalizedMessage(Subscribe(a, grant)) == Subscribe(a, Normalized(grant))
    ensures NormalizedMessage(Subscribe(b, grant)) == Subscribe(a, Normalized(grant))
    ensures NormalizedMessage(Unsubscribe(b)) == Unsubscribe(a)
    ensures WithinBounds(Subscribe(a, Normalized(grant)))
  {
    NormalizedIsWellFormed(b);
    NormalizedIsWellFormed(grant);
    hide Normalized, WellFormed;
  }

  // Both names are constructed and subscribed, and the namesake leaves.
  lemma NamesakeLeaves(a: Text, b: Text, grant: Text, initial: S.Payload) returns (states: seq<System>, events: seq<Event>)
    requires a != b && WithinBounds(Subscribe(a, grant)) && WithinBounds(Subscribe(b, grant)) && WithinBounds(Unsubscribe(b))
    ensures At(states, events, ClientOf(OPEN, LastWire(a, b, grant), LastSockets(a, b, grant), LastRooms(a, b)), Link(S.Start(initial), 0, 0, [], map[]))
  {
    LastRegistered(a, b);
    LastFromFirst(a, b, grant);
    hide OMap.Valid, At, WithinBounds, S.Start, FirstRooms, FirstSockets, LastSockets, FirstWire, ClientOf, Registered, Delete;
    states, events := Subscribing(a, b, grant, initial);
    states, events := ThenLeaves(states, events, Link(S.Start(initial), 0, 0, [], map[]), initial,
                                 FirstWire(a, b, grant), FirstSockets(a, b, grant), FirstRooms(a, b), 1);
  }

  // The server takes all three frames as those of one room.
  lemma ReadsAll(states: seq<System>, events: seq<Event>, c: C.Client, a: Text, b: Text, grant: Text, initial: S.Payload)
    returns (states': seq<System>, events': seq<Event>, link: Link)
    requires a != b && Normalized(b) == a && WithinBounds(Subscribe(a, grant))
    requires At(states, events, c, Link(S.Start(initial), 0, 0, [], map[])) && c.registry.Valid()
    requires |c.sockets| == 1 && c.sockets[0].wire == LastWire(a, b, grant)
    ensures At(states', events', c, link) && link.taken == 3 && link.given == 0
    ensures link.session.physical.OPEN? && !link.session.rooms.Has(a)
    ensures link.session.out == [S.Emitted(Subscribed(a), Some(0)), S.Emitted(Subscribed(a), Some(0))]
  {
    hide OMap.Valid, At, Fits, WithinBounds, S.HandleMessage, S.Start, Normalized, NormalizedMessage, LastWire, FirstSockets, LastSockets, ServesOne, Registered;
    var begun := Link(S.Start(initial), 0, 0, [], map[]);
    StartsUnknown(initial, a, b);
    ReadsAs(a, b, grant);
    LastFromFirst(a, b, grant);
    var choosing, first, second := Served.Choosing(initial.(roomName := a)), begun, begun;
    states', events', first := ThenReadsAs(states, events, c, begun, choosing);
    FirstServes(a, b, Normalized(grant), initial);
    ServesOpen(first.session, a, initial);
    states', events', second := ThenReadsAs(states', events', c, first, Served.Choosing(initial));
    ServesAgain(first.session, a, Normalized(grant), initial);
    ServesOpen(second.session, a, initial);
    states', events', link := ThenReadsAs(states', events', c, second, Served.Choosing(initial));
    LeavesIt(second.session, a, initial);
  }

  lemma ServesOpen(s: S.Session, room: Text, initial: S.Payload)
    requires ServesOne(s, room, initial)
    ensures s.physical.OPEN?
  {
  }

  // The client hears its room acknowledged twice.
  lemma HearsTwice(states: seq<System>, events: seq<Event>, link: Link, a: Text, b: Text, grant: Text, initial: S.Payload)
    returns (states': seq<System>, events': seq<Event>, d: C.Client)
    requires a != b && Fits(Subscribed(a))
    requires At(states, events, ClientOf(OPEN, LastWire(a, b, grant), LastSockets(a, b, grant), LastRooms(a, b)), link)
    requires link.given == 0 && link.session.out == [S.Emitted(Subscribed(a), Some(0)), S.Emitted(Subscribed(a), Some(0))]
    ensures At(states', events', d, link.(given := 2))
    ensures d == ClientOf(OPEN, LastWire(a, b, grant), [Registered(a, grant, OPEN), Gone(b, grant, 1000)], LastRooms(a, b))
  {
    LastRegistered(a, b);
    LastSocketsOpen(a, b, grant);
    var sockets := LastSockets(a, b, grant);
    var heard := [Registered(a, grant, OPEN), Gone(b, grant, 1000)];
    d := ClientOf(OPEN, LastWire(a, b, grant), heard, LastRooms(a, b));
    HearsAgain(LastWire(a, b, grant), heard, LastRooms(a, b), a);
    assert d.registry.Valid() && d.physical == Some(0) && |d.sockets| == 1 && d.sockets[0].state.OPEN?;
    hide OMap.Valid, At, Fits, LastWire, LastSockets, LastRooms, ClientOf, Registered, Gone, C.Receive;
    states', events' := ThenOpensOne(states, events, link, initial, LastWire(a, b, grant), sockets, LastRooms(a, b), 0);
    states', events' := ThenHears(states', events', d, d, link.(given := 1), initial);
  }

  lemma LastSocketsOpen(a: Text, b: Text, grant: Text)
    ensures var sockets := LastSockets(a, b, grant);
            && |sockets| == 2 && sockets[0] == Registered(a, grant, CONNECTING)
            && Registered(a, grant, CONNECTING).room == a && Registered(a, grant, CONNECTING).grant == grant
            && sockets[0 := Registered(a, grant, OPEN)] == [Registered(a, grant, OPEN), Gone(b, grant, 1000)]
  {
  }

  // A socket that is open already hears nothing in a second acknowledgement.
  lemma HearsAgain(wire: seq<Packet>, virtuals: seq<C.Virtual>, registry: OMap<Text, nat>, room: Text)
    requires registry.Has(room) && registry.entries[room] < |virtuals| && virtuals[registry.entries[room]].state.OPEN?
    ensures var c := ClientOf(OPEN, wire, virtuals, registry); C.Receive(c, 0, Subscribed(room), C.Nothing) == c
  {
  }

  /**
    For any well-formed name a and another name b that is read as it, such as
    [0xFFFD] and [0xD800]: a run in which b's unsubscribe takes a's room away at the
    server, unannounced, while a's virtual socket stays open.
  */
  lemma ANamesakeTakesTheRoom(a: Text, b: Text, grant: Text, initial: S.Payload) returns (states: seq<System>, events: seq<Event>)
    requires a != b && Normalized(b) == a && WithinBounds(Subscribe(a, grant))
    ensures IsRun(states, events) && Deserted(states[|events|], a)
  {
    var c := ClientOf(OPEN, LastWire(a, b, grant), LastSockets(a, b, grant), LastRooms(a, b));
    ReadsAs(a, b, grant);
    LastRegistered(a, b);
    LastFromFirst(a, b, grant);
    LooksOf(OPEN, LastWire(a, b, grant), LastSockets(a, b, grant), LastRooms(a, b));
    hide OMap.Valid, At, Fits, WithinBounds, Normalized, S.Start, ClientOf, LastWire, LastSockets, LastRooms, FirstSockets, IsRun, Deserted, Registered, Gone;
    var link, d;
    states, events := NamesakeLeaves(a, b, grant, initial);
    states, events, link := ReadsAll(states, events, c, a, b, grant, initial);
    states, events, d := HearsTwice(states, events, link, a, b, grant, initial);
    Deserts(states, events, d, link.(given := 2), a, b, grant);
  }

  lemma Deserts(states: seq<System>, events: seq<Event>, d: C.Client, link: Link, a: Text, b: Text, grant: Text)
    requires At(states, events, d, link) && a != b
    requires d == ClientOf(OPEN, LastWire(a, b, grant), [Registered(a, grant, OPEN), Gone(b, grant, 1000)], LastRooms(a, b))
    requires link.session.physical.OPEN? && !link.session.rooms.Has(a)
    requires link.taken == |LastWire(a, b, grant)| && link.given == |link.session.out|
    ensures IsRun(states, events) && Deserted(states[|events|], a)
  {
    LastRegistered(a, b);
    hide IsRun, LastWire, LastRooms;
  }

  /** A lone surrogate is read as the replacement character: the two names of the run exist. */
  lemma ReplacementHasANamesake()
    ensures Normalized([0xD800]) == [REPLACEMENT]
  {
    assert Scalars([0xD800]) == [REPLACEMENT] + Scalars([]);
    assert FromScalars([REPLACEMENT]) == Units(REPLACEMENT) + FromScalars([]);
  }
}
