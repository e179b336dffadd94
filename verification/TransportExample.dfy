/** The agreement is not empty: runs that settle, with an open room when its name is well-formed text, and stuck when it is not. */
module TransportExample {
  import opened Basics
  import opened Sockets
  import opened Unicode
  import opened Protocol
  import opened OrderedMap
  import opened RoomFrames
  import opened Transport
  import opened TransportRuns
  import C = SharedWebSocket
  import S = MultiplexSession
  import Steps = MultiplexSessionSteps
  import ProtocolProofs

  function Choices(payload: S.Payload): S.Choices {
    S.Choices(S.Fresh(payload), S.Accepted, S.Stop, S.Unscripted)
  }

  // One room is constructed, the physical socket opens, the subscribe is served and answered.
  function Settling(room: Text, grant: Text, payload: S.Payload): seq<Event> {
    [ClientActs(C.Consumer(C.Construct(room, grant, false, false)), payload),
     ClientActs(C.Opened(0, 1), payload),
     ToServer(0, Choices(payload)),
     ToClient(0, C.Nothing, payload)]
  }

  function Registered(room: Text, grant: Text, state: ReadyState): C.Virtual {
    C.Virtual(room, grant, 0, state, if state.OPEN? then 1 else 0, [], [], [])
  }

  function ClientIn(room: Text, grant: Text, physical: ReadyState, wire: seq<Packet>, state: ReadyState): C.Client {
    C.Client(Some(0), [C.Physical(physical, wire, [])], [Registered(room, grant, state)], OMap([room], map[room := 0]))
  }

  /** One step, allowed. */
  ghost predicate Leads(sys: System, event: Event, next: System) {
    sys.client.registry.Valid() && Allowed(sys, event) && Next(sys, event) == next
  }

  lemma RegistersFirst(c: C.Client, room: Text, grant: Text)
    requires c == C.Client(Some(0), [C.Physical(CONNECTING, [], [])], [], OMap([], map[]))
    ensures C.Register(c, room, grant) == ClientIn(room, grant, CONNECTING, [], CONNECTING)
  {
    assert map[][room := 0] == map[room := 0];
  }

  lemma ConstructsFirst(room: Text, grant: Text)
    requires Encode(Subscribe(room, grant)).Ok?
    ensures C.ConstructSocket(C.Initial, room, grant, false, false) == ClientIn(room, grant, CONNECTING, [], CONNECTING)
  {
    hide Encode, C.Register, ClientIn;
    assert C.OpenPhysical(C.Initial) == C.Client(Some(0), [C.Physical(CONNECTING, [], [])], [], OMap([], map[]));
    RegistersFirst(C.OpenPhysical(C.Initial), room, grant);
  }

  lemma LinksFirst(payload: S.Payload)
    ensures Linked([], 1, payload) == [Link(S.Start(payload), 0, 0, [], map[])]
  {
    hide S.Start;
    assert [] + [Link(S.Start(payload), 0, 0, [], map[])] == [Link(S.Start(payload), 0, 0, [], map[])];
  }

  lemma Constructed(room: Text, grant: Text, payload: S.Payload)
    requires WithinBounds(Subscribe(room, grant))
    ensures Leads(Initial, ClientActs(C.Consumer(C.Construct(room, grant, false, false)), payload),
                  System(ClientIn(room, grant, CONNECTING, [], CONNECTING), [Link(S.Start(payload), 0, 0, [], map[])]))
  {
    ProtocolProofs.EncodeSucceedsExactly(Subscribe(room, grant));
    hide Encode, WithinBounds, S.Start, C.ConstructSocket, Linked;
    ConstructsFirst(room, grant);
    LinksFirst(payload);
  }

  lemma SubscribesOnce(room: Text, grant: Text)
    requires Encode(Subscribe(room, grant)).Ok?
    ensures C.SubscribeAll(ClientIn(room, grant, OPEN, [], CONNECTING), [room], 1)
         == ClientIn(room, grant, OPEN, [Packet(Subscribe(room, grant), 0)], CONNECTING)
  {
    hide Encode;
    assert [room][1..] == [];
    assert [] + [Packet(Subscribe(room, grant), 0)] == [Packet(Subscribe(room, grant), 0)];
  }

  lemma HasOpened(room: Text, grant: Text, payload: S.Payload, links: seq<Link>)
    requires WithinBounds(Subscribe(room, grant)) && |links| == 1
    ensures Leads(System(ClientIn(room, grant, CONNECTING, [], CONNECTING), links),
                  ClientActs(C.Opened(0, 1), payload),
                  System(ClientIn(room, grant, OPEN, [Packet(Subscribe(room, grant), 0)], CONNECTING), links))
  {
    ProtocolProofs.EncodeSucceedsExactly(Subscribe(room, grant));
    hide Encode, WithinBounds, C.SubscribeAll;
    SubscribesOnce(room, grant);
    var was, now := C.Physical(CONNECTING, [], []), C.Physical(OPEN, [], []);
    assert [was][0 := now] == [now];
    assert C.SetPhysical(ClientIn(room, grant, CONNECTING, [], CONNECTING), 0, now) == ClientIn(room, grant, OPEN, [], CONNECTING);
  }

  // The session when it has served the subscribe.
  predicate HasServed(s: S.Session, room: Text) {
    s.physical.OPEN? && s.rooms.Has(room) && |s.out| == 1 && s.out[0].message == Subscribed(room)
  }

  lemma AddRoomServes(room: Text, payload: S.Payload)
    requires WithinBounds(Subscribed(room))
    ensures HasServed(S.AddRoom(S.Start(payload), room, Choices(payload)), room)
  {
    ProtocolProofs.EncodeSucceedsExactly(Subscribed(room));
    hide Encode, WithinBounds;
    var o := S.OpenRoom(S.Start(payload), room);
    assert o.physical.OPEN? && o.out == [] && o.rooms.Has(room);
    hide S.OpenRoom;
    var (a, ok) := S.Transmit(o, Subscribed(room), S.Accepted, false);
    assert ok && a.physical.OPEN? && a.rooms == o.rooms && a.out == [S.Emitted(Subscribed(room), S.Active(o, room))];
  }

  // The server's name for the room: the text that arrives.
  lemma ArrivesAs(room: Text)
    ensures WellFormed(Normalized(room)) && Normalized(Normalized(room)) == Normalized(room)
    ensures EncodeText(Normalized(room)) == EncodeText(room)
  {
    NormalizedIsWellFormed(room);
  }

  lemma HandlesSubscribe(frame: Bytes, name: Text, grant: Text, payload: S.Payload)
    requires Decode(frame) == Ok(Subscribe(name, grant)) && payload.roomName == name
    ensures S.Step(S.Start(payload), S.Frame(frame, true, Choices(payload))) == S.AddRoom(S.Start(payload), name, Choices(payload))
  {
    hide Decode, S.AddRoom;
  }

  lemma Served(room: Text, grant: Text, payload: S.Payload)
    requires WithinBounds(Subscribe(room, grant)) && payload.roomName == Normalized(room)
    ensures var taken := Take(Link(S.Start(payload), 0, 0, [], map[]), Packet(Subscribe(room, grant), 0), Choices(payload));
            HasServed(taken.session, Normalized(room)) && taken.taken == 1 && taken.given == 0
  {
    ArrivesAs(room);
    ProtocolProofs.RoundTripNormalized(Subscribe(room, grant));
    AddRoomServes(Normalized(room), payload);
    assert FrameOf(Subscribe(room, grant)) == Encode(Subscribe(room, grant)).value;
    HandlesSubscribe(FrameOf(Subscribe(room, grant)), Normalized(room), Normalized(grant), payload);
    hide Encode, Decode, WithinBounds, S.AddRoom, S.Step, HasServed, FrameOf, WellFormed, Normalized;
  }

  // The server takes the next frame of a one-link system.
  lemma Takes(c: C.Client, link: Link, choices: S.Choices)
    requires c.registry.Valid() && |c.sockets| == 1 && link.taken < |c.sockets[0].wire|
    ensures Leads(System(c, [link]), ToServer(0, choices), System(c, [Take(link, c.sockets[0].wire[link.taken], choices)]))
  {
    hide Take;
    var taken := Take(link, c.sockets[0].wire[link.taken], choices);
    assert [link][0 := taken] == [taken];
  }

  // The virtual socket when it has been answered: no frame says a name that is not well-formed text.
  function Settles(room: Text): ReadyState {
    if WellFormed(room) then OPEN else CONNECTING
  }

  lemma ReceivesSubscribed(room: Text, grant: Text, wire: seq<Packet>)
    ensures C.Receive(ClientIn(room, grant, OPEN, wire, CONNECTING), 0, Subscribed(Normalized(room)), C.Nothing)
         == ClientIn(room, grant, OPEN, wire, Settles(room))
  {
    hide WellFormed;
    var v := Registered(room, grant, CONNECTING);
    assert [v][0 := Registered(room, grant, OPEN)] == [Registered(room, grant, OPEN)];
  }

  lemma ReadsSubscribed(room: Text, grant: Text, wire: seq<Packet>)
    requires WithinBounds(Subscribe(room, grant))
    ensures C.OnMessage(ClientIn(room, grant, OPEN, wire, CONNECTING), 0, FrameOf(Subscribed(Normalized(room))), C.Nothing)
         == ClientIn(room, grant, OPEN, wire, Settles(room))
  {
    var m := Subscribed(Normalized(room));
    ArrivesAs(room);
    assert WithinBounds(m);
    ProtocolProofs.RoundTripNormalized(m);
    assert FrameOf(m) == Encode(m).value;
    ReceivesSubscribed(room, grant, wire);
    hide Encode, Decode, WithinBounds, FrameOf, C.Receive, Settles;
  }

  lemma MessageOpens(room: Text, grant: Text, wire: seq<Packet>)
    requires WithinBounds(Subscribe(room, grant))
    ensures var c := ClientIn(room, grant, OPEN, wire, CONNECTING);
            var act := C.Message(0, FrameOf(Subscribed(Normalized(room))), C.Nothing);
            c.registry.Valid() && C.Enabled(c, act) && C.Step(c, act) == ClientIn(room, grant, OPEN, wire, Settles(room))
  {
    ReadsSubscribed(room, grant, wire);
    hide WithinBounds, FrameOf, C.OnMessage, Settles;
  }

  // The client is given the next frame of a one-link system.
  lemma Gives(c: C.Client, d: C.Client, link: Link, payload: S.Payload)
    requires c.registry.Valid() && |c.sockets| == |d.sockets| == 1 && link.given < |link.session.out|
    requires var act := C.Message(0, FrameOf(link.session.out[link.given].message), C.Nothing);
             C.Enabled(c, act) && C.Step(c, act) == d
    ensures Leads(System(c, [link]), ToClient(0, C.Nothing, payload), System(d, [link.(given := link.given + 1)]))
  {
    hide FrameOf, C.Step, C.Enabled;
    var given := link.(given := link.given + 1);
    assert [link][0 := given] == [given];
  }

  lemma Answered(room: Text, grant: Text, payload: S.Payload, link: Link, wire: seq<Packet>)
    requires WithinBounds(Subscribe(room, grant)) && HasServed(link.session, Normalized(room)) && link.given == 0
    ensures Leads(System(ClientIn(room, grant, OPEN, wire, CONNECTING), [link]),
                  ToClient(0, C.Nothing, payload),
                  System(ClientIn(room, grant, OPEN, wire, Settles(room)), [link.(given := 1)]))
  {
    hide WithinBounds, FrameOf, Settles, Normalized, C.Step, C.Enabled, Leads;
    MessageOpens(room, grant, wire);
    Gives(ClientIn(room, grant, OPEN, wire, CONNECTING), ClientIn(room, grant, OPEN, wire, Settles(room)), link, payload);
  }

  // A run goes on with an allowed step.
  lemma GoesOn(states: seq<System>, events: seq<Event>, event: Event, next: System)
    requires IsRun(states, events) && Leads(states[|events|], event, next)
    ensures IsRun(states + [next], events + [event])
  {
    hide Allowed, Next;
    var longer, more := states + [next], events + [event];
    forall i | 0 <= i < |more|
      ensures longer[i].client.registry.Valid() && Allowed(longer[i], more[i]) && longer[i + 1] == Next(longer[i], more[i])
    {
      if i < |events| {
        assert longer[i] == states[i] && more[i] == events[i] && longer[i + 1] == states[i + 1];
      }
    }
  }

  lemma FourSteps(s1: System, s2: System, s3: System, s4: System, e1: Event, e2: Event, e3: Event, e4: Event)
    requires Leads(Initial, e1, s1) && Leads(s1, e2, s2) && Leads(s2, e3, s3) && Leads(s3, e4, s4)
    ensures IsRun([Initial, s1, s2, s3, s4], [e1, e2, e3, e4])
  {
    hide Leads;
    GoesOn([Initial], [], e1, s1);
    assert [Initial] + [s1] == [Initial, s1] && [] + [e1] == [e1];
    GoesOn([Initial, s1], [e1], e2, s2);
    assert [Initial, s1] + [s2] == [Initial, s1, s2] && [e1] + [e2] == [e1, e2];
    GoesOn([Initial, s1, s2], [e1, e2], e3, s3);
    assert [Initial, s1, s2] + [s3] == [Initial, s1, s2, s3] && [e1, e2] + [e3] == [e1, e2, e3];
    GoesOn([Initial, s1, s2, s3], [e1, e2, e3], e4, s4);
    assert [Initial, s1, s2, s3] + [s4] == [Initial, s1, s2, s3, s4] && [e1, e2, e3] + [e4] == [e1, e2, e3, e4];
  }

  /**
    Both ends of the one physical socket are open, nothing is on its way, and the
    room is registered and served under the name that the server reads; its
    virtual socket is open exactly when that name is its own.
  */
  predicate HasSettled(sys: System, room: Text) {
    && sys.client.physical == Some(0) && Quiescent(sys, 0)
    && sys.client.registry.Has(room) && sys.client.registry.entries[room] == 0
    && sys.links[0].session.rooms.Has(Normalized(room))
    && |sys.client.virtuals| == 1 && sys.client.virtuals[0].state == (if WellFormed(room) then OPEN else CONNECTING)
  }

  lemma Settled(room: Text, grant: Text, link: Link, wire: seq<Packet>)
    requires HasServed(link.session, Normalized(room)) && link.taken == 1 && link.given == 1 && |wire| == 1
    ensures HasSettled(System(ClientIn(room, grant, OPEN, wire, Settles(room)), [link]), room)
  {
    hide WellFormed, Normalized;
  }

  /**
    For every room that fits a frame and every grant for it there is a run that
    settles: both ends open, nothing on its way, the room registered. Its virtual
    socket is open then exactly when its name is well-formed text; one with a lone
    surrogate, such as [0xD800], is stuck, for the server answers for U+FFFD.
  */
  lemma ARoomSettles(room: Text, grant: Text, payload: S.Payload) returns (states: seq<System>)
    requires WithinBounds(Subscribe(room, grant)) && payload.roomName == Normalized(room)
    ensures |states| == 5 && IsRun(states, Settling(room, grant, payload))
    ensures HasSettled(states[4], room)
  {
    var wire := [Packet(Subscribe(room, grant), 0)];
    var client := ClientIn(room, grant, OPEN, wire, CONNECTING);
    var link := Link(S.Start(payload), 0, 0, [], map[]);
    var taken := Take(link, wire[0], Choices(payload));
    assert client.registry.Valid() && |client.sockets| == 1 && client.sockets[0].wire == wire;
    Served(room, grant, payload);
    hide Leads, Take, HasServed, WithinBounds, WellFormed, Normalized, Settles, ClientIn, S.Start, Choices, IsRun, HasSettled;
    Constructed(room, grant, payload);
    HasOpened(room, grant, payload, [link]);
    Takes(client, link, Choices(payload));
    Answered(room, grant, payload, taken, wire);
    Settled(room, grant, taken.(given := 1), wire);
    assert taken.(given := 1).session == taken.session;
    states := [Initial, System(ClientIn(room, grant, CONNECTING, [], CONNECTING), [link]), System(client, [link]),
               System(client, [taken]), System(ClientIn(room, grant, OPEN, wire, Settles(room)), [taken.(given := 1)])];
    FourSteps(states[1], states[2], states[3], states[4],
              ClientActs(C.Consumer(C.Construct(room, grant, false, false)), payload),
              ClientActs(C.Opened(0, 1), payload), ToServer(0, Choices(payload)), ToClient(0, C.Nothing, payload));
  }
}
