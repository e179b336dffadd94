/**
  A refusal that crosses a resubscription: the run that shows why the server may
  go on serving a room that the client has left.
*/
module TransportCrossing {
  import opened Basics
  import opened Sockets
  import opened Unicode
  import opened Protocol
  import opened OrderedMap
  import opened RoomFrames
  import opened Transport
  import opened TransportRuns
  import opened TransportExample
  import C = SharedWebSocket
  import S = MultiplexSession
  import Served = MultiplexSessionExample
  import ProtocolProofs

  /** The message fits a frame, and arrives as it is. */
  predicate Fits(m: Message) {
    WithinBounds(m) && WellFormedMessage(m)
  }

  lemma FitsEncoded(m: Message)
    requires Fits(m)
    ensures WithinBounds(m) && Encode(m).Ok?
  {
    ProtocolProofs.EncodeSucceedsExactly(m);
    hide Encode;
  }

  // ---------- the client's states ----------

  function ClientOf(state: ReadyState, wire: seq<Packet>, virtuals: seq<C.Virtual>, registry: OMap<Text, nat>): C.Client {
    C.Client(Some(0), [C.Physical(state, wire, [])], virtuals, registry)
  }

  function Gone(room: Text, grant: Text, code: int): C.Virtual {
    C.Virtual(room, grant, 0, CLOSED, 0, [code], [], [])
  }

  // What is on the wire, made and registered when both rooms have been subscribed.
  function FirstWire(a: Text, b: Text, grant: Text): seq<Packet> {
    [Packet(Subscribe(a, grant), 0), Packet(Subscribe(b, grant), 1)]
  }

  function FirstSockets(a: Text, b: Text, grant: Text): seq<C.Virtual> {
    [Registered(a, grant, CONNECTING), Registered(b, grant, CONNECTING)]
  }

  function OneRoom(a: Text): OMap<Text, nat> {
    OMap([a], map[a := 0])
  }

  function FirstRooms(a: Text, b: Text): OMap<Text, nat> {
    Set<Text, nat>(OneRoom(a), b, 1)
  }

  // The same when b has been left and subscribed again.
  function NextWire(a: Text, b: Text, grant: Text): seq<Packet> {
    FirstWire(a, b, grant) + [Packet(Unsubscribe(b), 1), Packet(Subscribe(b, grant), 2)]
  }

  function NextSockets(a: Text, b: Text, grant: Text): seq<C.Virtual> {
    [Registered(a, grant, CONNECTING), Gone(b, grant, 1000), Registered(b, grant, CONNECTING)]
  }

  function NextRooms(a: Text, b: Text): OMap<Text, nat> {
    Set<Text, nat>(Delete(FirstRooms(a, b), b), b, 2)
  }

  lemma Constructs(state: ReadyState, wire: seq<Packet>, virtuals: seq<C.Virtual>, registry: OMap<Text, nat>, room: Text, grant: Text)
    requires Encode(Subscribe(room, grant)).Ok? && !registry.Has(room)
    ensures var sent := if state.OPEN? then wire + [Packet(Subscribe(room, grant), |virtuals|)] else wire;
            C.ConstructSocket(ClientOf(state, wire, virtuals, registry), room, grant, false, false)
            == ClientOf(state, sent, virtuals + [Registered(room, grant, CONNECTING)], Set(registry, room, |virtuals|))
  {
    hide Encode, Set;
  }

  lemma SubscribesFirst(wire: seq<Packet>, virtuals: seq<C.Virtual>, registry: OMap<Text, nat>, keys: seq<Text>, left: nat, v: nat)
    requires keys != [] && registry.Has(keys[0]) && registry.entries[keys[0]] == v && v < |virtuals| && virtuals[v].state.CONNECTING? && left > 0
    requires Encode(Subscribe(keys[0], virtuals[v].grant)).Ok?
    ensures C.SubscribeAll(ClientOf(OPEN, wire, virtuals, registry), keys, left)
         == C.SubscribeAll(ClientOf(OPEN, wire + [Packet(Subscribe(keys[0], virtuals[v].grant), v)], virtuals, registry), keys[1..], left - 1)
  {
    hide Encode;
    var m := Subscribe(keys[0], virtuals[v].grant);
    var was, now := C.Physical(OPEN, wire, []), C.Physical(OPEN, wire + [Packet(m, v)], []);
    assert [was][0 := now] == [now];
    assert C.SendPhysical(ClientOf(OPEN, wire, virtuals, registry), m, v, false) == (ClientOf(OPEN, wire + [Packet(m, v)], virtuals, registry), false);
    hide C.SendPhysical;
  }

  // The physical socket opens: both rooms are subscribed, in the order of their registration.
  lemma OpensBoth(a: Text, b: Text, grant: Text, registry: OMap<Text, nat>)
    requires a != b && Encode(Subscribe(a, grant)).Ok? && Encode(Subscribe(b, grant)).Ok?
    requires registry.keys == [a, b] && registry.entries == map[a := 0, b := 1]
    ensures var virtuals := [Registered(a, grant, CONNECTING), Registered(b, grant, CONNECTING)];
            C.SubscribeAll(ClientOf(OPEN, [], virtuals, registry), registry.keys, 2)
            == ClientOf(OPEN, [Packet(Subscribe(a, grant), 0), Packet(Subscribe(b, grant), 1)], virtuals, registry)
  {
    hide Encode;
    var virtuals := [Registered(a, grant, CONNECTING), Registered(b, grant, CONNECTING)];
    var first := Packet(Subscribe(a, grant), 0);
    var second := Packet(Subscribe(b, grant), 1);
    assert [a, b][1..] == [b] && [b][1..] == [];
    SubscribesFirst([], virtuals, registry, [a, b], 2, 0);
    assert [] + [first] == [first] && [first] + [second] == [first, second];
    SubscribesFirst([first], virtuals, registry, [b], 1, 1);
  }

  lemma Opened(virtuals: seq<C.Virtual>, registry: OMap<Text, nat>, d: C.Client)
    requires registry.Valid() && C.SubscribeAll(ClientOf(OPEN, [], virtuals, registry), registry.keys, 2) == d
    ensures C.Enabled(ClientOf(CONNECTING, [], virtuals, registry), C.Opened(0, 2))
    ensures C.Step(ClientOf(CONNECTING, [], virtuals, registry), C.Opened(0, 2)) == d
  {
    hide C.SubscribeAll;
    var was, now := C.Physical(CONNECTING, [], []), C.Physical(OPEN, [], []);
    assert [was][0 := now] == [now];
  }

  // The consumer closes socket v; another room stays registered.
  lemma Closes(wire: seq<Packet>, virtuals: seq<C.Virtual>, registry: OMap<Text, nat>, v: nat, code: int, unsubscribe: bool)
    requires v < |virtuals| && virtuals[v].state.CONNECTING? && virtuals[v] == Registered(virtuals[v].room, virtuals[v].grant, CONNECTING)
    requires registry.Has(virtuals[v].room) && registry.entries[virtuals[v].room] == v
    requires Encode(Unsubscribe(virtuals[v].room)).Ok? && !Delete(registry, virtuals[v].room).IsEmpty()
    ensures var room := virtuals[v].room;
            var sent := if unsubscribe then wire + [Packet(Unsubscribe(room), v)] else wire;
            C.CloseVirtual(ClientOf(OPEN, wire, virtuals, registry), v, code, unsubscribe, false, C.Nothing)
            == ClientOf(OPEN, sent, virtuals[v := Gone(room, virtuals[v].grant, code)], Delete(registry, room))
  {
    hide Encode, Delete;
    assert virtuals[v].codes + [code] == [code];
  }

  lemma StaysRegistered(registry: OMap<Text, nat>, room: Text, other: Text)
    requires registry.Valid() && registry.Has(other) && other != room
    ensures Delete(registry, room).Has(other) && Delete(registry, room).Valid() && !Delete(registry, room).IsEmpty()
  {
    assert other in Delete(registry, room).keys;
  }

  lemma OpensOne(wire: seq<Packet>, virtuals: seq<C.Virtual>, registry: OMap<Text, nat>, v: nat)
    requires v < |virtuals| && virtuals[v] == Registered(virtuals[v].room, virtuals[v].grant, CONNECTING)
    requires registry.Has(virtuals[v].room) && registry.entries[virtuals[v].room] == v
    ensures C.Receive(ClientOf(OPEN, wire, virtuals, registry), 0, Subscribed(virtuals[v].room), C.Nothing)
         == ClientOf(OPEN, wire, virtuals[v := Registered(virtuals[v].room, virtuals[v].grant, OPEN)], registry)
  {
  }

  lemma RefusesOne(wire: seq<Packet>, virtuals: seq<C.Virtual>, registry: OMap<Text, nat>, v: nat, code: int)
    requires v < |virtuals| && virtuals[v] == Registered(virtuals[v].room, virtuals[v].grant, CONNECTING)
    requires registry.Has(virtuals[v].room) && registry.entries[virtuals[v].room] == v
    requires Encode(Unsubscribe(virtuals[v].room)).Ok? && !Delete(registry, virtuals[v].room).IsEmpty()
    ensures var room := virtuals[v].room;
            C.Receive(ClientOf(OPEN, wire, virtuals, registry), 0, RoomClosed(room, code), C.Nothing)
            == ClientOf(OPEN, wire, virtuals[v := Gone(room, virtuals[v].grant, code)], Delete(registry, room))
  {
    Closes(wire, virtuals, registry, v, code, false);
    hide C.CloseVirtual, Encode, Delete;
  }

  // ---------- one more step of a run ----------

  /** A run that has come to this client and its one link. */
  ghost predicate At(states: seq<System>, events: seq<Event>, c: C.Client, link: Link) {
    IsRun(states, events) && states[|events|] == System(c, [link])
  }

  lemma Extended(states: seq<System>, events: seq<Event>, event: Event, c: C.Client, link: Link)
    returns (states': seq<System>, events': seq<Event>)
    requires IsRun(states, events) && Leads(states[|events|], event, System(c, [link]))
    ensures At(states', events', c, link)
  {
    GoesOn(states, events, event, System(c, [link]));
    states', events' := states + [System(c, [link])], events + [event];
  }

  lemma Acts(states: seq<System>, events: seq<Event>, c: C.Client, d: C.Client, link: Link, act: C.Event, payload: S.Payload)
    returns (states': seq<System>, events': seq<Event>)
    requires At(states, events, c, link)
    requires c.registry.Valid() && !act.Message? && C.Enabled(c, act) && C.Step(c, act) == d && |d.sockets| == 1
    ensures At(states', events', d, link)
  {
    assert Leads(System(c, [link]), ClientActs(act, payload), System(d, [link])) by {
      hide C.Step, C.Enabled, IsRun;
    }
    hide Leads, IsRun;
    states', events' := Extended(states, events, ClientActs(act, payload), d, link);
  }

  lemma ThenConstructs(states: seq<System>, events: seq<Event>, link: Link, payload: S.Payload, state: ReadyState,
                       wire: seq<Packet>, virtuals: seq<C.Virtual>, registry: OMap<Text, nat>, room: Text, grant: Text)
    returns (states': seq<System>, events': seq<Event>)
    requires At(states, events, ClientOf(state, wire, virtuals, registry), link)
    requires WithinBounds(Subscribe(room, grant)) && registry.Valid() && !registry.Has(room)
    ensures var sent := if state.OPEN? then wire + [Packet(Subscribe(room, grant), |virtuals|)] else wire;
            At(states', events', ClientOf(state, sent, virtuals + [Registered(room, grant, CONNECTING)], Set(registry, room, |virtuals|)), link)
  {
    ProtocolProofs.EncodeSucceedsExactly(Subscribe(room, grant));
    Constructs(state, wire, virtuals, registry, room, grant);
    hide At, WithinBounds, Encode, C.ConstructSocket, Set;
    var c := ClientOf(state, wire, virtuals, registry);
    states', events' := Acts(states, events, c, C.ConstructSocket(c, room, grant, false, false), link,
                             C.Consumer(C.Construct(room, grant, false, false)), payload);
  }

  lemma ThenOpens(states: seq<System>, events: seq<Event>, link: Link, payload: S.Payload, a: Text, b: Text, grant: Text, registry: OMap<Text, nat>)
    returns (states': seq<System>, events': seq<Event>)
    requires a != b && WithinBounds(Subscribe(a, grant)) && WithinBounds(Subscribe(b, grant))
    requires registry.Valid() && registry.keys == [a, b] && registry.entries == map[a := 0, b := 1]
    requires var virtuals := [Registered(a, grant, CONNECTING), Registered(b, grant, CONNECTING)];
             At(states, events, ClientOf(CONNECTING, [], virtuals, registry), link)
    ensures var virtuals := [Registered(a, grant, CONNECTING), Registered(b, grant, CONNECTING)];
            At(states', events', ClientOf(OPEN, [Packet(Subscribe(a, grant), 0), Packet(Subscribe(b, grant), 1)], virtuals, registry), link)
  {
    var virtuals := [Registered(a, grant, CONNECTING), Registered(b, grant, CONNECTING)];
    var d := ClientOf(OPEN, [Packet(Subscribe(a, grant), 0), Packet(Subscribe(b, grant), 1)], virtuals, registry);
    hide At, WithinBounds, Encode, C.SubscribeAll, C.Step;
    ProtocolProofs.EncodeSucceedsExactly(Subscribe(a, grant));
    ProtocolProofs.EncodeSucceedsExactly(Subscribe(b, grant));
    OpensBoth(a, b, grant, registry);
    Opened(virtuals, registry, d);
    states', events' := Acts(states, events, ClientOf(CONNECTING, [], virtuals, registry), d, link, C.Opened(0, 2), payload);
  }

  lemma ThenLeaves(states: seq<System>, events: seq<Event>, link: Link, payload: S.Payload,
                   wire: seq<Packet>, virtuals: seq<C.Virtual>, registry: OMap<Text, nat>, v: nat)
    returns (states': seq<System>, events': seq<Event>)
    requires At(states, events, ClientOf(OPEN, wire, virtuals, registry), link)
    requires v < |virtuals| && virtuals[v] == Registered(virtuals[v].room, virtuals[v].grant, CONNECTING)
    requires registry.Valid() && registry.Has(virtuals[v].room) && registry.entries[virtuals[v].room] == v
    requires WithinBounds(Unsubscribe(virtuals[v].room)) && !Delete(registry, virtuals[v].room).IsEmpty()
    ensures var room := virtuals[v].room;
            At(states', events', ClientOf(OPEN, wire + [Packet(Unsubscribe(room), v)],
                                          virtuals[v := Gone(room, virtuals[v].grant, 1000)], Delete(registry, room)), link)
  {
    ProtocolProofs.EncodeSucceedsExactly(Unsubscribe(virtuals[v].room));
    Closes(wire, virtuals, registry, v, 1000, true);
    hide At, WithinBounds, Encode, C.CloseVirtual, Delete;
    var c := ClientOf(OPEN, wire, virtuals, registry);
    states', events' := Acts(states, events, c, C.CloseVirtual(c, v, 1000, true, false, C.Nothing), link,
                             C.Consumer(C.Close(v, 1000, false, C.Nothing)), payload);
  }

  lemma HeardBy(c: C.Client, m: Message)
    requires c.registry.Valid() && c.physical == Some(0) && |c.sockets| == 1 && c.sockets[0].state.OPEN?
    requires Fits(m)
    ensures C.Enabled(c, C.Message(0, FrameOf(m), C.Nothing)) && C.Step(c, C.Message(0, FrameOf(m), C.Nothing)) == C.Receive(c, 0, m, C.Nothing)
  {
    ProtocolProofs.RoundTrip(m);
    assert FrameOf(m) == Encode(m).value;
    hide C.Receive, Encode, Decode, WithinBounds, WellFormedMessage, FrameOf;
  }

  // The client is given the next frame, and its callbacks do nothing.
  lemma ThenHears(states: seq<System>, events: seq<Event>, c: C.Client, d: C.Client, link: Link, payload: S.Payload)
    returns (states': seq<System>, events': seq<Event>)
    requires At(states, events, c, link) && link.given < |link.session.out|
    requires c.registry.Valid() && c.physical == Some(0) && |c.sockets| == |d.sockets| == 1 && c.sockets[0].state.OPEN?
    requires var m := link.session.out[link.given].message;
             Fits(m) && C.Receive(c, 0, m, C.Nothing) == d
    ensures At(states', events', d, link.(given := link.given + 1))
  {
    HeardBy(c, link.session.out[link.given].message);
    hide C.Receive, Fits, FrameOf, Leads, IsRun, C.Step, C.Enabled;
    Gives(c, d, link, payload);
    states', events' := Extended(states, events, ToClient(0, C.Nothing, payload), d, link.(given := link.given + 1));
  }

  // The server takes the next frame, as it reads it.
  lemma ThenReadsAs(states: seq<System>, events: seq<Event>, c: C.Client, link: Link, choices: S.Choices)
    returns (states': seq<System>, events': seq<Event>, taken: Link)
    requires At(states, events, c, link)
    requires c.registry.Valid() && |c.sockets| == 1 && link.taken < |c.sockets[0].wire| && link.session.physical.OPEN?
    requires WithinBounds(c.sockets[0].wire[link.taken].message)
    ensures At(states', events', c, taken)
    ensures taken.session == S.HandleMessage(link.session, NormalizedMessage(c.sockets[0].wire[link.taken].message), choices)
    ensures taken.taken == link.taken + 1 && taken.given == link.given
  {
    taken := Take(link, c.sockets[0].wire[link.taken], choices);
    Takes(c, link, choices);
    Served.ReadsFrameAs(link.session, c.sockets[0].wire[link.taken].message, choices);
    hide Leads, IsRun, S.Step, S.HandleMessage, WithinBounds, FrameOf, NormalizedMessage;
    states', events' := Extended(states, events, ToServer(0, choices), c, taken);
  }

  lemma ThenReads(states: seq<System>, events: seq<Event>, c: C.Client, link: Link, choices: S.Choices)
    returns (states': seq<System>, events': seq<Event>, taken: Link)
    requires At(states, events, c, link)
    requires c.registry.Valid() && |c.sockets| == 1 && link.taken < |c.sockets[0].wire| && link.session.physical.OPEN?
    requires Fits(c.sockets[0].wire[link.taken].message)
    ensures At(states', events', c, taken)
    ensures taken.session == S.HandleMessage(link.session, c.sockets[0].wire[link.taken].message, choices)
    ensures taken.taken == link.taken + 1 && taken.given == link.given
  {
    FitsEncoded(c.sockets[0].wire[link.taken].message);
    FitsAsIs(c.sockets[0].wire[link.taken].message);
    hide At, Fits, Encode, S.HandleMessage, WithinBounds, NormalizedMessage;
    states', events', taken := ThenReadsAs(states, events, c, link, choices);
  }

  lemma FitsAsIs(m: Message)
    requires Fits(m)
    ensures NormalizedMessage(m) == m
  {
  }

  // ---------- the server's answers ----------

  function Refusing(payload: S.Payload): S.Choices {
    S.Choices(S.Invalid, S.Accepted, S.Stop, S.Unscripted)
  }

  // A grant that does not verify: the room is refused, and still unknown.
  lemma Refuses(s: S.Session, room: Text, grant: Text, payload: S.Payload)
    requires s.physical.OPEN? && WithinBounds(RoomClosed(room, S.ROOM_REJECTED_CLOSE_CODE)) && Served.Unknown(s, room)
    ensures var t := S.HandleMessage(s, Subscribe(room, grant), Refusing(payload));
            && t.physical.OPEN? && t.initialGrant == s.initialGrant && t.rooms == s.rooms && Served.Unknown(t, room)
            && t.out == s.out + [S.Emitted(RoomClosed(room, S.ROOM_REJECTED_CLOSE_CODE), None)]
  {
    var noted := s.(metrics := s.metrics + [S.RoomConnectionClose(S.AuthorizationRejected, None)]);
    Served.TransmitsWell(noted, RoomClosed(room, S.ROOM_REJECTED_CLOSE_CODE));
    hide WithinBounds, S.Transmit;
  }

  lemma UnknownIsLeft(s: S.Session, room: Text, choices: S.Choices)
    requires Served.Unknown(s, room)
    ensures S.HandleMessage(s, Unsubscribe(room), choices) == s
  {
  }

  /** What the run ends in: nothing on its way, and a room served that the client has not registered. */
  predicate ServedInVain(sys: System, room: Text) {
    && sys.client.physical == Some(0) && Quiescent(sys, 0)
    && sys.links[0].session.rooms.Has(room) && !sys.client.registry.Has(room)
  }

  // The registrations of the run: a stays, b goes, comes back and goes again.
  lemma Registrations(a: Text, b: Text)
    requires a != b
    ensures var both := FirstRooms(a, b);
            && both.keys == [a, b] && both.entries == map[a := 0, b := 1] && both.Valid()
            && Delete(both, b).Has(a) && !Delete(both, b).Has(b) && Delete(both, b).Valid() && !Delete(both, b).IsEmpty()
    ensures var again := NextRooms(a, b);
            && again.Valid() && again.Has(a) && again.entries[a] == 0 && again.Has(b) && again.entries[b] == 2
            && !Delete(again, b).Has(b) && Delete(again, b).Valid() && !Delete(again, b).IsEmpty()
  {
    var both := FirstRooms(a, b);
    assert [a] + [b] == [a, b];
    assert OneRoom(a).Valid();
    StaysRegistered(both, b, a);
    StaysRegistered(NextRooms(a, b), b, a);
    hide Delete;
  }

  // What fits a frame once fits every frame of the run.
  lemma AllFit(room: Text, grant: Text)
    requires Fits(Subscribe(room, grant))
    ensures Fits(Unsubscribe(room)) && Fits(Subscribed(room)) && Fits(RoomClosed(room, S.ROOM_REJECTED_CLOSE_CODE))
  {
  }

  // Both rooms are constructed, the physical socket opens, and both are subscribed.
  lemma Subscribing(a: Text, b: Text, grant: Text, initial: S.Payload) returns (states: seq<System>, events: seq<Event>)
    requires a != b && WithinBounds(Subscribe(a, grant)) && WithinBounds(Subscribe(b, grant))
    ensures At(states, events, ClientOf(OPEN, FirstWire(a, b, grant), FirstSockets(a, b, grant), FirstRooms(a, b)), Link(S.Start(initial), 0, 0, [], map[]))
  {
    hide OMap.Valid, WithinBounds, Set, FirstRooms, FirstSockets, FirstWire, At, S.Start, ClientOf, Registered;
    var begun := Link(S.Start(initial), 0, 0, [], map[]);
    Registrations(a, b);
    FirstIs(a, b, grant);
    states, events := Beginning(a, grant, initial);
    states, events := ThenConstructs(states, events, begun, initial, CONNECTING, [], [Registered(a, grant, CONNECTING)], OneRoom(a), b, grant);
    states, events := ThenOpens(states, events, begun, initial, a, b, grant, FirstRooms(a, b));
  }

  lemma FirstIs(a: Text, b: Text, grant: Text)
    requires a != b
    ensures OneRoom(a).Valid() && !OneRoom(a).Has(b) && FirstRooms(a, b) == Set(OneRoom(a), b, |[Registered(a, grant, CONNECTING)]|)
    ensures FirstSockets(a, b, grant) == [Registered(a, grant, CONNECTING)] + [Registered(b, grant, CONNECTING)]
    ensures FirstSockets(a, b, grant) == [Registered(a, grant, CONNECTING), Registered(b, grant, CONNECTING)]
    ensures FirstWire(a, b, grant) == [Packet(Subscribe(a, grant), 0), Packet(Subscribe(b, grant), 1)]
  {
  }

  lemma Beginning(a: Text, grant: Text, initial: S.Payload) returns (states: seq<System>, events: seq<Event>)
    requires WithinBounds(Subscribe(a, grant))
    ensures At(states, events, ClientOf(CONNECTING, [], [Registered(a, grant, CONNECTING)], OneRoom(a)), Link(S.Start(initial), 0, 0, [], map[]))
  {
    var c := ClientIn(a, grant, CONNECTING, [], CONNECTING);
    StartsAlone();
    Constructed(a, grant, initial);
    hide WithinBounds, Leads, IsRun, S.Start;
    states, events := Extended([Initial], [], ClientActs(C.Consumer(C.Construct(a, grant, false, false)), initial), c, Link(S.Start(initial), 0, 0, [], map[]));
  }

  // The server serves a and refuses b; both answers are on their way.
  lemma Refusal(states: seq<System>, events: seq<Event>, c: C.Client, a: Text, b: Text, grant: Text, initial: S.Payload)
    returns (states': seq<System>, events': seq<Event>, link: Link)
    requires a != b && Fits(Subscribe(a, grant)) && Fits(Subscribe(b, grant))
    requires At(states, events, c, Link(S.Start(initial), 0, 0, [], map[])) && c.registry.Valid()
    requires |c.sockets| == 1 && c.sockets[0].wire == FirstWire(a, b, grant)
    ensures At(states', events', c, link)
    ensures link.taken == 2 && link.given == 0 && link.session.physical.OPEN? && link.session.initialGrant == initial
    ensures Served.Unknown(link.session, b)
    ensures link.session.out == [S.Emitted(Subscribed(a), Some(0)), S.Emitted(RoomClosed(b, S.ROOM_REJECTED_CLOSE_CODE), None)]
  {
    StartsUnknown(initial, a, b);
    AllFit(b, grant);
    assert WithinBounds(Subscribe(a, grant)) && WithinBounds(RoomClosed(b, S.ROOM_REJECTED_CLOSE_CODE));
    hide At, Fits, WithinBounds, S.HandleMessage, S.Start, Set, Served.Unknown, Served.Serving;
    var begun := Link(S.Start(initial), 0, 0, [], map[]);
    var choosing := Served.Choosing(initial.(roomName := a));
    var taken: Link;
    states', events', taken := ThenReads(states, events, c, begun, choosing);
    Served.Subscribes(begun.session, a, b, grant);
    Served.StillUnknown(begun.session, taken.session, a, b);
    states', events', link := ThenReads(states', events', c, taken, Refusing(initial));
    Refuses(taken.session, b, grant, initial);
  }

  lemma NextFromFirst(a: Text, b: Text, grant: Text)
    ensures var left := FirstSockets(a, b, grant)[1 := Gone(b, grant, 1000)];
            && |left| == 2 && left + [Registered(b, grant, CONNECTING)] == NextSockets(a, b, grant)
            && FirstWire(a, b, grant) + [Packet(Unsubscribe(b), 1)] + [Packet(Subscribe(b, grant), 2)] == NextWire(a, b, grant)
            && FirstSockets(a, b, grant)[1] == Registered(b, grant, CONNECTING)
  {
  }

  // The client leaves b and subscribes it again, before it hears anything.
  lemma Resubscribing(states: seq<System>, events: seq<Event>, link: Link, a: Text, b: Text, grant: Text, initial: S.Payload)
    returns (states': seq<System>, events': seq<Event>)
    requires a != b && Fits(Subscribe(b, grant)) && Fits(Unsubscribe(b))
    requires At(states, events, ClientOf(OPEN, FirstWire(a, b, grant), FirstSockets(a, b, grant), FirstRooms(a, b)), link)
    ensures At(states', events', ClientOf(OPEN, NextWire(a, b, grant), NextSockets(a, b, grant), NextRooms(a, b)), link)
  {
    FitsEncoded(Subscribe(b, grant));
    FitsEncoded(Unsubscribe(b));
    Registrations(a, b);
    NextFromFirst(a, b, grant);
    var wire, virtuals, both := FirstWire(a, b, grant), FirstSockets(a, b, grant), FirstRooms(a, b);
    var left := Delete(both, b);
    assert |virtuals| == 2 && NextRooms(a, b) == Set(left, b, 2);
    hide At, Fits, WithinBounds, Encode, Set, Delete, FirstRooms, NextRooms, FirstWire, NextWire, FirstSockets, NextSockets, ClientOf;
    states', events' := ThenLeaves(states, events, link, initial, wire, virtuals, both, 1);
    var sent, sockets := wire + [Packet(Unsubscribe(b), 1)], virtuals[1 := Gone(b, grant, 1000)];
    states', events' := ThenConstructs(states', events', link, initial, OPEN, sent, sockets, left, b, grant);
  }

  // The server takes the unsubscribe, which says nothing to it, and the new subscribe, which it serves.
  lemma Serving(states: seq<System>, events: seq<Event>, c: C.Client, link: Link, a: Text, b: Text, grant: Text, initial: S.Payload)
    returns (states': seq<System>, events': seq<Event>, serving: Link)
    requires a != b && Fits(Subscribe(b, grant))
    requires At(states, events, c, link) && c.registry.Valid() && |c.sockets| == 1 && |c.sockets[0].wire| == 4
    requires c.sockets[0].wire[2].message == Unsubscribe(b) && c.sockets[0].wire[3].message == Subscribe(b, grant)
    requires link.taken == 2 && link.session.physical.OPEN? && link.session.initialGrant == initial && Served.Unknown(link.session, b)
    ensures At(states', events', c, serving)
    ensures serving.taken == 4 && serving.given == link.given && serving.session.physical.OPEN? && serving.session.rooms.Has(b)
    ensures serving.session.out == link.session.out + [S.Emitted(Subscribed(b), Some(0))]
  {
    AllFit(b, grant);
    assert WithinBounds(Subscribe(b, grant));
    hide At, Fits, WithinBounds, S.HandleMessage, Set, Served.Unknown, Served.Serving;
    var choosing := Served.Choosing(initial.(roomName := b));
    var taken: Link;
    states', events', taken := ThenReads(states, events, c, link, choosing);
    UnknownIsLeft(link.session, b, choosing);
    states', events', serving := ThenReads(states', events', c, taken, choosing);
    Served.Subscribes(taken.session, b, a, grant);
  }

  lemma ThenOpensOne(states: seq<System>, events: seq<Event>, link: Link, payload: S.Payload,
                     wire: seq<Packet>, virtuals: seq<C.Virtual>, registry: OMap<Text, nat>, v: nat)
    returns (states': seq<System>, events': seq<Event>)
    requires At(states, events, ClientOf(OPEN, wire, virtuals, registry), link) && registry.Valid()
    requires v < |virtuals| && virtuals[v] == Registered(virtuals[v].room, virtuals[v].grant, CONNECTING)
    requires registry.Has(virtuals[v].room) && registry.entries[virtuals[v].room] == v
    requires link.given < |link.session.out| && link.session.out[link.given].message == Subscribed(virtuals[v].room)
    requires Fits(Subscribed(virtuals[v].room))
    ensures At(states', events', ClientOf(OPEN, wire, virtuals[v := Registered(virtuals[v].room, virtuals[v].grant, OPEN)], registry),
               link.(given := link.given + 1))
  {
    OpensOne(wire, virtuals, registry, v);
    hide At, Fits, C.Receive;
    var c := ClientOf(OPEN, wire, virtuals, registry);
    states', events' := ThenHears(states, events, c, C.Receive(c, 0, Subscribed(virtuals[v].room), C.Nothing), link, payload);
  }

  lemma ThenIsRefused(states: seq<System>, events: seq<Event>, link: Link, payload: S.Payload,
                      wire: seq<Packet>, virtuals: seq<C.Virtual>, registry: OMap<Text, nat>, v: nat, code: int)
    returns (states': seq<System>, events': seq<Event>)
    requires At(states, events, ClientOf(OPEN, wire, virtuals, registry), link) && registry.Valid()
    requires v < |virtuals| && virtuals[v] == Registered(virtuals[v].room, virtuals[v].grant, CONNECTING)
    requires registry.Has(virtuals[v].room) && registry.entries[virtuals[v].room] == v
    requires Fits(Unsubscribe(virtuals[v].room)) && !Delete(registry, virtuals[v].room).IsEmpty()
    requires link.given < |link.session.out| && link.session.out[link.given].message == RoomClosed(virtuals[v].room, code)
    requires Fits(RoomClosed(virtuals[v].room, code))
    ensures var room := virtuals[v].room;
            At(states', events', ClientOf(OPEN, wire, virtuals[v := Gone(room, virtuals[v].grant, code)], Delete(registry, room)),
               link.(given := link.given + 1))
  {
    FitsEncoded(Unsubscribe(virtuals[v].room));
    RefusesOne(wire, virtuals, registry, v, code);
    hide At, Fits, C.Receive, Encode, Delete;
    var c := ClientOf(OPEN, wire, virtuals, registry);
    states', events' := ThenHears(states, events, c, C.Receive(c, 0, RoomClosed(virtuals[v].room, code), C.Nothing), link, payload);
  }

  lemma ThenHearsNothing(states: seq<System>, events: seq<Event>, link: Link, payload: S.Payload,
                         wire: seq<Packet>, virtuals: seq<C.Virtual>, registry: OMap<Text, nat>, room: Text)
    returns (states': seq<System>, events': seq<Event>)
    requires At(states, events, ClientOf(OPEN, wire, virtuals, registry), link) && registry.Valid() && !registry.Has(room)
    requires link.given < |link.session.out| && link.session.out[link.given].message == Subscribed(room)
    requires Fits(Subscribed(room))
    ensures At(states', events', ClientOf(OPEN, wire, virtuals, registry), link.(given := link.given + 1))
  {
    var c := ClientOf(OPEN, wire, virtuals, registry);
    assert C.Receive(c, 0, Subscribed(room), C.Nothing) == c;
    hide At, Fits, C.Receive;
    states', events' := ThenHears(states, events, c, c, link, payload);
  }

  lemma NextAnswered(a: Text, b: Text, grant: Text)
    ensures var sockets := NextSockets(a, b, grant);
            var heard := sockets[0 := Registered(a, grant, OPEN)];
            && |sockets| == 3 && sockets[0] == Registered(a, grant, CONNECTING) && heard[2] == Registered(b, grant, CONNECTING)
            && Registered(a, grant, CONNECTING).room == a && Registered(a, grant, CONNECTING).grant == grant
            && Registered(b, grant, CONNECTING).room == b && Registered(b, grant, CONNECTING).grant == grant
  {
  }

  lemma LooksOf(state: ReadyState, wire: seq<Packet>, virtuals: seq<C.Virtual>, registry: OMap<Text, nat>)
    ensures var c := ClientOf(state, wire, virtuals, registry);
            c.physical == Some(0) && c.sockets == [C.Physical(state, wire, [])] && c.registry == registry
  {
  }

  // The client hears that a is open, then the stale refusal of b, then the answer to its second subscribe of b.
  lemma Hearing(states: seq<System>, events: seq<Event>, link: Link, a: Text, b: Text, grant: Text, initial: S.Payload)
    returns (states': seq<System>, events': seq<Event>, d: C.Client)
    requires a != b && Fits(Subscribe(a, grant)) && Fits(Subscribe(b, grant))
    requires At(states, events, ClientOf(OPEN, NextWire(a, b, grant), NextSockets(a, b, grant), NextRooms(a, b)), link)
    requires link.given == 0 && |link.session.out| == 3 && link.session.out[0].message == Subscribed(a)
    requires link.session.out[1].message == RoomClosed(b, S.ROOM_REJECTED_CLOSE_CODE) && link.session.out[2].message == Subscribed(b)
    ensures At(states', events', d, link.(given := 3))
    ensures d.physical == Some(0) && d.sockets == [C.Physical(OPEN, NextWire(a, b, grant), [])] && !d.registry.Has(b)
  {
    hide OMap.Valid, At, Fits, Delete, NextWire, NextRooms, NextSockets, ClientOf, Registered, Gone;
    AllFit(a, grant);
    AllFit(b, grant);
    Registrations(a, b);
    NextAnswered(a, b, grant);
    var wire, sockets, registry := NextWire(a, b, grant), NextSockets(a, b, grant), NextRooms(a, b);
    var heard := sockets[0 := Registered(a, grant, OPEN)];
    states', events' := ThenOpensOne(states, events, link, initial, wire, sockets, registry, 0);
    states', events' := ThenIsRefused(states', events', link.(given := 1), initial, wire, heard, registry, 2, S.ROOM_REJECTED_CLOSE_CODE);
    var left := heard[2 := Gone(b, grant, S.ROOM_REJECTED_CLOSE_CODE)];
    states', events' := ThenHearsNothing(states', events', link.(given := 2), initial, wire, left, Delete(registry, b), b);
    d := ClientOf(OPEN, wire, left, Delete(registry, b));
    LooksOf(OPEN, wire, left, Delete(registry, b));
  }

  lemma StartsAlone()
    ensures IsRun([Initial], [])
  {
  }

  lemma StartsUnknown(initial: S.Payload, a: Text, b: Text)
    ensures var s := S.Start(initial);
            && s.physical.OPEN? && s.initialGrant == initial && s.out == []
            && Served.Unknown(s, a) && Served.Unknown(s, b)
  {
  }

  /**
    The server's half of the agreement can fail: for any two rooms there is a run
    in which the refusal of one room crosses the client's next subscription of it,
    so that in the end the server serves a room that the client has not registered.
  */
  lemma ARefusalCrosses(a: Text, b: Text, grant: Text, initial: S.Payload) returns (states: seq<System>, events: seq<Event>)
    requires a != b && Fits(Subscribe(a, grant)) && Fits(Subscribe(b, grant))
    ensures IsRun(states, events) && ServedInVain(states[|events|], b)
  {
    hide OMap.Valid, Fits, WithinBounds, Encode, At, S.Start, Served.Unknown, ClientOf, IsRun, ServedInVain;
    hide FirstWire, FirstSockets, FirstRooms, NextWire, NextSockets, NextRooms;
    var first := ClientOf(OPEN, FirstWire(a, b, grant), FirstSockets(a, b, grant), FirstRooms(a, b));
    var next := ClientOf(OPEN, NextWire(a, b, grant), NextSockets(a, b, grant), NextRooms(a, b));
    AllFit(b, grant);
    FitsEncoded(Subscribe(a, grant));
    FitsEncoded(Subscribe(b, grant));
    Registrations(a, b);
    LooksOf(OPEN, FirstWire(a, b, grant), FirstSockets(a, b, grant), FirstRooms(a, b));
    LooksOf(OPEN, NextWire(a, b, grant), NextSockets(a, b, grant), NextRooms(a, b));
    NextFrames(a, b, grant);
    var link, serving, d;
    states, events := Subscribing(a, b, grant, initial);
    states, events, link := Refusal(states, events, first, a, b, grant, initial);
    states, events := Resubscribing(states, events, link, a, b, grant, initial);
    states, events, serving := Serving(states, events, next, link, a, b, grant, initial);
    states, events, d := Hearing(states, events, serving, a, b, grant, initial);
    Ends(states, events, d, serving.(given := 3), NextWire(a, b, grant), b);
  }

  lemma NextFrames(a: Text, b: Text, grant: Text)
    ensures var wire := NextWire(a, b, grant); |wire| == 4 && wire[2].message == Unsubscribe(b) && wire[3].message == Subscribe(b, grant)
  {
  }

  lemma Ends(states: seq<System>, events: seq<Event>, d: C.Client, link: Link, wire: seq<Packet>, room: Text)
    requires At(states, events, d, link)
    requires d.physical == Some(0) && d.sockets == [C.Physical(OPEN, wire, [])] && !d.registry.Has(room)
    requires link.session.physical.OPEN? && link.session.rooms.Has(room)
    requires link.taken == |wire| && link.given == |link.session.out|
    ensures IsRun(states, events) && ServedInVain(states[|events|], room)
  {
    hide IsRun;
  }
}
