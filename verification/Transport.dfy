/**
  The whole transport: the client multiplexer, and for each physical socket a
  server session of its own, joined by two channels of encoded frames, one in
  each direction, first in first out.
*/
module Transport {
  import opened Basics
  import opened Sockets
  import opened Unicode
  import opened Protocol
  import opened OrderedMap
  import opened RoomFrames
  import C = SharedWebSocket
  import S = MultiplexSession
  import Steps = MultiplexSessionSteps

  /** A payload that reached a server adapter, and the virtual socket whose frame carried it. */
  datatype Arrival = Arrival(id: S.AdapterId, payload: Bytes, from: nat)

  /** Who subscribed a room last, and how many frames the session had written when it took that subscribe. */
  datatype Asked = Asked(from: nat, written: nat)

  /**
    One physical socket. The frames on their way to the server are those of the
    client's wire from number taken on; those on their way back are the session's
    from number given on. arrived and asked are the books of what was taken.
  */
  datatype Link = Link(session: S.Session, taken: nat, given: nat, arrived: seq<Arrival>, asked: map<Text, Asked>)

  datatype System = System(client: C.Client, links: seq<Link>)

  const Initial := System(C.Initial, [])

  /** grant is what the server verified for a physical socket, should the event open one. */
  datatype Event =
    | ClientActs(act: C.Event, grant: S.Payload)
    | ToServer(link: nat, choices: S.Choices)
    | ToClient(link: nat, callback: C.Script, grant: S.Payload)
    | ServerActs(link: nat, event: S.Event)

  /** No other name that the consumers have used is read as this one by the server; it is read as itself if it is well formed. */
  predicate ReadAlone(c: C.Client, room: Text) {
    forall v | 0 <= v < |c.virtuals| && Normalized(c.virtuals[v].room) == room :: c.virtuals[v].room == room
  }

  predicate HasLink(sys: System, e: nat) {
    e < |sys.links| && e < |sys.client.sockets|
  }

  function Wire(sys: System, e: nat): seq<Packet>
    requires HasLink(sys, e)
  {
    sys.client.sockets[e].wire
  }

  // The client's next message from physical socket e.
  function Delivery(sys: System, e: nat, callback: C.Script): C.Event
    requires HasLink(sys, e) && sys.links[e].given < |sys.links[e].session.out|
  {
    C.Message(e, FrameOf(sys.links[e].session.out[sys.links[e].given].message), callback)
  }

  predicate MayTake(sys: System, e: nat) {
    HasLink(sys, e) && sys.links[e].taken < |Wire(sys, e)|
  }

  predicate MayGive(sys: System, e: nat, callback: C.Script)
    requires sys.client.registry.Valid()
  {
    HasLink(sys, e) && sys.links[e].given < |sys.links[e].session.out| && C.Enabled(sys.client, Delivery(sys, e, callback))
  }

  /** What the environment may do: frames reach either end in order, and come from the other end only. */
  predicate Allowed(sys: System, event: Event)
    requires sys.client.registry.Valid()
  {
    match event
    case ClientActs(act, _) => !act.Message? && C.Enabled(sys.client, act)
    case ToServer(e, _) => MayTake(sys, e)
    case ToClient(e, callback, _) => MayGive(sys, e, callback)
    case ServerActs(e, event) => HasLink(sys, e) && !event.Frame?
  }

  /** The client's grants are its own: one that the server verifies is for the room it reads and the identity of its link. */
  predicate HonestGrants(sys: System, event: Event)
    requires sys.client.registry.Valid() && Allowed(sys, event)
  {
    event.ToServer? ==>
      var l := sys.links[event.link];
      var m := Wire(sys, event.link)[l.taken].message;
      m.Subscribe? ==> Steps.Matches(event.choices.verification, Normalized(m.room), l.session.initialGrant)
  }

  /** A session for every physical socket that has none yet. */
  function Linked(links: seq<Link>, sockets: nat, grant: S.Payload): seq<Link>
    decreases sockets - |links|
  {
    if |links| < sockets then Linked(links + [Link(S.Start(grant), 0, 0, [], map[])], sockets, grant) else links
  }

  /** The server takes the next frame of the client's wire. */
  function Take(l: Link, p: Packet, choices: S.Choices): Link {
    var m := NormalizedMessage(p.message);
    var target := Steps.Target(l.session, m);
    Link(S.Step(l.session, S.Frame(FrameOf(p.message), true, choices)),
         l.taken + 1,
         l.given,
         if l.session.physical.OPEN? && target.Some?
         then l.arrived + [Arrival(target.value, m.payload, p.from)] else l.arrived,
         if m.Subscribe? then l.asked[m.room := Asked(p.from, |l.session.out|)] else l.asked)
  }

  /** The client acts; if that opens a physical socket, it gets a session. */
  function Act(sys: System, links: seq<Link>, act: C.Event, grant: S.Payload): System
    requires sys.client.registry.Valid() && C.Enabled(sys.client, act)
  {
    var c := C.Step(sys.client, act);
    System(c, Linked(links, |c.sockets|, grant))
  }

  /** The client is given the session's next frame. */
  function Give(sys: System, e: nat, callback: C.Script, grant: S.Payload): System
    requires sys.client.registry.Valid() && MayGive(sys, e, callback)
  {
    var l := sys.links[e];
    Act(sys, sys.links[e := l.(given := l.given + 1)], Delivery(sys, e, callback), grant)
  }

  function SetLink(sys: System, e: nat, l: Link): System
    requires e < |sys.links|
  {
    sys.(links := sys.links[e := l])
  }

  function Next(sys: System, event: Event): System
    requires sys.client.registry.Valid() && Allowed(sys, event)
  {
    match event
    case ClientActs(act, grant) => Act(sys, sys.links, act, grant)
    case ToServer(e, choices) => SetLink(sys, e, Take(sys.links[e], Wire(sys, e)[sys.links[e].taken], choices))
    case ToClient(e, callback, grant) => Give(sys, e, callback, grant)
    case ServerActs(e, event) => SetLink(sys, e, sys.links[e].(session := S.Step(sys.links[e].session, event)))
  }
}
