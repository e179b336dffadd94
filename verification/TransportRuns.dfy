/** The promises of the transport as a whole, over every run of client, channels and servers. */
module TransportRuns {
  import opened Basics
  import opened Sockets
  import opened Unicode
  import opened Protocol
  import opened OrderedMap
  import opened RoomFrames
  import opened Transport
  import opened TransportProofs
  import C = SharedWebSocket
  import CP = SharedWebSocketProofs
  import CL = SharedWebSocketLeaving
  import CR = SharedWebSocketRuns
  import CC = SharedWebSocketCodes
  import S = MultiplexSession
  import SP = MultiplexSessionProofs
  import SN = MultiplexSessionNames
  import Steps = MultiplexSessionSteps

  /** The states a run of the system passes through, one more than its events. */
  ghost predicate IsRun(states: seq<System>, events: seq<Event>) {
    && |states| == |events| + 1
    && states[0] == Initial
    && forall i | 0 <= i < |events| ::
         && states[i].client.registry.Valid()
         && Allowed(states[i], events[i])
         && states[i + 1] == Next(states[i], events[i])
  }

  /** In every run client and servers keep their joint invariant, whatever rooms are called and grants are worth. */
  lemma {:induction false} RunKeeps(states: seq<System>, events: seq<Event>, n: nat)
    requires IsRun(states, events) && n < |states|
    ensures SysInv(states[n])
  {
    hide SysInv, Allowed, Next;
    if n == 0 {
      InitialKeeps();
    } else {
      RunKeeps(states, events, n - 1);
      NextKeeps(states[n - 1], events[n - 1]);
    }
  }

  /** Both ends of physical socket e are open, and no frame is on its way in either direction. */
  predicate Quiescent(sys: System, e: nat) {
    && HasLink(sys, e)
    && sys.client.sockets[e].state.OPEN?
    && sys.links[e].session.physical.OPEN?
    && sys.links[e].taken == |Wire(sys, e)|
    && sys.links[e].given == |sys.links[e].session.out|
  }

  /**
    Quiescent agreement: whatever crossings of closes, resubscriptions, refusals
    and server room closes led here, and whatever the grants were worth, a
    registered virtual socket is open and its room has an open adapter at the
    server, exactly when its name is well-formed text; provided that the server
    reads no other of the client's names as this one.
  */
  lemma QuiescentAgreement(states: seq<System>, events: seq<Event>, n: nat, room: Text)
    requires IsRun(states, events) && n < |states|
    requires var sys := states[n];
             sys.client.physical.Some? && Quiescent(sys, sys.client.physical.value) && sys.client.registry.Has(room)
    requires ReadAlone(states[n].client, room)
    ensures var sys := states[n];
            var v := sys.client.registry.entries[room];
            var session := sys.links[sys.client.physical.value].session;
            && v < |sys.client.virtuals| && sys.client.virtuals[v].room == room
            && (sys.client.virtuals[v].state.OPEN? <==> WellFormed(room))
            && (WellFormed(room) ==> session.rooms.Has(room) && S.IsOpen(session, S.AdapterId(room, session.rooms.entries[room])))
  {
    RunKeeps(states, events, n);
    hide IsRun, SysInv;
    if WellFormed(room) {
      Agreed(states[n], room);
    } else {
      NotOpen(states[n], room);
    }
  }

  lemma Agreed(sys: System, room: Text)
    requires SysInv(sys) && sys.client.physical.Some? && Quiescent(sys, sys.client.physical.value) && sys.client.registry.Has(room)
    requires Clear(sys.client, room)
    ensures var v := sys.client.registry.entries[room];
            var session := sys.links[sys.client.physical.value].session;
            && v < |sys.client.virtuals| && sys.client.virtuals[v].room == room && sys.client.virtuals[v].state.OPEN?
            && session.rooms.Has(room) && S.IsOpen(session, S.AdapterId(room, session.rooms.entries[room]))
  {
    var c := sys.client;
    var e := c.physical.value;
    var l := sys.links[e];
    var v := c.registry.entries[room];
    assert LinkOk(c, e, l);
    assert CP.EntryOk(c, room, v) && CP.VirtualOk(c.virtuals[v], |c.sockets|);
    hide CP.SocketsOk, CP.PacketsOk, CP.ViewsOk, CP.DatasOk, SP.AdaptersOk, SP.MetricsOk, SP.ReportsOk, SP.OutOk, SP.CallsOk, InboxesOk, Delivered, AllHeard, ServedInside, OpeningsTold, SN.Named, Clear, CR.TextOpens;
    assert CP.Entered(c, room);
    assert c.sockets[e].wire[..l.taken] == c.sockets[e].wire;
    assert AgreesOn(c, e, l, v);
  }

  // ---------- the other direction ----------

  /** The step gives the client a room_closed for the room that virtual socket v is registered for. */
  predicate Refuses(sys: System, event: Event, v: nat)
    requires sys.client.registry.Valid() && Allowed(sys, event)
  {
    event.ToClient? && sys.client.physical == Some(event.link)
    && var m := sys.links[event.link].session.out[sys.links[event.link].given].message;
       m.RoomClosed? && sys.client.registry.Has(m.room) && sys.client.registry.entries[m.room] == v
  }

  ghost predicate RefusedAt(states: seq<System>, events: seq<Event>, i: nat, v: nat)
    requires IsRun(states, events) && i < |events|
  {
    Refuses(states[i], events[i], v)
  }

  // Whom the client's part of the step refuses.
  function RefusedBy(sys: System, event: Event): set<nat>
    requires sys.client.registry.Valid() && Allowed(sys, event)
  {
    if event.ToClient? then CL.Refuses(sys.client, Delivery(sys, event.link, event.callback)) else {}
  }

  ghost function RefusedSoFar(states: seq<System>, events: seq<Event>, n: nat): set<nat>
    requires IsRun(states, events) && n < |states|
  {
    if n == 0 then {} else RefusedSoFar(states, events, n - 1) + RefusedBy(states[n - 1], events[n - 1])
  }

  lemma NextLeft(sys: System, event: Event, spared: set<nat>)
    requires CP.Inv(sys.client) && Allowed(sys, event) && CL.Left(sys.client, spared)
    ensures CL.Left(Next(sys, event).client, spared + RefusedBy(sys, event))
  {
    hide CP.Inv, CL.Left, C.Step, Linked, Take, S.Step;
    assert spared + {} == spared;
    match event
    case ClientActs(act, grant) => CL.StepLeaves(sys.client, act, spared);
    case ToClient(e, callback, grant) => CL.StepLeaves(sys.client, Delivery(sys, e, callback), spared);
    case _ =>
  }

  lemma {:induction false} RunLeft(states: seq<System>, events: seq<Event>, n: nat)
    requires IsRun(states, events) && n < |states|
    ensures CL.Left(states[n].client, RefusedSoFar(states, events, n))
  {
    if n > 0 {
      RunLeft(states, events, n - 1);
      RunKeeps(states, events, n - 1);
      assert CP.Inv(states[n - 1].client);
      hide SysInv, CP.Inv, CL.Left, Allowed, Next, RefusedBy;
      NextLeft(states[n - 1], events[n - 1], RefusedSoFar(states, events, n - 1));
    }
  }

  // What a message that decodes to m refuses.
  lemma RefusedByFrame(c: C.Client, e: nat, frame: Bytes, callback: C.Script, m: Message, v: nat)
    requires Decode(frame) == Ok(m) && v in CL.Refuses(c, C.Message(e, frame, callback))
    ensures c.physical == Some(e) && m.RoomClosed? && c.registry.Has(m.room) && c.registry.entries[m.room] == v
  {
    hide Decode;
  }

  lemma RefusedByRefuses(sys: System, event: Event, v: nat)
    requires SysInv(sys) && Allowed(sys, event) && v in RefusedBy(sys, event)
    ensures Refuses(sys, event, v)
  {
    hide SysInv, LinkOk, CP.Inv, CR.TextOpens, Decode, FrameOf, C.Enabled, C.Step, CL.Refuses, CP.Received;
    var e := event.link;
    OfSysInv(sys, e);
    ClientReads(sys.client, e, sys.links[e], event.callback);
    var m := sys.links[e].session.out[sys.links[e].given].message;
    RefusedByFrame(sys.client, e, FrameOf(m), event.callback, m, v);
  }

  lemma {:induction false} WasRefused(states: seq<System>, events: seq<Event>, n: nat, v: nat)
    requires IsRun(states, events) && n < |states| && v in RefusedSoFar(states, events, n)
    ensures exists i | 0 <= i < n :: RefusedAt(states, events, i, v)
  {
    if v in RefusedBy(states[n - 1], events[n - 1]) {
      RunKeeps(states, events, n - 1);
      hide IsRun, RefusedBy, SysInv, Refuses, Allowed;
      assert states[n - 1].client.registry.Valid() && Allowed(states[n - 1], events[n - 1]) by { OneStep(states, events, n - 1); }
      RefusedByRefuses(states[n - 1], events[n - 1], v);
      assert RefusedAt(states, events, n - 1, v);
    } else {
      hide RefusedBy, RefusedAt;
      WasRefused(states, events, n - 1, v);
    }
  }

  lemma OneStep(states: seq<System>, events: seq<Event>, i: nat)
    requires IsRun(states, events) && i < |events|
    ensures states[i].client.registry.Valid() && Allowed(states[i], events[i]) && states[i + 1] == Next(states[i], events[i])
  {
  }

  // Nothing that a client was told or a session wrote is taken back.
  ghost predicate OnlyMore(sys: System, later: System) {
    && CP.Forward(sys.client, later.client)
    && |sys.links| <= |later.links|
    && forall e | 0 <= e < |sys.links| :: sys.links[e].session.out <= later.links[e].session.out
  }

  lemma OnlyMoreTransitive(a: System, b: System, c: System)
    requires OnlyMore(a, b) && OnlyMore(b, c)
    ensures OnlyMore(a, c)
  {
    CP.ForwardTransitive(a.client, b.client, c.client);
    hide CP.Forward;
  }

  lemma SessionOnlyMore(s: S.Session, event: S.Event)
    requires Steps.Inv(s)
    ensures s.out <= S.Step(s, event).out
  {
    Steps.StepKeeps(s, event);
    hide Steps.Inv, S.Step, S.SlotOf, Steps.Ages;
  }

  // The sessions of before have only written more.
  predicate OutsGrow(links: seq<Link>, later: seq<Link>) {
    |links| <= |later| && forall e | 0 <= e < |links| :: links[e].session.out <= later[e].session.out
  }

  lemma LinkedOutsGrow(links: seq<Link>, given: seq<Link>, sockets: nat, grant: S.Payload)
    requires |links| == |given| <= sockets && forall e | 0 <= e < |links| :: given[e].session == links[e].session
    ensures OutsGrow(links, Linked(given, sockets, grant))
  {
    LinkedKeeps(given, sockets, grant);
  }

  lemma SetLinkOutsGrow(sys: System, e: nat, l: Link)
    requires e < |sys.links| && sys.links[e].session.out <= l.session.out
    ensures OutsGrow(sys.links, SetLink(sys, e, l).links)
  {
  }

  lemma ActOutsGrow(sys: System, given: seq<Link>, act: C.Event, grant: S.Payload)
    requires CP.Inv(sys.client) && C.Enabled(sys.client, act) && |given| == |sys.links| == |sys.client.sockets|
    requires forall e | 0 <= e < |sys.links| :: given[e].session == sys.links[e].session
    ensures OutsGrow(sys.links, Act(sys, given, act, grant).links)
  {
    var d := C.Step(sys.client, act);
    CP.StepKeeps(sys.client, act);
    SocketsStay(sys.client, d);
    hide CP.Inv, CP.Forward, C.Step, C.Enabled, Linked, OutsGrow;
    LinkedOutsGrow(sys.links, given, |d.sockets|, grant);
  }

  lemma GivenSessionsStay(sys: System, e: nat)
    requires e < |sys.links|
    ensures var given := sys.links[e := sys.links[e].(given := sys.links[e].given + 1)];
            |given| == |sys.links| && forall k | 0 <= k < |given| :: given[k].session == sys.links[k].session
  {
  }

  lemma GiveOutsGrow(sys: System, e: nat, callback: C.Script, grant: S.Payload)
    requires SysInv(sys) && MayGive(sys, e, callback)
    ensures OutsGrow(sys.links, Give(sys, e, callback, grant).links)
  {
    hide SysInv, CP.Inv, CR.TextOpens, LinkOk, C.Enabled, Act, Give, Delivery, OutsGrow;
    OfSysInv(sys, e);
    SameLength(sys);
    GiveIsAct(sys, e, callback, grant);
    GivenSessionsStay(sys, e);
    var given := sys.links[e := sys.links[e].(given := sys.links[e].given + 1)];
    ActOutsGrow(sys, given, Delivery(sys, e, callback), grant);
  }

  lemma ClientOutsGrow(sys: System, act: C.Event, grant: S.Payload)
    requires SysInv(sys) && C.Enabled(sys.client, act)
    ensures OutsGrow(sys.links, Act(sys, sys.links, act, grant).links)
  {
    hide SysInv, CP.Inv, C.Enabled, Act, OutsGrow;
    ClientPart(sys);
    SameLength(sys);
    ActOutsGrow(sys, sys.links, act, grant);
  }

  lemma TakeOutsGrow(sys: System, e: nat, choices: S.Choices)
    requires SysInv(sys) && MayTake(sys, e)
    ensures OutsGrow(sys.links, SetLink(sys, e, Take(sys.links[e], Wire(sys, e)[sys.links[e].taken], choices)).links)
  {
    var l := sys.links[e];
    var p := Wire(sys, e)[l.taken];
    hide SysInv, LinkOk, Steps.Inv, S.Step, SetLink, OutsGrow, FrameOf, Steps.Target;
    OfSysInv(sys, e);
    InvOfLink(sys.client, e, l);
    SessionOnlyMore(l.session, S.Frame(FrameOf(p.message), true, choices));
    SetLinkOutsGrow(sys, e, Take(l, p, choices));
  }

  lemma ServerOutsGrow(sys: System, e: nat, event: S.Event)
    requires SysInv(sys) && HasLink(sys, e)
    ensures OutsGrow(sys.links, SetLink(sys, e, sys.links[e].(session := S.Step(sys.links[e].session, event))).links)
  {
    hide SysInv, LinkOk, Steps.Inv, S.Step, SetLink, OutsGrow;
    OfSysInv(sys, e);
    InvOfLink(sys.client, e, sys.links[e]);
    SessionOnlyMore(sys.links[e].session, event);
    SetLinkOutsGrow(sys, e, sys.links[e].(session := S.Step(sys.links[e].session, event)));
  }

  lemma NextOutsGrow(sys: System, event: Event)
    requires SysInv(sys) && Allowed(sys, event)
    ensures OutsGrow(sys.links, Next(sys, event).links)
  {
    hide SysInv, C.Enabled, S.Step, Act, Give, Take, SetLink, MayGive, MayTake, OutsGrow;
    match event
    case ClientActs(act, grant) => ClientOutsGrow(sys, act, grant);
    case ToClient(e, callback, grant) => GiveOutsGrow(sys, e, callback, grant);
    case ToServer(e, choices) => TakeOutsGrow(sys, e, choices);
    case ServerActs(e, event) => ServerOutsGrow(sys, e, event);
  }

  lemma NextOnlyMore(sys: System, event: Event)
    requires SysInv(sys) && Allowed(sys, event)
    ensures OnlyMore(sys, Next(sys, event))
  {
    ClientPart(sys);
    hide SysInv, CP.Inv, CP.Forward, Next, Allowed;
    ClientGoesOn(sys, event);
    NextOutsGrow(sys, event);
  }

  lemma ClientPart(sys: System)
    requires SysInv(sys)
    ensures CP.Inv(sys.client)
  {
  }

  lemma {:induction false} RunOnlyMore(states: seq<System>, events: seq<Event>, i: nat, n: nat)
    requires IsRun(states, events) && i <= n < |states|
    ensures OnlyMore(states[i], states[n])
  {
    hide SysInv, Allowed, Next;
    if i == n {
      CP.ForwardReflexive(states[i].client);
    } else {
      RunOnlyMore(states, events, i, n - 1);
      RunKeeps(states, events, n - 1);
      hide OnlyMore;
      NextOnlyMore(states[n - 1], events[n - 1]);
      OnlyMoreTransitive(states[i], states[n - 1], states[n]);
    }
  }

  // A refused socket is the registered one of its room, and closed at once.
  lemma RefusedCloses(sys: System, event: Event, v: nat)
    requires SysInv(sys) && Allowed(sys, event) && Refuses(sys, event, v)
    ensures var c := sys.client;
            var d := Next(sys, event).client;
            && v < |c.virtuals| <= |d.virtuals| && d.virtuals[v].state.CLOSED?
            && c.virtuals[v].home == event.link && event.link < |sys.links|
            && c.virtuals[v].room == sys.links[event.link].session.out[sys.links[event.link].given].message.room
  {
    hide SysInv, LinkOk, CP.Inv, Decode, FrameOf, C.Enabled, C.Step, Linked, CP.Keeps, CP.Hears, CP.Forward;
    var e := event.link;
    OfSysInv(sys, e);
    ClientReads(sys.client, e, sys.links[e], event.callback);
    RegisteredOne(sys.client, sys.links[e].session.out[sys.links[e].given].message.room);
    StillThere(sys.client, C.Step(sys.client, Delivery(sys, e, event.callback)), sys.links[e].session.out[sys.links[e].given].message);
  }

  /** A refusal is told with the server's own code: the socket it closes reports what the session wrote in the frame. */
  lemma RefusalIsReported(states: seq<System>, events: seq<Event>, i: nat, v: nat)
    requires IsRun(states, events) && i < |events| && RefusedAt(states, events, i, v)
    ensures var e := events[i].link;
            && v < |states[i + 1].client.virtuals| && e < |states[i].links|
            && states[i].links[e].given < |states[i].links[e].session.out|
            && var m := states[i].links[e].session.out[states[i].links[e].given].message;
               m.RoomClosed? && states[i + 1].client.virtuals[v].codes == [m.code]
  {
    RunKeeps(states, events, i);
    OneStep(states, events, i);
    hide IsRun, SysInv, Allowed, Next;
    RefusalTellsItsCode(states[i], events[i], v);
  }

  lemma RefusalTellsItsCode(sys: System, event: Event, v: nat)
    requires SysInv(sys) && Allowed(sys, event) && Refuses(sys, event, v)
    ensures var e := event.link;
            var d := Next(sys, event).client;
            && v < |d.virtuals| && e < |sys.links| && sys.links[e].given < |sys.links[e].session.out|
            && var m := sys.links[e].session.out[sys.links[e].given].message;
               m.RoomClosed? && d.virtuals[v].codes == [m.code]
  {
    hide SysInv, LinkOk, CP.Inv, CR.TextOpens, Decode, FrameOf, C.Enabled, C.Step, Linked, CP.Received;
    var e := event.link;
    OfSysInv(sys, e);
    var m := sys.links[e].session.out[sys.links[e].given].message;
    ClientReads(sys.client, e, sys.links[e], event.callback);
    CC.RoomClosedReportsItsCode(sys.client, e, FrameOf(m), m.room, m.code, event.callback);
  }

  lemma RegisteredOne(c: C.Client, room: Text)
    requires CP.Inv(c) && c.registry.Has(room)
    ensures var v := c.registry.entries[room]; v < |c.virtuals| && c.virtuals[v].room == room && c.physical == Some(c.virtuals[v].home)
  {
    assert CP.EntryOk(c, room, c.registry.entries[room]);
  }

  lemma StillThere(c: C.Client, d: C.Client, m: Message)
    requires CP.Received(c, d, m)
    ensures |c.virtuals| <= |d.virtuals| && CP.Heeds(c, d, m)
  {
    hide CP.Keeps;
  }

  // Frame number given of the refusing step is still in the session's log, a room_closed of v's room, and v is closed.
  lemma RefusalRemains(states: seq<System>, events: seq<Event>, i: nat, n: nat, v: nat)
    requires IsRun(states, events) && i < n < |states| && RefusedAt(states, events, i, v)
    ensures v < |states[n].client.virtuals| && states[n].client.virtuals[v].state.CLOSED?
    ensures var e := states[n].client.virtuals[v].home;
            e < |states[i].links| && e < |states[n].links|
            && var g := states[i].links[e].given;
               && g < |states[n].links[e].session.out|
               && states[n].links[e].session.out[g].message.RoomClosed?
               && states[n].links[e].session.out[g].message.room == states[n].client.virtuals[v].room
  {
    hide SysInv, Next, Allowed, OnlyMore;
    RunKeeps(states, events, i);
    OneStep(states, events, i);
    RunOnlyMore(states, events, i, n);
    RunOnlyMore(states, events, i + 1, n);
    hide IsRun;
    RefusedCloses(states[i], events[i], v);
    RefusalIsKept(states[i], events[i], states[i + 1], states[n], v);
  }

  lemma RefusalIsKept(sys: System, event: Event, next: System, later: System, v: nat)
    requires sys.client.registry.Valid() && Allowed(sys, event) && Refuses(sys, event, v)
    requires OnlyMore(sys, later) && OnlyMore(next, later) && v < |sys.client.virtuals| <= |next.client.virtuals|
    requires next.client.virtuals[v].state.CLOSED? && sys.client.virtuals[v].home == event.link < |sys.links|
    requires sys.client.virtuals[v].room == sys.links[event.link].session.out[sys.links[event.link].given].message.room
    ensures v < |later.client.virtuals| && later.client.virtuals[v].state.CLOSED?
    ensures var e := later.client.virtuals[v].home;
            e < |sys.links| && e < |later.links|
            && var g := sys.links[e].given;
               && g < |later.links[e].session.out|
               && later.links[e].session.out[g].message.RoomClosed?
               && later.links[e].session.out[g].message.room == later.client.virtuals[v].room
  {
    assert CP.VirtualForward(sys.client.virtuals[v], later.client.virtuals[v]);
    assert CP.VirtualForward(next.client.virtuals[v], later.client.virtuals[v]);
    hide C.Enabled, CP.PhysicalForward;
  }

  /**
    The other direction, with its exact condition. A room that the server serves at
    quiescence has a last subscriber that never unsubscribed. The client has the
    room registered if and only if that virtual socket was never given a refusal;
    and such a refusal was of an earlier subscription: it had been written before
    the server took this subscriber's subscribe.
  */
  lemma ServedMeansSubscribed(states: seq<System>, events: seq<Event>, n: nat, room: Text)
    requires IsRun(states, events) && n < |states| && ReadAlone(states[n].client, room)
    requires var sys := states[n];
             && sys.client.physical.Some? && Quiescent(sys, sys.client.physical.value)
             && sys.links[sys.client.physical.value].session.rooms.Has(room)
    ensures var sys := states[n];
            var e := sys.client.physical.value;
            var view := View(Wire(sys, e), room);
            && view.Inside? && view.owner < |sys.client.virtuals| && sys.client.virtuals[view.owner].room == room
            && (sys.client.registry.Has(room) <==> !exists i | 0 <= i < n :: RefusedAt(states, events, i, view.owner))
            && (sys.client.registry.Has(room) ==> sys.client.registry.entries[room] == view.owner)
            && room in sys.links[e].asked && sys.links[e].asked[room].from == view.owner
            && forall i | 0 <= i < n && RefusedAt(states, events, i, view.owner) ::
                 e < |states[i].links| && states[i].links[e].given < sys.links[e].asked[room].written
  {
    var sys := states[n];
    var e := sys.client.physical.value;
    RunKeeps(states, events, n);
    LastSubscriber(sys, room);
    var v := View(Wire(sys, e), room).owner;
    RunLeft(states, events, n);
    hide IsRun, SysInv, View, CL.Left, RefusedAt;
    forall i | 0 <= i < n && RefusedAt(states, events, i, v)
      ensures sys.client.virtuals[v].state.CLOSED?
      ensures e < |states[i].links| && states[i].links[e].given < sys.links[e].asked[room].written
    {
      RefusalRemains(states, events, i, n, v);
    }
    if !sys.client.registry.Has(room) {
      StillInsideIsRefused(sys.client, v, RefusedSoFar(states, events, n));
      WasRefused(states, events, n, v);
    }
  }

  lemma StillInsideIsRefused(c: C.Client, v: nat, refused: set<nat>)
    requires CL.Left(c, refused) && C.SendsNow(c) && v < |c.virtuals| && c.virtuals[v].state.CLOSED? && CL.StillInside(c, v)
    ensures v in refused
  {
  }

  // What the invariant says of a served room and its last subscriber.
  lemma LastSubscriber(sys: System, room: Text)
    requires SysInv(sys) && sys.client.physical.Some? && Quiescent(sys, sys.client.physical.value)
    requires sys.links[sys.client.physical.value].session.rooms.Has(room) && ReadAlone(sys.client, room)
    ensures var c := sys.client;
            var e := c.physical.value;
            var l := sys.links[e];
            var view := View(Wire(sys, e), room);
            && view.Inside? && view.owner < |c.virtuals| && c.virtuals[view.owner].room == room && c.virtuals[view.owner].home == e
            && C.SendsNow(c) && CL.StillInside(c, view.owner)
            && (c.virtuals[view.owner].state.CLOSED? || c.virtuals[view.owner].state.Live())
            && (c.registry.Has(room) <==> c.virtuals[view.owner].state.Live())
            && (c.registry.Has(room) ==> c.registry.entries[room] == view.owner)
            && room in l.asked && l.asked[room].from == view.owner
            && forall i | l.asked[room].written <= i < |l.session.out| && l.session.out[i].message.RoomClosed? :: l.session.out[i].message.room != room
  {
    var c := sys.client;
    var e := c.physical.value;
    var l := sys.links[e];
    assert LinkOk(c, e, l);
    NamedRoom(l.session, room);
    assert ServedFor(c, e, l, room);
    hide Agreement, Steps.Inv, InboxesOk, Delivered, AllHeard, ServedInside, OpeningsTold, SN.Named, CP.DatasOk, ReadAlone, CR.TextOpens;
    assert c.sockets[e].wire[..l.taken] == c.sockets[e].wire;
    OwnerSubscribed(c, e, room);
    var v := View(c.sockets[e].wire, room).owner;
    assert CP.VirtualOk(c.virtuals[v], |c.sockets|);
    if c.registry.Has(room) {
      assert CP.Entered(c, room) && CP.EntryOk(c, room, c.registry.entries[room]);
    }
    if c.virtuals[v].state.Live() {
      assert CP.Registered(c, v);
    }
  }

  lemma NamedRoom(s: S.Session, room: Text)
    requires Steps.Inv(s) && SN.Named(s) && s.rooms.Has(room)
    ensures WellFormed(room)
  {
    assert S.IsOpen(s, S.AdapterId(room, s.rooms.entries[room]));
  }

  // Whoever is inside a room is a socket of that room.
  lemma OwnerSubscribed(c: C.Client, e: nat, room: Text)
    requires CP.PacketsOk(c) && e < |c.sockets| && View(c.sockets[e].wire, room).Inside?
    ensures var v := View(c.sockets[e].wire, room).owner; v < |c.virtuals| && c.virtuals[v].room == room && c.virtuals[v].home == e
  {
    UnbrokenIsInLanguage(c.sockets[e].wire, room);
    CR.RoundOf(c.sockets[e].wire, room, View(c.sockets[e].wire, room));
    hide Describes, InLanguage, View, WithinBounds;
    var wire := c.sockets[e].wire;
    var j :| 0 <= j < |wire| && OpenRound(wire, room, j, |wire|) && wire[j].from == View(wire, room).owner;
    assert CP.PacketOk(c, e, wire[j]);
  }

  lemma NotOpen(sys: System, room: Text)
    requires SysInv(sys) && sys.client.registry.Has(room) && !WellFormed(room)
    ensures var v := sys.client.registry.entries[room];
            v < |sys.client.virtuals| && sys.client.virtuals[v].room == room && !sys.client.virtuals[v].state.OPEN?
  {
    var c := sys.client;
    var v := c.registry.entries[room];
    hide LinkOk;
    assert CP.EntryOk(c, room, v) && CP.VirtualOk(c.virtuals[v], |c.sockets|);
  }

  // ---------- delivery ----------

  /**
    Delivery: what reached the server from one virtual socket is a prefix, in
    order and without repetition, of what its consumer sent, if the server reads no
    other name as its room's; it reached adapters of that socket's own room only,
    and those adapters received nothing else.
  */
  lemma DeliveryIsAPrefix(states: seq<System>, events: seq<Event>, n: nat, v: nat)
    requires IsRun(states, events) && n < |states| && v < |states[n].client.virtuals|
    ensures var sys := states[n];
            var socket := sys.client.virtuals[v];
            && socket.home < |sys.links|
            && var l := sys.links[socket.home];
            && (ReadAlone(sys.client, socket.room) ==> ArrivedFrom(l.arrived, v) <= socket.sent)
            && (forall k | 0 <= k < |l.arrived| && l.arrived[k].from == v :: l.arrived[k].id.room == socket.room)
            && (forall id: S.AdapterId | S.Exists(l.session, id) ::
                  S.SlotOf(l.session, id.room).adapters[id.serial].inbox == ArrivedAt(l.arrived, id))
  {
    RunKeeps(states, events, n);
    hide IsRun;
    var c := states[n].client;
    assert CP.VirtualOk(c.virtuals[v], |c.sockets|);
    var e := c.virtuals[v].home;
    var l := states[n].links[e];
    assert LinkOk(c, e, l);
    assert CP.DataOk(c, v);
    hide CP.SocketsOk, CP.PacketsOk, CP.ViewsOk, CP.RegistryOk, CP.EnteredOk, SP.Keeps, Agreement, OpeningsTold, SN.Named, AllHeard, ServedInside;
    hide S.SlotOf, S.Exists, ReadAlone, CR.TextOpens;
    assert forall k | 0 <= k < |l.arrived| :: ArrivalOk(c, e, l, l.arrived[k]);
    if ReadAlone(c, c.virtuals[v].room) {
      if WellFormed(c.virtuals[v].room) {
        assert DeliveredFrom(c, e, l, v);
        TakenIsAPrefix(c.sockets[e].wire, l.taken, v);
      } else {
        IllFormedSendsNothing(c, e, l, v);
      }
    }
  }

  lemma IllFormedSendsNothing(c: C.Client, e: nat, l: Link, v: nat)
    requires v < |c.virtuals| && !WellFormed(c.virtuals[v].room) && SN.Named(l.session) && InboxesOk(c, e, l)
    ensures ArrivedFrom(l.arrived, v) == []
  {
    forall k | 0 <= k < |l.arrived|
      ensures l.arrived[k].from != v
    {
      assert ArrivalOk(c, e, l, l.arrived[k]);
    }
    NoneFrom(l.arrived, v);
  }

  lemma {:induction false} TakenIsAPrefix(wire: seq<Packet>, n: nat, v: nat)
    requires n <= |wire|
    ensures DataOf(wire[..n], v) <= DataOf(wire, v)
  {
    if n == |wire| {
      assert wire[..n] == wire;
    } else {
      TakenIsAPrefix(wire[..|wire| - 1], n, v);
      assert wire[..|wire| - 1][..n] == wire[..n];
    }
  }

  /** The channel to the server has drained, and the server serves the room of socket v. */
  predicate DrainedAndServed(sys: System, v: nat)
    requires v < |sys.client.virtuals|
  {
    var socket := sys.client.virtuals[v];
    && HasLink(sys, socket.home)
    && sys.links[socket.home].taken == |Wire(sys, socket.home)|
    && sys.links[socket.home].session.rooms.Has(socket.room)
  }

  /**
    Once the channel has drained and the room is served, everything that the last
    subscriber of the room put on the wire has arrived, whether or not the client
    still has it registered: a stale refusal may have closed it meanwhile. While
    its physical socket is open, that is everything its consumer sent.
  */
  lemma DeliveryIsComplete(states: seq<System>, events: seq<Event>, n: nat, v: nat)
    requires IsRun(states, events) && n < |states| && v < |states[n].client.virtuals|
    requires ReadAlone(states[n].client, states[n].client.virtuals[v].room)
    requires var sys := states[n];
             var socket := sys.client.virtuals[v];
             DrainedAndServed(sys, v) && IsInside(View(Wire(sys, socket.home), socket.room), v)
    ensures var sys := states[n];
            var socket := sys.client.virtuals[v];
            var arrived := ArrivedFrom(sys.links[socket.home].arrived, v);
            && arrived == DataOf(Wire(sys, socket.home), v)
            && (sys.client.sockets[socket.home].state.OPEN? ==> arrived == socket.sent)
  {
    RunKeeps(states, events, n);
    hide IsRun;
    Arrived(states[n], v);
    OnTheWire(states[n].client, v);
  }

  lemma Arrived(sys: System, v: nat)
    requires SysInv(sys) && v < |sys.client.virtuals| && DrainedAndServed(sys, v) && ReadAlone(sys.client, sys.client.virtuals[v].room)
    requires IsInside(View(Wire(sys, sys.client.virtuals[v].home), sys.client.virtuals[v].room), v)
    ensures var home := sys.client.virtuals[v].home; ArrivedFrom(sys.links[home].arrived, v) == DataOf(Wire(sys, home), v)
  {
    var c := sys.client;
    var e := c.virtuals[v].home;
    var l := sys.links[e];
    assert LinkOk(c, e, l);
    NamedRoom(l.session, c.virtuals[v].room);
    hide CP.Inv, Steps.Inv, Agreement, OpeningsTold, SN.Named, InboxesOk, AllHeard, ServedInside, ReadAlone, CR.TextOpens, View, DataOf, ArrivedFrom;
    assert c.sockets[e].wire[..l.taken] == c.sockets[e].wire;
    assert DeliveredFrom(c, e, l, v);
  }

  lemma OnTheWire(c: C.Client, v: nat)
    requires CP.Inv(c) && v < |c.virtuals| && c.virtuals[v].home < |c.sockets|
    ensures var socket := c.sockets[c.virtuals[v].home];
            socket.state.OPEN? ==> DataOf(socket.wire, v) == c.virtuals[v].sent
  {
    assert CP.DataOk(c, v);
  }

  /** A registered socket on an open physical socket is the last subscriber of its room: all it sent has arrived. */
  lemma RegisteredDeliveryIsComplete(states: seq<System>, events: seq<Event>, n: nat, v: nat)
    requires IsRun(states, events) && n < |states| && v < |states[n].client.virtuals|
    requires ReadAlone(states[n].client, states[n].client.virtuals[v].room)
    requires var sys := states[n];
             CP.Registered(sys.client, v) && DrainedAndServed(sys, v) && sys.client.sockets[sys.client.virtuals[v].home].state.OPEN?
    ensures var sys := states[n];
            ArrivedFrom(sys.links[sys.client.virtuals[v].home].arrived, v) == sys.client.virtuals[v].sent
  {
    RunKeeps(states, events, n);
    assert CP.Inv(states[n].client);
    hide IsRun, SysInv, CP.Inv;
    RegisteredIsInside(states[n].client, v);
    DeliveryIsComplete(states, events, n, v);
  }

  lemma RegisteredIsInside(c: C.Client, v: nat)
    requires CP.Inv(c) && v < |c.virtuals| && CP.Registered(c, v)
    requires c.virtuals[v].home < |c.sockets| && c.sockets[c.virtuals[v].home].state.OPEN?
    ensures IsInside(View(c.sockets[c.virtuals[v].home].wire, c.virtuals[v].room), v)
  {
    assert CP.EntryOk(c, c.virtuals[v].room, v);
    hide CP.PacketsOk, CP.ViewsOk, CP.DatasOk, CP.VirtualsOk;
    assert CP.Entered(c, c.virtuals[v].room);
  }

  /**
    Delivery the other way: a virtual socket that never opened has been given
    nothing; one that did was given the payloads of its room's data frames from the
    frame after the one that opened it on, in order, without a gap, up to some
    frame, and while it is open up to the last frame delivered.
  */
  lemma ReceivedInOrder(states: seq<System>, events: seq<Event>, n: nat, v: nat)
    requires IsRun(states, events) && n < |states| && v < |states[n].client.virtuals|
    ensures var sys := states[n];
            var socket := sys.client.virtuals[v];
            && socket.home < |sys.links|
            && var l := sys.links[socket.home];
               if socket.opens == 0 then socket.received == []
               else exists a, b :: HeardBetween(socket, l.session.out, l.given, a, b)
  {
    RunKeeps(states, events, n);
    hide IsRun;
    var c := states[n].client;
    assert CP.VirtualOk(c.virtuals[v], |c.sockets|);
    assert LinkOk(c, c.virtuals[v].home, states[n].links[c.virtuals[v].home]);
    hide CP.RegistryOk, CP.SocketsOk, CP.PacketsOk, CP.ViewsOk, CP.EnteredOk, CP.DatasOk, Steps.Inv, Agreement, InboxesOk, Delivered, ServedInside, OpeningsTold;
    assert HeardInOrder(c.virtuals[v], states[n].links[c.virtuals[v].home]);
  }

  // ---------- blame ----------

  /** Up to state n, every grant that a server verified was the client's own. */
  ghost predicate HonestUpTo(states: seq<System>, events: seq<Event>, n: nat)
    requires IsRun(states, events) && n < |states|
  {
    forall i | 0 <= i < n :: states[i].client.registry.Valid() && Allowed(states[i], events[i]) && HonestGrants(states[i], events[i])
  }

  lemma {:induction false} NobodyBlamesSoFar(states: seq<System>, events: seq<Event>, n: nat)
    requires IsRun(states, events) && n < |states| && HonestUpTo(states, events, n)
    ensures NobodyBlames(states[n])
  {
    hide SysInv, Allowed, HonestGrants, Next, NobodyBlames;
    if n == 0 {
      NobodyToBlame();
    } else {
      RunKeeps(states, events, n - 1);
      NobodyBlamesSoFar(states, events, n - 1);
      NobodyBlamesAfter(states[n - 1], events[n - 1]);
    }
  }

  lemma NobodyToBlame()
    ensures NobodyBlames(Initial)
  {
  }

  /**
    An honest client is never blamed: no server closes it for a protocol or policy
    error, none counts a bypass against it, and it never closes a physical socket
    for a protocol failure itself.
  */
  lemma HonestClientIsNeverBlamed(states: seq<System>, events: seq<Event>, n: nat, e: nat)
    requires IsRun(states, events) && n < |states| && e < |states[n].links|
    requires HonestUpTo(states, events, n)
    ensures var sys := states[n];
            && e < |sys.client.sockets|
            && 1002 !in sys.links[e].session.closes
            && 1008 !in sys.links[e].session.closes
            && sys.links[e].session.bypass == 0
            && Some(4006) !in sys.client.sockets[e].closes
  {
    RunKeeps(states, events, n);
    NobodyBlamesSoFar(states, events, n);
    hide IsRun, CP.Inv, HonestUpTo, LinkOk;
    assert Unblamed(states[n].links[e].session);
  }
}
