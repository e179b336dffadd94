/** What the client and its server sessions keep between them. */
module TransportProofs {
  import opened Basics
  import opened Sockets
  import opened Unicode
  import opened Protocol
  import opened OrderedMap
  import opened RoomFrames
  import opened Transport
  import C = SharedWebSocket
  import CP = SharedWebSocketProofs
  import CR = SharedWebSocketRuns
  import S = MultiplexSession
  import SP = MultiplexSessionProofs
  import Steps = MultiplexSessionSteps
  import SN = MultiplexSessionNames
  import ProtocolProofs

  // ---------- the invariant of one link ----------

  /** A name that the server reads as it is, and no other as it. */
  predicate Clear(c: C.Client, room: Text) {
    WellFormed(room) && ReadAlone(c, room)
  }

  // A virtual socket that opened was told so by a frame the client has been given.
  ghost predicate OpeningsTold(c: C.Client, e: nat, l: Link) {
    forall v | 0 <= v < |c.virtuals| && c.virtuals[v].home == e && c.virtuals[v].opens > 0 :: Told(l, c.virtuals[v].room)
  }

  ghost predicate Told(l: Link, room: Text) {
    exists i :: 0 <= i < l.given && i < |l.session.out| && l.session.out[i].message == Subscribed(room)
  }

  /** The server has the room open, or the client will be told that it has not. */
  ghost predicate Served(l: Link, room: Text) {
    room in l.session.rooms.entries || SP.Announced(l.session, room, l.given)
  }

  /** The answer to a subscription is on its way. */
  ghost predicate Answered(l: Link, room: Text) {
    Steps.AnnouncedIn(l.session, l.given, Subscribed(room)) || SP.Announced(l.session, room, l.given)
  }

  // What the server has seen of the room.
  function Seen(c: C.Client, e: nat, l: Link, room: Text): RoomView
    requires e < |c.sockets| && l.taken <= |c.sockets[e].wire|
  {
    View(c.sockets[e].wire[..l.taken], room)
  }

  predicate IsInside(view: RoomView, v: nat) {
    view.Inside? && view.owner == v
  }

  ghost predicate AgreesOn(c: C.Client, e: nat, l: Link, v: nat)
    requires e < |c.sockets| && l.taken <= |c.sockets[e].wire| && v < |c.virtuals|
  {
    var room := c.virtuals[v].room;
    IsInside(Seen(c, e, l, room), v) ==> Served(l, room) && (c.virtuals[v].state.CONNECTING? ==> Answered(l, room))
  }

  /** Once the server has seen a registered socket's subscribe: the room is served and the answer sent, or a refusal is on its way. */
  ghost predicate Agreement(c: C.Client, e: nat, l: Link)
    requires e < |c.sockets| && l.taken <= |c.sockets[e].wire|
  {
    l.session.physical.OPEN? && c.physical == Some(e) ==>
      forall v | 0 <= v < |c.virtuals| && CP.Registered(c, v) && Clear(c, c.virtuals[v].room) :: AgreesOn(c, e, l, v)
  }

  /**
    The room has a last subscriber, which the server has not seen unsubscribe, and
    has not been refused or announced as closed since the server took its subscribe.
  */
  ghost predicate ServedFor(c: C.Client, e: nat, l: Link, room: Text)
    requires e < |c.sockets| && l.taken <= |c.sockets[e].wire|
  {
    && Seen(c, e, l, room).Inside?
    && room in l.asked && l.asked[room].from == Seen(c, e, l, room).owner
    && forall i | l.asked[room].written <= i < |l.session.out| && l.session.out[i].message.RoomClosed? ::
         l.session.out[i].message.room != room
  }

  ghost predicate ServedInside(c: C.Client, e: nat, l: Link)
    requires e < |c.sockets| && l.taken <= |c.sockets[e].wire|
  {
    forall r | r in l.session.rooms.entries && Clear(c, r) :: ServedFor(c, e, l, r)
  }

  function ArrivedFrom(arrived: seq<Arrival>, v: nat): seq<Bytes> {
    if arrived == [] then []
    else
      var last := arrived[|arrived| - 1];
      ArrivedFrom(arrived[..|arrived| - 1], v) + if last.from == v then [last.payload] else []
  }

  function ArrivedAt(arrived: seq<Arrival>, id: S.AdapterId): seq<Bytes> {
    if arrived == [] then []
    else
      var last := arrived[|arrived| - 1];
      ArrivedAt(arrived[..|arrived| - 1], id) + if last.id == id then [last.payload] else []
  }

  /** Every inbox holds exactly what arrived at it, and what arrived came from a socket of that room. */
  ghost predicate InboxesOk(c: C.Client, e: nat, l: Link) {
    && (forall id: S.AdapterId | S.Exists(l.session, id) ::
          S.SlotOf(l.session, id.room).adapters[id.serial].inbox == ArrivedAt(l.arrived, id))
    && (forall k | 0 <= k < |l.arrived| :: ArrivalOk(c, e, l, l.arrived[k]))
  }

  predicate ArrivalOk(c: C.Client, e: nat, l: Link, a: Arrival) {
    S.Exists(l.session, a.id) && a.from < |c.virtuals| && c.virtuals[a.from].home == e && c.virtuals[a.from].room == a.id.room
  }

  /** What arrived from a socket is a prefix of what the server took from it, and all of it while the room is served. */
  ghost predicate DeliveredFrom(c: C.Client, e: nat, l: Link, v: nat)
    requires e < |c.sockets| && l.taken <= |c.sockets[e].wire| && v < |c.virtuals|
  {
    var taken := DataOf(c.sockets[e].wire[..l.taken], v);
    && ArrivedFrom(l.arrived, v) <= taken
    && (IsInside(Seen(c, e, l, c.virtuals[v].room), v) && c.virtuals[v].room in l.session.rooms.entries
        ==> ArrivedFrom(l.arrived, v) == taken)
  }

  ghost predicate Delivered(c: C.Client, e: nat, l: Link)
    requires e < |c.sockets| && l.taken <= |c.sockets[e].wire|
  {
    forall v | 0 <= v < |c.virtuals| && c.virtuals[v].home == e && Clear(c, c.virtuals[v].room) :: DeliveredFrom(c, e, l, v)
  }

  /** The payloads of a room's data frames, in order. */
  function PayloadsOf(frames: seq<S.Emitted>, room: Text): seq<Bytes> {
    if frames == [] then []
    else
      var m := frames[|frames| - 1].message;
      PayloadsOf(frames[..|frames| - 1], room) + if m.Data? && m.room == room then [m.payload] else []
  }

  /** Frame a - 1 opened the socket, and it was given the room's data of the frames from a up to b, in order, and nothing else. */
  ghost predicate HeardBetween(s: C.Virtual, out: seq<S.Emitted>, given: nat, a: int, b: int) {
    && 0 < a <= b <= given <= |out|
    && out[a - 1].message == Subscribed(s.room)
    && s.received == PayloadsOf(out[a..b], s.room)
    && (s.state.OPEN? ==> b == given)
  }

  ghost predicate HeardInOrder(s: C.Virtual, l: Link) {
    s.opens > 0 ==> exists a, b :: HeardBetween(s, l.session.out, l.given, a, b)
  }

  ghost predicate AllHeard(c: C.Client, e: nat, l: Link) {
    forall v | 0 <= v < |c.virtuals| && c.virtuals[v].home == e :: HeardInOrder(c.virtuals[v], l)
  }

  ghost predicate LinkOk(c: C.Client, e: nat, l: Link)
    requires e < |c.sockets|
  {
    && Steps.Inv(l.session)
    && l.taken <= |c.sockets[e].wire| && l.given <= |l.session.out|
    && SN.Named(l.session)
    && OpeningsTold(c, e, l)
    && Agreement(c, e, l)
    && ServedInside(c, e, l)
    && InboxesOk(c, e, l)
    && Delivered(c, e, l)
    && AllHeard(c, e, l)
  }

  ghost predicate SysInv(sys: System) {
    && CP.Inv(sys.client)
    && CR.TextOpens(sys.client)
    && |sys.links| == |sys.client.sockets|
    && (forall e, k | 0 <= e < |sys.client.sockets| && 0 <= k < |sys.client.sockets[e].closes| :: sys.client.sockets[e].closes[k].None?)
    && (forall e | 0 <= e < |sys.links| :: LinkOk(sys.client, e, sys.links[e]))
  }

  // ---------- what the client does, seen from a link ----------

  lemma {:induction false} OwnerIsSeen(wire: seq<Packet>, room: Text)
    ensures var view := View(wire, room); view.Inside? ==> view.owner in view.seen
  {
    if wire != [] {
      OwnerIsSeen(wire[..|wire| - 1], room);
    }
  }

  // Whoever the server has seen inside a room is a socket the client had already.
  lemma InsideExists(c: C.Client, e: nat, n: nat, room: Text)
    requires CP.ViewsOk(c) && e < |c.sockets| && n <= |c.sockets[e].wire|
    ensures var view := View(c.sockets[e].wire[..n], room);
            !view.Broken? && (view.Inside? ==> view.owner < |c.virtuals|) && forall v | v in view.seen :: v < |c.virtuals|
  {
    assert CP.ViewOk(c, e, room);
    PrefixView(c.sockets[e].wire, n, room);
    OwnerIsSeen(c.sockets[e].wire[..n], room);
    hide View;
  }

  // d comes from c, and no socket of physical socket e opened or heard anything in between.
  ghost predicate Unopened(c: C.Client, d: C.Client, e: nat) {
    && |c.virtuals| <= |d.virtuals|
    && forall v | 0 <= v < |d.virtuals| && d.virtuals[v].home == e && d.virtuals[v].opens > 0 ::
         v < |c.virtuals| && c.virtuals[v].opens > 0 && d.virtuals[v].received == c.virtuals[v].received
  }

  // The names of d are those of c and more.
  lemma ClearBefore(c: C.Client, d: C.Client, room: Text)
    requires CP.Forward(c, d) && Clear(d, room)
    ensures Clear(c, room)
  {
    assert forall v | 0 <= v < |c.virtuals| :: CP.VirtualForward(c.virtuals[v], d.virtuals[v]);
    hide WellFormed, Normalized;
  }

  lemma WasRegistered(c: C.Client, d: C.Client, v: nat)
    requires CP.Inv(c) && CP.Inv(d) && CP.Forward(c, d) && v < |c.virtuals| && CP.Registered(d, v)
    ensures CP.Registered(c, v) && d.virtuals[v].room == c.virtuals[v].room && c.physical == d.physical == Some(c.virtuals[v].home)
    ensures d.virtuals[v].state.CONNECTING? ==> c.virtuals[v].state.CONNECTING?
  {
    assert CP.VirtualForward(c.virtuals[v], d.virtuals[v]);
    assert CP.EntryOk(d, d.virtuals[v].room, v);
    assert c.virtuals[v].state.Live();
    assert CP.EntryOk(c, c.virtuals[v].room, v);
    hide CP.VirtualsOk, CP.PacketsOk, CP.ViewsOk, CP.EnteredOk, CP.DatasOk, CP.SocketsOk;
  }

  lemma AgreementKept(c: C.Client, d: C.Client, e: nat, l: Link)
    requires CP.Inv(c) && CP.Inv(d) && CP.Forward(c, d) && e < |c.sockets|
    requires l.taken <= |c.sockets[e].wire| && Agreement(c, e, l)
    ensures l.taken <= |d.sockets[e].wire| && Agreement(d, e, l)
  {
    assert CP.PhysicalForward(c.sockets[e], d.sockets[e]);
    assert d.sockets[e].wire[..l.taken] == c.sockets[e].wire[..l.taken];
    if l.session.physical.OPEN? && d.physical == Some(e) {
      forall v | 0 <= v < |d.virtuals| && CP.Registered(d, v) && Clear(d, d.virtuals[v].room)
        ensures AgreesOn(d, e, l, v)
      {
        ClearBefore(c, d, d.virtuals[v].room);
        InsideExists(c, e, l.taken, d.virtuals[v].room);
        if v < |c.virtuals| {
          WasRegistered(c, d, v);
          assert AgreesOn(c, e, l, v);
        }
      }
    }
  }

  // No room is added or refused, and the server has taken no more.
  lemma InsideKept(c: C.Client, d: C.Client, e: nat, l: Link, l': Link)
    requires e < |c.sockets| && e < |d.sockets| && CP.Forward(c, d) && l.taken <= |c.sockets[e].wire|
    requires l'.taken == l.taken && l'.asked == l.asked && forall r | r in l'.session.rooms.entries :: r in l.session.rooms.entries
    requires l.session.out <= l'.session.out && SP.Unrefused(l.session, l'.session)
    requires ServedInside(c, e, l)
    ensures l.taken <= |d.sockets[e].wire| && ServedInside(d, e, l')
  {
    assert CP.PhysicalForward(c.sockets[e], d.sockets[e]);
    assert d.sockets[e].wire[..l.taken] == c.sockets[e].wire[..l.taken];
    forall r | r in l'.session.rooms.entries && Clear(d, r)
      ensures ServedFor(d, e, l', r)
    {
      ClearBefore(c, d, r);
      assert ServedFor(c, e, l, r);
      assert forall i | 0 <= i < |l.session.out| :: l'.session.out[i] == l.session.out[i];
    }
  }

  lemma NothingNew(s: S.Session)
    ensures SP.Unrefused(s, s)
  {
  }

  lemma InboxesKept(c: C.Client, d: C.Client, e: nat, l: Link)
    requires CP.Forward(c, d) && e < |c.sockets| && l.taken <= |c.sockets[e].wire| && InboxesOk(c, e, l)
    ensures l.taken <= |d.sockets[e].wire| && InboxesOk(d, e, l)
  {
    assert CP.PhysicalForward(c.sockets[e], d.sockets[e]);
    assert d.sockets[e].wire[..l.taken] == c.sockets[e].wire[..l.taken];
    assert forall v | 0 <= v < |c.virtuals| :: CP.VirtualForward(c.virtuals[v], d.virtuals[v]);
  }

  lemma DeliveredKept(c: C.Client, d: C.Client, e: nat, l: Link)
    requires CP.Inv(c) && CP.Forward(c, d) && e < |c.sockets|
    requires l.taken <= |c.sockets[e].wire| && Delivered(c, e, l) && InboxesOk(c, e, l)
    ensures l.taken <= |d.sockets[e].wire| && Delivered(d, e, l) && InboxesOk(d, e, l)
  {
    assert CP.PhysicalForward(c.sockets[e], d.sockets[e]);
    assert d.sockets[e].wire[..l.taken] == c.sockets[e].wire[..l.taken];
    assert forall v | 0 <= v < |c.virtuals| :: CP.VirtualForward(c.virtuals[v], d.virtuals[v]);
    hide CP.Inv, InboxesOk;
    InboxesKept(c, d, e, l);
    forall v | 0 <= v < |d.virtuals| && d.virtuals[v].home == e && Clear(d, d.virtuals[v].room)
      ensures DeliveredFrom(d, e, l, v)
    {
      ClearBefore(c, d, d.virtuals[v].room);
      if v < |c.virtuals| {
        assert DeliveredFrom(c, e, l, v);
      } else {
        InsideExists(c, e, l.taken, d.virtuals[v].room);
        NothingArrivedFrom(c, e, l, v);
      }
    }
  }

  lemma {:induction false} NoneFrom(arrived: seq<Arrival>, v: nat)
    requires forall k | 0 <= k < |arrived| :: arrived[k].from != v
    ensures ArrivedFrom(arrived, v) == []
  {
    if arrived != [] {
      NoneFrom(arrived[..|arrived| - 1], v);
    }
  }

  lemma NothingArrivedFrom(c: C.Client, e: nat, l: Link, v: nat)
    requires InboxesOk(c, e, l) && v >= |c.virtuals|
    ensures ArrivedFrom(l.arrived, v) == []
  {
    forall k | 0 <= k < |l.arrived|
      ensures l.arrived[k].from != v
    {
      assert ArrivalOk(c, e, l, l.arrived[k]);
    }
    NoneFrom(l.arrived, v);
  }

  // A socket that has heard nothing more has heard what it had.
  lemma StillHeard(s: C.Virtual, t: C.Virtual, l: Link, l': Link)
    requires HeardInOrder(s, l) && CP.VirtualForward(s, t) && t.received == s.received && (t.opens > 0 ==> s.opens > 0)
    requires t.opens > 0 && t.state.OPEN? ==> s.state.OPEN?
    requires l'.given == l.given && l.session.out <= l'.session.out
    ensures HeardInOrder(t, l')
  {
    if t.opens > 0 {
      var a, b :| HeardBetween(s, l.session.out, l.given, a, b);
      assert l'.session.out[a..b] == l.session.out[a..b];
      assert HeardBetween(t, l'.session.out, l'.given, a, b);
    }
  }

  lemma HeardKept(c: C.Client, d: C.Client, e: nat, l: Link, l': Link)
    requires CP.Inv(c) && CP.Forward(c, d) && Unopened(c, d, e) && AllHeard(c, e, l)
    requires l'.given == l.given && l.session.out <= l'.session.out
    ensures AllHeard(d, e, l')
  {
    hide HeardInOrder;
    forall v | 0 <= v < |d.virtuals| && d.virtuals[v].home == e
      ensures HeardInOrder(d.virtuals[v], l')
    {
      if d.virtuals[v].opens > 0 {
        assert CP.VirtualForward(c.virtuals[v], d.virtuals[v]);
        assert CP.VirtualOk(c.virtuals[v], |c.sockets|);
        StillHeard(c.virtuals[v], d.virtuals[v], l, l');
      } else {
        NothingHeardYet(d.virtuals[v], l');
      }
    }
  }

  lemma NothingHeardYet(s: C.Virtual, l: Link)
    requires s.opens == 0
    ensures HeardInOrder(s, l)
  {
  }

  /** Whatever the client does without opening a socket of the link leaves the link in order. */
  lemma ClientLinkKeeps(c: C.Client, d: C.Client, e: nat, l: Link)
    requires CP.Inv(c) && CP.Inv(d) && CP.Forward(c, d) && e < |c.sockets| && Unopened(c, d, e)
    requires LinkOk(c, e, l)
    ensures e < |d.sockets| && LinkOk(d, e, l)
  {
    hide CP.Inv, Agreement, ServedInside, Delivered, InboxesOk, AllHeard, Steps.Inv, SN.Named;
    AgreementKept(c, d, e, l);
    DeliveredKept(c, d, e, l);
    NothingNew(l.session);
    InsideKept(c, d, e, l, l);
    HeardKept(c, d, e, l, l);
    forall v | 0 <= v < |d.virtuals| && d.virtuals[v].home == e && d.virtuals[v].opens > 0
      ensures Told(l, d.virtuals[v].room)
    {
      assert CP.VirtualForward(c.virtuals[v], d.virtuals[v]);
    }
  }

  // ---------- a frame reaches the client ----------

  // What the client reads when it is given frame number l.given.
  lemma ClientReads(c: C.Client, e: nat, l: Link, callback: C.Script)
    requires CP.Inv(c) && e < |c.sockets| && LinkOk(c, e, l) && l.given < |l.session.out|
    requires C.Enabled(c, C.Message(e, FrameOf(l.session.out[l.given].message), callback))
    ensures var m := l.session.out[l.given].message;
            var d := C.Step(c, C.Message(e, FrameOf(m), callback));
            && CP.Inv(d) && CP.Received(c, d, m) && c.physical == Some(e)
            && Decode(FrameOf(m)) == Ok(m)
  {
    var m := l.session.out[l.given].message;
    assert SP.EmittedOk(l.session, l.given);
    assert WellFormedMessage(m);
    ProtocolProofs.RoundTrip(m);
    CP.MessageKeeps(c, e, FrameOf(m), callback);
    assert !c.sockets[e].state.CONNECTING?;
    hide CP.Keeps, CP.Anchored, Decode, CP.Received, C.Receive, SP.RoomsOk, SP.AdaptersOk, SP.MetricsOk, SP.ReportsOk, SP.CallsOk;
    CP.ReceiveKeeps(c, e, m, callback);
  }

  lemma StillTold(l: Link, room: Text)
    ensures Told(l, room) ==> Told(l.(given := l.given + 1), room)
  {
  }

  lemma RegisteredRoom(c: C.Client, room: Text, v: nat)
    requires CP.RegistryOk(c, {}) && CP.Lookup(c, room) == Some(v)
    ensures v < |c.virtuals| && c.virtuals[v].room == room && c.physical == Some(c.virtuals[v].home)
  {
    assert CP.EntryOk(c, room, v);
  }

  lemma OpeningsToldAfter(c: C.Client, d: C.Client, e: nat, l: Link)
    requires CP.Inv(c) && CP.Forward(c, d) && l.given < |l.session.out| && OpeningsTold(c, e, l)
    requires var m := l.session.out[l.given].message;
             CP.Hears(c, d, m)
    ensures OpeningsTold(d, e, l.(given := l.given + 1))
  {
    var m := l.session.out[l.given].message;
    var l' := l.(given := l.given + 1);
    hide CP.PacketsOk, CP.ViewsOk, CP.EnteredOk, CP.DatasOk, CP.SocketsOk, CP.VirtualsOk;
    forall v | 0 <= v < |d.virtuals| && d.virtuals[v].home == e && d.virtuals[v].opens > 0
      ensures Told(l', d.virtuals[v].room)
    {
      assert CP.VirtualForward(c.virtuals[v], d.virtuals[v]);
      if c.virtuals[v].opens > 0 {
        StillTold(l, c.virtuals[v].room);
      } else {
        RegisteredRoom(c, m.room, v);
        assert l'.session.out[l.given].message == Subscribed(d.virtuals[v].room);
      }
    }
  }

  // Frame number l.given was the one that said so, or a later one does.
  lemma StillAnnounced(l: Link, room: Text)
    requires SP.Announced(l.session, room, l.given) && l.given < |l.session.out|
    ensures SP.Announced(l.session, room, l.given + 1)
         || (l.session.out[l.given].message.RoomClosed? && l.session.out[l.given].message.room == room)
  {
    var i :| l.given <= i < |l.session.out| && l.session.out[i].message.RoomClosed? && l.session.out[i].message.room == room;
  }

  lemma StillAnswered(l: Link, room: Text)
    requires Steps.AnnouncedIn(l.session, l.given, Subscribed(room)) && l.given < |l.session.out|
    ensures Steps.AnnouncedIn(l.session, l.given + 1, Subscribed(room)) || l.session.out[l.given].message == Subscribed(room)
  {
    var i :| l.given <= i < |l.session.out| && l.session.out[i].message == Subscribed(room);
  }

  lemma AgreementAfter(c: C.Client, d: C.Client, e: nat, l: Link)
    requires CP.Inv(c) && CP.Inv(d) && CP.Forward(c, d) && e < |c.sockets|
    requires l.taken <= |c.sockets[e].wire| && l.given < |l.session.out| && Agreement(c, e, l)
    requires CP.Heeds(c, d, l.session.out[l.given].message) && c.physical == Some(e)
    ensures l.taken <= |d.sockets[e].wire| && Agreement(d, e, l.(given := l.given + 1))
  {
    var m := l.session.out[l.given].message;
    var l' := l.(given := l.given + 1);
    assert CP.PhysicalForward(c.sockets[e], d.sockets[e]);
    assert d.sockets[e].wire[..l.taken] == c.sockets[e].wire[..l.taken];
    if l.session.physical.OPEN? && d.physical == Some(e) {
      forall v | 0 <= v < |d.virtuals| && CP.Registered(d, v) && Clear(d, d.virtuals[v].room)
        ensures AgreesOn(d, e, l', v)
      {
        ClearBefore(c, d, d.virtuals[v].room);
        InsideExists(c, e, l.taken, d.virtuals[v].room);
        if v < |c.virtuals| && IsInside(Seen(d, e, l', d.virtuals[v].room), v) {
          WasRegistered(c, d, v);
          AgreesAfter(c, d, e, l, v);
        }
      }
    }
  }

  lemma AgreesAfter(c: C.Client, d: C.Client, e: nat, l: Link, v: nat)
    requires v < |c.virtuals| <= |d.virtuals| && CP.Registered(c, v) && CP.Registered(d, v) && CP.RegistryOk(d, {})
    requires d.virtuals[v].room == c.virtuals[v].room
    requires d.virtuals[v].state.CONNECTING? ==> c.virtuals[v].state.CONNECTING?
    requires l.given < |l.session.out| && CP.Heeds(c, d, l.session.out[l.given].message)
    requires Served(l, c.virtuals[v].room) && (c.virtuals[v].state.CONNECTING? ==> Answered(l, c.virtuals[v].room))
    ensures var l' := l.(given := l.given + 1);
            Served(l', d.virtuals[v].room) && (d.virtuals[v].state.CONNECTING? ==> Answered(l', d.virtuals[v].room))
  {
    var room := c.virtuals[v].room;
    var m := l.session.out[l.given].message;
    assert CP.EntryOk(d, room, v);
    assert d.virtuals[v].state.Live();
    hide SP.Announced, Steps.AnnouncedIn;
    if SP.Announced(l.session, room, l.given) {
      StillAnnounced(l, room);
    }
    if Steps.AnnouncedIn(l.session, l.given, Subscribed(room)) {
      StillAnswered(l, room);
    }
  }

  lemma OtherLinksUnopened(c: C.Client, d: C.Client, e: nat, other: nat, m: Message)
    requires CP.Inv(c) && CP.Forward(c, d) && CP.Hears(c, d, m) && c.physical == Some(e) && other != e
    ensures Unopened(c, d, other)
  {
    forall v | 0 <= v < |d.virtuals| && d.virtuals[v].home == other && d.virtuals[v].opens > 0
      ensures v < |c.virtuals| && c.virtuals[v].opens > 0 && d.virtuals[v].received == c.virtuals[v].received
    {
      assert CP.VirtualForward(c.virtuals[v], d.virtuals[v]);
      if CP.Lookup(c, m.room) == Some(v) {
        RegisteredRoom(c, m.room, v);
      }
    }
  }

  lemma PayloadsAppend(frames: seq<S.Emitted>, f: S.Emitted, room: Text)
    ensures PayloadsOf(frames + [f], room)
         == PayloadsOf(frames, room) + if f.message.Data? && f.message.room == room then [f.message.payload] else []
  {
    assert (frames + [f])[..|frames|] == frames;
  }

  // The frame given now opened the socket.
  lemma JustOpenedHears(t: C.Virtual, l: Link)
    requires l.given < |l.session.out| && l.session.out[l.given].message == Subscribed(t.room) && t.received == []
    ensures HeardInOrder(t, l.(given := l.given + 1))
  {
    var n := l.given + 1;
    assert l.session.out[n..n] == [];
    assert HeardBetween(t, l.session.out, n, n, n);
  }

  // A socket that was open hears the frame given now, if it is data of its room.
  lemma OpenHears(s: C.Virtual, t: C.Virtual, l: Link)
    requires s.opens > 0 && s.state.OPEN? && HeardInOrder(s, l) && t.room == s.room && l.given < |l.session.out|
    requires var m := l.session.out[l.given].message;
             t.received == s.received + if m.Data? && m.room == s.room then [m.payload] else []
    ensures HeardInOrder(t, l.(given := l.given + 1))
  {
    var out, n := l.session.out, l.given;
    var a, b :| HeardBetween(s, out, n, a, b);
    assert out[a..n + 1] == out[a..n] + [out[n]];
    PayloadsAppend(out[a..n], out[n], s.room);
    assert HeardBetween(t, out, n + 1, a, n + 1);
  }

  lemma OthersHear(s: C.Virtual, t: C.Virtual, l: Link)
    requires s.opens > 0 && !s.state.OPEN? && !t.state.OPEN? && HeardInOrder(s, l) && t.room == s.room && t.received == s.received
    requires l.given < |l.session.out|
    ensures HeardInOrder(t, l.(given := l.given + 1))
  {
    var a, b :| HeardBetween(s, l.session.out, l.given, a, b);
    assert HeardBetween(t, l.session.out, l.given + 1, a, b);
  }

  lemma HeardAfter(c: C.Client, d: C.Client, e: nat, l: Link)
    requires CP.Inv(c) && CP.Inv(d) && CP.Forward(c, d) && l.given < |l.session.out| && AllHeard(c, e, l)
    requires var m := l.session.out[l.given].message;
             CP.Hears(c, d, m)
    ensures AllHeard(d, e, l.(given := l.given + 1))
  {
    hide HeardInOrder;
    forall v | 0 <= v < |d.virtuals| && d.virtuals[v].home == e
      ensures HeardInOrder(d.virtuals[v], l.(given := l.given + 1))
    {
      if d.virtuals[v].opens > 0 {
        OneHears(c, d, e, l, v);
      } else {
        NothingHeardYet(d.virtuals[v], l.(given := l.given + 1));
      }
    }
  }

  lemma OneHears(c: C.Client, d: C.Client, e: nat, l: Link, v: nat)
    requires CP.Inv(c) && CP.Inv(d) && CP.Forward(c, d) && l.given < |l.session.out| && AllHeard(c, e, l)
    requires v < |d.virtuals| && d.virtuals[v].home == e && d.virtuals[v].opens > 0
    requires var m := l.session.out[l.given].message;
             CP.Hears(c, d, m)
    ensures HeardInOrder(d.virtuals[v], l.(given := l.given + 1))
  {
    var m := l.session.out[l.given].message;
    assert v < |c.virtuals|;
    var s, t := c.virtuals[v], d.virtuals[v];
    assert CP.VirtualForward(s, t) && CP.VirtualOk(s, |c.sockets|) && CP.VirtualOk(t, |d.sockets|);
    assert CP.RegistryOk(c, {});
    assert s.state.Live() ==> CP.Lookup(c, s.room) == Some(v) by {
      if s.state.Live() { assert CP.Registered(c, v); }
    }
    if CP.Lookup(c, m.room) == Some(v) {
      RegisteredRoom(c, m.room, v);
    }
    hide CP.Inv, CP.RegistryOk, HeardInOrder, CP.Lookup;
    if s.opens == 0 {
      JustOpenedHears(t, l);
    } else if s.state.OPEN? {
      OpenHears(s, t, l);
    } else {
      OthersHear(s, t, l);
    }
  }

  lemma ToClientLinkKeeps(c: C.Client, e: nat, l: Link, callback: C.Script)
    requires CP.Inv(c) && e < |c.sockets| && LinkOk(c, e, l) && l.given < |l.session.out|
    requires C.Enabled(c, C.Message(e, FrameOf(l.session.out[l.given].message), callback))
    ensures var d := C.Step(c, C.Message(e, FrameOf(l.session.out[l.given].message), callback));
            && CP.Inv(d) && CP.Forward(c, d) && CP.ClosesNormally(c, d)
            && e < |d.sockets| && LinkOk(d, e, l.(given := l.given + 1))
            && forall other | other != e :: Unopened(c, d, other)
  {
    var m := l.session.out[l.given].message;
    var d := C.Step(c, C.Message(e, FrameOf(m), callback));
    ClientReads(c, e, l, callback);
    var l' := l.(given := l.given + 1);
    hide CP.Inv, CP.Hears, CP.Heeds, NormalizedMessage, C.Step, Agreement, ServedInside, Delivered, InboxesOk, AllHeard, OpeningsTold, Steps.Inv, SN.Named, Unopened;
    OpeningsToldAfter(c, d, e, l);
    AgreementAfter(c, d, e, l);
    DeliveredKept(c, d, e, l);
    SameDeliveries(d, e, l, l');
    NothingNew(l.session);
    InsideKept(c, d, e, l, l');
    HeardAfter(c, d, e, l);
    forall other | other != e
      ensures Unopened(c, d, other)
    {
      OtherLinksUnopened(c, d, e, other, m);
    }
  }

  lemma SameDeliveries(c: C.Client, e: nat, l: Link, l': Link)
    requires e < |c.sockets| && l.taken <= |c.sockets[e].wire| && l' == l.(given := l'.given)
    requires Delivered(c, e, l) && InboxesOk(c, e, l)
    ensures Delivered(c, e, l') && InboxesOk(c, e, l')
  {
    assert forall v | 0 <= v < |c.virtuals| :: DeliveredFrom(c, e, l, v) ==> DeliveredFrom(c, e, l', v);
    assert forall k | 0 <= k < |l.arrived| :: ArrivalOk(c, e, l, l.arrived[k]) ==> ArrivalOk(c, e, l', l.arrived[k]);
  }

  // ---------- the server acts ----------

  lemma AnnouncedStays(s: S.Session, t: S.Session, room: Text, from: nat)
    requires s.out <= t.out
    ensures SP.Announced(s, room, from) ==> SP.Announced(t, room, from)
    ensures Steps.AnnouncedIn(s, from, Subscribed(room)) ==> Steps.AnnouncedIn(t, from, Subscribed(room))
  {
    assert forall i | 0 <= i < |s.out| :: t.out[i] == s.out[i];
  }

  lemma OpeningsStayTold(c: C.Client, e: nat, l: Link, l': Link)
    requires OpeningsTold(c, e, l) && l'.given == l.given && l.session.out <= l'.session.out
    ensures OpeningsTold(c, e, l')
  {
    assert forall i | 0 <= i < |l.session.out| :: l'.session.out[i] == l.session.out[i];
    forall v | 0 <= v < |c.virtuals| && c.virtuals[v].home == e && c.virtuals[v].opens > 0
      ensures Told(l', c.virtuals[v].room)
    {
      assert Told(l, c.virtuals[v].room);
    }
  }

  lemma IdleInboxes(c: C.Client, e: nat, l: Link, l': Link)
    requires InboxesOk(c, e, l) && Steps.Settles(l.session, l'.session) && l'.arrived == l.arrived
    ensures InboxesOk(c, e, l')
  {
    hide S.SlotOf;
    assert forall k | 0 <= k < |l.arrived| :: ArrivalOk(c, e, l, l.arrived[k]) ==> ArrivalOk(c, e, l', l.arrived[k]);
  }

  lemma IdleAgreement(c: C.Client, e: nat, l: Link, t: S.Session)
    requires e < |c.sockets| && l.taken <= |c.sockets[e].wire| && l.given <= |l.session.out|
    requires Agreement(c, e, l) && Steps.Moves(l.session, t) && SP.LossesAnnounced(l.session, t)
    ensures Agreement(c, e, l.(session := t))
  {
    var l' := l.(session := t);
    assert l.session.out <= t.out && (t.physical.OPEN? ==> l.session.physical.OPEN?);
    hide Steps.Moves, Steps.AnnouncedIn;
    if t.physical.OPEN? && c.physical == Some(e) {
      forall v | 0 <= v < |c.virtuals| && CP.Registered(c, v) && Clear(c, c.virtuals[v].room)
        ensures AgreesOn(c, e, l', v)
      {
        var room := c.virtuals[v].room;
        assert AgreesOn(c, e, l, v);
        AnnouncedStays(l.session, t, room, l.given);
        if room in l.session.rooms.entries {
          LossAnnounced(l.session, t, room, l.given);
        }
      }
    }
  }

  lemma LossAnnounced(s: S.Session, t: S.Session, room: Text, from: nat)
    requires SP.LossesAnnounced(s, t) && t.physical.OPEN? && from <= |s.out| && room in s.rooms.entries
    ensures room in t.rooms.entries || SP.Announced(t, room, from)
  {
    if room !in t.rooms.entries {
      assert SP.Announced(t, room, |s.out|);
    }
  }

  // Delivery when nothing arrives; what is taken may grow if the room is served no more.
  lemma IdleDelivered(c: C.Client, e: nat, l: Link, l': Link)
    requires e < |c.sockets| && l.taken <= |c.sockets[e].wire| && Delivered(c, e, l)
    requires l'.taken == l.taken && l'.arrived == l.arrived
    requires forall r | r in l'.session.rooms.entries :: r in l.session.rooms.entries
    ensures Delivered(c, e, l')
  {
    forall v | 0 <= v < |c.virtuals| && c.virtuals[v].home == e && Clear(c, c.virtuals[v].room)
      ensures DeliveredFrom(c, e, l', v)
    {
      assert DeliveredFrom(c, e, l, v);
    }
  }

  lemma ServerActsKeeps(c: C.Client, e: nat, l: Link, event: S.Event)
    requires CP.Inv(c) && e < |c.sockets| && LinkOk(c, e, l) && !event.Frame?
    ensures LinkOk(c, e, l.(session := S.Step(l.session, event)))
  {
    var t := S.Step(l.session, event);
    Steps.OtherIdles(l.session, event);
    var l' := l.(session := t);
    assert l.session.out <= t.out;
    assert Steps.Settles(l.session, t) && SP.LossesAnnounced(l.session, t) && SP.Unrefused(l.session, t);
    assert forall r | r in t.rooms.entries :: r in l.session.rooms.entries;
    CP.ForwardReflexive(c);
    hide Steps.Inv, Steps.Moves, Steps.Idles, Steps.Settles, SP.LossesAnnounced, SP.Unrefused, S.Step, SN.Named, OpeningsTold, Agreement, ServedInside;
    hide InboxesOk, Delivered, AllHeard, CP.Inv, CP.Forward;
    SameUnopened(c, e);
    SN.StepNamed(l.session, event);
    OpeningsStayTold(c, e, l, l');
    IdleAgreement(c, e, l, t);
    IdleInboxes(c, e, l, l');
    IdleDelivered(c, e, l, l');
    InsideKept(c, c, e, l, l');
    HeardKept(c, c, e, l, l');
  }

  lemma SameUnopened(c: C.Client, e: nat)
    ensures Unopened(c, c, e)
  {
  }

  // ---------- a frame reaches the server ----------

  lemma TakeOneMore(c: C.Client, e: nat, n: nat)
    requires e < |c.sockets| && n < |c.sockets[e].wire|
    ensures c.sockets[e].wire[..n + 1] == c.sockets[e].wire[..n] + [c.sockets[e].wire[n]]
  {
  }

  lemma {:induction false} FreshHasNoData(wire: seq<Packet>, room: Text, v: nat)
    requires !View(wire, room).Broken? && v !in View(wire, room).seen
    requires forall i | 0 <= i < |wire| && wire[i].from == v :: wire[i].message.room == room
    ensures DataOf(wire, v) == []
  {
    if wire != [] {
      OwnerIsSeen(wire[..|wire| - 1], room);
      FreshHasNoData(wire[..|wire| - 1], room, v);
    }
  }

  lemma PrefixOfNothing(a: seq<Bytes>)
    requires a <= []
    ensures a == []
  {
  }

  lemma ServerReads(c: C.Client, e: nat, p: Packet)
    requires CP.PacketOk(c, e, p)
    ensures Decode(FrameOf(p.message)) == Ok(NormalizedMessage(p.message)) && WellFormed(NormalizedMessage(p.message).room)
  {
    ProtocolProofs.RoundTripNormalized(p.message);
    NormalizedIsWellFormed(p.message.room);
    hide Decode, Encode, WithinBounds, Normalized, WellFormed;
  }

  // Data comes only from a socket that has opened, and so for a room the session has known, under its own name.
  lemma IsKnown(c: C.Client, e: nat, l: Link, p: Packet)
    requires e < |c.sockets| && LinkOk(c, e, l) && CP.PacketOk(c, e, p) && CR.TextOpens(c)
    ensures Steps.Known(l.session, NormalizedMessage(p.message))
    ensures p.message.Data? ==> WellFormed(p.message.room)
  {
    hide Agreement, InboxesOk, Delivered, AllHeard, ServedInside, SP.AdaptersOk, SP.MetricsOk, SP.ReportsOk, SP.CallsOk, SP.ExpectedOk, WithinBounds, WellFormed;
    if p.message.Data? {
      assert WellFormed(c.virtuals[p.from].room);
      assert NormalizedMessage(p.message) == p.message;
      assert Told(l, c.virtuals[p.from].room);
      var i :| 0 <= i < l.given && i < |l.session.out| && l.session.out[i].message == Subscribed(p.message.room);
      assert SP.EmittedOk(l.session, i);
      assert S.Exists(l.session, S.AdapterId(p.message.room, l.session.out[i].active.value));
    }
  }

  // A frame for a session that is not open any more only cleans up.
  lemma ShutFrameIdles(s: S.Session, frame: Bytes, choices: S.Choices)
    requires Steps.Inv(s) && !s.physical.OPEN?
    ensures var t := S.Step(s, S.Frame(frame, true, choices));
            Steps.Inv(t) && Steps.Moves(s, t) && Steps.Idles(s, t) && !t.physical.OPEN? && t.rooms.entries == map[]
  {
    var t := S.CleanupRooms(s, choices.cleanup);
    SP.CleanupKeeps(s, choices.cleanup);
    hide SP.Keeps, SP.Shrinks, SP.SendsForward;
    Steps.CleanedInv(s, choices.cleanup);
    assert SP.LossesAnnounced(s, t) by { StillShut(s, t); }
    assert s.calls <= t.calls by { CallsGrow(s, t); }
    Steps.ShrinksIdles(s, t);
    StillShut(s, t);
    NoEntries(t);
  }

  lemma CallsGrow(s: S.Session, t: S.Session)
    requires SP.SendsForward(s, t)
    ensures s.calls <= t.calls
  {
  }

  lemma NoEntries(s: S.Session)
    requires SP.Keeps(s) && s.rooms.IsEmpty()
    ensures s.rooms.entries == map[]
  {
    SizeOf(s.rooms);
  }

  lemma StillShut(s: S.Session, t: S.Session)
    requires SP.Shrinks(s, t) && !s.physical.OPEN?
    ensures !t.physical.OPEN? && SP.LossesAnnounced(s, t)
  {
  }

  // A frame that a session without rooms has taken: nothing of it arrives.
  lemma ShutDelivered(c: C.Client, e: nat, l: Link, l': Link)
    requires e < |c.sockets| && l.taken < |c.sockets[e].wire| && Delivered(c, e, l)
    requires l'.taken == l.taken + 1 && l'.arrived == l.arrived && l'.session.rooms.entries == map[]
    ensures Delivered(c, e, l')
  {
    var p := c.sockets[e].wire[l.taken];
    TakeOneMore(c, e, l.taken);
    hide DataOf, View, ArrivedFrom;
    forall v | 0 <= v < |c.virtuals| && c.virtuals[v].home == e && Clear(c, c.virtuals[v].room)
      ensures DeliveredFrom(c, e, l', v)
    {
      assert DeliveredFrom(c, e, l, v);
      DataOfAppend(c.sockets[e].wire[..l.taken], p, v);
    }
  }

  lemma ShutFrameKeeps(c: C.Client, e: nat, l: Link, choices: S.Choices)
    requires CP.Inv(c) && e < |c.sockets| && LinkOk(c, e, l) && !l.session.physical.OPEN? && l.taken < |c.sockets[e].wire|
    ensures LinkOk(c, e, Take(l, c.sockets[e].wire[l.taken], choices))
  {
    var p := c.sockets[e].wire[l.taken];
    var l' := Take(l, p, choices);
    var t := l'.session;
    ShutFrameIdles(l.session, FrameOf(p.message), choices);
    assert l.session.out <= t.out && Steps.Settles(l.session, t);
    assert l'.taken == l.taken + 1 && l'.given == l.given && l'.arrived == l.arrived;
    assert Agreement(c, e, l') && ServedInside(c, e, l');
    CP.ForwardReflexive(c);
    hide Steps.Inv, Steps.Moves, Steps.Idles, Steps.Settles, S.Step, SN.Named, OpeningsTold, InboxesOk, Agreement, ServedInside, Delivered, AllHeard, Take, CP.Inv, CP.Forward;
    SameUnopened(c, e);
    HeardKept(c, c, e, l, l');
    SN.StepNamed(l.session, S.Frame(FrameOf(p.message), true, choices));
    OpeningsStayTold(c, e, l, l');
    IdleInboxes(c, e, l, l');
    ShutDelivered(c, e, l, l');
  }

  // How the server's view of the room of socket v changes with packet p.
  lemma SeenAfter(c: C.Client, e: nat, l: Link, l': Link, room: Text)
    requires e < |c.sockets| && l.taken < |c.sockets[e].wire| && l'.taken == l.taken + 1
    ensures var p := c.sockets[e].wire[l.taken];
            Seen(c, e, l', room) == if p.message.room == room then After(Seen(c, e, l, room), p) else Seen(c, e, l, room)
  {
    TakeOneMore(c, e, l.taken);
    ViewAppend(c.sockets[e].wire[..l.taken], c.sockets[e].wire[l.taken], room);
  }

  lemma ServedAgreement(c: C.Client, e: nat, l: Link, l': Link)
    requires e < |c.sockets| && l.taken < |c.sockets[e].wire| && l.given <= |l.session.out| && Agreement(c, e, l)
    requires l'.taken == l.taken + 1 && l'.given == l.given && CP.PacketOk(c, e, c.sockets[e].wire[l.taken])
    requires var m := NormalizedMessage(c.sockets[e].wire[l.taken].message);
             Steps.Moves(l.session, l'.session) && Steps.Tells(l.session, m, l'.session)
    ensures Agreement(c, e, l')
  {
    var t := l'.session;
    assert l.session.out <= t.out && (t.physical.OPEN? ==> l.session.physical.OPEN?);
    hide Steps.Moves, After, CP.Registered, Clear, CP.PacketOk, NormalizedMessage;
    if t.physical.OPEN? && c.physical == Some(e) {
      forall v | 0 <= v < |c.virtuals| && CP.Registered(c, v) && Clear(c, c.virtuals[v].room)
        ensures AgreesOn(c, e, l', v)
      {
        ServedAgreesOn(c, e, l, l', v);
      }
    }
  }

  lemma LaterIsAnnounced(t: S.Session, room: Text, from: nat, later: nat)
    requires from <= later
    ensures SP.Announced(t, room, later) ==> SP.Announced(t, room, from)
    ensures Steps.AnnouncedIn(t, later, Subscribed(room)) ==> Steps.AnnouncedIn(t, from, Subscribed(room))
  {
  }

  // A packet after which socket v is inside its room is either its own subscribe or found it inside.
  lemma InsideBefore(view: RoomView, p: Packet, v: nat)
    requires IsInside(After(view, p), v)
    ensures IsInside(view, v) || (p.message.Subscribe? && p.from == v)
    ensures !p.message.Unsubscribe?
  {
  }

  // A frame is read as one of a clear room exactly when it is one.
  lemma ReadAs(c: C.Client, e: nat, p: Packet, room: Text)
    requires Clear(c, room) && CP.PacketOk(c, e, p)
    ensures NormalizedMessage(p.message).room == room <==> p.message.room == room
    ensures NormalizedMessage(p.message).Subscribe? == p.message.Subscribe?
    ensures NormalizedMessage(p.message).Data? == p.message.Data? && NormalizedMessage(p.message).Unsubscribe? == p.message.Unsubscribe?
    ensures p.message.Data? ==> NormalizedMessage(p.message).payload == p.message.payload
  {
    hide WellFormed, WithinBounds;
  }

  lemma ServedAgreesOn(c: C.Client, e: nat, l: Link, l': Link, v: nat)
    requires e < |c.sockets| && l.taken < |c.sockets[e].wire| && l.given <= |l.session.out|
    requires l'.taken == l.taken + 1 && l'.given == l.given && v < |c.virtuals| && AgreesOn(c, e, l, v)
    requires Clear(c, c.virtuals[v].room) && CP.PacketOk(c, e, c.sockets[e].wire[l.taken])
    requires l.session.out <= l'.session.out && l'.session.physical.OPEN?
    requires Steps.Tells(l.session, NormalizedMessage(c.sockets[e].wire[l.taken].message), l'.session)
    ensures AgreesOn(c, e, l', v)
  {
    var p := c.sockets[e].wire[l.taken];
    var room := c.virtuals[v].room;
    SeenAfter(c, e, l, l', room);
    ReadAs(c, e, p, room);
    hide SP.Announced, Steps.AnnouncedIn, Seen, After, Clear, CP.PacketOk, NormalizedMessage;
    if IsInside(Seen(c, e, l', room), v) {
      AnnouncedStays(l.session, l'.session, room, l.given);
      LaterIsAnnounced(l'.session, room, l.given, |l.session.out|);
      if p.message.room == room {
        InsideBefore(Seen(c, e, l, room), p, v);
      }
    }
  }

  lemma {:induction false} NoneAt(arrived: seq<Arrival>, id: S.AdapterId)
    requires forall k | 0 <= k < |arrived| :: arrived[k].id != id
    ensures ArrivedAt(arrived, id) == []
  {
    if arrived != [] {
      NoneAt(arrived[..|arrived| - 1], id);
    }
  }

  lemma ArrivedAppend(arrived: seq<Arrival>, a: Arrival)
    ensures forall id :: ArrivedAt(arrived + [a], id) == ArrivedAt(arrived, id) + if a.id == id then [a.payload] else []
    ensures forall v :: ArrivedFrom(arrived + [a], v) == ArrivedFrom(arrived, v) + if a.from == v then [a.payload] else []
  {
    assert (arrived + [a])[..|arrived|] == arrived;
  }

  // What taking packet p adds to the log of arrivals.
  function Arriving(s: S.Session, p: Packet): seq<Arrival> {
    var m := NormalizedMessage(p.message);
    var target := Steps.Target(s, m);
    if target.Some? then [Arrival(target.value, m.payload, p.from)] else []
  }

  lemma InboxAfter(arrived: seq<Arrival>, s: S.Session, p: Packet, id: S.AdapterId)
    ensures var m := NormalizedMessage(p.message);
            ArrivedAt(arrived + Arriving(s, p), id)
            == ArrivedAt(arrived, id) + if Steps.Target(s, m) == Some(id) then [m.payload] else []
  {
    var m := NormalizedMessage(p.message);
    var target := Steps.Target(s, m);
    if target.Some? {
      ArrivedAppend(arrived, Arrival(target.value, m.payload, p.from));
    } else {
      assert arrived + [] == arrived;
    }
  }

  lemma ServedInbox(l: Link, l': Link, p: Packet, id: S.AdapterId)
    requires forall x: S.AdapterId | S.Exists(l.session, x) ::
               S.SlotOf(l.session, x.room).adapters[x.serial].inbox == ArrivedAt(l.arrived, x)
    requires forall k | 0 <= k < |l.arrived| :: S.Exists(l.session, l.arrived[k].id)
    requires l'.arrived == l.arrived + Arriving(l.session, p) && Steps.Delivers(l.session, NormalizedMessage(p.message), l'.session)
    requires var target := Steps.Target(l.session, NormalizedMessage(p.message)); target.Some? ==> S.Exists(l.session, target.value)
    requires S.Exists(l'.session, id)
    ensures S.SlotOf(l'.session, id.room).adapters[id.serial].inbox == ArrivedAt(l'.arrived, id)
  {
    hide S.Exists, S.SlotOf, Arriving, Steps.Target, NormalizedMessage;
    InboxAfter(l.arrived, l.session, p, id);
    if !S.Exists(l.session, id) {
      NoneAt(l.arrived, id);
    }
  }

  // Data that arrives comes from a socket of its room.
  lemma ArrivesRight(c: C.Client, e: nat, s: S.Session, p: Packet)
    requires CP.PacketOk(c, e, p) && (p.message.Data? ==> WellFormed(p.message.room))
    ensures forall a | a in Arriving(s, p) ::
              a.from < |c.virtuals| && c.virtuals[a.from].home == e && c.virtuals[a.from].room == a.id.room
              && Steps.Target(s, NormalizedMessage(p.message)) == Some(a.id)
  {
    hide WithinBounds, WellFormed;
  }

  lemma ServedInboxes(c: C.Client, e: nat, l: Link, l': Link, p: Packet)
    requires InboxesOk(c, e, l) && CP.PacketOk(c, e, p) && (p.message.Data? ==> WellFormed(p.message.room))
    requires l'.arrived == l.arrived + Arriving(l.session, p) && Steps.Delivers(l.session, NormalizedMessage(p.message), l'.session)
    requires forall id: S.AdapterId | S.Exists(l.session, id) :: S.Exists(l'.session, id)
    requires var target := Steps.Target(l.session, NormalizedMessage(p.message)); target.Some? ==> S.Exists(l.session, target.value)
    ensures InboxesOk(c, e, l')
  {
    ArrivesRight(c, e, l.session, p);
    hide S.SlotOf, CP.PacketOk, WellFormed, Arriving, Steps.Target, NormalizedMessage;
    assert forall k | 0 <= k < |l.arrived| :: ArrivalOk(c, e, l, l.arrived[k]) && l'.arrived[k] == l.arrived[k];
    hide Steps.Delivers, S.Exists;
    forall k | 0 <= k < |l'.arrived|
      ensures ArrivalOk(c, e, l', l'.arrived[k])
    {
      if k >= |l.arrived| {
        assert l'.arrived[k] == Arriving(l.session, p)[k - |l.arrived|];
      }
    }
    forall id: S.AdapterId | S.Exists(l'.session, id)
      ensures S.SlotOf(l'.session, id.room).adapters[id.serial].inbox == ArrivedAt(l'.arrived, id)
    {
      ServedInbox(l, l', p, id);
    }
  }

  lemma FromAfter(arrived: seq<Arrival>, s: S.Session, p: Packet, v: nat)
    ensures var m := NormalizedMessage(p.message);
            ArrivedFrom(arrived + Arriving(s, p), v)
            == if Steps.Target(s, m).Some? && p.from == v then ArrivedFrom(arrived, v) + [m.payload] else ArrivedFrom(arrived, v)
  {
    var m := NormalizedMessage(p.message);
    var target := Steps.Target(s, m);
    if target.Some? {
      ArrivedAppend(arrived, Arrival(target.value, m.payload, p.from));
    } else {
      assert arrived + [] == arrived;
    }
  }

  // The packets of the taken wire, as far as socket v is concerned.
  ghost predicate OwnRoom(wire: seq<Packet>, v: nat, room: Text) {
    forall i | 0 <= i < |wire| && wire[i].from == v :: wire[i].message.room == room
  }

  /**
    One packet, seen from socket v: before it, what arrived from v was a prefix of
    what was taken from v, and all of it if v is inside a room that is served;
    so it is afterwards.
  */
  lemma DeliveredAfter(wire: seq<Packet>, p: Packet, room: Text, v: nat, arrived: seq<Arrival>, s: S.Session, t: S.Session)
    requires !View(wire, room).Broken? && !View(wire + [p], room).Broken? && OwnRoom(wire + [p], v, room)
    requires WellFormed(room) && (NormalizedMessage(p.message).room == room ==> p.message.room == room)
    requires ArrivedFrom(arrived, v) <= DataOf(wire, v)
    requires IsInside(View(wire, room), v) && room in s.rooms.entries ==> ArrivedFrom(arrived, v) == DataOf(wire, v)
    requires Steps.RoomsFrom(s, NormalizedMessage(p.message), t)
    ensures ArrivedFrom(arrived + Arriving(s, p), v) <= DataOf(wire + [p], v)
    ensures IsInside(View(wire + [p], room), v) && room in t.rooms.entries
            ==> ArrivedFrom(arrived + Arriving(s, p), v) == DataOf(wire + [p], v)
  {
    var m := p.message;
    ViewAppend(wire, p, room);
    DataOfAppend(wire, p, v);
    FromAfter(arrived, s, p, v);
    assert (wire + [p])[|wire|] == p;
    assert forall i | 0 <= i < |wire| :: (wire + [p])[i] == wire[i];
    assert m.room == room ==> NormalizedMessage(m).room == room;
    hide View, DataOf, ArrivedFrom, Arriving, WellFormed;
    if m.Subscribe? && m.room == room && p.from == v {
      FreshHasNoData(wire, room, v);
      PrefixOfNothing(ArrivedFrom(arrived, v));
    }
  }

  lemma OwnPackets(c: C.Client, e: nat, n: nat, v: nat)
    requires CP.PacketsOk(c) && e < |c.sockets| && n <= |c.sockets[e].wire| && v < |c.virtuals|
    ensures OwnRoom(c.sockets[e].wire[..n], v, c.virtuals[v].room)
  {
    hide WithinBounds;
    assert forall i | 0 <= i < n :: CP.PacketOk(c, e, c.sockets[e].wire[i]);
  }

  lemma ServedDeliveredFrom(c: C.Client, e: nat, l: Link, l': Link, v: nat)
    requires CP.PacketsOk(c) && CP.ViewsOk(c) && v < |c.virtuals| && Clear(c, c.virtuals[v].room)
    requires e < |c.sockets| && l.taken < |c.sockets[e].wire| && DeliveredFrom(c, e, l, v) && l'.taken == l.taken + 1
    requires var p := c.sockets[e].wire[l.taken];
             l'.arrived == l.arrived + Arriving(l.session, p) && Steps.RoomsFrom(l.session, NormalizedMessage(p.message), l'.session)
    ensures DeliveredFrom(c, e, l', v)
  {
    hide CP.PacketsOk, CP.PacketOk, CP.ViewsOk, Steps.RoomsFrom, View, DataOf, ArrivedFrom, Arriving, ReadAlone, NormalizedMessage, WellFormed;
    var wire := c.sockets[e].wire;
    var room := c.virtuals[v].room;
    TakeOneMore(c, e, l.taken);
    PacketOnWire(c, e, l.taken);
    ReadAs(c, e, wire[l.taken], room);
    InsideExists(c, e, l.taken, room);
    InsideExists(c, e, l.taken + 1, room);
    OwnPackets(c, e, l.taken + 1, v);
    DeliveredAfter(wire[..l.taken], wire[l.taken], room, v, l.arrived, l.session, l'.session);
  }

  lemma PacketOnWire(c: C.Client, e: nat, i: nat)
    requires CP.PacketsOk(c) && e < |c.sockets| && i < |c.sockets[e].wire|
    ensures CP.PacketOk(c, e, c.sockets[e].wire[i])
  {
  }

  lemma ServedDelivered(c: C.Client, e: nat, l: Link, l': Link)
    requires CP.PacketsOk(c) && CP.ViewsOk(c)
    requires e < |c.sockets| && l.taken < |c.sockets[e].wire| && Delivered(c, e, l) && l'.taken == l.taken + 1
    requires var p := c.sockets[e].wire[l.taken];
             l'.arrived == l.arrived + Arriving(l.session, p) && Steps.RoomsFrom(l.session, NormalizedMessage(p.message), l'.session)
    ensures Delivered(c, e, l')
  {
    hide CP.PacketsOk, CP.ViewsOk, Steps.RoomsFrom, Arriving, NormalizedMessage, Clear, DeliveredFrom;
    forall v | 0 <= v < |c.virtuals| && c.virtuals[v].home == e && Clear(c, c.virtuals[v].room)
      ensures DeliveredFrom(c, e, l', v)
    {
      ServedDeliveredFrom(c, e, l, l', v);
    }
  }

  lemma TargetExists(s: S.Session, m: Message)
    requires SP.RoomsOk(s) && Steps.Target(s, m).Some?
    ensures S.Exists(s, Steps.Target(s, m).value)
  {
    assert S.IsOpen(s, Steps.Target(s, m).value);
  }

  // The step that an open session takes on a frame that decodes.
  lemma OpenFrame(s: S.Session, frame: Bytes, m: Message, choices: S.Choices)
    requires s.physical.OPEN? && Decode(frame) == Ok(m)
    ensures S.Step(s, S.Frame(frame, true, choices)) == S.HandleMessage(s, m, choices)
  {
    hide S.HandleMessage, Decode;
  }

  // A subscribe puts its sender inside, data leaves whoever is, and an unsubscribe takes the room away.
  lemma InsideAfter(c: C.Client, e: nat, l: Link, l': Link)
    requires CP.PacketsOk(c) && CP.ViewsOk(c) && e < |c.sockets| && l.taken < |c.sockets[e].wire| && l'.taken == l.taken + 1
    requires ServedInside(c, e, l) && l.session.out <= l'.session.out && SP.Unrefused(l.session, l'.session)
    requires var p := c.sockets[e].wire[l.taken];
             var m := NormalizedMessage(p.message);
             && Steps.RoomsFrom(l.session, m, l'.session)
             && (m.Unsubscribe? ==> m.room !in l'.session.rooms.entries)
             && l'.asked == if m.Subscribe? then l.asked[m.room := Asked(p.from, |l.session.out|)] else l.asked
    ensures ServedInside(c, e, l')
  {
    var p := c.sockets[e].wire[l.taken];
    assert CP.PacketOk(c, e, p);
    hide CP.PacketsOk, CP.ViewsOk, CP.PacketOk, WithinBounds, Seen, Clear, NormalizedMessage;
    forall r | r in l'.session.rooms.entries && Clear(c, r)
      ensures ServedFor(c, e, l', r)
    {
      SeenAfter(c, e, l, l', r);
      SeenUnbroken(c, e, l', r);
      ReadAs(c, e, p, r);
      assert forall i | 0 <= i < |l.session.out| :: l'.session.out[i] == l.session.out[i];
      if r in l.session.rooms.entries {
        assert ServedFor(c, e, l, r);
      }
      if p.message.room == r {
        OwnerAfter(Seen(c, e, l, r), p);
      }
    }
  }

  lemma OwnerAfter(view: RoomView, p: Packet)
    requires !After(view, p).Broken? && !p.message.Unsubscribe?
    ensures p.message.Subscribe? ==> After(view, p).Inside? && After(view, p).owner == p.from
    ensures !p.message.Subscribe? ==> view.Inside? && After(view, p) == view
  {
  }

  lemma SeenUnbroken(c: C.Client, e: nat, l: Link, room: Text)
    requires CP.ViewsOk(c) && e < |c.sockets| && l.taken <= |c.sockets[e].wire|
    ensures !Seen(c, e, l, room).Broken?
  {
    InsideExists(c, e, l.taken, room);
  }

  // What taking a frame does to an open session, and what of it arrives.
  lemma OpenFrameHandles(c: C.Client, e: nat, l: Link, choices: S.Choices)
    requires CP.Inv(c) && CR.TextOpens(c) && e < |c.sockets| && LinkOk(c, e, l)
    requires l.session.physical.OPEN? && l.taken < |c.sockets[e].wire|
    ensures var p := c.sockets[e].wire[l.taken];
            var m := NormalizedMessage(p.message);
            var l' := Take(l, p, choices);
            && CP.PacketOk(c, e, p) && WellFormed(m.room) && (p.message.Data? ==> WellFormed(p.message.room))
            && l'.taken == l.taken + 1 && l'.given == l.given && l'.arrived == l.arrived + Arriving(l.session, p)
            && l'.asked == (if m.Subscribe? then l.asked[m.room := Asked(p.from, |l.session.out|)] else l.asked)
            && Steps.Inv(l'.session) && SN.Named(l'.session) && Steps.Moves(l.session, l'.session)
            && Steps.Handles(l.session, m, l'.session) && Steps.Tells(l.session, m, l'.session)
            && (m.Unsubscribe? ==> m.room !in l'.session.rooms.entries)
            && (Steps.Target(l.session, m).Some? ==> S.Exists(l.session, Steps.Target(l.session, m).value))
  {
    hide CP.Inv, LinkOk, CP.PacketOk, Steps.Known, Steps.Inv, Steps.Moves, Steps.Handles, Steps.Tells, S.Exists, CR.TextOpens;
    hide Steps.Target, S.HandleMessage, S.Step, Decode, FrameOf, NormalizedMessage, WellFormed, SN.Named;
    var p := c.sockets[e].wire[l.taken];
    var m := NormalizedMessage(p.message);
    PacketInPlace(c, e, l.taken);
    ServerReads(c, e, p);
    IsKnown(c, e, l, p);
    OpenFrame(l.session, FrameOf(p.message), m, choices);
    InvOfLink(c, e, l);
    NamesOfLink(c, e, l);
    SN.StepNamed(l.session, S.Frame(FrameOf(p.message), true, choices));
    TargetOfInv(l.session, m);
    Steps.KnownHandles(l.session, m, choices);
  }

  lemma PacketInPlace(c: C.Client, e: nat, i: nat)
    requires CP.Inv(c) && e < |c.sockets| && i < |c.sockets[e].wire|
    ensures CP.PacketOk(c, e, c.sockets[e].wire[i])
  {
  }

  lemma TargetOfInv(s: S.Session, m: Message)
    requires Steps.Inv(s)
    ensures Steps.Target(s, m).Some? ==> S.Exists(s, Steps.Target(s, m).value)
  {
    if Steps.Target(s, m).Some? {
      TargetExists(s, m);
    }
  }

  lemma NamesOfLink(c: C.Client, e: nat, l: Link)
    requires e < |c.sockets| && LinkOk(c, e, l)
    ensures SN.Named(l.session)
  {
  }

  lemma InvOfLink(c: C.Client, e: nat, l: Link)
    requires e < |c.sockets| && LinkOk(c, e, l)
    ensures Steps.Inv(l.session)
  {
  }

  lemma OpenFrameKeeps(c: C.Client, e: nat, l: Link, choices: S.Choices)
    requires CP.Inv(c) && CR.TextOpens(c) && e < |c.sockets| && LinkOk(c, e, l)
    requires l.session.physical.OPEN? && l.taken < |c.sockets[e].wire|
    ensures LinkOk(c, e, Take(l, c.sockets[e].wire[l.taken], choices))
  {
    hide CP.Inv, CP.Forward, CR.TextOpens, Steps.Inv, SN.Named, OpeningsTold, InboxesOk, Agreement, ServedInside, Delivered, AllHeard, Take;
    hide Steps.RoomsFrom, Steps.Delivers, Steps.Tells, CP.PacketOk, Steps.Target, Arriving, S.SlotOf, Steps.Ages, NormalizedMessage, WellFormed, SP.Unrefused;
    var p := c.sockets[e].wire[l.taken];
    var m := NormalizedMessage(p.message);
    var l' := Take(l, p, choices);
    OpenFrameHandles(c, e, l, choices);
    assert l.session.out <= l'.session.out && forall id: S.AdapterId | S.Exists(l.session, id) :: S.Exists(l'.session, id);
    hide Steps.Moves, S.Exists;
    OpeningsStayTold(c, e, l, l');
    ServedAgreement(c, e, l, l');
    ServedInboxes(c, e, l, l', p);
    FramesInPlace(c);
    ServedDelivered(c, e, l, l');
    InsideAfter(c, e, l, l');
    CP.ForwardReflexive(c);
    SameUnopened(c, e);
    HeardKept(c, c, e, l, l');
  }

  lemma FramesInPlace(c: C.Client)
    requires CP.Inv(c)
    ensures CP.PacketsOk(c) && CP.ViewsOk(c)
  {
  }

  lemma ToServerLinkKeeps(c: C.Client, e: nat, l: Link, choices: S.Choices)
    requires CP.Inv(c) && CR.TextOpens(c) && e < |c.sockets| && LinkOk(c, e, l) && l.taken < |c.sockets[e].wire|
    ensures LinkOk(c, e, Take(l, c.sockets[e].wire[l.taken], choices))
  {
    hide CP.Inv, CR.TextOpens, LinkOk, Take;
    if l.session.physical.OPEN? {
      OpenFrameKeeps(c, e, l, choices);
    } else {
      ShutFrameKeeps(c, e, l, choices);
    }
  }

  // ---------- the whole system ----------

  lemma {:induction false} LinkedKeeps(links: seq<Link>, sockets: nat, grant: S.Payload)
    requires |links| <= sockets
    ensures var grown := Linked(links, sockets, grant);
            && |grown| == sockets && links <= grown
            && forall e | |links| <= e < sockets :: grown[e] == Link(S.Start(grant), 0, 0, [], map[])
    decreases sockets - |links|
  {
    hide S.Start;
    if |links| < sockets {
      LinkedKeeps(links + [Link(S.Start(grant), 0, 0, [], map[])], sockets, grant);
    }
  }

  lemma NewLinkOk(c: C.Client, d: C.Client, e: nat, grant: S.Payload)
    requires CP.Inv(c) && CP.Inv(d) && CP.Forward(c, d) && Unopened(c, d, e) && |c.sockets| <= e < |d.sockets|
    ensures LinkOk(d, e, Link(S.Start(grant), 0, 0, [], map[]))
  {
    Steps.StartInv(grant);
    hide Steps.Inv;
    assert forall v | 0 <= v < |c.virtuals| :: CP.VirtualForward(c.virtuals[v], d.virtuals[v]) && CP.VirtualOk(c.virtuals[v], |c.sockets|);
  }

  lemma ClientKeeps(sys: System, d: C.Client, links: seq<Link>, grant: S.Payload)
    requires SysInv(sys) && CP.Inv(d) && CP.Forward(sys.client, d) && CP.ClosesNormally(sys.client, d) && CR.TextOpens(d)
    requires |links| == |sys.links|
    requires forall e | 0 <= e < |links| :: e < |d.sockets| && LinkOk(d, e, links[e])
    requires forall e | |links| <= e :: Unopened(sys.client, d, e)
    ensures SysInv(System(d, Linked(links, |d.sockets|, grant)))
  {
    hide CP.Inv, LinkOk, CP.VirtualForward, CP.PhysicalForward, S.Start, Unopened;
    LinkedKeeps(links, |d.sockets|, grant);
    forall e | |links| <= e < |d.sockets|
      ensures LinkOk(d, e, Link(S.Start(grant), 0, 0, [], map[]))
    {
      NewLinkOk(sys.client, d, e, grant);
    }
  }

  lemma QuietUnopened(c: C.Client, d: C.Client, e: nat)
    requires CP.Quiet(c, d)
    ensures Unopened(c, d, e)
  {
  }

  lemma ClientActsKeeps(sys: System, act: C.Event, grant: S.Payload)
    requires SysInv(sys) && !act.Message? && C.Enabled(sys.client, act)
    ensures SysInv(Act(sys, sys.links, act, grant))
  {
    var d := C.Step(sys.client, act);
    CP.StepKeeps(sys.client, act);
    CR.StepOpensText(sys.client, act);
    CP.OthersAreQuiet(sys.client, act);
    assert CP.ClosesNormally(sys.client, d);
    hide CP.Inv, LinkOk, CP.Quiet, C.Step;
    forall e: nat
      ensures Unopened(sys.client, d, e)
    {
      QuietUnopened(sys.client, d, e);
    }
    forall e | 0 <= e < |sys.links|
      ensures e < |d.sockets| && LinkOk(d, e, sys.links[e])
    {
      ClientLinkKeeps(sys.client, d, e, sys.links[e]);
    }
    ClientKeeps(sys, d, sys.links, grant);
  }

  // One link has been given its frame; the others have seen nothing of it.
  lemma OtherLinksKeep(sys: System, d: C.Client, e: nat, links: seq<Link>)
    requires SysInv(sys) && CP.Inv(d) && CP.Forward(sys.client, d) && e < |sys.links| && e < |d.sockets|
    requires |links| == |sys.links| && LinkOk(d, e, links[e])
    requires forall i | 0 <= i < |links| && i != e :: links[i] == sys.links[i] && Unopened(sys.client, d, i)
    ensures forall i | 0 <= i < |links| :: i < |d.sockets| && LinkOk(d, i, links[i])
  {
    hide CP.Inv, LinkOk, Unopened;
    assert |sys.client.sockets| <= |d.sockets|;
    hide CP.Forward;
    forall i | 0 <= i < |links|
      ensures LinkOk(d, i, links[i])
    {
      if i != e {
        ClientLinkKeeps(sys.client, d, i, sys.links[i]);
      }
    }
  }

  // The client has read a frame of link e, which led to d.
  lemma GivenKeeps(sys: System, e: nat, l: Link, d: C.Client, grant: S.Payload)
    requires SysInv(sys) && e < |sys.links| && CR.TextOpens(d)
    requires CP.Inv(d) && CP.Forward(sys.client, d) && CP.ClosesNormally(sys.client, d) && e < |d.sockets| && LinkOk(d, e, l)
    requires forall other | other != e :: Unopened(sys.client, d, other)
    ensures SysInv(System(d, Linked(sys.links[e := l], |d.sockets|, grant)))
  {
    hide CP.Inv, LinkOk, Unopened, CP.ClosesNormally, CP.Forward, Linked, SysInv;
    var links := sys.links[e := l];
    OtherLinksKeep(sys, d, e, links);
    assert forall i | 0 <= i < |links| :: i < |d.sockets| && LinkOk(d, i, links[i]);
    ClientKeeps(sys, d, links, grant);
  }

  lemma OfSysInv(sys: System, e: nat)
    requires SysInv(sys) && e < |sys.links|
    ensures CP.Inv(sys.client) && CR.TextOpens(sys.client) && e < |sys.client.sockets| && LinkOk(sys.client, e, sys.links[e])
    ensures sys.client.registry.Valid()
  {
    assert sys.client.registry.Valid();
    hide CP.Inv, LinkOk;
  }

  lemma GiveKeeps(sys: System, e: nat, callback: C.Script, grant: S.Payload)
    requires SysInv(sys) && MayGive(sys, e, callback)
    ensures SysInv(Give(sys, e, callback, grant))
  {
    hide SysInv, CP.Inv, LinkOk, C.Step, CP.ClosesNormally, CP.Forward, FrameOf, Unopened, Linked, C.Enabled;
    var l := sys.links[e];
    OfSysInv(sys, e);
    ToClientLinkKeeps(sys.client, e, l, callback);
    CR.StepOpensText(sys.client, Delivery(sys, e, callback));
    GivenKeeps(sys, e, l.(given := l.given + 1), C.Step(sys.client, Delivery(sys, e, callback)), grant);
  }

  lemma SetLinkKeeps(sys: System, e: nat, l: Link)
    requires SysInv(sys) && e < |sys.links| && LinkOk(sys.client, e, l)
    ensures SysInv(SetLink(sys, e, l))
  {
    hide CP.Inv, LinkOk;
  }

  lemma TakeKeeps(sys: System, e: nat, choices: S.Choices)
    requires SysInv(sys) && MayTake(sys, e)
    ensures SysInv(SetLink(sys, e, Take(sys.links[e], Wire(sys, e)[sys.links[e].taken], choices)))
  {
    hide CP.Inv, LinkOk, Take;
    ToServerLinkKeeps(sys.client, e, sys.links[e], choices);
    SetLinkKeeps(sys, e, Take(sys.links[e], Wire(sys, e)[sys.links[e].taken], choices));
  }

  lemma ServerKeeps(sys: System, e: nat, event: S.Event)
    requires SysInv(sys) && HasLink(sys, e) && !event.Frame?
    ensures SysInv(SetLink(sys, e, sys.links[e].(session := S.Step(sys.links[e].session, event))))
  {
    hide CP.Inv, LinkOk, S.Step;
    ServerActsKeeps(sys.client, e, sys.links[e], event);
    SetLinkKeeps(sys, e, sys.links[e].(session := S.Step(sys.links[e].session, event)));
  }

  /** Every step of the system keeps its invariant, whatever rooms are called and grants are worth. */
  lemma NextKeeps(sys: System, event: Event)
    requires SysInv(sys) && Allowed(sys, event)
    ensures SysInv(Next(sys, event))
  {
    hide LinkOk, MayTake, MayGive, Act, Give, SetLink;
    match event
    case ClientActs(act, grant) => ClientActsKeeps(sys, act, grant);
    case ToClient(e, callback, grant) => GiveKeeps(sys, e, callback, grant);
    case ToServer(e, choices) => TakeKeeps(sys, e, choices);
    case ServerActs(e, event) => ServerKeeps(sys, e, event);
  }

  // ---------- the client by itself ----------

  /** The client goes on by itself: its own invariant, and nothing taken back. */
  lemma ClientGoesOn(sys: System, event: Event)
    requires CP.Inv(sys.client) && Allowed(sys, event)
    ensures var d := Next(sys, event).client; CP.Inv(d) && CP.Forward(sys.client, d)
  {
    CP.ForwardReflexive(sys.client);
    hide CP.Inv, CP.Forward, C.Step, Linked, Take, S.Step;
    match event
    case ClientActs(act, grant) => CP.StepKeeps(sys.client, act);
    case ToClient(e, callback, grant) => CP.StepKeeps(sys.client, Delivery(sys, e, callback));
    case _ =>
  }

  // ---------- blame ----------

  /** The server has never blamed the client: no bypass, and no close for a protocol or policy error. */
  predicate Unblamed(s: S.Session) {
    && s.bypass == 0
    && S.PROTOCOL_ERROR_CLOSE_CODE !in s.closes && S.POLICY_CLOSE_CODE !in s.closes
  }

  predicate NobodyBlames(sys: System) {
    forall e | 0 <= e < |sys.links| :: Unblamed(sys.links[e].session)
  }

  lemma IdleUnblamed(s: S.Session, t: S.Session)
    requires Unblamed(s) && Steps.Idles(s, t)
    ensures Unblamed(t)
  {
    hide Steps.Settles, SP.LossesAnnounced;
  }

  lemma ServedUnblamed(s: S.Session, m: Message, t: S.Session)
    requires Unblamed(s) && Steps.Serves(s, m, t)
    ensures Unblamed(t)
  {
    assert Steps.Free(s, t);
    hide Steps.Handles, Steps.Tells;
  }

  lemma TakenUnblamed(c: C.Client, e: nat, l: Link, choices: S.Choices)
    requires CP.Inv(c) && CR.TextOpens(c) && e < |c.sockets| && LinkOk(c, e, l) && l.taken < |c.sockets[e].wire|
    requires Unblamed(l.session)
    requires var m := c.sockets[e].wire[l.taken].message;
             m.Subscribe? ==> Steps.Matches(choices.verification, Normalized(m.room), l.session.initialGrant)
    ensures Unblamed(Take(l, c.sockets[e].wire[l.taken], choices).session)
  {
    var p := c.sockets[e].wire[l.taken];
    var s := l.session;
    var m := NormalizedMessage(p.message);
    PacketInPlace(c, e, l.taken);
    assert Take(l, p, choices).session == S.Step(s, S.Frame(FrameOf(p.message), true, choices));
    assert m.Subscribe? ==> p.message.Subscribe? && m.room == Normalized(p.message.room);
    hide CP.Inv, CR.TextOpens, LinkOk, Unblamed, S.Step, CP.PacketOk, FrameOf, Decode, NormalizedMessage, Normalized, WellFormed;
    hide Steps.Idles, Steps.Serves, Steps.Matches, Take, S.HandleMessage, Steps.Inv;
    ServerReads(c, e, p);
    IsKnown(c, e, l, p);
    InvOfLink(c, e, l);
    if s.physical.OPEN? {
      OpenFrame(s, FrameOf(p.message), m, choices);
      KeptByInv(s);
      assert Steps.Honest(s, m, choices);
      Steps.HonestServes(s, m, choices);
      ServedUnblamed(s, m, S.HandleMessage(s, m, choices));
    } else {
      ShutFrameIdles(s, FrameOf(p.message), choices);
      IdleUnblamed(s, S.Step(s, S.Frame(FrameOf(p.message), true, choices)));
    }
  }

  lemma KeptByInv(s: S.Session)
    requires Steps.Inv(s)
    ensures SP.Keeps(s)
  {
  }

  lemma NewcomersBlameNobody(c: C.Client, links: seq<Link>, sockets: nat, grant: S.Payload)
    requires |links| <= sockets && forall e | 0 <= e < |links| :: Unblamed(links[e].session)
    ensures NobodyBlames(System(c, Linked(links, sockets, grant)))
  {
    LinkedKeeps(links, sockets, grant);
    assert Unblamed(S.Start(grant));
    hide Unblamed, Linked, S.Start;
  }

  // One link has changed, to one that blames nobody either.
  lemma SetLinkBlamesNobody(sys: System, e: nat, l: Link)
    requires NobodyBlames(sys) && e < |sys.links| && Unblamed(l.session)
    ensures NobodyBlames(SetLink(sys, e, l))
  {
    hide Unblamed;
  }

  lemma ActBlamesNobody(sys: System, links: seq<Link>, act: C.Event, grant: S.Payload)
    requires CP.Inv(sys.client) && C.Enabled(sys.client, act)
    requires |links| <= |sys.client.sockets| && NobodyBlames(System(sys.client, links))
    ensures NobodyBlames(Act(sys, links, act, grant))
  {
    var d := C.Step(sys.client, act);
    CP.StepKeeps(sys.client, act);
    SocketsStay(sys.client, d);
    hide CP.Inv, CP.Forward, Unblamed, C.Step, C.Enabled, Linked;
    NewcomersBlameNobody(d, links, |d.sockets|, grant);
  }

  lemma ServerBlamesNobody(sys: System, e: nat, event: S.Event)
    requires SysInv(sys) && HasLink(sys, e) && !event.Frame? && NobodyBlames(sys)
    ensures NobodyBlames(SetLink(sys, e, sys.links[e].(session := S.Step(sys.links[e].session, event))))
  {
    var l := sys.links[e];
    InvOfLink(sys.client, e, l);
    hide SysInv, Steps.Inv, Unblamed, Steps.Idles, Steps.Moves, S.Step;
    Steps.OtherIdles(l.session, event);
    IdleUnblamed(l.session, S.Step(l.session, event));
    SetLinkBlamesNobody(sys, e, l.(session := S.Step(l.session, event)));
  }

  lemma TakeBlamesNobody(sys: System, e: nat, choices: S.Choices)
    requires SysInv(sys) && MayTake(sys, e) && NobodyBlames(sys)
    requires var m := Wire(sys, e)[sys.links[e].taken].message;
             m.Subscribe? ==> Steps.Matches(choices.verification, Normalized(m.room), sys.links[e].session.initialGrant)
    ensures NobodyBlames(SetLink(sys, e, Take(sys.links[e], Wire(sys, e)[sys.links[e].taken], choices)))
  {
    hide SysInv, CP.Inv, LinkOk, Take, Steps.Matches, Unblamed;
    OfSysInv(sys, e);
    TakenUnblamed(sys.client, e, sys.links[e], choices);
    SetLinkBlamesNobody(sys, e, Take(sys.links[e], Wire(sys, e)[sys.links[e].taken], choices));
  }

  lemma GivenBlamesNobody(sys: System, e: nat)
    requires NobodyBlames(sys) && e < |sys.links|
    ensures var l := sys.links[e].(given := sys.links[e].given + 1); NobodyBlames(System(sys.client, sys.links[e := l]))
  {
    hide Unblamed;
  }

  lemma GiveIsAct(sys: System, e: nat, callback: C.Script, grant: S.Payload)
    requires sys.client.registry.Valid() && MayGive(sys, e, callback)
    ensures C.Enabled(sys.client, Delivery(sys, e, callback))
    ensures var given := sys.links[e := sys.links[e].(given := sys.links[e].given + 1)];
            Give(sys, e, callback, grant) == Act(sys, given, Delivery(sys, e, callback), grant)
  {
    hide Act, Delivery, C.Enabled;
  }

  lemma SameLength(sys: System)
    requires SysInv(sys)
    ensures |sys.links| == |sys.client.sockets|
  {
    hide CP.Inv, CR.TextOpens, LinkOk;
  }

  lemma GiveBlamesNobody(sys: System, e: nat, callback: C.Script, grant: S.Payload)
    requires SysInv(sys) && MayGive(sys, e, callback) && NobodyBlames(sys)
    ensures NobodyBlames(Give(sys, e, callback, grant))
  {
    hide SysInv, NobodyBlames, CP.Inv, CR.TextOpens, LinkOk, C.Enabled, Act, Give, Delivery;
    OfSysInv(sys, e);
    SameLength(sys);
    GiveIsAct(sys, e, callback, grant);
    GivenBlamesNobody(sys, e);
    var given := sys.links[e := sys.links[e].(given := sys.links[e].given + 1)];
    ActBlamesNobody(sys, given, Delivery(sys, e, callback), grant);
  }

  lemma ClientBlamesNobody(sys: System, act: C.Event, grant: S.Payload)
    requires SysInv(sys) && C.Enabled(sys.client, act) && NobodyBlames(sys)
    ensures NobodyBlames(Act(sys, sys.links, act, grant))
  {
    hide CP.Inv, LinkOk, Unblamed, C.Enabled, Act;
    ActBlamesNobody(sys, sys.links, act, grant);
  }

  /** While the client's grants are its own, no step makes a server blame it. */
  lemma NobodyBlamesAfter(sys: System, event: Event)
    requires SysInv(sys) && Allowed(sys, event) && HonestGrants(sys, event) && NobodyBlames(sys)
    ensures NobodyBlames(Next(sys, event))
  {
    hide SysInv, NobodyBlames, C.Enabled, S.Step, Act, Give, Take, SetLink, MayGive, MayTake, Steps.Matches;
    match event
    case ClientActs(act, grant) => ClientBlamesNobody(sys, act, grant);
    case ToClient(e, callback, grant) => GiveBlamesNobody(sys, e, callback, grant);
    case ToServer(e, choices) => TakeBlamesNobody(sys, e, choices);
    case ServerActs(e, event) => ServerBlamesNobody(sys, e, event);
  }

  lemma SocketsStay(c: C.Client, d: C.Client)
    requires CP.Forward(c, d)
    ensures |c.sockets| <= |d.sockets|
  {
  }

  lemma InitialKeeps()
    ensures SysInv(Initial)
  {
    CP.InitialInv();
    hide CP.Inv;
  }
}
