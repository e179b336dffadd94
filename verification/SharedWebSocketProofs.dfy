/** What the client multiplexer keeps through every event and every re-entrant callback. */
module SharedWebSocketProofs {
  import opened Basics
  import opened Sockets
  import opened Unicode
  import opened Protocol
  import opened OrderedMap
  import opened RoomFrames
  import opened SharedWebSocket

  // ---------- the invariant ----------

  predicate Registered(c: Client, v: nat)
    requires v < |c.virtuals|
  {
    c.virtuals[v].room in c.registry.entries && c.registry.entries[c.virtuals[v].room] == v
  }

  /**
    The registry holds exactly the live virtual sockets, one per room, all of the
    current physical socket. pending are the sockets that a close fan-out has
    taken out but not told yet; while there are any, nothing can be sent.
  */
  ghost predicate RegistryOk(c: Client, pending: set<nat>) {
    && c.registry.Valid()
    && (forall r | r in c.registry.entries :: EntryOk(c, r, c.registry.entries[r]) && c.registry.entries[r] !in pending)
    && (forall v | 0 <= v < |c.virtuals| && c.virtuals[v].state.Live() && v !in pending :: Registered(c, v))
    && (pending != {} ==> !SendsNow(c))
  }

  predicate EntryOk(c: Client, room: Text, v: nat) {
    && v < |c.virtuals|
    && c.virtuals[v].room == room
    && c.virtuals[v].state.Live()
    && c.physical == Some(c.virtuals[v].home)
  }

  /** Only the newest physical socket can be anything but closed; before it opens it has carried nothing and opened nobody. */
  ghost predicate SocketsOk(c: Client) {
    && (c.physical.Some? ==> c.physical.value + 1 == |c.sockets| && !c.sockets[c.physical.value].state.CLOSED?)
    && (forall e | 0 <= e < |c.sockets| && c.physical != Some(e) :: c.sockets[e].state.CLOSED?)
    && (c.physical.Some? && c.sockets[c.physical.value].state.CONNECTING? ==>
          && c.sockets[c.physical.value].wire == []
          && forall v | 0 <= v < |c.virtuals| && c.virtuals[v].home == c.physical.value :: c.virtuals[v].opens == 0)
  }

  /** onopen at most once and onclose exactly once, when the socket is closed. */
  predicate VirtualOk(s: Virtual, sockets: nat) {
    && s.home < sockets
    && !s.state.CLOSING?
    && |s.codes| == (if s.state.CLOSED? then 1 else 0)
    && s.opens <= 1
    && (s.state.CONNECTING? ==> s.opens == 0)
    && (s.state.OPEN? ==> s.opens == 1)
    && (s.sent != [] ==> s.opens == 1)
    && (s.received != [] ==> s.opens == 1)
  }

  ghost predicate VirtualsOk(c: Client) {
    forall v | 0 <= v < |c.virtuals| :: VirtualOk(c.virtuals[v], |c.sockets|)
  }

  /** A frame on physical socket e: what it is, and whose. */
  predicate PacketOk(c: Client, e: nat, p: Packet) {
    && (p.message.Subscribe? || p.message.Data? || p.message.Unsubscribe?)
    && WithinBounds(p.message)
    && p.from < |c.virtuals|
    && c.virtuals[p.from].room == p.message.room
    && c.virtuals[p.from].home == e
    && (p.message.Subscribe? ==> p.message.grant == c.virtuals[p.from].grant)
    && (p.message.Data? ==> c.virtuals[p.from].opens == 1)
  }

  ghost predicate PacketsOk(c: Client) {
    forall e, i | 0 <= e < |c.sockets| && 0 <= i < |c.sockets[e].wire| :: PacketOk(c, e, c.sockets[e].wire[i])
  }

  // The frames of one room are in place, by sockets that exist.
  ghost predicate ViewOk(c: Client, e: nat, room: Text)
    requires e < |c.sockets|
  {
    var view := View(c.sockets[e].wire, room);
    !view.Broken? && forall v | v in view.seen :: v < |c.virtuals|
  }

  ghost predicate ViewsOk(c: Client) {
    forall e, room | 0 <= e < |c.sockets| :: ViewOk(c, e, room)
  }

  // The registered socket of a room is the one inside it.
  predicate Entered(c: Client, room: Text)
    requires c.physical.Some? && c.physical.value < |c.sockets| && room in c.registry.entries
  {
    var view := View(c.sockets[c.physical.value].wire, room);
    view.Inside? && view.owner == c.registry.entries[room]
  }

  ghost predicate EnteredOk(c: Client) {
    SendsNow(c) ==> forall room | room in c.registry.entries :: Entered(c, room)
  }

  /** What a socket put on the wire is a prefix of what its consumer sent, and all of it while the physical socket is open. */
  predicate DataOk(c: Client, v: nat)
    requires v < |c.virtuals| && c.virtuals[v].home < |c.sockets|
  {
    var socket := c.sockets[c.virtuals[v].home];
    && DataOf(socket.wire, v) <= c.virtuals[v].sent
    && (socket.state.OPEN? ==> DataOf(socket.wire, v) == c.virtuals[v].sent)
  }

  ghost predicate DatasOk(c: Client) {
    forall v | 0 <= v < |c.virtuals| && c.virtuals[v].home < |c.sockets| :: DataOk(c, v)
  }

  ghost predicate Keeps(c: Client, pending: set<nat>) {
    && RegistryOk(c, pending)
    && SocketsOk(c)
    && VirtualsOk(c)
    && PacketsOk(c)
    && ViewsOk(c)
    && EnteredOk(c)
    && DatasOk(c)
  }

  /** A physical socket that is connecting or open has a registered room. */
  predicate Anchored(c: Client) {
    c.physical.Some? && c.physical.value < |c.sockets| && c.sockets[c.physical.value].state.Live()
    ==> !c.registry.IsEmpty()
  }

  /** What holds whenever control is back in the event loop. */
  ghost predicate Inv(c: Client) {
    Keeps(c, {}) && Anchored(c)
  }

  // ---------- going forward ----------

  predicate VirtualForward(s: Virtual, t: Virtual) {
    && t.room == s.room && t.grant == s.grant && t.home == s.home
    && s.state.Rank() <= t.state.Rank()
    && s.opens <= t.opens
    && s.codes <= t.codes
    && s.sent <= t.sent
    && s.received <= t.received
  }

  predicate PhysicalForward(s: Physical, t: Physical) {
    s.state.Rank() <= t.state.Rank() && s.wire <= t.wire && s.closes <= t.closes
  }

  /** No socket is forgotten, and none goes back: not in state, not in what it was told, not in what it sent. */
  ghost predicate Forward(c: Client, d: Client) {
    && |c.virtuals| <= |d.virtuals|
    && (forall v | 0 <= v < |c.virtuals| :: VirtualForward(c.virtuals[v], d.virtuals[v]))
    && |c.sockets| <= |d.sockets|
    && (forall e | 0 <= e < |c.sockets| :: PhysicalForward(c.sockets[e], d.sockets[e]))
  }

  lemma ForwardTransitive(c: Client, d: Client, f: Client)
    requires Forward(c, d) && Forward(d, f)
    ensures Forward(c, f)
  {
  }

  /** No physical socket was closed with a code in between. */
  ghost predicate ClosesNormally(c: Client, d: Client) {
    forall e, k | 0 <= e < |d.sockets| && 0 <= k < |d.sockets[e].closes| && d.sockets[e].closes[k].Some? ::
      e < |c.sockets| && k < |c.sockets[e].closes| && c.sockets[e].closes[k] == d.sockets[e].closes[k]
  }

  /** What consumers alone can do: they open nothing, receive nothing, and close the physical socket without a code. */
  ghost predicate Quiet(c: Client, d: Client) {
    && ClosesNormally(c, d)
    && |c.virtuals| <= |d.virtuals|
    && (forall v | 0 <= v < |d.virtuals| :: d.virtuals[v].opens == if v < |c.virtuals| then c.virtuals[v].opens else 0)
    && (forall v | 0 <= v < |c.virtuals| :: d.virtuals[v].received == c.virtuals[v].received)
  }

  // ---------- the operations, one by one ----------

  // What every operation of a consumer promises, whatever is pending.
  ghost predicate Good(c: Client, d: Client, pending: set<nat>) {
    && Keeps(d, pending)
    && Forward(c, d)
    && Quiet(c, d)
    && (Anchored(c) ==> Anchored(d))
  }

  // ---------- what a change of the wires leaves standing ----------

  // d has the frames of c; sockets new in d have carried nothing.
  ghost predicate WiresKept(c: Client, d: Client) {
    && |c.sockets| <= |d.sockets|
    && (forall e | 0 <= e < |c.sockets| :: d.sockets[e].wire == c.sockets[e].wire)
    && (forall e | |c.sockets| <= e < |d.sockets| :: d.sockets[e].wire == [])
  }

  // d has the frames of c and one more on socket e.
  ghost predicate WireGrew(c: Client, d: Client, e: nat, p: Packet) {
    && e < |c.sockets| == |d.sockets|
    && d.sockets[e].wire == c.sockets[e].wire + [p]
    && (forall i | 0 <= i < |c.sockets| && i != e :: d.sockets[i].wire == c.sockets[i].wire)
  }

  // The sockets of c are still themselves in d.
  ghost predicate IdentitiesKept(c: Client, d: Client) {
    && |c.virtuals| <= |d.virtuals|
    && forall v | 0 <= v < |c.virtuals| ::
         && d.virtuals[v].room == c.virtuals[v].room
         && d.virtuals[v].grant == c.virtuals[v].grant
         && d.virtuals[v].home == c.virtuals[v].home
         && (c.virtuals[v].opens == 1 ==> d.virtuals[v].opens == 1)
  }

  lemma FramesKept(c: Client, d: Client)
    requires PacketsOk(c) && ViewsOk(c) && WiresKept(c, d) && IdentitiesKept(c, d)
    ensures PacketsOk(d) && ViewsOk(d)
  {
    hide After, WithinBounds;
    forall e, i | 0 <= e < |d.sockets| && 0 <= i < |d.sockets[e].wire|
      ensures PacketOk(d, e, d.sockets[e].wire[i])
    {
      assert PacketOk(c, e, c.sockets[e].wire[i]);
    }
    forall e, room | 0 <= e < |d.sockets|
      ensures ViewOk(d, e, room)
    {
      if e < |c.sockets| {
        assert ViewOk(c, e, room);
      }
    }
  }

  lemma FramesGrew(c: Client, d: Client, e: nat, p: Packet)
    requires PacketsOk(c) && ViewsOk(c) && WireGrew(c, d, e, p) && IdentitiesKept(c, d)
    requires PacketOk(d, e, p) && !After(View(c.sockets[e].wire, p.message.room), p).Broken?
    ensures PacketsOk(d) && ViewsOk(d)
  {
    hide WithinBounds, View;
    forall i, k | 0 <= i < |d.sockets| && 0 <= k < |d.sockets[i].wire|
      ensures PacketOk(d, i, d.sockets[i].wire[k])
    {
      if i != e || k < |c.sockets[e].wire| {
        assert PacketOk(c, i, c.sockets[i].wire[k]);
      }
    }
    forall i, room | 0 <= i < |d.sockets|
      ensures ViewOk(d, i, room)
    {
      assert ViewOk(c, i, room);
      if i == e {
        ViewAppend(c.sockets[e].wire, p, room);
      }
    }
  }

  lemma {:induction false} NoDataFrom(wire: seq<Packet>, v: nat)
    requires forall i | 0 <= i < |wire| :: wire[i].from != v
    ensures DataOf(wire, v) == []
  {
    if wire != [] {
      NoDataFrom(wire[..|wire| - 1], v);
    }
  }

  // A socket that does not exist in c has no data on the wires of c.
  lemma NewcomersHaveNoData(c: Client, e: nat, v: nat)
    requires PacketsOk(c) && e < |c.sockets| && |c.virtuals| <= v
    ensures DataOf(c.sockets[e].wire, v) == []
  {
    hide WithinBounds;
    forall i | 0 <= i < |c.sockets[e].wire|
      ensures c.sockets[e].wire[i].from != v
    {
      assert PacketOk(c, e, c.sockets[e].wire[i]);
    }
    NoDataFrom(c.sockets[e].wire, v);
  }

  // The wires are the same; a sent list grows only where the physical socket is not open.
  lemma DatasKept(c: Client, d: Client)
    requires DatasOk(c) && VirtualsOk(c) && PacketsOk(c) && WiresKept(c, d) && IdentitiesKept(c, d)
    requires forall v | 0 <= v < |c.virtuals| ::
               && c.virtuals[v].sent <= d.virtuals[v].sent
               && (c.virtuals[v].home < |c.sockets| && d.sockets[c.virtuals[v].home].state.OPEN? ==>
                     c.sockets[c.virtuals[v].home].state.OPEN? && c.virtuals[v].sent == d.virtuals[v].sent)
    requires forall v | |c.virtuals| <= v < |d.virtuals| :: d.virtuals[v].sent == []
    ensures DatasOk(d)
  {
    hide PacketsOk, DataOf;
    forall v | 0 <= v < |d.virtuals| && d.virtuals[v].home < |d.sockets|
      ensures DataOk(d, v)
    {
      var e := d.virtuals[v].home;
      if v < |c.virtuals| {
        assert VirtualOk(c.virtuals[v], |c.sockets|);
        assert DataOk(c, v);
      } else if e < |c.sockets| {
        NewcomersHaveNoData(c, e, v);
      } else {
        NoDataFrom([], v);
      }
    }
  }

  // One more frame; if it is data, it is also the next entry of its sender's sent list.
  lemma DatasGrew(c: Client, d: Client, e: nat, p: Packet)
    requires DatasOk(c) && VirtualsOk(c) && PacketsOk(c) && WireGrew(c, d, e, p) && IdentitiesKept(c, d)
    requires p.message.Data? ==> p.from < |c.virtuals| && c.virtuals[p.from].home == e && c.sockets[e].state.OPEN?
    requires forall i | 0 <= i < |c.sockets| :: d.sockets[i].state == c.sockets[i].state
    requires forall v | 0 <= v < |c.virtuals| ::
               d.virtuals[v].sent == if p.message.Data? && v == p.from then c.virtuals[v].sent + [p.message.payload] else c.virtuals[v].sent
    requires forall v | |c.virtuals| <= v < |d.virtuals| :: d.virtuals[v].sent == []
    ensures DatasOk(d)
  {
    hide PacketsOk, DataOf;
    forall v | 0 <= v < |d.virtuals| && d.virtuals[v].home < |d.sockets|
      ensures DataOk(d, v)
    {
      var i := d.virtuals[v].home;
      if i == e {
        DataOfAppend(c.sockets[e].wire, p, v);
      }
      if v < |c.virtuals| {
        assert VirtualOk(c.virtuals[v], |c.sockets|);
        assert DataOk(c, v);
      } else {
        NewcomersHaveNoData(c, i, v);
      }
    }
  }

  lemma ForwardReflexive(c: Client)
    ensures Forward(c, c) && Quiet(c, c) && WiresKept(c, c) && IdentitiesKept(c, c)
  {
  }

  // ---------- closing the physical socket ----------

  // Physical socket e is d's own in state and closes, and carries what it carried.
  lemma ShiftedFrames(c: Client, d: Client, e: nat)
    requires PacketsOk(c) && ViewsOk(c) && DatasOk(c) && VirtualsOk(c) && e < |c.sockets| == |d.sockets|
    requires d == SetPhysical(c, e, d.sockets[e]) && d.sockets[e].wire == c.sockets[e].wire
    requires d.sockets[e].state.OPEN? ==> c.sockets[e].state.OPEN?
    ensures PacketsOk(d) && ViewsOk(d) && DatasOk(d) && VirtualsOk(d)
  {
    assert WiresKept(c, d) && IdentitiesKept(c, d);
    FramesKept(c, d);
    DatasKept(c, d);
    hide PacketsOk, ViewsOk, DatasOk, View;
  }

  lemma ShiftedForward(c: Client, d: Client, e: nat)
    requires e < |c.sockets| == |d.sockets| && d == SetPhysical(c, e, d.sockets[e])
    requires PhysicalForward(c.sockets[e], d.sockets[e])
    requires forall v | 0 <= v < |c.virtuals| :: c.virtuals[v].opens <= 1
    ensures Forward(c, d)
    ensures d.sockets[e].closes == c.sockets[e].closes || d.sockets[e].closes == c.sockets[e].closes + [None] ==> Quiet(c, d)
  {
  }

  lemma AtMostOnce(c: Client)
    requires VirtualsOk(c)
    ensures forall v | 0 <= v < |c.virtuals| :: c.virtuals[v].opens <= 1
  {
    forall v | 0 <= v < |c.virtuals|
      ensures c.virtuals[v].opens <= 1
    {
      OpensAtMostOnce(c.virtuals[v], |c.sockets|);
    }
  }

  lemma ClosePhysicalKeeps(c: Client, pending: set<nat>, e: nat, code: Option<int>)
    requires Keeps(c, pending) && e < |c.sockets|
    ensures var d := ClosePhysical(c, e, code);
            && Keeps(d, pending) && Forward(c, d) && d.virtuals == c.virtuals
            && (Anchored(c) || c.physical == Some(e) ==> Anchored(d))
            && (code.None? ==> Good(c, d, pending))
  {
    var d := ClosePhysical(c, e, code);
    ShiftedFrames(c, d, e);
    AtMostOnce(c);
    ShiftedForward(c, d, e);
    hide PacketsOk, ViewsOk, DatasOk, VirtualsOk, View, Forward, Quiet;
    assert RegistryOk(d, pending);
    assert EnteredOk(d);
  }

  // ---------- the constructor ----------

  // The parts of the invariant that registering touches without looking at frames.
  lemma RegisterRegistry(c: Client, pending: set<nat>, room: Text, grant: Text)
    requires RegistryOk(c, pending) && c.physical.Some? && !c.registry.Has(room)
    requires forall v | v in pending :: v < |c.virtuals|
    ensures RegistryOk(Register(c, room, grant), pending)
  {
    hide Set;
    var d := Register(c, room, grant);
    forall r | r in d.registry.entries
      ensures EntryOk(d, r, d.registry.entries[r]) && d.registry.entries[r] !in pending
    {
      assert r != room ==> EntryOk(c, r, c.registry.entries[r]);
    }
    forall v | 0 <= v < |d.virtuals| && d.virtuals[v].state.Live() && v !in pending
      ensures Registered(d, v)
    {
      if v < |c.virtuals| {
        assert Registered(c, v);
      }
    }
  }

  lemma RegisterVirtuals(c: Client, room: Text, grant: Text)
    requires VirtualsOk(c) && SocketsOk(c) && c.physical.Some?
    requires forall r | r in c.registry.entries :: c.registry.entries[r] < |c.virtuals|
    ensures VirtualsOk(Register(c, room, grant)) && SocketsOk(Register(c, room, grant))
    ensures Forward(c, Register(c, room, grant)) && Quiet(c, Register(c, room, grant))
  {
    hide Set;
    var d := Register(c, room, grant);
    forall v | 0 <= v < |d.virtuals|
      ensures VirtualOk(d.virtuals[v], |d.sockets|)
    {
      if v < |c.virtuals| {
        assert VirtualOk(c.virtuals[v], |c.sockets|);
      }
    }
  }

  lemma RegisterAnchors(c: Client, room: Text, grant: Text)
    requires c.physical.Some? && !c.registry.Has(room)
    ensures Anchored(Register(c, room, grant))
  {
    hide Empty, Without;
  }

  lemma RegisterKeeps(c: Client, pending: set<nat>, room: Text, grant: Text)
    requires Keeps(c, pending) && c.physical.Some? && !SendsNow(c) && !c.registry.Has(room)
    requires forall v | v in pending :: v < |c.virtuals|
    ensures Good(c, Register(c, room, grant), pending)
    ensures Anchored(Register(c, room, grant))
  {
    hide PacketOk, ViewsOk, View, DataOk, VirtualOk, Set;
    var d := Register(c, room, grant);
    RegisterRegistry(c, pending, room, grant);
    RegisterVirtuals(c, room, grant);
    RegisterAnchors(c, room, grant);
    assert WiresKept(c, d) && IdentitiesKept(c, d);
    FramesKept(c, d);
    DatasKept(c, d);
  }

  lemma OpenPhysicalKeeps(c: Client, pending: set<nat>)
    requires Keeps(c, pending) && c.physical.None?
    ensures Keeps(OpenPhysical(c), pending) && Forward(c, OpenPhysical(c)) && Quiet(c, OpenPhysical(c))
    ensures c.registry.entries == map[]
  {
    var d := OpenPhysical(c);
    assert WiresKept(c, d) && IdentitiesKept(c, d);
    FramesKept(c, d);
    DatasKept(c, d);
    hide PacketOk, ViewsOk, View, DataOk, WithinBounds;
    assert forall r | r in c.registry.entries :: EntryOk(c, r, c.registry.entries[r]);
    assert VirtualsOk(d) by {
      assert forall v | 0 <= v < |d.virtuals| :: VirtualOk(c.virtuals[v], |c.sockets|) ==> VirtualOk(d.virtuals[v], |d.sockets|);
    }
  }

  // A frame appended to the current wire, nothing else touched.
  function Appended(c: Client, p: Packet): Client
    requires SendsNow(c)
  {
    var e := c.physical.value;
    SetPhysical(c, e, c.sockets[e].(wire := c.sockets[e].wire + [p]))
  }

  lemma AppendedIsQuiet(c: Client, pending: set<nat>, p: Packet)
    requires RegistryOk(c, pending) && SocketsOk(c) && VirtualsOk(c) && SendsNow(c)
    ensures var d := Appended(c, p);
            RegistryOk(d, pending) && SocketsOk(d) && VirtualsOk(d) && Forward(c, d) && Quiet(c, d)
            && WireGrew(c, d, c.physical.value, p) && IdentitiesKept(c, d)
  {
    hide VirtualOk;
    var d := Appended(c, p);
    assert forall r | r in c.registry.entries :: EntryOk(c, r, c.registry.entries[r]) ==> EntryOk(d, r, c.registry.entries[r]);
    assert forall v | 0 <= v < |c.virtuals| :: Registered(c, v) ==> Registered(d, v);
    assert forall v | 0 <= v < |d.virtuals| :: VirtualOk(c.virtuals[v], |c.sockets|) ==> VirtualOk(d.virtuals[v], |d.sockets|);
  }

  lemma SubscribeRegisterKeeps(c: Client, pending: set<nat>, room: Text, grant: Text)
    requires Keeps(c, pending) && SendsNow(c) && !c.registry.Has(room)
    requires forall v | v in pending :: v < |c.virtuals|
    requires WithinBounds(Subscribe(room, grant))
    ensures var d := Register(Appended(c, Packet(Subscribe(room, grant), |c.virtuals|)), room, grant);
            Good(c, d, pending) && Anchored(d)
  {
    var e := c.physical.value;
    var p := Packet(Subscribe(room, grant), |c.virtuals|);
    var mid := Appended(c, p);
    var d := Register(mid, room, grant);
    AppendedIsQuiet(c, pending, p);
    assert forall r | r in mid.registry.entries :: mid.registry.entries[r] < |mid.virtuals| by {
      assert forall r | r in mid.registry.entries :: EntryOk(mid, r, mid.registry.entries[r]);
    }
    hide EnteredOk, PacketsOk, ViewsOk, DatasOk, SocketsOk, VirtualsOk, RegistryOk, Quiet, Forward, Anchored, WithinBounds, Set;
    RegisterRegistry(mid, pending, room, grant);
    RegisterVirtuals(mid, room, grant);
    RegisterAnchors(mid, room, grant);
    ForwardTransitive(c, mid, d);
    QuietTransitive(c, mid, d);
    SubscribeRegisterFrames(c, room, grant);
    SubscribeRegisterEntered(c, room, grant);
  }

  lemma SubscribeRegisterFrames(c: Client, room: Text, grant: Text)
    requires PacketsOk(c) && ViewsOk(c) && DatasOk(c) && VirtualsOk(c) && SocketsOk(c) && SendsNow(c) && !c.registry.Has(room)
    requires EnteredOk(c) && WithinBounds(Subscribe(room, grant))
    ensures var d := Register(Appended(c, Packet(Subscribe(room, grant), |c.virtuals|)), room, grant);
            PacketsOk(d) && ViewsOk(d) && DatasOk(d)
  {
    var e := c.physical.value;
    var p := Packet(Subscribe(room, grant), |c.virtuals|);
    var d := Register(Appended(c, p), room, grant);
    hide View, WithinBounds, VirtualOk, Set, DataOf;
    assert WireGrew(c, d, e, p) && IdentitiesKept(c, d);
    assert ViewOk(c, e, room);
    FramesGrew(c, d, e, p);
    DatasGrew(c, d, e, p);
  }

  lemma SubscribeRegisterEntered(c: Client, room: Text, grant: Text)
    requires EnteredOk(c) && ViewsOk(c) && SendsNow(c) && !c.registry.Has(room)
    ensures EnteredOk(Register(Appended(c, Packet(Subscribe(room, grant), |c.virtuals|)), room, grant))
  {
    var e := c.physical.value;
    var p := Packet(Subscribe(room, grant), |c.virtuals|);
    var d := Register(Appended(c, p), room, grant);
    assert ViewOk(c, e, room);
    hide View;
    forall r | r in d.registry.entries
      ensures Entered(d, r)
    {
      ViewAppend(c.sockets[e].wire, p, r);
      assert r != room ==> Entered(c, r);
    }
  }

  lemma EncodeBounds(m: Message)
    ensures Encode(m).Ok? <==> WithinBounds(m)
  {
  }

  lemma QuietTransitive(c: Client, d: Client, f: Client)
    requires Quiet(c, d) && Quiet(d, f)
    ensures Quiet(c, f)
  {
  }

  lemma GoodTransitive(c: Client, d: Client, f: Client, pending: set<nat>)
    requires Good(c, d, pending) && Good(d, f, pending)
    ensures Good(c, f, pending)
  {
    hide Keeps, Forward, Quiet, Anchored;
    ForwardTransitive(c, d, f);
    QuietTransitive(c, d, f);
  }

  ghost predicate Known(c: Client, pending: set<nat>) {
    forall v | v in pending :: v < |c.virtuals|
  }

  lemma ConstructKeeps(c: Client, pending: set<nat>, room: Text, grant: Text, constructThrows: bool, sendThrows: bool)
    requires Keeps(c, pending) && Known(c, pending)
    ensures Good(c, ConstructSocket(c, room, grant, constructThrows, sendThrows), pending)
  {
    hide Keeps, Encode, WithinBounds, Register, Anchored, Forward, Quiet;
    ForwardReflexive(c);
    EncodeBounds(Subscribe(room, grant));
    if Encode(Subscribe(room, grant)).Ok? && !c.registry.Has(room) {
      if c.physical.None? {
        OpenPhysicalKeeps(c, pending);
        var mid := OpenPhysical(c);
        RegisterKeeps(mid, pending, room, grant);
        ForwardTransitive(c, mid, Register(mid, room, grant));
        QuietTransitive(c, mid, Register(mid, room, grant));
      } else if SendsNow(c) {
        SubscribeRegisterKeeps(c, pending, room, grant);
      } else {
        RegisterKeeps(c, pending, room, grant);
      }
    }
  }

  // ---------- send ----------

  // v's consumer sent one more payload; nothing but its sent list moves.
  function Noted(c: Client, v: nat, payload: Bytes): Client
    requires v < |c.virtuals|
  {
    SetVirtual(c, v, c.virtuals[v].(sent := c.virtuals[v].sent + [payload]))
  }

  lemma NotedForward(c: Client, v: nat, payload: Bytes)
    requires VirtualsOk(c) && v < |c.virtuals| && c.virtuals[v].state.OPEN?
    ensures var d := Noted(c, v, payload); VirtualsOk(d) && Forward(c, d) && Quiet(c, d) && IdentitiesKept(c, d)
  {
    var d := Noted(c, v, payload);
    assert VirtualOk(c.virtuals[v], |c.sockets|) && VirtualOk(d.virtuals[v], |d.sockets|);
    hide VirtualOk;
    assert forall i | 0 <= i < |d.virtuals| && i != v :: VirtualOk(c.virtuals[i], |c.sockets|) ==> VirtualOk(d.virtuals[i], |d.sockets|);
  }

  lemma NotedIsQuiet(c: Client, pending: set<nat>, v: nat, payload: Bytes)
    requires RegistryOk(c, pending) && SocketsOk(c) && VirtualsOk(c)
    requires v < |c.virtuals| && c.virtuals[v].state.OPEN?
    ensures var d := Noted(c, v, payload);
            RegistryOk(d, pending) && SocketsOk(d) && VirtualsOk(d) && Forward(c, d) && Quiet(c, d) && IdentitiesKept(c, d)
            && (Anchored(c) ==> Anchored(d))
  {
    NotedForward(c, v, payload);
    hide VirtualsOk, Forward;
    var d := Noted(c, v, payload);
    assert forall r | r in c.registry.entries :: EntryOk(c, r, c.registry.entries[r]) ==> EntryOk(d, r, c.registry.entries[r]);
    assert forall i | 0 <= i < |c.virtuals| :: Registered(c, i) ==> Registered(d, i);
  }

  lemma SendUnsentKeeps(c: Client, pending: set<nat>, v: nat, payload: Bytes)
    requires Keeps(c, pending) && !SendsNow(c) && v < |c.virtuals| && c.virtuals[v].state.OPEN?
    ensures Good(c, Noted(c, v, payload), pending)
  {
    var d := Noted(c, v, payload);
    NotedIsQuiet(c, pending, v, payload);
    assert WiresKept(c, d);
    FramesKept(c, d);
    assert VirtualOk(c.virtuals[v], |c.sockets|);
    DatasKept(c, d);
    hide PacketsOk, ViewsOk, DatasOk, View;
    assert EnteredOk(d);
  }

  lemma SendAppendedKeeps(c: Client, pending: set<nat>, v: nat, payload: Bytes)
    requires Keeps(c, pending) && SendsNow(c) && v < |c.virtuals| && c.virtuals[v].state.OPEN?
    requires WithinBounds(Data(c.virtuals[v].room, payload))
    ensures Good(c, Noted(Appended(c, Packet(Data(c.virtuals[v].room, payload), v)), v, payload), pending)
  {
    var e := c.physical.value;
    var room := c.virtuals[v].room;
    var p := Packet(Data(room, payload), v);
    var mid := Appended(c, p);
    var d := Noted(mid, v, payload);
    assert Registered(c, v) && EntryOk(c, room, v);
    assert VirtualOk(c.virtuals[v], |c.sockets|);
    assert Entered(c, room);
    hide View, WithinBounds, VirtualOk, DataOf;
    AppendedIsQuiet(c, pending, p);
    NotedIsQuiet(mid, pending, v, payload);
    ForwardTransitive(c, mid, d);
    QuietTransitive(c, mid, d);
    assert WireGrew(c, d, e, p) && IdentitiesKept(c, d);
    FramesGrew(c, d, e, p);
    DatasGrew(c, d, e, p);
    assert EnteredOk(d) by {
      forall r | r in d.registry.entries
        ensures Entered(d, r)
      {
        ViewAppend(c.sockets[e].wire, p, r);
        assert Entered(c, r);
      }
    }
  }

  lemma SendKeeps(c: Client, pending: set<nat>, v: nat, payload: Bytes, throws: bool)
    requires Keeps(c, pending)
    ensures Good(c, SendData(c, v, payload, throws), pending)
  {
    ForwardReflexive(c);
    if v < |c.virtuals| && c.virtuals[v].state.OPEN? {
      EncodeBounds(Data(c.virtuals[v].room, payload));
      hide Encode, WithinBounds, Keeps, Good;
      if !SendsNow(c) {
        SendUnsentKeeps(c, pending, v, payload);
      } else if Encode(Data(c.virtuals[v].room, payload)).Err? || throws {
        ClosePhysicalKeeps(c, pending, c.physical.value, None);
      } else {
        SendAppendedKeeps(c, pending, v, payload);
      }
    }
  }

  // ---------- close ----------

  // v is told that it is closed and leaves the registry.
  function Told(c: Client, v: nat, code: int): Client
    requires v < |c.virtuals|
  {
    var room := c.virtuals[v].room;
    var out := if room in c.registry.entries && c.registry.entries[room] == v then c.(registry := Delete(c.registry, room)) else c;
    SetVirtual(out, v, out.virtuals[v].(state := CLOSED, codes := out.virtuals[v].codes + [code]))
  }

  lemma ToldForward(c: Client, v: nat, code: int)
    requires VirtualsOk(c) && v < |c.virtuals| && c.virtuals[v].state.Live()
    ensures var d := Told(c, v, code); VirtualsOk(d) && Forward(c, d) && Quiet(c, d) && IdentitiesKept(c, d)
  {
    hide Delete;
    var d := Told(c, v, code);
    assert VirtualOk(c.virtuals[v], |c.sockets|) && VirtualOk(d.virtuals[v], |d.sockets|);
    hide VirtualOk;
    assert forall i | 0 <= i < |d.virtuals| && i != v :: VirtualOk(c.virtuals[i], |c.sockets|) ==> VirtualOk(d.virtuals[i], |d.sockets|);
  }

  lemma ToldIsQuiet(c: Client, pending: set<nat>, v: nat, code: int)
    requires RegistryOk(c, pending) && SocketsOk(c) && VirtualsOk(c)
    requires v < |c.virtuals| && c.virtuals[v].state.Live()
    ensures var d := Told(c, v, code);
            RegistryOk(d, pending) && SocketsOk(d) && VirtualsOk(d) && Forward(c, d) && Quiet(c, d) && IdentitiesKept(c, d)
  {
    hide Delete;
    ToldForward(c, v, code);
    hide VirtualsOk, Forward;
    var d := Told(c, v, code);
    forall r | r in d.registry.entries
      ensures EntryOk(d, r, d.registry.entries[r]) && d.registry.entries[r] !in pending
    {
      assert EntryOk(c, r, c.registry.entries[r]);
    }
    forall i | 0 <= i < |d.virtuals| && d.virtuals[i].state.Live() && i !in pending
      ensures Registered(d, i)
    {
      assert Registered(c, i);
    }
  }

  lemma ToldKeeps(c: Client, pending: set<nat>, v: nat, code: int)
    requires Keeps(c, pending) && v < |c.virtuals| && c.virtuals[v].state.Live()
    ensures Keeps(Told(c, v, code), pending) && Forward(c, Told(c, v, code)) && Quiet(c, Told(c, v, code))
  {
    var d := Told(c, v, code);
    ToldIsQuiet(c, pending, v, code);
    assert WiresKept(c, d);
    FramesKept(c, d);
    DatasKept(c, d);
    hide PacketsOk, ViewsOk, DatasOk, View, Delete;
    assert EnteredOk(d) by {
      forall r | SendsNow(d) && r in d.registry.entries
        ensures Entered(d, r)
      {
        assert Entered(c, r);
      }
    }
  }

  lemma UnsubscribeKeeps(c: Client, pending: set<nat>, v: nat, code: int)
    requires Keeps(c, pending) && SendsNow(c) && v < |c.virtuals| && c.virtuals[v].state.Live()
    requires WithinBounds(Unsubscribe(c.virtuals[v].room))
    ensures var d := Told(Appended(c, Packet(Unsubscribe(c.virtuals[v].room), v)), v, code);
            Keeps(d, pending) && Forward(c, d) && Quiet(c, d)
  {
    var room := c.virtuals[v].room;
    var p := Packet(Unsubscribe(room), v);
    var mid := Appended(c, p);
    var d := Told(mid, v, code);
    assert Registered(c, v) && EntryOk(c, room, v);
    assert Entered(c, room);
    hide View, WithinBounds, VirtualOk, DataOf, Delete, ClosesNormally;
    AppendedIsQuiet(c, pending, p);
    UnsubscribeFrames(c, v, code);
    hide EnteredOk, PacketsOk, ViewsOk, DatasOk, VirtualsOk, SocketsOk, RegistryOk, Forward, Quiet;
    ToldIsQuiet(mid, pending, v, code);
    ForwardTransitive(c, mid, d);
    QuietTransitive(c, mid, d);
  }

  lemma UnsubscribeFrames(c: Client, v: nat, code: int)
    requires PacketsOk(c) && ViewsOk(c) && DatasOk(c) && VirtualsOk(c) && SocketsOk(c) && EnteredOk(c)
    requires SendsNow(c) && v < |c.virtuals| && WithinBounds(Unsubscribe(c.virtuals[v].room))
    requires Registered(c, v) && EntryOk(c, c.virtuals[v].room, v)
    ensures var d := Told(Appended(c, Packet(Unsubscribe(c.virtuals[v].room), v)), v, code);
            PacketsOk(d) && ViewsOk(d) && DatasOk(d) && EnteredOk(d)
  {
    var e := c.physical.value;
    var p := Packet(Unsubscribe(c.virtuals[v].room), v);
    var d := Told(Appended(c, p), v, code);
    assert Entered(c, c.virtuals[v].room);
    hide View, WithinBounds, VirtualOk, DataOf, Delete;
    assert WireGrew(c, d, e, p) && IdentitiesKept(c, d);
    FramesGrew(c, d, e, p);
    DatasGrew(c, d, e, p);
    forall r | r in d.registry.entries
      ensures Entered(d, r)
    {
      ViewAppend(c.sockets[e].wire, p, r);
      assert Entered(c, r);
    }
  }

  lemma DetachIsTold(c: Client, v: nat, code: int, unsubscribe: bool, throws: bool)
    requires v < |c.virtuals|
    ensures var m := Unsubscribe(c.virtuals[v].room);
            Detach(c, v, code, unsubscribe, throws)
            == if unsubscribe && SendsNow(c) then
                 if Encode(m).Err? || throws then (Told(c, v, code), true)
                 else (Told(Appended(c, Packet(m, v)), v, code), false)
               else (Told(c, v, code), false)
  {
    hide Encode, Delete;
  }

  lemma DetachKeeps(c: Client, pending: set<nat>, v: nat, code: int, unsubscribe: bool, throws: bool)
    requires Keeps(c, pending) && v < |c.virtuals| && c.virtuals[v].state.Live()
    ensures var (d, threw) := Detach(c, v, code, unsubscribe, throws);
            Keeps(d, pending) && Forward(c, d) && Quiet(c, d) && d.physical == c.physical && d.virtuals[v].state.CLOSED?
  {
    DetachIsTold(c, v, code, unsubscribe, throws);
    EncodeBounds(Unsubscribe(c.virtuals[v].room));
    hide Keeps, Forward, Quiet, Encode, WithinBounds, Detach, Delete;
    ToldKeeps(c, pending, v, code);
    if unsubscribe && SendsNow(c) && Encode(Unsubscribe(c.virtuals[v].room)).Ok? && !throws {
      UnsubscribeKeeps(c, pending, v, code);
    }
  }

  lemma CloseNormallyKeeps(c: Client, pending: set<nat>)
    requires Keeps(c, pending)
    ensures Good(c, ClosePhysicalNormally(c), pending) && Anchored(ClosePhysicalNormally(c))
  {
    ForwardReflexive(c);
    if c.physical.Some? && c.physical.value < |c.sockets| {
      ClosePhysicalKeeps(c, pending, c.physical.value, None);
    }
  }

  // ---------- re-entrant callbacks ----------

  /** Socket v's unsubscribe follows what c had put on the open physical socket; if not, that socket is open no more. */
  predicate Unsubscribed(c: Client, v: nat, d: Client)
    requires SendsNow(c) && v < |c.virtuals|
  {
    var e := c.physical.value;
    e < |d.sockets|
    && (d.sockets[e].state.OPEN? ==> c.sockets[e].wire + [Packet(Unsubscribe(c.virtuals[v].room), v)] <= d.sockets[e].wire)
  }

  lemma DetachUnsubscribes(c: Client, v: nat, code: int, throws: bool)
    requires SendsNow(c) && v < |c.virtuals|
    ensures var (d, threw) := Detach(c, v, code, true, throws); threw || Unsubscribed(c, v, d)
    ensures SendsNow(Detach(c, v, code, true, throws).0)
  {
    DetachIsTold(c, v, code, true, throws);
    hide Encode, Delete, Detach;
  }

  lemma StaysUnsubscribed(c: Client, v: nat, d: Client, f: Client)
    requires SendsNow(c) && v < |c.virtuals| && Unsubscribed(c, v, d) && Forward(c, d) && Forward(d, f)
    ensures Unsubscribed(c, v, f)
  {
    assert PhysicalForward(c.sockets[c.physical.value], d.sockets[c.physical.value]);
    assert PhysicalForward(d.sockets[c.physical.value], f.sockets[c.physical.value]);
  }

  lemma ClosedAfterThrowing(c: Client, v: nat, d: Client)
    requires SendsNow(c) && v < |c.virtuals| && SocketsOk(d) && c.physical.value < |d.sockets|
    ensures Unsubscribed(c, v, ClosePhysicalNormally(d))
  {
  }

  /** closeVirtualSocket, with whatever its callback does. */
  lemma {:induction false} CloseKeeps(c: Client, pending: set<nat>, v: nat, code: int, unsubscribe: bool, throws: bool, onclose: Script)
    requires Keeps(c, pending) && Known(c, pending)
    ensures var d := CloseVirtual(c, v, code, unsubscribe, throws, onclose);
            && Good(c, d, pending)
            && (v < |c.virtuals| && c.virtuals[v].state.Live() ==> Anchored(d) && d.virtuals[v].state.CLOSED?)
            && (v < |c.virtuals| && c.virtuals[v].state.Live() && unsubscribe && SendsNow(c) ==> Unsubscribed(c, v, d))
    decreases onclose, 1
  {
    ForwardReflexive(c);
    hide Keeps, Quiet, Anchored, Detach, ClosePhysicalNormally, Unsubscribed;
    if v < |c.virtuals| && c.virtuals[v].state.Live() {
      var (detached, threw) := Detach(c, v, code, unsubscribe, throws);
      DetachKeeps(c, pending, v, code, unsubscribe, throws);
      RunKeeps(detached, pending, onclose);
      var called := Run(detached, onclose);
      ForwardTransitive(c, detached, called);
      QuietTransitive(c, detached, called);
      CloseNormallyKeeps(called, pending);
      var closed := ClosePhysicalNormally(called);
      ForwardTransitive(c, called, closed);
      QuietTransitive(c, called, closed);
      AnchoredWhenNotEmpty(called);
      if unsubscribe && SendsNow(c) {
        CloseUnsubscribes(c, pending, v, code, throws, called);
      }
    }
  }

  // What follows a detaching keeps its unsubscribe; without one, the physical socket is closed.
  lemma CloseUnsubscribes(c: Client, pending: set<nat>, v: nat, code: int, throws: bool, called: Client)
    requires SendsNow(c) && v < |c.virtuals| && Keeps(called, pending)
    requires Forward(c, Detach(c, v, code, true, throws).0) && Forward(Detach(c, v, code, true, throws).0, called)
    ensures Detach(c, v, code, true, throws).1 ==> Unsubscribed(c, v, ClosePhysicalNormally(called))
    ensures !Detach(c, v, code, true, throws).1 ==> Unsubscribed(c, v, called) && Unsubscribed(c, v, ClosePhysicalNormally(called))
  {
    var (detached, threw) := Detach(c, v, code, true, throws);
    DetachUnsubscribes(c, v, code, throws);
    assert c.physical.value < |called.sockets| by { DetachIsTold(c, v, code, true, throws); }
    ClosedAfterThrowing(c, v, called);
    hide Detach, Unsubscribed, ClosePhysicalNormally;
    if !threw {
      StaysUnsubscribed(c, v, detached, called);
    }
  }

  lemma AnchoredWhenNotEmpty(c: Client)
    ensures !c.registry.IsEmpty() ==> Anchored(c)
  {
  }

  lemma {:induction false} ApplyKeeps(c: Client, pending: set<nat>, op: Op)
    requires Keeps(c, pending) && Known(c, pending)
    ensures Good(c, Apply(c, op), pending)
    decreases op, 0
  {
    hide Keeps, Good, ConstructSocket, SendData, CloseVirtual;
    match op
    case Construct(room, grant, constructThrows, sendThrows) =>
      ConstructKeeps(c, pending, room, grant, constructThrows, sendThrows);
    case Close(v, code, sendThrows, onclose) =>
      CloseKeeps(c, pending, v, code, true, sendThrows, onclose);
    case Send(v, payload, sendThrows) =>
      SendKeeps(c, pending, v, payload, sendThrows);
  }

  /** Any callback, re-entering as deep as it likes. */
  lemma {:induction false} RunKeeps(c: Client, pending: set<nat>, script: Script)
    requires Keeps(c, pending) && Known(c, pending)
    ensures Good(c, Run(c, script), pending)
    decreases script, 0
  {
    ForwardReflexive(c);
    match script
    case Nothing =>
    case Do(op, next) =>
      hide Keeps, Apply, Quiet, Anchored;
      ApplyKeeps(c, pending, op);
      RunKeeps(Apply(c, op), pending, next);
      GoodTransitive(c, Apply(c, op), Run(Apply(c, op), next), pending);
  }

  // ---------- the physical socket opens ----------

  // The rooms before keys are inside; those in keys have not been heard of.
  ghost predicate HalfSubscribed(c: Client, keys: seq<Text>) {
    && SendsNow(c)
    && Distinct(keys)
    && (forall k | k in c.registry.entries ::
          c.registry.entries[k] < |c.virtuals| && c.virtuals[c.registry.entries[k]].state.CONNECTING?)
    && (forall k | k in keys :: k in c.registry.entries && View(c.sockets[c.physical.value].wire, k) == Idle({}))
    && (forall k | k in c.registry.entries && k !in keys :: Entered(c, k))
  }

  ghost predicate KeepsButEntry(c: Client) {
    && RegistryOk(c, {})
    && SocketsOk(c)
    && VirtualsOk(c)
    && PacketsOk(c)
    && ViewsOk(c)
    && DatasOk(c)
  }

  lemma SubscribeOneKeeps(c: Client, keys: seq<Text>, v: nat)
    requires KeepsButEntry(c) && HalfSubscribed(c, keys) && keys != [] && c.registry.entries[keys[0]] == v < |c.virtuals|
    requires WithinBounds(Subscribe(keys[0], c.virtuals[v].grant))
    ensures var d := Appended(c, Packet(Subscribe(keys[0], c.virtuals[v].grant), v));
            KeepsButEntry(d) && HalfSubscribed(d, keys[1..]) && Forward(c, d) && Quiet(c, d)
  {
    var e := c.physical.value;
    var p := Packet(Subscribe(keys[0], c.virtuals[v].grant), v);
    var d := Appended(c, p);
    assert EntryOk(c, keys[0], v);
    hide View, WithinBounds, VirtualOk, DataOf;
    AppendedIsQuiet(c, {}, p);
    FramesGrew(c, d, e, p);
    DatasGrew(c, d, e, p);
    OneMoreInside(c, keys, v, p);
    hide PacketsOk, ViewsOk, DatasOk, VirtualsOk, Forward, Quiet;
  }

  // After its subscribe the first of the keys is inside, and the others are as they were.
  lemma OneMoreInside(c: Client, keys: seq<Text>, v: nat, p: Packet)
    requires HalfSubscribed(c, keys) && keys != [] && keys[0] in c.registry.entries && c.registry.entries[keys[0]] == v
    requires p.message.Subscribe? && p.message.room == keys[0] && p.from == v
    ensures HalfSubscribed(Appended(c, p), keys[1..])
  {
    var e := c.physical.value;
    var d := Appended(c, p);
    hide View;
    assert keys == [keys[0]] + keys[1..];
    forall k | k in c.registry.entries
      ensures k in keys[1..] ==> View(d.sockets[e].wire, k) == Idle({})
      ensures k !in keys[1..] ==> Entered(d, k)
    {
      ViewAppend(c.sockets[e].wire, p, k);
      if k !in keys {
        assert Entered(c, k);
      }
    }
  }

  lemma JustClosing(c: Client, e: nat)
    requires SocketsOk(c) && c.physical == Some(e) && e < |c.sockets| && c.sockets[e].state.OPEN?
    ensures var d := ClosePhysical(c, e, None); SocketsOk(d) && EnteredOk(d) && Anchored(d)
  {
  }

  // Closing the physical socket ends the obligation to be inside.
  lemma CloseHalfSubscribed(c: Client)
    requires KeepsButEntry(c) && SendsNow(c)
    ensures Good(c, ClosePhysicalNormally(c), {}) && Anchored(ClosePhysicalNormally(c))
  {
    var e := c.physical.value;
    var d := ClosePhysicalNormally(c);
    hide PacketsOk, ViewsOk, DatasOk, VirtualsOk, SocketsOk, RegistryOk, EnteredOk, Anchored, Forward, Quiet;
    JustClosing(c, e);
    ShiftedFrames(c, d, e);
    AtMostOnce(c);
    ShiftedForward(c, d, e);
    StillRegistered(c, d);
  }

  lemma StillRegistered(c: Client, d: Client)
    requires RegistryOk(c, {}) && d.physical == c.physical && d.virtuals == c.virtuals && d.registry == c.registry
    ensures RegistryOk(d, {})
  {
    assert forall r | r in c.registry.entries :: EntryOk(c, r, c.registry.entries[r]) ==> EntryOk(d, r, c.registry.entries[r]);
  }

  lemma SubscribeAllUnfolds(c: Client, keys: seq<Text>, failAt: nat)
    requires HalfSubscribed(c, keys) && keys != []
    ensures var v := c.registry.entries[keys[0]];
            var m := Subscribe(keys[0], c.virtuals[v].grant);
            SubscribeAll(c, keys, failAt)
            == if Encode(m).Err? || failAt == 0 then ClosePhysicalNormally(c)
               else SubscribeAll(Appended(c, Packet(m, v)), keys[1..], failAt - 1)
  {
    hide Encode, View, Entered;
    assert keys[0] in keys;
  }

  lemma AllSubscribed(c: Client, failAt: nat)
    requires KeepsButEntry(c) && HalfSubscribed(c, []) && !c.registry.IsEmpty()
    ensures SubscribeAll(c, [], failAt) == c && Good(c, c, {}) && Anchored(c)
  {
    ForwardReflexive(c);
    hide RegistryOk, SocketsOk, VirtualsOk, PacketsOk, ViewsOk, DatasOk, View;
  }

  lemma NextKey(c: Client, keys: seq<Text>)
    requires HalfSubscribed(c, keys) && keys != []
    ensures SendsNow(c) && keys[0] in c.registry.entries && c.registry.entries[keys[0]] < |c.virtuals|
  {
    assert keys[0] in keys;
  }

  lemma GoodAfter(c: Client, d: Client, f: Client, pending: set<nat>)
    requires Forward(c, d) && Quiet(c, d) && Good(d, f, pending) && Anchored(f)
    ensures Good(c, f, pending)
  {
    hide Keeps, Forward, Quiet, Anchored;
    ForwardTransitive(c, d, f);
    QuietTransitive(c, d, f);
  }

  lemma {:induction false} SubscribeAllKeeps(c: Client, keys: seq<Text>, failAt: nat)
    requires KeepsButEntry(c) && HalfSubscribed(c, keys) && !c.registry.IsEmpty()
    ensures Good(c, SubscribeAll(c, keys, failAt), {})
    ensures Anchored(SubscribeAll(c, keys, failAt))
    decreases |keys|
  {
    hide KeepsButEntry, HalfSubscribed, Forward, Quiet, Encode, WithinBounds, Good, Anchored;
    if keys == [] {
      AllSubscribed(c, failAt);
    } else {
      NextKey(c, keys);
      var v := c.registry.entries[keys[0]];
      var m := Subscribe(keys[0], c.virtuals[v].grant);
      EncodeBounds(m);
      SubscribeAllUnfolds(c, keys, failAt);
      if Encode(m).Err? || failAt == 0 {
        CloseHalfSubscribed(c);
      } else {
        SubscribeOneKeeps(c, keys, v);
        var next := Appended(c, Packet(m, v));
        SubscribeAllKeeps(next, keys[1..], failAt - 1);
        GoodAfter(c, next, SubscribeAll(next, keys[1..], failAt - 1), {});
      }
    }
  }

  // The physical socket has opened; nobody is inside yet.
  lemma JustOpenedDatas(c: Client, e: nat)
    requires DatasOk(c) && VirtualsOk(c) && SocketsOk(c) && c.physical == Some(e) && e < |c.sockets| && c.sockets[e].state.CONNECTING?
    ensures DatasOk(SetPhysical(c, e, c.sockets[e].(state := OPEN)))
  {
    var d := SetPhysical(c, e, c.sockets[e].(state := OPEN));
    forall v | 0 <= v < |d.virtuals| && d.virtuals[v].home < |d.sockets|
      ensures DataOk(d, v)
    {
      assert DataOk(c, v) && VirtualOk(c.virtuals[v], |c.sockets|);
    }
  }

  lemma JustOpenedFrames(c: Client, e: nat)
    requires PacketsOk(c) && ViewsOk(c) && VirtualsOk(c) && e < |c.sockets|
    ensures var d := SetPhysical(c, e, c.sockets[e].(state := OPEN)); PacketsOk(d) && ViewsOk(d) && VirtualsOk(d)
  {
    var d := SetPhysical(c, e, c.sockets[e].(state := OPEN));
    assert WiresKept(c, d) && IdentitiesKept(c, d);
    FramesKept(c, d);
  }

  lemma JustOpened(c: Client, e: nat)
    requires Inv(c) && e < |c.sockets| && c.sockets[e].state.CONNECTING?
    ensures var d := SetPhysical(c, e, c.sockets[e].(state := OPEN));
            && c.physical == Some(e)
            && KeepsButEntry(d) && HalfSubscribed(d, d.registry.keys) && !d.registry.IsEmpty()
            && Forward(c, d) && Quiet(c, d)
  {
    var d := SetPhysical(c, e, c.sockets[e].(state := OPEN));
    assert c.physical == Some(e);
    JustOpenedFrames(c, e);
    JustOpenedDatas(c, e);
    AtMostOnce(c);
    ShiftedForward(c, d, e);
    assert forall r | r in c.registry.entries ::
        EntryOk(c, r, c.registry.entries[r]) && VirtualOk(c.virtuals[c.registry.entries[r]], |c.sockets|);
    hide PacketsOk, ViewsOk, DatasOk, VirtualsOk, VirtualOk, Forward, Quiet;
    assert forall r | r in c.registry.entries :: EntryOk(c, r, c.registry.entries[r]) ==> EntryOk(d, r, c.registry.entries[r]);
  }

  lemma OpenedKeeps(c: Client, e: nat, failAt: nat)
    requires Inv(c) && Enabled(c, Opened(e, failAt))
    ensures var d := Step(c, Opened(e, failAt)); Inv(d) && Forward(c, d) && Quiet(c, d)
  {
    var mid := SetPhysical(c, e, c.sockets[e].(state := OPEN));
    JustOpened(c, e);
    SubscribeAllKeeps(mid, mid.registry.keys, failAt);
    hide Keeps, KeepsButEntry, HalfSubscribed, Forward, Quiet, Anchored;
    ForwardTransitive(c, mid, SubscribeAll(mid, mid.registry.keys, failAt));
    QuietTransitive(c, mid, SubscribeAll(mid, mid.registry.keys, failAt));
  }

  // ---------- messages ----------

  // A change of one virtual socket that frames and registry do not see.
  predicate Marks(c: Client, v: nat, s: Virtual) {
    && v < |c.virtuals|
    && VirtualForward(c.virtuals[v], s) && s.sent == c.virtuals[v].sent && VirtualOk(s, |c.sockets|)
    && c.virtuals[v].state.Live() && s.state.Live()
    && (s.opens == 1 ==> c.physical.Some? && c.physical.value < |c.sockets| && !c.sockets[c.physical.value].state.CONNECTING?)
  }

  lemma MarkedForward(c: Client, v: nat, s: Virtual)
    requires VirtualsOk(c) && SocketsOk(c) && Marks(c, v, s)
    ensures var d := SetVirtual(c, v, s); VirtualsOk(d) && SocketsOk(d) && Forward(c, d) && IdentitiesKept(c, d) && WiresKept(c, d)
  {
    var d := SetVirtual(c, v, s);
    hide VirtualOk;
    assert forall i | 0 <= i < |d.virtuals| && i != v :: VirtualOk(c.virtuals[i], |c.sockets|) ==> VirtualOk(d.virtuals[i], |d.sockets|);
    assert c.virtuals[v].opens == 1 ==> s.opens == 1 by {
      assert VirtualOk(c.virtuals[v], |c.sockets|);
      OpensAtMostOnce(s, |c.sockets|);
    }
  }

  lemma OpensAtMostOnce(s: Virtual, sockets: nat)
    requires VirtualOk(s, sockets)
    ensures s.opens <= 1
  {
  }

  lemma MarkedRegistry(c: Client, v: nat, s: Virtual)
    requires RegistryOk(c, {}) && EnteredOk(c) && Marks(c, v, s)
    ensures var d := SetVirtual(c, v, s); RegistryOk(d, {}) && EnteredOk(d) && (Anchored(c) ==> Anchored(d))
  {
    hide VirtualOk, View;
    var d := SetVirtual(c, v, s);
    assert forall r | r in c.registry.entries :: EntryOk(c, r, c.registry.entries[r]) ==> EntryOk(d, r, c.registry.entries[r]);
    assert forall i | 0 <= i < |c.virtuals| :: Registered(c, i) ==> Registered(d, i);
    forall r | SendsNow(d) && r in d.registry.entries
      ensures Entered(d, r)
    {
      assert Entered(c, r);
    }
  }

  lemma MarkedKeeps(c: Client, v: nat, s: Virtual)
    requires Keeps(c, {}) && Marks(c, v, s)
    ensures var d := SetVirtual(c, v, s); Keeps(d, {}) && Forward(c, d) && (Anchored(c) ==> Anchored(d))
  {
    var d := SetVirtual(c, v, s);
    MarkedForward(c, v, s);
    MarkedRegistry(c, v, s);
    hide RegistryOk, SocketsOk, VirtualOk, EnteredOk, Anchored, PacketOk, ViewsOk, DataOk;
    FramesKept(c, d);
    DatasKept(c, d);
  }

  /** The room's registered virtual socket, if there is one. */
  function Lookup(c: Client, room: Text): Option<nat> {
    if room in c.registry.entries then Some(c.registry.entries[room]) else None
  }

  /** Only a `subscribed` for its own room opens a virtual socket, and only data for its own room reaches it. */
  ghost predicate Hears(c: Client, d: Client, m: Message) {
    && |c.virtuals| <= |d.virtuals|
    && (forall v | |c.virtuals| <= v < |d.virtuals| :: d.virtuals[v].opens == 0)
    && (forall v | 0 <= v < |c.virtuals| :: d.virtuals[v].opens != c.virtuals[v].opens ==>
          m.Subscribed? && Lookup(c, m.room) == Some(v))
    && (forall v | 0 <= v < |c.virtuals| ::
          d.virtuals[v].received == if m.Data? && Lookup(c, m.room) == Some(v) && c.virtuals[v].state.OPEN?
                                    then c.virtuals[v].received + [m.payload] else c.virtuals[v].received)
  }

  /** What the message does to the socket it is for. */
  predicate Heeds(c: Client, d: Client, m: Message) {
    Lookup(c, m.room).Some? && Lookup(c, m.room).value < |c.virtuals| <= |d.virtuals| ==>
      var v := Lookup(c, m.room).value;
      && (m.Subscribed? ==> !d.virtuals[v].state.CONNECTING?)
      && (m.RoomClosed? ==> d.virtuals[v].state.CLOSED?)
  }

  lemma QuietHears(c: Client, d: Client, m: Message)
    requires Quiet(c, d) && !m.Data?
    ensures Hears(c, d, m)
  {
  }

  ghost predicate Received(c: Client, d: Client, m: Message) {
    && Keeps(d, {}) && Forward(c, d) && (Anchored(c) ==> Anchored(d))
    && Hears(c, d, m) && Heeds(c, d, m) && ClosesNormally(c, d)
  }

  // One socket marked by the handler, then a callback that hears nothing itself.
  lemma MarkedThenRun(c: Client, v: nat, s: Virtual, script: Script)
    requires Keeps(c, {}) && Marks(c, v, s)
    ensures var mid := SetVirtual(c, v, s);
            var d := Run(mid, script);
            Keeps(d, {}) && Forward(c, d) && (Anchored(c) ==> Anchored(d)) && Quiet(mid, d) && Forward(mid, d)
  {
    var mid := SetVirtual(c, v, s);
    MarkedKeeps(c, v, s);
    assert Known(mid, {});
    hide Keeps, Anchored, Forward, Quiet;
    RunKeeps(mid, {}, script);
    ForwardTransitive(c, mid, Run(mid, script));
  }

  // The registered socket of a room, with what the invariant says of it.
  lemma RegisteredIsLive(c: Client, room: Text)
    requires Keeps(c, {}) && c.registry.Has(room)
    ensures var v := c.registry.entries[room];
            && v < |c.virtuals| && c.virtuals[v].room == room && c.virtuals[v].state.Live()
            && VirtualOk(c.virtuals[v], |c.sockets|)
  {
    assert EntryOk(c, room, c.registry.entries[room]);
  }

  lemma NothingHeard(c: Client, m: Message)
    requires Keeps(c, {})
    requires m.Subscribed? && c.registry.Has(m.room) ==> !c.virtuals[c.registry.entries[m.room]].state.CONNECTING?
    requires m.Data? && c.registry.Has(m.room) ==> !c.virtuals[c.registry.entries[m.room]].state.OPEN?
    requires m.RoomClosed? ==> !c.registry.Has(m.room)
    ensures Received(c, c, m)
  {
    hide Keeps;
    ForwardReflexive(c);
  }

  predicate OpensNow(c: Client, room: Text) {
    && c.registry.Has(room) && c.registry.entries[room] < |c.virtuals|
    && c.virtuals[c.registry.entries[room]].state.CONNECTING?
  }

  // The socket that a `subscribed` opens, after it.
  function OpenedSocket(s: Virtual): Virtual {
    s.(state := OPEN, opens := s.opens + 1)
  }

  lemma OpeningMarks(c: Client, v: nat)
    requires v < |c.virtuals| && c.virtuals[v].state.CONNECTING? && VirtualOk(c.virtuals[v], |c.sockets|)
    requires c.physical.Some? && c.physical.value < |c.sockets| && !c.sockets[c.physical.value].state.CONNECTING?
    ensures Marks(c, v, OpenedSocket(c.virtuals[v]))
  {
  }

  lemma SubscribedOpens(c: Client, e: nat, room: Text, script: Script)
    requires Keeps(c, {}) && c.physical == Some(e) && e < |c.sockets| && !c.sockets[e].state.CONNECTING?
    requires OpensNow(c, room)
    ensures Received(c, Receive(c, e, Subscribed(room), script), Subscribed(room))
  {
    var v := c.registry.entries[room];
    RegisteredIsLive(c, room);
    OpeningMarks(c, v);
    var s := OpenedSocket(c.virtuals[v]);
    var d := Receive(c, e, Subscribed(room), script);
    assert d == Run(SetVirtual(c, v, s), script);
    hide Keeps, Anchored, Forward, Quiet, Hears, Heeds, VirtualOk, VirtualForward, Marks, Receive;
    MarkedThenRun(c, v, s, script);
    OpenedIsHeard(c, SetVirtual(c, v, s), d, v);
  }

  lemma SubscribedKeeps(c: Client, e: nat, room: Text, script: Script)
    requires Keeps(c, {}) && c.physical == Some(e) && e < |c.sockets| && !c.sockets[e].state.CONNECTING?
    ensures Received(c, Receive(c, e, Subscribed(room), script), Subscribed(room))
  {
    hide Keeps, Received;
    if OpensNow(c, room) {
      SubscribedOpens(c, e, room, script);
    } else {
      if c.registry.Has(room) {
        RegisteredIsLive(c, room);
      }
      NothingHeard(c, Subscribed(room));
    }
  }

  lemma OpenedIsHeard(c: Client, mid: Client, d: Client, v: nat)
    requires v < |c.virtuals| && Lookup(c, c.virtuals[v].room) == Some(v)
    requires mid == SetVirtual(c, v, OpenedSocket(c.virtuals[v]))
    requires Quiet(mid, d) && Forward(mid, d)
    ensures Hears(c, d, Subscribed(c.virtuals[v].room)) && Heeds(c, d, Subscribed(c.virtuals[v].room))
  {
    assert VirtualForward(mid.virtuals[v], d.virtuals[v]);
  }

  lemma DataIsHeard(c: Client, mid: Client, d: Client, v: nat, payload: Bytes)
    requires v < |c.virtuals| && Lookup(c, c.virtuals[v].room) == Some(v) && c.virtuals[v].state.OPEN?
    requires mid == SetVirtual(c, v, c.virtuals[v].(received := c.virtuals[v].received + [payload]))
    requires Quiet(mid, d)
    ensures Hears(c, d, Data(c.virtuals[v].room, payload)) && Heeds(c, d, Data(c.virtuals[v].room, payload))
  {
  }

  // The registered socket of the room has the payload, and its callback has run.
  lemma DataReaches(c: Client, v: nat, payload: Bytes, script: Script)
    requires Keeps(c, {}) && v < |c.virtuals| && c.virtuals[v].state.OPEN? && Lookup(c, c.virtuals[v].room) == Some(v)
    requires c.physical.Some? && c.physical.value < |c.sockets| && !c.sockets[c.physical.value].state.CONNECTING?
    ensures Received(c, Run(SetVirtual(c, v, c.virtuals[v].(received := c.virtuals[v].received + [payload])), script),
                     Data(c.virtuals[v].room, payload))
  {
    var noted := c.virtuals[v].(received := c.virtuals[v].received + [payload]);
    var mid := SetVirtual(c, v, noted);
    assert VirtualOk(c.virtuals[v], |c.sockets|);
    assert Marks(c, v, noted);
    assert mid.sockets == c.sockets;
    hide Keeps, Anchored, Forward, VirtualOk, Marks;
    MarkedThenRun(c, v, noted, script);
    DataIsHeard(c, mid, Run(mid, script), v, payload);
    QuietClosesNormally(mid, Run(mid, script));
    hide Quiet, Hears, Heeds;
  }

  lemma DataKeeps(c: Client, e: nat, room: Text, payload: Bytes, script: Script)
    requires Keeps(c, {}) && c.physical == Some(e) && e < |c.sockets| && !c.sockets[e].state.CONNECTING?
    ensures Received(c, Receive(c, e, Data(room, payload), script), Data(room, payload))
  {
    if c.registry.Has(room) && c.virtuals[c.registry.entries[room]].state.OPEN? {
      var v := c.registry.entries[room];
      assert EntryOk(c, room, v);
      hide Keeps, Received, EntryOk;
      DataReaches(c, v, payload, script);
    } else {
      assert c.registry.Has(room) ==> EntryOk(c, room, c.registry.entries[room]);
      ForwardReflexive(c);
      hide Keeps, Anchored, Forward, EntryOk;
    }
  }

  lemma QuietClosesNormally(c: Client, d: Client)
    requires Quiet(c, d)
    ensures ClosesNormally(c, d)
  {
  }

  // A message that closes what it is for, and does nothing that consumers could not do.
  lemma ClosedIsReceived(c: Client, d: Client, room: Text, code: int)
    requires Keeps(d, {}) && Forward(c, d) && (Anchored(c) ==> Anchored(d)) && Quiet(c, d)
    requires Lookup(c, room).Some? && Lookup(c, room).value < |d.virtuals| ==> d.virtuals[Lookup(c, room).value].state.CLOSED?
    ensures Received(c, d, RoomClosed(room, code))
  {
    QuietHears(c, d, RoomClosed(room, code));
    assert ClosesNormally(c, d);
    hide Keeps, Forward, Anchored, Quiet, Hears, ClosesNormally;
  }

  lemma RoomClosedKeeps(c: Client, e: nat, room: Text, code: int, script: Script)
    requires Keeps(c, {}) && c.physical == Some(e) && e < |c.sockets|
    ensures Received(c, Receive(c, e, RoomClosed(room, code), script), RoomClosed(room, code))
  {
    ForwardReflexive(c);
    if c.registry.Has(room) {
      var v := c.registry.entries[room];
      assert EntryOk(c, room, v);
      hide Keeps, EntryOk, Received, Forward, Quiet, Anchored;
      CloseKeeps(c, {}, v, code, false, false, script);
      ClosedIsReceived(c, CloseVirtual(c, v, code, false, false, script), room, code);
    } else {
      hide Keeps, EntryOk, Received, Forward, Quiet, Anchored;
      ClosedIsReceived(c, c, room, code);
    }
  }

  /** A decoded message, whatever the callback that it triggers does. */
  lemma ReceiveKeeps(c: Client, e: nat, m: Message, script: Script)
    requires Keeps(c, {}) && c.physical == Some(e) && e < |c.sockets| && !c.sockets[e].state.CONNECTING?
    ensures Received(c, Receive(c, e, m, script), m) || m.Subscribe? || m.Unsubscribe?
    ensures var d := Receive(c, e, m, script); Keeps(d, {}) && Forward(c, d) && (Anchored(c) ==> Anchored(d)) && Hears(c, d, m)
  {
    match m
    case Subscribed(room) => SubscribedKeeps(c, e, room, script);
    case Data(room, payload) => DataKeeps(c, e, room, payload, script);
    case RoomClosed(room, code) => RoomClosedKeeps(c, e, room, code, script);
    case _ =>
      ClosePhysicalKeeps(c, {}, e, Some(MULTIPLEX_PROTOCOL_FAILURE_CLOSE_CODE));
  }

  lemma MessageKeeps(c: Client, e: nat, frame: Bytes, script: Script)
    requires Inv(c) && Enabled(c, Message(e, frame, script))
    ensures var d := Step(c, Message(e, frame, script)); Inv(d) && Forward(c, d)
    ensures c.physical == Some(e)
  {
    assert c.physical == Some(e);
    hide Keeps, Anchored, Forward, Hears, Decode;
    match Decode(frame)
    case Err(_) => ClosePhysicalKeeps(c, {}, e, Some(MULTIPLEX_PROTOCOL_FAILURE_CLOSE_CODE));
    case Ok(m) => ReceiveKeeps(c, e, m, script);
  }

  // ---------- errors ----------

  lemma {:induction false} RunAllKeeps(c: Client, count: nat, scripts: seq<Script>)
    requires Keeps(c, {})
    ensures Good(c, RunAll(c, count, scripts), {})
    decreases count
  {
    ForwardReflexive(c);
    if count != 0 && scripts != [] {
      hide Keeps, Quiet, Anchored, Forward;
      var next := Run(c, scripts[0]);
      assert Known(c, {});
      RunKeeps(c, {}, scripts[0]);
      RunAllKeeps(next, count - 1, scripts[1..]);
      GoodTransitive(c, next, RunAll(next, count - 1, scripts[1..]), {});
    }
  }

  // ---------- the close fan-out ----------

  // Each socket still to be told is pending, and nobody else is.
  ghost predicate StillToTell(c: Client, ids: seq<nat>, pending: set<nat>) {
    && (forall v | v in pending :: v in ids)
    && (forall v | v in ids :: v < |c.virtuals| && (c.virtuals[v].state.Live() ==> v in pending))
  }

  lemma ShrinkPending(c: Client, v: nat, pending: set<nat>)
    requires Keeps(c, pending) && v < |c.virtuals| && !c.virtuals[v].state.Live()
    ensures Keeps(c, pending - {v})
  {
    hide SocketsOk, VirtualsOk, PacketsOk, ViewsOk, EnteredOk, DatasOk;
  }

  lemma PendingIsNotRegistered(c: Client, v: nat, code: int, pending: set<nat>)
    requires RegistryOk(c, pending) && v in pending && v < |c.virtuals|
    ensures Told(c, v, code) == SetVirtual(c, v, c.virtuals[v].(state := CLOSED, codes := c.virtuals[v].codes + [code]))
  {
  }

  lemma StillToTellTheRest(c: Client, next: Client, ids: seq<nat>, pending: set<nat>)
    requires ids != [] && StillToTell(c, ids, pending) && Forward(c, next)
    requires ids[0] < |c.virtuals| && !next.virtuals[ids[0]].state.Live()
    ensures StillToTell(next, ids[1..], pending - {ids[0]})
  {
    assert ids == [ids[0]] + ids[1..];
    assert forall v | 0 <= v < |c.virtuals| :: VirtualForward(c.virtuals[v], next.virtuals[v]);
  }

  // One socket is told, and its callback runs.
  lemma TellOne(c: Client, ids: seq<nat>, code: int, script: Script, pending: set<nat>)
    requires Keeps(c, pending) && ids != [] && StillToTell(c, ids, pending) && Anchored(c)
    requires ids[0] < |c.virtuals| && c.virtuals[ids[0]].state.Live()
    ensures var told := SetVirtual(c, ids[0], c.virtuals[ids[0]].(state := CLOSED, codes := c.virtuals[ids[0]].codes + [code]));
            var next := Run(told, script);
            && Keeps(next, pending - {ids[0]}) && Anchored(next)
            && Forward(c, next) && Quiet(c, next) && !next.virtuals[ids[0]].state.Live()
  {
    var v := ids[0];
    var told := Told(c, v, code);
    PendingIsNotRegistered(c, v, code, pending);
    ToldKeeps(c, pending, v, code);
    assert Anchored(told);
    assert Known(told, pending - {v});
    ShrinkPending(told, v, pending);
    hide Keeps, Anchored, Forward, Quiet;
    RunKeeps(told, pending - {v}, script);
    ForwardTransitive(c, told, Run(told, script));
    QuietTransitive(c, told, Run(told, script));
    StaysDown(told, Run(told, script), v);
  }

  lemma StaysDown(c: Client, d: Client, v: nat)
    requires Forward(c, d) && v < |c.virtuals| && !c.virtuals[v].state.Live()
    ensures !d.virtuals[v].state.Live()
  {
    assert VirtualForward(c.virtuals[v], d.virtuals[v]);
  }

  lemma {:induction false} FanOutKeeps(c: Client, ids: seq<nat>, code: int, scripts: seq<Script>, pending: set<nat>)
    requires Keeps(c, pending) && StillToTell(c, ids, pending) && Anchored(c)
    ensures Good(c, FanOut(c, ids, code, scripts), {})
    ensures Anchored(FanOut(c, ids, code, scripts))
    decreases |ids|
  {
    ForwardReflexive(c);
    if ids == [] {
      assert pending == {};
    } else {
      var script := if scripts == [] then Nothing else scripts[0];
      var rest := if scripts == [] then [] else scripts[1..];
      var v := ids[0];
      assert v in ids;
      hide Keeps, Anchored, Good, Quiet;
      if !c.virtuals[v].state.Live() {
        ShrinkPending(c, v, pending);
        StillToTellTheRest(c, c, ids, pending);
        FanOutKeeps(c, ids[1..], code, rest, pending - {v});
      } else {
        TellOne(c, ids, code, script, pending);
        var told := SetVirtual(c, v, c.virtuals[v].(state := CLOSED, codes := c.virtuals[v].codes + [code]));
        var next := Run(told, script);
        StillToTellTheRest(c, next, ids, pending);
        FanOutKeeps(next, ids[1..], code, rest, pending - {v});
        GoodAfter(c, next, FanOut(next, ids[1..], code, rest), {});
      }
    }
  }

  // Physical socket e has closed: it is dropped and the registry emptied, at one stroke.
  function Dropped(c: Client, e: nat): Client
    requires e < |c.sockets|
  {
    SetPhysical(c, e, c.sockets[e].(state := CLOSED)).(physical := None, registry := Empty())
  }

  lemma DroppedFrames(c: Client, e: nat)
    requires Keeps(c, {}) && e < |c.sockets| && c.physical == Some(e)
    ensures var d := Dropped(c, e);
            PacketsOk(d) && ViewsOk(d) && DatasOk(d) && VirtualsOk(d) && SocketsOk(d) && EnteredOk(d) && Forward(c, d) && Quiet(c, d)
  {
    var d := Dropped(c, e);
    DroppedIsQuiet(c, e);
    hide RegistryOk, Forward, Quiet, PacketsOk, ViewsOk, DatasOk, VirtualsOk;
    FramesKept(c, d);
    DatasKept(c, d);
  }

  lemma DroppedIsQuiet(c: Client, e: nat)
    requires VirtualsOk(c) && e < |c.sockets|
    ensures var d := Dropped(c, e); Forward(c, d) && Quiet(c, d) && WiresKept(c, d) && IdentitiesKept(c, d)
  {
    AtMostOnce(c);
  }

  // Everyone who was registered is pending now.
  lemma DroppedRegistry(c: Client, e: nat)
    requires RegistryOk(c, {}) && e < |c.sockets|
    ensures var d := Dropped(c, e);
            var ids := Values(c.registry);
            RegistryOk(d, set v | v in ids) && StillToTell(d, ids, set v | v in ids) && Anchored(d)
  {
    RegisteredIds(c);
    hide Values, Registered;
  }

  lemma JustClosed(c: Client, e: nat)
    requires Inv(c) && e < |c.sockets| && !c.sockets[e].state.CLOSED?
    ensures var ids := Values(c.registry);
            var d := Dropped(c, e);
            var pending := set v | v in ids;
            && c.physical == Some(e)
            && Keeps(d, pending) && StillToTell(d, ids, pending) && Anchored(d) && Forward(c, d) && Quiet(c, d)
  {
    assert c.physical == Some(e);
    hide RegistryOk, SocketsOk, VirtualsOk, PacketsOk, ViewsOk, EnteredOk, DatasOk, StillToTell, Anchored, Forward, Quiet, Dropped;
    DroppedFrames(c, e);
    DroppedRegistry(c, e);
  }

  // The values of the registry are exactly the live sockets.
  lemma RegisteredIds(c: Client)
    requires RegistryOk(c, {})
    ensures forall v | v in Values(c.registry) :: v < |c.virtuals|
    ensures forall v | 0 <= v < |c.virtuals| && c.virtuals[v].state.Live() :: v in Values(c.registry)
  {
    var ids := Values(c.registry);
    forall v | v in ids
      ensures v < |c.virtuals|
    {
      var i :| 0 <= i < |ids| && ids[i] == v;
      assert c.registry.keys[i] in c.registry.entries;
      assert EntryOk(c, c.registry.keys[i], v);
    }
    forall v | 0 <= v < |c.virtuals| && c.virtuals[v].state.Live()
      ensures v in ids
    {
      assert Registered(c, v);
      var i :| 0 <= i < |c.registry.keys| && c.registry.keys[i] == c.virtuals[v].room;
      assert ids[i] == v;
    }
  }

  lemma ClosedKeeps(c: Client, e: nat, code: int, scripts: seq<Script>)
    requires Inv(c) && Enabled(c, Closed(e, code, scripts))
    ensures var d := Step(c, Closed(e, code, scripts)); Inv(d) && Forward(c, d) && Quiet(c, d)
  {
    JustClosed(c, e);
    var ids := Values(c.registry);
    var d := Dropped(c, e);
    FanOutKeeps(d, ids, code, scripts, set v | v in ids);
    hide Keeps, Forward, Quiet, Anchored, StillToTell;
    ForwardTransitive(c, d, FanOut(d, ids, code, scripts));
    QuietTransitive(c, d, FanOut(d, ids, code, scripts));
  }

  // ---------- every event ----------

  /**
    Every event, with whatever its callbacks do, leaves the registry invariant
    in force and takes no socket back.
  */
  lemma StepKeeps(c: Client, event: Event)
    requires Inv(c) && Enabled(c, event)
    ensures Inv(Step(c, event))
    ensures Forward(c, Step(c, event))
  {
    hide Keeps, Forward, Quiet, Anchored;
    match event
    case Consumer(op) => assert Known(c, {}); ApplyKeeps(c, {}, op);
    case Opened(e, failAt) => OpenedKeeps(c, e, failAt);
    case Message(e, frame, callback) => MessageKeeps(c, e, frame, callback);
    case Errored(e, callbacks) => ForwardReflexive(c); RunAllKeeps(c, |c.registry.keys|, callbacks);
    case Closed(e, code, callbacks) => ClosedKeeps(c, e, code, callbacks);
  }

  /** Only a message opens a virtual socket, hands it data, or makes the client close with a code. */
  lemma OthersAreQuiet(c: Client, event: Event)
    requires Inv(c) && Enabled(c, event) && !event.Message?
    ensures Quiet(c, Step(c, event))
  {
    hide Keeps, Forward, Quiet, Anchored;
    match event
    case Consumer(op) => assert Known(c, {}); ApplyKeeps(c, {}, op);
    case Opened(e, failAt) => OpenedKeeps(c, e, failAt);
    case Errored(e, callbacks) => ForwardReflexive(c); RunAllKeeps(c, |c.registry.keys|, callbacks);
    case Closed(e, code, callbacks) => ClosedKeeps(c, e, code, callbacks);
  }

  lemma InitialInv()
    ensures Inv(Initial)
  {
  }
}
