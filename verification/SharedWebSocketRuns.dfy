/** The promises of the client multiplexer, over every run and whatever its callbacks do. */
module SharedWebSocketRuns {
  import opened Basics
  import opened Sockets
  import opened Unicode
  import opened Protocol
  import opened OrderedMap
  import opened RoomFrames
  import opened SharedWebSocket
  import opened SharedWebSocketProofs
  import opened SharedWebSocketLeaving
  import ProtocolProofs

  /** The states a run of the client passes through at its returns to the event loop. */
  ghost predicate IsRun(states: seq<Client>, events: seq<Event>) {
    && |states| == |events| + 1
    && states[0] == Initial
    && forall i | 0 <= i < |events| ::
         states[i].registry.Valid() && Enabled(states[i], events[i]) && states[i + 1] == Step(states[i], events[i])
  }

  lemma {:induction false} RunInv(states: seq<Client>, events: seq<Event>, n: nat)
    requires IsRun(states, events) && n < |states|
    ensures Inv(states[n])
  {
    hide Inv, Step, Enabled;
    if n == 0 {
      InitialInv();
    } else {
      RunInv(states, events, n - 1);
      StepKeeps(states[n - 1], events[n - 1]);
    }
  }

  /**
    The registry invariant: the live virtual sockets are exactly the registered
    ones, one per room; a registered room has a physical socket, a connecting or
    open physical socket has a registered room, and at most one physical socket is
    not closed.
  */
  lemma RegistryIsLiveSockets(states: seq<Client>, events: seq<Event>, n: nat, v: nat, w: nat, e: nat, f: nat)
    requires IsRun(states, events) && n < |states|
    requires v < |states[n].virtuals| && w < |states[n].virtuals| && e < |states[n].sockets| && f < |states[n].sockets|
    ensures var c := states[n];
            && (c.virtuals[v].state.Live() <==> Registered(c, v))
            && (c.virtuals[v].state.Live() && c.virtuals[w].state.Live() && c.virtuals[v].room == c.virtuals[w].room ==> v == w)
            && (c.registry.entries != map[] ==> c.physical.Some?)
            && (c.sockets[e].state.Live() ==> c.registry.entries != map[] && c.physical == Some(e))
            && (!c.sockets[e].state.CLOSED? && !c.sockets[f].state.CLOSED? ==> e == f)
  {
    RunInv(states, events, n);
    var c := states[n];
    SizeOf(c.registry);
    hide IsRun, VirtualsOk, PacketsOk, ViewsOk, EnteredOk, DatasOk;
    if Registered(c, v) {
      assert EntryOk(c, c.virtuals[v].room, v);
    }
    if c.registry.entries != map[] {
      var r :| r in c.registry.entries;
      assert EntryOk(c, r, c.registry.entries[r]);
    }
  }

  /** Nobody outlives the physical socket: once it has closed, every virtual socket it carried is closed. */
  lemma NobodyOutlivesTheSocket(states: seq<Client>, events: seq<Event>, n: nat, v: nat)
    requires IsRun(states, events) && n < |states| && v < |states[n].virtuals|
    ensures var c := states[n];
            && c.virtuals[v].home < |c.sockets|
            && (c.sockets[c.virtuals[v].home].state.CLOSED? ==> c.virtuals[v].state.CLOSED?)
  {
    RunInv(states, events, n);
    var c := states[n];
    hide IsRun, PacketsOk, ViewsOk, EnteredOk, DatasOk;
    assert VirtualOk(c.virtuals[v], |c.sockets|);
    if c.virtuals[v].state.Live() {
      assert EntryOk(c, c.virtuals[v].room, v);
    }
  }

  /** A virtual socket is opened at most once, and told of its closing exactly once, when it is closed. */
  lemma CallbacksAreCounted(states: seq<Client>, events: seq<Event>, n: nat, v: nat)
    requires IsRun(states, events) && n < |states| && v < |states[n].virtuals|
    ensures var s := states[n].virtuals[v];
            && s.opens <= 1
            && |s.codes| == (if s.state.CLOSED? then 1 else 0)
            && (s.state.CONNECTING? ==> s.opens == 0) && (s.state.OPEN? ==> s.opens == 1)
            && !s.state.CLOSING?
  {
    RunInv(states, events, n);
    hide IsRun, RegistryOk, SocketsOk, PacketsOk, ViewsOk, EnteredOk, DatasOk;
    assert VirtualOk(states[n].virtuals[v], |states[n].sockets|);
  }

  /** A virtual socket only moves forward, and what it was told or sent is never taken back. */
  lemma {:induction false} OnlyForward(states: seq<Client>, events: seq<Event>, m: nat, n: nat)
    requires IsRun(states, events) && m <= n < |states|
    ensures Forward(states[m], states[n])
  {
    hide Forward, Inv, Step, Enabled;
    if m == n {
      ForwardReflexive(states[m]);
    } else {
      OnlyForward(states, events, m, n - 1);
      RunInv(states, events, n - 1);
      StepKeeps(states[n - 1], events[n - 1]);
      ForwardTransitive(states[m], states[n - 1], states[n]);
    }
  }

  function SocketOf(event: Event): Option<nat> {
    match event
    case Consumer(_) => None
    case Opened(e, _) => Some(e)
    case Message(e, _, _) => Some(e)
    case Errored(e, _) => Some(e)
    case Closed(e, _, _) => Some(e)
  }

  /** Events of a physical socket that has been replaced change nothing: an error is all that can still come from it. */
  lemma ReplacedSocketIsSilent(states: seq<Client>, events: seq<Event>, n: nat, e: nat)
    requires IsRun(states, events) && n < |events|
    requires SocketOf(events[n]) == Some(e) && states[n].physical != Some(e)
    ensures states[n + 1] == states[n] && events[n].Errored? && states[n].sockets[e].state.CLOSED?
  {
    RunInv(states, events, n);
    hide RegistryOk, VirtualsOk, PacketsOk, ViewsOk, EnteredOk, DatasOk;
    assert Enabled(states[n], events[n]);
    assert states[n].sockets[e].state.CLOSED?;
  }

  /**
    On each physical socket the frames of every room are in the language
    (subscribe data* unsubscribe?)*, a round for each virtual socket, and each
    frame carries its own socket's room and grant.
  */
  lemma FramesAreInTheLanguage(states: seq<Client>, events: seq<Event>, n: nat, e: nat, room: Text, i: nat)
    requires IsRun(states, events) && n < |states| && e < |states[n].sockets| && i < |states[n].sockets[e].wire|
    ensures var c := states[n];
            var p := c.sockets[e].wire[i];
            && InLanguage(c.sockets[e].wire, room)
            && p.from < |c.virtuals|
            && p.message.room == c.virtuals[p.from].room && c.virtuals[p.from].home == e
            && (p.message.Subscribe? ==> p.message.grant == c.virtuals[p.from].grant)
            && Encode(p.message).Ok?
  {
    RunInv(states, events, n);
    var c := states[n];
    hide IsRun, RegistryOk, SocketsOk, VirtualsOk, EnteredOk, DatasOk, InLanguage, Encode, WithinBounds;
    assert ViewOk(c, e, room);
    assert PacketOk(c, e, c.sockets[e].wire[i]);
    EncodeBounds(c.sockets[e].wire[i].message);
    UnbrokenIsInLanguage(c.sockets[e].wire, room);
  }

  /**
    A registered socket's subscribe has gone out as soon as frames can be sent,
    whether by the constructor or when the physical socket opened.
  */
  lemma RegisteredHasSubscribed(states: seq<Client>, events: seq<Event>, n: nat, room: Text)
    requires IsRun(states, events) && n < |states| && SendsNow(states[n]) && states[n].registry.Has(room)
    ensures var c := states[n];
            var wire := c.sockets[c.physical.value].wire;
            exists j | 0 <= j < |wire| :: OpenRound(wire, room, j, |wire|) && wire[j].from == c.registry.entries[room]
  {
    RunInv(states, events, n);
    var c := states[n];
    hide IsRun, SocketsOk, VirtualsOk, PacketsOk, ViewsOk, DatasOk, Describes;
    assert Entered(c, room);
    UnbrokenIsInLanguage(c.sockets[c.physical.value].wire, room);
    RoundOf(c.sockets[c.physical.value].wire, room, View(c.sockets[c.physical.value].wire, room));
  }

  lemma RoundOf(wire: seq<Packet>, room: Text, view: RoomView)
    requires Describes(wire, room, view) && view.Inside?
    ensures exists j | 0 <= j < |wire| :: OpenRound(wire, room, j, |wire|) && wire[j].from == view.owner
  {
  }

  /** While the physical socket is open, everything a virtual socket's consumer sent has been put on the wire, in order. */
  lemma SentIsOnTheWire(states: seq<Client>, events: seq<Event>, n: nat, v: nat)
    requires IsRun(states, events) && n < |states| && v < |states[n].virtuals|
    ensures var c := states[n];
            && c.virtuals[v].home < |c.sockets|
            && var socket := c.sockets[c.virtuals[v].home];
            && DataOf(socket.wire, v) <= c.virtuals[v].sent
            && (socket.state.OPEN? ==> DataOf(socket.wire, v) == c.virtuals[v].sent)
  {
    RunInv(states, events, n);
    hide IsRun, RegistryOk, SocketsOk, PacketsOk, ViewsOk, EnteredOk;
    assert VirtualOk(states[n].virtuals[v], |states[n].sockets|);
    assert DataOk(states[n], v);
  }

  /** Whoever has opened has a well-formed room name. */
  ghost predicate TextOpens(c: Client) {
    forall v | 0 <= v < |c.virtuals| && c.virtuals[v].opens > 0 :: WellFormed(c.virtuals[v].room)
  }

  // What opened between c and d has a well-formed room name.
  lemma OpensWithText(c: Client, d: Client)
    requires TextOpens(c) && Forward(c, d)
    requires forall v | 0 <= v < |d.virtuals| && d.virtuals[v].opens > 0 ::
               v < |c.virtuals| && (c.virtuals[v].opens > 0 || WellFormed(c.virtuals[v].room))
    ensures TextOpens(d)
  {
    assert forall v | 0 <= v < |c.virtuals| :: VirtualForward(c.virtuals[v], d.virtuals[v]);
  }

  lemma StepOpensText(c: Client, event: Event)
    requires Inv(c) && Enabled(c, event) && TextOpens(c)
    ensures TextOpens(Step(c, event))
  {
    var d := Step(c, event);
    StepKeeps(c, event);
    if event.Message? {
      MessageKeeps(c, event.socket, event.frame, event.callback);
      var m := Decode(event.frame);
      if m.Ok? {
        ProtocolProofs.CanonicalForm(event.frame);
        assert !c.sockets[event.socket].state.CONNECTING?;
        assert forall v | Lookup(c, m.value.room) == Some(v) :: EntryOk(c, m.value.room, v);
        hide Keeps, Anchored, Decode, Encode, Forward, TextOpens;
        ReceiveKeeps(c, event.socket, m.value, event.callback);
        OpensWithText(c, d);
      } else {
        assert d.virtuals == c.virtuals;
      }
    } else {
      OthersAreQuiet(c, event);
      hide Inv, Forward, Step, TextOpens;
      OpensWithText(c, d);
    }
  }

  /**
    A virtual socket whose room name is not well-formed text never opens, whatever
    the server sends: no frame can carry its name.
  */
  lemma {:induction false} IllFormedNeverOpens(states: seq<Client>, events: seq<Event>, n: nat, v: nat)
    requires IsRun(states, events) && n < |states| && v < |states[n].virtuals| && !WellFormed(states[n].virtuals[v].room)
    ensures states[n].virtuals[v].opens == 0 && !states[n].virtuals[v].state.OPEN?
  {
    RunOpensText(states, events, n);
    RunInv(states, events, n);
    hide IsRun, RegistryOk, SocketsOk, PacketsOk, ViewsOk, EnteredOk, DatasOk;
    assert VirtualOk(states[n].virtuals[v], |states[n].sockets|);
  }

  lemma {:induction false} RunOpensText(states: seq<Client>, events: seq<Event>, n: nat)
    requires IsRun(states, events) && n < |states|
    ensures TextOpens(states[n])
  {
    if n > 0 {
      assert states[n - 1].registry.Valid() && Enabled(states[n - 1], events[n - 1]) && states[n] == Step(states[n - 1], events[n - 1]);
      hide Inv, Step, Enabled, TextOpens;
      RunInv(states, events, n - 1);
      RunOpensText(states, events, n - 1);
      StepOpensText(states[n - 1], events[n - 1]);
    }
  }

  /** Everybody whom an event up to state n refused. */
  function RefusedSoFar(states: seq<Client>, events: seq<Event>, n: nat): set<nat>
    requires |states| == |events| + 1 && n <= |events|
  {
    if n == 0 then {} else RefusedSoFar(states, events, n - 1) + Refuses(states[n - 1], events[n - 1])
  }

  lemma {:induction false} RunLeft(states: seq<Client>, events: seq<Event>, n: nat)
    requires IsRun(states, events) && n < |states|
    ensures Left(states[n], RefusedSoFar(states, events, n))
  {
    if n > 0 {
      RunLeft(states, events, n - 1);
      RunInv(states, events, n - 1);
      assert states[n - 1].registry.Valid() && Enabled(states[n - 1], events[n - 1]) && states[n] == Step(states[n - 1], events[n - 1]);
      hide Inv, Step, Enabled, Left, Refuses;
      StepLeaves(states[n - 1], events[n - 1], RefusedSoFar(states, events, n - 1));
    }
  }

  lemma {:induction false} WasRefused(states: seq<Client>, events: seq<Event>, n: nat, v: nat)
    requires |states| == |events| + 1 && n <= |events| && v in RefusedSoFar(states, events, n)
    ensures exists i | 0 <= i < n :: v in Refuses(states[i], events[i])
  {
    if v in Refuses(states[n - 1], events[n - 1]) {
    } else {
      WasRefused(states, events, n - 1, v);
    }
  }

  /**
    Whoever closes leaves: on the open physical socket a closed virtual socket is
    still inside its room only if a room_closed was delivered while it was the
    room's registered socket.
  */
  lemma OnlyTheRefusedStayInside(states: seq<Client>, events: seq<Event>, n: nat, v: nat)
    requires IsRun(states, events) && n < |states| && v < |states[n].virtuals|
    requires SendsNow(states[n]) && states[n].virtuals[v].state.CLOSED? && StillInside(states[n], v)
    ensures exists i | 0 <= i < n :: v in Refuses(states[i], events[i])
  {
    RunLeft(states, events, n);
    hide IsRun, StillInside, Refuses;
    WasRefused(states, events, n, v);
  }
}
