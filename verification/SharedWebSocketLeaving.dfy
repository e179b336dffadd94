/**
  Whoever has closed has left: a virtual socket that closed by itself is no longer
  inside its room on the open physical socket; only one that a frame closed may be.
*/
module SharedWebSocketLeaving {
  import opened Basics
  import opened Sockets
  import opened Unicode
  import opened Protocol
  import opened OrderedMap
  import opened RoomFrames
  import opened SharedWebSocket
  import opened SharedWebSocketProofs

  // The frames of its room on the open physical socket end inside a round of socket v.
  predicate StillInside(c: Client, v: nat)
    requires SendsNow(c) && v < |c.virtuals|
  {
    var view := View(c.sockets[c.physical.value].wire, c.virtuals[v].room);
    view.Inside? && view.owner == v
  }

  /** Whoever is closed, but for those in spared, has left its room. */
  ghost predicate Left(c: Client, spared: set<nat>) {
    SendsNow(c) ==> forall v | 0 <= v < |c.virtuals| && c.virtuals[v].state.CLOSED? && v !in spared :: !StillInside(c, v)
  }

  // A step keeps that, and a client that cannot send does not begin to.
  ghost predicate Leaves(c: Client, d: Client, spared: set<nat>, more: set<nat>) {
    && (Left(c, spared) ==> Left(d, more))
    && (SendsNow(d) ==> SendsNow(c))
  }

  lemma LeavesTransitive(c: Client, d: Client, f: Client, spared: set<nat>, more: set<nat>, most: set<nat>)
    requires Leaves(c, d, spared, more) && Leaves(d, f, more, most)
    ensures Leaves(c, f, spared, most)
  {
    hide Left;
  }

  lemma SparesMore(c: Client, spared: set<nat>, more: set<nat>)
    requires spared <= more
    ensures Leaves(c, c, spared, more)
  {
    hide StillInside;
  }

  // The wire is as it was, and whoever is closed now was closed before, or is spared.
  lemma SameWire(c: Client, d: Client, spared: set<nat>, more: set<nat>)
    requires SendsNow(d) ==> SendsNow(c) && d.physical == c.physical && d.sockets[d.physical.value].wire == c.sockets[c.physical.value].wire
    requires spared <= more
    requires forall v | 0 <= v < |d.virtuals| && d.virtuals[v].state.CLOSED? && v !in more ::
               v < |c.virtuals| && c.virtuals[v].state.CLOSED? && d.virtuals[v].room == c.virtuals[v].room
    ensures Leaves(c, d, spared, more)
  {
    hide View;
  }

  // One frame was put on the wire; a subscribe comes from somebody who is not closed.
  lemma OneFrame(c: Client, d: Client, p: Packet, spared: set<nat>)
    requires SendsNow(c) && SendsNow(d) && d.physical == c.physical
    requires d.sockets[d.physical.value].wire == c.sockets[c.physical.value].wire + [p]
    requires forall v | 0 <= v < |d.virtuals| && d.virtuals[v].state.CLOSED? ::
               && v < |c.virtuals| && d.virtuals[v].room == c.virtuals[v].room
               && (c.virtuals[v].state.CLOSED? || (p.message.Unsubscribe? && p.message.room == c.virtuals[v].room && p.from == v))
    requires p.message.Subscribe? ==> p.from < |d.virtuals| && !d.virtuals[p.from].state.CLOSED?
    ensures Leaves(c, d, spared, spared)
  {
    if Left(c, spared) {
      forall v | 0 <= v < |d.virtuals| && d.virtuals[v].state.CLOSED? && v !in spared
        ensures !StillInside(d, v)
      {
        ViewAppend(c.sockets[c.physical.value].wire, p, d.virtuals[v].room);
        hide View;
        assert c.virtuals[v].state.CLOSED? ==> !StillInside(c, v);
      }
    }
  }

  lemma Silenced(c: Client, d: Client, spared: set<nat>, more: set<nat>)
    requires !SendsNow(d)
    ensures Leaves(c, d, spared, more)
  {
  }

  lemma ClosesPhysical(c: Client, spared: set<nat>, more: set<nat>)
    ensures !SendsNow(ClosePhysicalNormally(c)) && Leaves(c, ClosePhysicalNormally(c), spared, more)
  {
  }

  // ---------- the operations ----------

  lemma ConstructLeaves(c: Client, room: Text, grant: Text, constructThrows: bool, sendThrows: bool, spared: set<nat>)
    ensures Leaves(c, ConstructSocket(c, room, grant, constructThrows, sendThrows), spared, spared)
  {
    hide Encode, Set, Left;
    SparesMore(c, spared, spared);
    var d := ConstructSocket(c, room, grant, constructThrows, sendThrows);
    if d != c {
      if SendsNow(c) {
        OneFrame(c, d, Packet(Subscribe(room, grant), |c.virtuals|), spared);
      } else {
        Silenced(c, d, spared, spared);
      }
    }
  }

  lemma SendLeaves(c: Client, v: nat, payload: Bytes, throws: bool, spared: set<nat>)
    ensures Leaves(c, SendData(c, v, payload, throws), spared, spared)
  {
    hide Encode, Left;
    SparesMore(c, spared, spared);
    var d := SendData(c, v, payload, throws);
    if !SendsNow(d) {
      Silenced(c, d, spared, spared);
    } else if v < |c.virtuals| && c.virtuals[v].state.OPEN? {
      OneFrame(c, d, Packet(Data(c.virtuals[v].room, payload), v), spared);
    }
  }

  // Whom a detaching leaves inside: nobody, unless no unsubscribe was wanted or it could not be sent.
  function Spared(spared: set<nat>, v: nat, unsubscribe: bool, threw: bool): set<nat> {
    if unsubscribe && !threw then spared else spared + {v}
  }

  lemma DetachLeaves(c: Client, v: nat, code: int, unsubscribe: bool, throws: bool, spared: set<nat>)
    requires v < |c.virtuals| && c.virtuals[v].state.Live()
    ensures var (d, threw) := Detach(c, v, code, unsubscribe, throws);
            Leaves(c, d, spared, Spared(spared, v, unsubscribe, threw))
  {
    var (d, threw) := Detach(c, v, code, unsubscribe, throws);
    DetachIsTold(c, v, code, unsubscribe, throws);
    hide Detach, Encode, Delete, Left;
    if unsubscribe && SendsNow(c) && !threw {
      OneFrame(c, d, Packet(Unsubscribe(c.virtuals[v].room), v), spared);
    } else if SendsNow(c) {
      SameWire(c, d, spared, spared + {v});
    } else {
      Silenced(c, d, spared, Spared(spared, v, unsubscribe, threw));
    }
  }

  /** Closing a virtual socket takes it out of its room, unless a frame closed it. */
  lemma {:induction false} CloseLeaves(c: Client, v: nat, code: int, unsubscribe: bool, throws: bool, onclose: Script, spared: set<nat>)
    ensures Leaves(c, CloseVirtual(c, v, code, unsubscribe, throws, onclose), spared, Spared(spared, v, unsubscribe, false))
    decreases onclose, 1
  {
    hide Left, Detach, ClosePhysicalNormally, SendsNow;
    var more := Spared(spared, v, unsubscribe, false);
    SparesMore(c, spared, more);
    if v < |c.virtuals| && c.virtuals[v].state.Live() {
      var (detached, threw) := Detach(c, v, code, unsubscribe, throws);
      var during := Spared(spared, v, unsubscribe, threw);
      DetachLeaves(c, v, code, unsubscribe, throws, spared);
      RunLeaves(detached, onclose, during);
      var called := Run(detached, onclose);
      LeavesTransitive(c, detached, called, spared, during, during);
      ClosesPhysical(called, during, more);
      LeavesTransitive(c, called, ClosePhysicalNormally(called), spared, during, more);
    }
  }

  lemma {:induction false} ApplyLeaves(c: Client, op: Op, spared: set<nat>)
    ensures Leaves(c, Apply(c, op), spared, spared)
    decreases op, 0
  {
    hide Left, ConstructSocket, SendData, CloseVirtual;
    match op
    case Construct(room, grant, constructThrows, sendThrows) => ConstructLeaves(c, room, grant, constructThrows, sendThrows, spared);
    case Close(v, code, sendThrows, onclose) => CloseLeaves(c, v, code, true, sendThrows, onclose, spared);
    case Send(v, payload, sendThrows) => SendLeaves(c, v, payload, sendThrows, spared);
  }

  lemma {:induction false} RunLeaves(c: Client, script: Script, spared: set<nat>)
    ensures Leaves(c, Run(c, script), spared, spared)
    decreases script, 0
  {
    SparesMore(c, spared, spared);
    match script
    case Nothing =>
    case Do(op, next) =>
      hide Left, Apply, SendsNow;
      ApplyLeaves(c, op, spared);
      RunLeaves(Apply(c, op), next, spared);
      LeavesTransitive(c, Apply(c, op), Run(Apply(c, op), next), spared, spared, spared);
  }

  // ---------- the events ----------

  lemma {:induction false} RunAllLeaves(c: Client, count: nat, scripts: seq<Script>, spared: set<nat>)
    ensures Leaves(c, RunAll(c, count, scripts), spared, spared)
    decreases count
  {
    hide Left, SendsNow;
    SparesMore(c, spared, spared);
    if count != 0 && scripts != [] {
      var next := Run(c, scripts[0]);
      RunLeaves(c, scripts[0], spared);
      RunAllLeaves(next, count - 1, scripts[1..], spared);
      LeavesTransitive(c, next, RunAll(next, count - 1, scripts[1..]), spared, spared, spared);
    }
  }

  lemma {:induction false} FanOutStaysSilent(c: Client, ids: seq<nat>, code: int, scripts: seq<Script>)
    requires !SendsNow(c)
    ensures !SendsNow(FanOut(c, ids, code, scripts))
    decreases |ids|
  {
    if ids != [] {
      var script := if scripts == [] then Nothing else scripts[0];
      var rest := if scripts == [] then [] else scripts[1..];
      var v := ids[0];
      if v >= |c.virtuals| || !c.virtuals[v].state.Live() {
        FanOutStaysSilent(c, ids[1..], code, rest);
      } else {
        var told := SetVirtual(c, v, c.virtuals[v].(state := CLOSED, codes := c.virtuals[v].codes + [code]));
        RunLeaves(told, script, {});
        FanOutStaysSilent(Run(told, script), ids[1..], code, rest);
      }
    }
  }

  lemma SubscribeOneLeaves(c: Client, room: Text, v: nat, throws: bool, spared: set<nat>)
    requires v < |c.virtuals| && c.virtuals[v].state.CONNECTING?
    ensures var (d, threw) := SendPhysical(c, Subscribe(room, c.virtuals[v].grant), v, throws);
            Leaves(c, d, spared, spared)
  {
    hide Encode, Left;
    SparesMore(c, spared, spared);
    var (d, threw) := SendPhysical(c, Subscribe(room, c.virtuals[v].grant), v, throws);
    if SendsNow(c) && !threw {
      OneFrame(c, d, Packet(Subscribe(room, c.virtuals[v].grant), v), spared);
    }
  }

  lemma {:induction false} SubscribeAllLeaves(c: Client, keys: seq<Text>, failAt: nat, spared: set<nat>)
    ensures Leaves(c, SubscribeAll(c, keys, failAt), spared, spared)
    decreases |keys|
  {
    hide Left, SendPhysical, ClosePhysicalNormally;
    SparesMore(c, spared, spared);
    if keys != [] && SendsNow(c) {
      if keys[0] in c.registry.entries && c.registry.entries[keys[0]] < |c.virtuals|
         && c.virtuals[c.registry.entries[keys[0]]].state.CONNECTING? {
        var v := c.registry.entries[keys[0]];
        var (sent, threw) := SendPhysical(c, Subscribe(keys[0], c.virtuals[v].grant), v, failAt == 0);
        SubscribeOneLeaves(c, keys[0], v, failAt == 0, spared);
        ClosesPhysical(sent, spared, spared);
        if !threw {
          ThrowsAtZero(c, Subscribe(keys[0], c.virtuals[v].grant), v, failAt == 0);
          SubscribeAllLeaves(sent, keys[1..], failAt - 1, spared);
        }
        LeavesTransitive(c, sent, SubscribeAll(c, keys, failAt), spared, spared, spared);
      } else {
        SubscribeAllLeaves(c, keys[1..], failAt, spared);
      }
    }
  }

  lemma ThrowsAtZero(c: Client, m: Message, v: nat, throws: bool)
    requires SendsNow(c) && !SendPhysical(c, m, v, throws).1
    ensures !throws
  {
    hide Encode;
  }

  // A physical socket has carried nothing when it opens.
  lemma NobodyYet(c: Client, e: nat, spared: set<nat>)
    requires SocketsOk(c) && e < |c.sockets| && c.sockets[e].state.CONNECTING?
    ensures Left(SetPhysical(c, e, c.sockets[e].(state := OPEN)), spared)
  {
    var d := SetPhysical(c, e, c.sockets[e].(state := OPEN));
    assert c.physical == Some(e);
    assert d.sockets[e].wire == [];
  }

  /** Whom an event refuses: the registered socket of a room whose room_closed is delivered. */
  function Refuses(c: Client, event: Event): set<nat> {
    match event
    case Message(e, frame, _) =>
      (match Decode(frame)
       case Ok(RoomClosed(room, _)) => if c.physical == Some(e) && c.registry.Has(room) then {c.registry.entries[room]} else {}
       case _ => {})
    case _ => {}
  }

  lemma ReceiveLeaves(c: Client, e: nat, m: Message, script: Script, spared: set<nat>)
    requires e < |c.sockets| && c.physical == Some(e)
    ensures Leaves(c, Receive(c, e, m, script), spared,
                   spared + if m.RoomClosed? && c.registry.Has(m.room) then {c.registry.entries[m.room]} else {})
  {
    hide Left, CloseVirtual, Run;
    assert spared + {} == spared;
    SparesMore(c, spared, spared);
    match m
    case Subscribed(room) =>
      if c.registry.Has(room) && c.registry.entries[room] < |c.virtuals| && c.virtuals[c.registry.entries[room]].state.CONNECTING? {
        var v := c.registry.entries[room];
        MarkedLeaves(c, v, c.virtuals[v].(state := OPEN, opens := c.virtuals[v].opens + 1), script, spared);
      }
    case Data(room, payload) =>
      if c.registry.Has(room) && c.registry.entries[room] < |c.virtuals| && c.virtuals[c.registry.entries[room]].state.OPEN? {
        var v := c.registry.entries[room];
        MarkedLeaves(c, v, c.virtuals[v].(received := c.virtuals[v].received + [payload]), script, spared);
      }
    case RoomClosed(room, code) =>
      if c.registry.Has(room) {
        CloseLeaves(c, c.registry.entries[room], code, false, false, script, spared);
      }
    case _ => Silenced(c, Receive(c, e, m, script), spared, spared);
  }

  // The handler changes a socket that is not closed, and calls back.
  lemma MarkedLeaves(c: Client, v: nat, s: Virtual, script: Script, spared: set<nat>)
    requires v < |c.virtuals| && !s.state.CLOSED? && s.room == c.virtuals[v].room
    ensures Leaves(c, Run(SetVirtual(c, v, s), script), spared, spared)
  {
    hide Left;
    SameWire(c, SetVirtual(c, v, s), spared, spared);
    RunLeaves(SetVirtual(c, v, s), script, spared);
    LeavesTransitive(c, SetVirtual(c, v, s), Run(SetVirtual(c, v, s), script), spared, spared, spared);
  }

  lemma MessageLeaves(c: Client, e: nat, frame: Bytes, callback: Script, spared: set<nat>)
    requires Left(c, spared) && e < |c.sockets|
    ensures Left(OnMessage(c, e, frame, callback), spared + Refuses(c, Message(e, frame, callback)))
  {
    hide Left, Receive, Decode;
    assert spared + {} == spared;
    if c.physical == Some(e) {
      match Decode(frame)
      case Err(_) => Silenced(c, OnMessage(c, e, frame, callback), spared, spared);
      case Ok(m) => ReceiveLeaves(c, e, m, callback, spared);
    }
  }

  lemma ClosedLeaves(c: Client, e: nat, code: int, callbacks: seq<Script>, spared: set<nat>)
    requires c.registry.Valid() && Left(c, spared) && e < |c.sockets|
    ensures Left(OnClose(SetPhysical(c, e, c.sockets[e].(state := CLOSED)), e, code, callbacks), spared)
  {
    var closed := SetPhysical(c, e, c.sockets[e].(state := CLOSED));
    if c.physical == Some(e) {
      FanOutStaysSilent(closed.(physical := None, registry := Empty()), Values(closed.registry), code, callbacks);
    } else {
      SameWire(c, closed, spared, spared);
    }
  }

  /** Every event: whoever closes leaves, but for the one that a room_closed refuses. */
  lemma StepLeaves(c: Client, event: Event, spared: set<nat>)
    requires Inv(c) && Enabled(c, event) && Left(c, spared)
    ensures Left(Step(c, event), spared + Refuses(c, event))
  {
    assert c.registry.Valid() && SocketsOk(c);
    hide Left, Keeps, Anchored, Decode, Apply, SubscribeAll, OnMessage, RunAll, OnClose;
    assert spared + {} == spared;
    match event
    case Consumer(op) => ApplyLeaves(c, op, spared);
    case Opened(e, failAt) =>
      var d := SetPhysical(c, e, c.sockets[e].(state := OPEN));
      NobodyYet(c, e, spared);
      SubscribeAllLeaves(d, d.registry.keys, failAt, spared);
    case Message(e, frame, callback) => MessageLeaves(c, e, frame, callback, spared);
    case Errored(e, callbacks) => RunAllLeaves(c, |c.registry.keys|, callbacks, spared);
    case Closed(e, code, callbacks) => ClosedLeaves(c, e, code, callbacks, spared);
  }
}
