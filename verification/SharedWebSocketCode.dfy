/** The adapter as the program has it: closure variables, and objects that its handlers update in place. */
module SharedWebSocketCode {
  import opened Basics
  import opened Sockets
  import opened Unicode
  import opened Protocol
  import opened OrderedMap
  import opened RoomFrames
  import Spec = SharedWebSocket

  /** One virtual socket; the last four fields are what its consumer's callbacks were given and what it sent. */
  class SharedWebSocket {
    const room: Text
    const grant: Text
    const home: nat
    var readyState: ReadyState
    var opens: nat
    var codes: seq<int>
    var sent: seq<Bytes>
    var received: seq<Bytes>

    constructor (room: Text, grant: Text, home: nat)
      ensures Value() == Spec.Virtual(room, grant, home, CONNECTING, 0, [], [], [])
    {
      this.room, this.grant, this.home := room, grant, home;
      readyState, opens, codes, sent, received := CONNECTING, 0, [], [], [];
    }

    function Value(): Spec.Virtual
      reads this
    {
      Spec.Virtual(room, grant, home, readyState, opens, codes, sent, received)
    }
  }

  ghost function StatesOf(objects: seq<SharedWebSocket>): (vs: seq<Spec.Virtual>)
    reads objects
    ensures |vs| == |objects| && forall i | 0 <= i < |objects| :: vs[i] == objects[i].Value()
  {
    seq(|objects|, i requires 0 <= i < |objects| reads objects => objects[i].Value())
  }

  // A socket that is on its way to CLOSED is detached like any other.
  lemma ClosingFirst(c: Spec.Client, v: nat, code: int, unsubscribe: bool, throws: bool)
    requires v < |c.virtuals|
    ensures Spec.Detach(Spec.SetVirtual(c, v, c.virtuals[v].(state := CLOSING)), v, code, unsubscribe, throws)
         == Spec.Detach(c, v, code, unsubscribe, throws)
  {
    hide Encode;
    var closing := c.virtuals[v := c.virtuals[v].(state := CLOSING)];
    var closed := c.virtuals[v].(state := CLOSED, codes := c.virtuals[v].codes + [code]);
    assert closing[v := closed] == c.virtuals[v := closed];
  }

  /** What one turn of the loop in onopen did. */
  datatype Turn = Skipped | Subscribed | Threw

  function SubscribeOne(c: Spec.Client, room: Text, throws: bool): (Spec.Client, Turn) {
    if room in c.registry.entries && c.registry.entries[room] < |c.virtuals|
       && c.virtuals[c.registry.entries[room]].state.CONNECTING? then
      var v := c.registry.entries[room];
      var (sent, threw) := Spec.SendPhysical(c, Subscribe(room, c.virtuals[v].grant), v, throws);
      if threw then (Spec.ClosePhysicalNormally(sent), Threw) else (sent, Turn.Subscribed)
    else (c, Skipped)
  }

  lemma SubscribeTurn(c: Spec.Client, keys: seq<Text>, i: nat, left: nat)
    requires i < |keys| && Spec.SendsNow(c)
    ensures var (d, turn) := SubscribeOne(c, keys[i], left == 0);
            match turn
            case Threw => Spec.SubscribeAll(c, keys[i..], left) == d
            case Subscribed => left > 0 && Spec.SubscribeAll(c, keys[i..], left) == Spec.SubscribeAll(d, keys[i + 1..], left - 1)
            case Skipped => Spec.SubscribeAll(c, keys[i..], left) == Spec.SubscribeAll(d, keys[i + 1..], left)
  {
    hide Encode;
    assert keys[i..][0] == keys[i] && keys[i..][1..] == keys[i + 1..];
  }

  function FirstOf(callbacks: seq<Spec.Script>): Spec.Script {
    if callbacks == [] then Spec.Nothing else callbacks[0]
  }

  function RestOf(callbacks: seq<Spec.Script>): seq<Spec.Script> {
    if callbacks == [] then [] else callbacks[1..]
  }

  lemma FanOutTurn(c: Spec.Client, ids: seq<nat>, i: nat, code: int, callbacks: seq<Spec.Script>)
    requires i < |ids|
    ensures var v := ids[i];
            Spec.FanOut(c, ids[i..], code, callbacks)
            == if v >= |c.virtuals| || !c.virtuals[v].state.Live() then Spec.FanOut(c, ids[i + 1..], code, RestOf(callbacks))
               else
                 var told := Spec.SetVirtual(c, v, c.virtuals[v].(state := CLOSED, codes := c.virtuals[v].codes + [code]));
                 Spec.FanOut(Spec.Run(told, FirstOf(callbacks)), ids[i + 1..], code, RestOf(callbacks))
  {
    assert ids[i..][0] == ids[i] && ids[i..][1..] == ids[i + 1..];
  }

  lemma SubscribeDone(c: Spec.Client, keys: seq<Text>, left: nat)
    requires keys == [] || !Spec.SendsNow(c)
    ensures Spec.SubscribeAll(c, keys, left) == c
  {
  }

  /**
    createSharedWebSocketAdapter: the closure variables physicalSocket and
    virtualSockets, with every socket made so far; sockets are named by their
    numbers in order of making.
  */
  class Adapter {
    var physicalSocket: Option<nat>
    var physicals: seq<Spec.Physical>
    var made: seq<SharedWebSocket>
    var virtualSockets: OMap<Text, nat>

    ghost predicate Valid()
      reads this
    {
      forall i, j | 0 <= i < j < |made| :: made[i] != made[j]
    }

    ghost function State(): Spec.Client
      reads this, made
    {
      Spec.Client(physicalSocket, physicals, StatesOf(made), virtualSockets)
    }

    // The objects of before are still there, and the others are new.
    twostate predicate Grew()
      reads this
    {
      && old(made) <= made
      && forall i | |old(made)| <= i < |made| :: fresh(made[i])
    }

    constructor ()
      ensures Valid() && State() == Spec.Initial && made == []
    {
      physicalSocket, physicals, made, virtualSockets := None, [], [], OMap([], map[]);
    }

    method SendPhysicalMessage(m: Message, from: nat, throws: bool) returns (threw: bool)
      requires Valid()
      modifies this
      ensures Valid() && made == old(made)
      ensures (State(), threw) == Spec.SendPhysical(old(State()), m, from, throws)
    {
      threw := false;
      if physicalSocket.Some? && physicalSocket.value < |physicals| && physicals[physicalSocket.value].state.OPEN? {
        if Encode(m).Err? || throws {
          threw := true;
        } else {
          var e := physicalSocket.value;
          physicals := physicals[e := physicals[e].(wire := physicals[e].wire + [Packet(m, from)])];
        }
      }
    }

    method ClosePhysical(e: nat, code: Option<int>)
      requires Valid() && e < |physicals|
      modifies this
      ensures Valid() && made == old(made)
      ensures State() == Spec.ClosePhysical(old(State()), e, code)
    {
      if physicals[e].state.Live() {
        physicals := physicals[e := physicals[e].(state := CLOSING, closes := physicals[e].closes + [code])];
      }
    }

    method ClosePhysicalSocketNormally()
      requires Valid()
      modifies this
      ensures Valid() && made == old(made)
      ensures State() == Spec.ClosePhysicalNormally(old(State()))
    {
      if physicalSocket.Some? && physicalSocket.value < |physicals| {
        ClosePhysical(physicalSocket.value, None);
      }
    }

    method OpenPhysicalSocket()
      requires Valid()
      modifies this
      ensures Valid() && made == old(made)
      ensures State() == Spec.OpenPhysical(old(State()))
    {
      physicalSocket := Some(|physicals|);
      physicals := physicals + [Spec.Physical(CONNECTING, [], [])];
    }

    /** The constructor of a virtual socket; throws says that it made none and changed nothing. */
    method Construct(room: Text, grant: Text, constructThrows: bool, sendThrows: bool) returns (throws: bool)
      requires Valid()
      modifies this
      ensures Valid() && Grew()
      ensures State() == Spec.ConstructSocket(old(State()), room, grant, constructThrows, sendThrows)
      ensures throws ==> State() == old(State())
      ensures !throws ==> |made| == |old(made)| + 1 && State().virtuals[|old(made)|].room == room
    {
      throws := true;
      hide Encode, Set;
      if Encode(Subscribe(room, grant)).Err? || virtualSockets.Has(room) {
        return;
      }
      if physicalSocket == None {
        if constructThrows {
          return;
        }
        OpenPhysicalSocket();
      } else {
        var threw := SendPhysicalMessage(Subscribe(room, grant), |made|, sendThrows);
        if threw {
          return;
        }
      }
      throws := false;
      Register(room, grant);
    }

    // A virtual socket like any other, registered for its room.
    method Register(room: Text, grant: Text)
      requires Valid() && physicalSocket.Some?
      modifies this
      ensures Valid() && Grew() && |made| == |old(made)| + 1
      ensures State() == Spec.Register(old(State()), room, grant)
    {
      var socket := new SharedWebSocket(room, grant, physicalSocket.value);
      virtualSockets := Set(virtualSockets, room, |made|);
      made := made + [socket];
    }
  
    /** send() of virtual socket v; throws says that it threw. */
    method Send(v: nat, payload: Bytes, sendThrows: bool) returns (throws: bool)
      requires Valid()
      modifies this, made
      ensures Valid() && made == old(made)
      ensures State() == Spec.SendData(old(State()), v, payload, sendThrows)
    {
      if v >= |made| || !made[v].readyState.OPEN? {
        return true;
      }
      throws := SendPhysicalMessage(Data(made[v].room, payload), v, sendThrows);
      if throws {
        ClosePhysicalSocketNormally();
      } else {
        label before:
        made[v].sent := made[v].sent + [payload];
        Changed@before(v);
      }
    }

    // One object was updated: the state changed at its number only.
    twostate lemma Changed(v: nat)
      requires Valid() && v < |made| && old(made) == made
      requires forall i | 0 <= i < |made| && i != v :: unchanged(made[i])
      requires unchanged(this)
      ensures State() == old(State()).(virtuals := old(State()).virtuals[v := made[v].Value()])
    {
    }

    // closeVirtualSocket up to the callback.
    method Detach(v: nat, code: int, sendUnsubscribe: bool, throws: bool) returns (unsubscribeFailed: bool)
      requires Valid() && v < |made|
      modifies this, made
      ensures Valid() && made == old(made)
      ensures (State(), unsubscribeFailed) == Spec.Detach(old(State()), v, code, sendUnsubscribe, throws)
    {
      var room := made[v].room;
      if virtualSockets.Has(room) && virtualSockets.entries[room] == v {
        virtualSockets := Delete(virtualSockets, room);
      }
      unsubscribeFailed := false;
      if sendUnsubscribe {
        unsubscribeFailed := SendPhysicalMessage(Unsubscribe(room), v, throws);
      }
      label before:
      made[v].readyState := CLOSED;
      made[v].codes := made[v].codes + [code];
      Changed@before(v);
    }

    /** closeVirtualSocket; what the consumer does in its onclose is the script. */
    method CloseVirtualSocket(v: nat, code: int, sendUnsubscribe: bool, throws: bool, onclose: Spec.Script)
      requires Valid()
      modifies this, made
      ensures Valid() && Grew()
      ensures State() == Spec.CloseVirtual(old(State()), v, code, sendUnsubscribe, throws, onclose)
      decreases onclose, 1
    {
      if v >= |made| || !made[v].readyState.Live() {
        return;
      }
      made[v].readyState := CLOSING;
      Changed(v);
      ClosingFirst(old(State()), v, code, sendUnsubscribe, throws);
      var unsubscribeFailed := Detach(v, code, sendUnsubscribe, throws);
      RunCallback(onclose);
      if unsubscribeFailed || virtualSockets.IsEmpty() {
        ClosePhysicalSocketNormally();
      }
    }

    method Apply(op: Spec.Op)
      requires Valid()
      modifies this, made
      ensures Valid() && Grew()
      ensures State() == Spec.Apply(old(State()), op)
      decreases op, 0
    {
      match op
      case Construct(room, grant, constructThrows, sendThrows) => var _ := Construct(room, grant, constructThrows, sendThrows);
      case Close(v, code, sendThrows, onclose) => CloseVirtualSocket(v, code, true, sendThrows, onclose);
      case Send(v, payload, sendThrows) => var _ := Send(v, payload, sendThrows);
    }

    /** A consumer's callback: its operations, one after the other. */
    method RunCallback(script: Spec.Script)
      requires Valid()
      modifies this, made
      ensures Valid() && Grew()
      ensures State() == Spec.Run(old(State()), script)
      decreases script, 0
    {
      match script
      case Nothing =>
      case Do(op, next) =>
        Apply(op);
        RunCallback(next);
    }
  
    // The loop body of onopen.
    method SubscribeRoom(room: Text, throws: bool) returns (turn: Turn)
      requires Valid()
      modifies this
      ensures Valid() && made == old(made) && virtualSockets == old(virtualSockets) && physicalSocket == old(physicalSocket)
      ensures (State(), turn) == SubscribeOne(old(State()), room, throws)
    {
      turn := Skipped;
      if virtualSockets.Has(room) && virtualSockets.entries[room] < |made|
         && made[virtualSockets.entries[room]].readyState.CONNECTING? {
        var v := virtualSockets.entries[room];
        var threw := SendPhysicalMessage(Subscribe(room, made[v].grant), v, throws);
        turn := Turn.Subscribed;
        if threw {
          ClosePhysicalSocketNormally();
          turn := Threw;
        }
      }
    }

    /** onopen of physical socket e: a subscribe for every room registered while it was connecting. */
    method OnOpen(e: nat, failAt: nat)
      requires Valid()
      modifies this
      ensures Valid() && made == old(made)
      ensures State() == Spec.OnOpen(old(State()), e, failAt)
    {
      hide Encode, SubscribeOne;
      if physicalSocket != Some(e) {
        return;
      }
      var keys := virtualSockets.keys;
      var i, left := 0, failAt;
      assert keys[0..] == keys;
      while i < |keys| && e < |physicals| && physicals[e].state.OPEN?
        invariant i <= |keys| && Valid() && made == old(made) && physicalSocket == Some(e)
        invariant Spec.SubscribeAll(State(), keys[i..], left) == Spec.SubscribeAll(old(State()), keys, failAt)
      {
        SubscribeTurn(State(), keys, i, left);
        var turn := SubscribeRoom(keys[i], left == 0);
        if turn.Threw? {
          return;
        }
        if turn.Subscribed? {
          left := left - 1;
        }
        i := i + 1;
      }
      SubscribeDone(State(), keys[i..], left);
    }

    // A registered socket opens, and its consumer is told.
    method TellOpened(v: nat, callback: Spec.Script)
      requires Valid() && v < |made|
      modifies this, made
      ensures Valid() && Grew()
      ensures var c := old(State());
              State() == Spec.Run(Spec.SetVirtual(c, v, c.virtuals[v].(state := OPEN, opens := c.virtuals[v].opens + 1)), callback)
    {
      made[v].readyState := OPEN;
      made[v].opens := made[v].opens + 1;
      Changed(v);
      RunCallback(callback);
    }

    method HandData(v: nat, payload: Bytes, callback: Spec.Script)
      requires Valid() && v < |made|
      modifies this, made
      ensures Valid() && Grew()
      ensures var c := old(State());
              State() == Spec.Run(Spec.SetVirtual(c, v, c.virtuals[v].(received := c.virtuals[v].received + [payload])), callback)
    {
      made[v].received := made[v].received + [payload];
      Changed(v);
      RunCallback(callback);
    }

    // onmessage, once the frame is decoded.
    method Receive(e: nat, m: Message, callback: Spec.Script)
      requires Valid() && e < |physicals|
      modifies this, made
      ensures Valid() && Grew()
      ensures State() == Spec.Receive(old(State()), e, m, callback)
    {
      var registered := virtualSockets.Has(m.room);
      var v := if registered then virtualSockets.entries[m.room] else 0;
      match m
      case Subscribed(_) =>
        if registered && v < |made| && made[v].readyState.CONNECTING? {
          TellOpened(v, callback);
        }
      case Data(_, payload) =>
        if registered && v < |made| && made[v].readyState.OPEN? {
          HandData(v, payload, callback);
        }
      case RoomClosed(_, code) =>
        if registered {
          CloseVirtualSocket(v, code, false, false, callback);
        }
      case _ => ClosePhysical(e, Some(Spec.MULTIPLEX_PROTOCOL_FAILURE_CLOSE_CODE));
    }

    /** onmessage of physical socket e. */
    method OnMessage(e: nat, frame: Bytes, callback: Spec.Script)
      requires Valid() && e < |physicals|
      modifies this, made
      ensures Valid() && Grew()
      ensures State() == Spec.OnMessage(old(State()), e, frame, callback)
    {
      if physicalSocket != Some(e) {
        return;
      }
      var message := Decode(frame);
      if message.Err? {
        ClosePhysical(e, Some(Spec.MULTIPLEX_PROTOCOL_FAILURE_CLOSE_CODE));
      } else {
        Receive(e, message.value, callback);
      }
    }

    /** onerror of physical socket e: one callback for each socket registered when it came. */
    method OnError(e: nat, callbacks: seq<Spec.Script>)
      requires Valid()
      modifies this, made
      ensures Valid() && Grew()
      ensures State() == Spec.OnError(old(State()), e, callbacks)
    {
      if physicalSocket != Some(e) {
        return;
      }
      var count := |virtualSockets.keys|;
      var i := 0;
      while i < count && i < |callbacks|
        invariant i <= count && i <= |callbacks| && Valid() && Grew()
        invariant Spec.RunAll(State(), count - i, callbacks[i..]) == Spec.RunAll(old(State()), count, callbacks)
      {
        RunCallback(callbacks[i]);
        i := i + 1;
      }
    }

    // One turn of the loop in onclose.
    method TellClosed(v: nat, code: int, callback: Spec.Script)
      requires Valid() && v < |made|
      modifies this, made
      ensures Valid() && Grew()
      ensures var c := old(State());
              State() == Spec.Run(Spec.SetVirtual(c, v, c.virtuals[v].(state := CLOSED, codes := c.virtuals[v].codes + [code])), callback)
    {
      made[v].readyState := CLOSED;
      made[v].codes := made[v].codes + [code];
      Changed(v);
      RunCallback(callback);
    }

    // One turn of the loop in onclose, whoever's it is.
    method TellNext(sockets: seq<nat>, i: nat, code: int, callbacks: seq<Spec.Script>)
      requires Valid() && i < |sockets|
      modifies this, made
      ensures Valid() && Grew()
      ensures Spec.FanOut(State(), sockets[i + 1..], code, RestOf(callbacks))
           == Spec.FanOut(old(State()), sockets[i..], code, callbacks)
    {
      FanOutTurn(State(), sockets, i, code, callbacks);
      if sockets[i] < |made| && made[sockets[i]].readyState.Live() {
        TellClosed(sockets[i], code, FirstOf(callbacks));
      }
    }

    // The physical socket is gone, and everybody registered is taken out.
    method TakeOut() returns (sockets: seq<nat>)
      requires Valid() && virtualSockets.Valid()
      modifies this
      ensures Valid() && made == old(made) && sockets == Values(old(virtualSockets))
      ensures State() == old(State()).(physical := None, registry := Empty())
    {
      physicalSocket := None;
      sockets := Values(virtualSockets);
      virtualSockets := Empty();
    }

    /** onclose of physical socket e: everybody registered is taken out at once, then told one by one. */
    method OnClose(e: nat, code: int, callbacks: seq<Spec.Script>)
      requires Valid() && virtualSockets.Valid()
      modifies this, made
      ensures Valid() && Grew()
      ensures State() == Spec.OnClose(old(State()), e, code, callbacks)
    {
      if physicalSocket != Some(e) {
        return;
      }
      var sockets := TakeOut();
      var i, rest := 0, callbacks;
      assert sockets[0..] == sockets;
      while i < |sockets|
        invariant i <= |sockets| && Valid() && Grew()
        invariant Spec.FanOut(State(), sockets[i..], code, rest) == Spec.OnClose(old(State()), e, code, callbacks)
      {
        TellNext(sockets, i, code, rest);
        i, rest := i + 1, RestOf(rest);
      }
    }
  }
}
