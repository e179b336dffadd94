/**
  The client multiplexer, as functions on its state: one physical WebSocket at a
  time, one virtual socket per room. A consumer callback is any finite sequence
  of public operations, and each of those may trigger further callbacks; that
  tree of choices is a Script. Physical close() never reports synchronously: the
  close event comes later, as an event of its own.
*/
module SharedWebSocket {
  import opened Basics
  import opened Sockets
  import opened Unicode
  import opened Protocol
  import opened OrderedMap
  import opened RoomFrames

  const MULTIPLEX_PROTOCOL_FAILURE_CLOSE_CODE := 4006

  /** A physical WebSocket: its state, the frames handed to it, the codes given to close() while it was not closing. */
  datatype Physical = Physical(state: ReadyState, wire: seq<Packet>, closes: seq<Option<int>>)

  /**
    A virtual socket. home is the physical socket it was registered under; opens
    and closes count the onopen and onclose events it was given, codes and
    received list what onclose and onmessage reported, sent the payloads that
    send() accepted.
  */
  datatype Virtual = Virtual(
    room: Text,
    grant: Text,
    home: nat,
    state: ReadyState,
    opens: nat,
    codes: seq<int>,
    sent: seq<Bytes>,
    received: seq<Bytes>)

  /** The closure state of the adapter, with every socket it ever made. */
  datatype Client = Client(
    physical: Option<nat>,
    sockets: seq<Physical>,
    virtuals: seq<Virtual>,
    registry: OMap<Text, nat>)

  /** What a consumer does inside a callback. */
  datatype Script = Nothing | Do(op: Op, next: Script)

  /**
    A public operation, with what the environment answers: whether constructing
    the physical socket or sending on it throws, and what the callback does.
  */
  datatype Op =
    | Construct(room: Text, grant: Text, constructThrows: bool, sendThrows: bool)
    | Close(socket: nat, code: int, sendThrows: bool, onclose: Script)
    | Send(socket: nat, payload: Bytes, sendThrows: bool)

  const Initial := Client(None, [], [], OMap([], map[]))

  predicate SendsNow(c: Client) {
    c.physical.Some? && c.physical.value < |c.sockets| && c.sockets[c.physical.value].state.OPEN?
  }

  function SetPhysical(c: Client, e: nat, socket: Physical): Client
    requires e < |c.sockets|
  {
    c.(sockets := c.sockets[e := socket])
  }

  function SetVirtual(c: Client, v: nat, socket: Virtual): Client
    requires v < |c.virtuals|
  {
    c.(virtuals := c.virtuals[v := socket])
  }

  // sendPhysicalMessage: silent unless the physical socket is open; the flag says that it threw.
  function SendPhysical(c: Client, m: Message, from: nat, throws: bool): (Client, bool) {
    if !SendsNow(c) then (c, false)
    else if Encode(m).Err? || throws then (c, true)
    else
      var e := c.physical.value;
      (SetPhysical(c, e, c.sockets[e].(wire := c.sockets[e].wire + [Packet(m, from)])), false)
  }

  // close() on physical socket e: it does nothing on one that is already closing.
  function ClosePhysical(c: Client, e: nat, code: Option<int>): Client
    requires e < |c.sockets|
  {
    if c.sockets[e].state.Live()
    then SetPhysical(c, e, c.sockets[e].(state := CLOSING, closes := c.sockets[e].closes + [code]))
    else c
  }

  function ClosePhysicalNormally(c: Client): Client {
    if c.physical.Some? && c.physical.value < |c.sockets| then ClosePhysical(c, c.physical.value, None) else c
  }

  function OpenPhysical(c: Client): Client {
    c.(physical := Some(|c.sockets|), sockets := c.sockets + [Physical(CONNECTING, [], [])])
  }

  function Register(c: Client, room: Text, grant: Text): Client
    requires c.physical.Some?
  {
    var v := Virtual(room, grant, c.physical.value, CONNECTING, 0, [], [], []);
    c.(virtuals := c.virtuals + [v], registry := Set(c.registry, room, |c.virtuals|))
  }

  // The constructor. It throws, and changes nothing, where this returns c itself.
  function ConstructSocket(c: Client, room: Text, grant: Text, constructThrows: bool, sendThrows: bool): Client {
    if Encode(Subscribe(room, grant)).Err? then c
    else if c.registry.Has(room) then c
    else if c.physical.None? then
      if constructThrows then c else Register(OpenPhysical(c), room, grant)
    else
      var (sent, threw) := SendPhysical(c, Subscribe(room, grant), |c.virtuals|, sendThrows);
      if threw then c else Register(sent, room, grant)
  }

  function SendData(c: Client, v: nat, payload: Bytes, throws: bool): Client {
    if v >= |c.virtuals| || !c.virtuals[v].state.OPEN? then c
    else
      var (sent, threw) := SendPhysical(c, Data(c.virtuals[v].room, payload), v, throws);
      if threw then ClosePhysicalNormally(sent)
      else SetVirtual(sent, v, sent.virtuals[v].(sent := sent.virtuals[v].sent + [payload]))
  }

  // closeVirtualSocket up to the callback: v is taken out, told CLOSED, and an unsubscribe is tried.
  function Detach(c: Client, v: nat, code: int, unsubscribe: bool, throws: bool): (Client, bool)
    requires v < |c.virtuals|
  {
    var room := c.virtuals[v].room;
    var registered := room in c.registry.entries && c.registry.entries[room] == v;
    var out := if registered then c.(registry := Delete(c.registry, room)) else c;
    var (sent, threw) := if unsubscribe then SendPhysical(out, Unsubscribe(room), v, throws) else (out, false);
    (SetVirtual(sent, v, sent.virtuals[v].(state := CLOSED, codes := sent.virtuals[v].codes + [code])), threw)
  }

  function CloseVirtual(c: Client, v: nat, code: int, unsubscribe: bool, throws: bool, onclose: Script): Client
    decreases onclose, 1
  {
    if v >= |c.virtuals| || !c.virtuals[v].state.Live() then c
    else
      var (detached, threw) := Detach(c, v, code, unsubscribe, throws);
      var called := Run(detached, onclose);
      if threw || called.registry.IsEmpty() then ClosePhysicalNormally(called) else called
  }

  function Apply(c: Client, op: Op): Client
    decreases op, 0
  {
    match op
    case Construct(room, grant, constructThrows, sendThrows) => ConstructSocket(c, room, grant, constructThrows, sendThrows)
    case Close(v, code, sendThrows, onclose) => CloseVirtual(c, v, code, true, sendThrows, onclose)
    case Send(v, payload, sendThrows) => SendData(c, v, payload, sendThrows)
  }

  /** A callback: its operations, one after the other. */
  function Run(c: Client, script: Script): Client
    decreases script, 0
  {
    match script
    case Nothing => c
    case Do(op, next) => Run(Apply(c, op), next)
  }

  // ---------- the handlers of physical socket e ----------

  // onopen: one subscribe for each registered room, in registration order; send number failAt throws.
  function SubscribeAll(c: Client, keys: seq<Text>, failAt: nat): Client
    decreases |keys|
  {
    if keys == [] || !SendsNow(c) then c
    else if keys[0] in c.registry.entries && c.registry.entries[keys[0]] < |c.virtuals|
            && c.virtuals[c.registry.entries[keys[0]]].state.CONNECTING? then
      var v := c.registry.entries[keys[0]];
      var (sent, threw) := SendPhysical(c, Subscribe(keys[0], c.virtuals[v].grant), v, failAt == 0);
      if threw then ClosePhysicalNormally(sent)
      else SubscribeAll(sent, keys[1..], failAt - 1)
    else SubscribeAll(c, keys[1..], failAt)
  }

  function OnOpen(c: Client, e: nat, failAt: nat): Client {
    if c.physical != Some(e) then c else SubscribeAll(c, c.registry.keys, failAt)
  }

  // onmessage after decoding; script is what the callback that this triggers does.
  function Receive(c: Client, e: nat, m: Message, script: Script): Client
    requires e < |c.sockets|
  {
    match m
    case Subscribed(room) =>
      if c.registry.Has(room) && c.registry.entries[room] < |c.virtuals|
         && c.virtuals[c.registry.entries[room]].state.CONNECTING? then
        var v := c.registry.entries[room];
        Run(SetVirtual(c, v, c.virtuals[v].(state := OPEN, opens := c.virtuals[v].opens + 1)), script)
      else c
    case Data(room, payload) =>
      if c.registry.Has(room) && c.registry.entries[room] < |c.virtuals|
         && c.virtuals[c.registry.entries[room]].state.OPEN? then
        var v := c.registry.entries[room];
        Run(SetVirtual(c, v, c.virtuals[v].(received := c.virtuals[v].received + [payload])), script)
      else c
    case RoomClosed(room, code) =>
      if c.registry.Has(room) then CloseVirtual(c, c.registry.entries[room], code, false, false, script) else c
    case _ => ClosePhysical(c, e, Some(MULTIPLEX_PROTOCOL_FAILURE_CLOSE_CODE))
  }

  function OnMessage(c: Client, e: nat, frame: Bytes, script: Script): Client
    requires e < |c.sockets|
  {
    if c.physical != Some(e) then c
    else match Decode(frame)
      case Err(_) => ClosePhysical(c, e, Some(MULTIPLEX_PROTOCOL_FAILURE_CLOSE_CODE))
      case Ok(m) => Receive(c, e, m, script)
  }

  // One callback per socket registered when the error event came.
  function RunAll(c: Client, count: nat, scripts: seq<Script>): Client
    decreases count
  {
    if count == 0 || scripts == [] then c else RunAll(Run(c, scripts[0]), count - 1, scripts[1..])
  }

  function OnError(c: Client, e: nat, scripts: seq<Script>): Client {
    if c.physical != Some(e) then c else RunAll(c, |c.registry.keys|, scripts)
  }

  // The close fan-out over the sockets that were registered when the close event came.
  function FanOut(c: Client, ids: seq<nat>, code: int, scripts: seq<Script>): Client
    decreases |ids|
  {
    if ids == [] then c
    else
      var script := if scripts == [] then Nothing else scripts[0];
      var rest := if scripts == [] then [] else scripts[1..];
      var v := ids[0];
      if v >= |c.virtuals| || !c.virtuals[v].state.Live() then FanOut(c, ids[1..], code, rest)
      else
        var told := SetVirtual(c, v, c.virtuals[v].(state := CLOSED, codes := c.virtuals[v].codes + [code]));
        FanOut(Run(told, script), ids[1..], code, rest)
  }

  function OnClose(c: Client, e: nat, code: int, scripts: seq<Script>): Client
    requires c.registry.Valid()
  {
    if c.physical != Some(e) then c
    else FanOut(c.(physical := None, registry := Empty()), Values(c.registry), code, scripts)
  }

  // ---------- what can happen to the client ----------

  datatype Event =
    | Consumer(op: Op)
    | Opened(socket: nat, failAt: nat)
    | Message(socket: nat, frame: Bytes, callback: Script)
    | Errored(socket: nat, callbacks: seq<Script>)
    | Closed(socket: nat, code: int, callbacks: seq<Script>)

  /** A physical socket opens once, carries messages until it is closed, and closes once. */
  predicate Enabled(c: Client, event: Event) {
    match event
    case Consumer(_) => true
    case Opened(e, _) => e < |c.sockets| && c.sockets[e].state.CONNECTING?
    case Message(e, _, _) => e < |c.sockets| && (c.sockets[e].state.OPEN? || c.sockets[e].state.CLOSING?)
    case Errored(e, _) => e < |c.sockets|
    case Closed(e, _, _) => e < |c.sockets| && !c.sockets[e].state.CLOSED?
  }

  function Step(c: Client, event: Event): Client
    requires c.registry.Valid() && Enabled(c, event)
  {
    match event
    case Consumer(op) => Apply(c, op)
    case Opened(e, failAt) => OnOpen(SetPhysical(c, e, c.sockets[e].(state := OPEN)), e, failAt)
    case Message(e, frame, callback) => OnMessage(c, e, frame, callback)
    case Errored(e, callbacks) => OnError(c, e, callbacks)
    case Closed(e, code, callbacks) => OnClose(SetPhysical(c, e, c.sockets[e].(state := CLOSED)), e, code, callbacks)
  }
}
