/** Which close code a virtual socket reports: that of whoever closed it. */
module SharedWebSocketCodes {
  import opened Basics
  import opened Sockets
  import opened Unicode
  import opened Protocol
  import opened OrderedMap
  import opened RoomFrames
  import opened SharedWebSocket
  import opened SharedWebSocketProofs
  import opened SharedWebSocketRuns

  // ---------- what callbacks ask for ----------

  /** The closings that an operation asks for, with those in the callbacks it leads to: which socket, with which code. */
  function ClosingsOf(op: Op): set<(nat, int)>
    decreases op, 0
  {
    match op
    case Close(v, code, _, onclose) => {(v, code)} + Closings(onclose)
    case _ => {}
  }

  function Closings(script: Script): set<(nat, int)>
    decreases script, 0
  {
    match script
    case Nothing => {}
    case Do(op, next) => ClosingsOf(op) + Closings(next)
  }

  function ClosingsOfAll(scripts: seq<Script>): set<(nat, int)> {
    if scripts == [] then {} else Closings(scripts[0]) + ClosingsOfAll(scripts[1..])
  }

  /** The closings that an event asks for: its callbacks', and its own where it closes virtual sockets. */
  function Asked(c: Client, event: Event): set<(nat, int)> {
    match event
    case Consumer(op) => ClosingsOf(op)
    case Opened(_, _) => {}
    case Message(e, frame, callback) =>
      Closings(callback)
      + (match Decode(frame)
         case Ok(RoomClosed(room, code)) => if c.registry.Has(room) then {(c.registry.entries[room], code)} else {}
         case _ => {})
    case Errored(_, callbacks) => ClosingsOfAll(callbacks)
    case Closed(_, code, callbacks) => (set room | room in c.registry.entries :: (c.registry.entries[room], code)) + ClosingsOfAll(callbacks)
  }

  // ---------- only what was asked for is told ----------

  function CodesOf(c: Client, v: nat): seq<int> {
    if v < |c.virtuals| then c.virtuals[v].codes else []
  }

  predicate Closes(s: Virtual, t: Virtual) {
    && (t.state.CLOSED? <==> s.state.CLOSED? || |s.codes| < |t.codes|)
    && (s.state.CLOSED? ==> t.codes == s.codes)
    && (t.state.CLOSING? ==> s.state.CLOSING?)
  }

  /** Whoever is told a code is told one that was asked for, and closed; whoever was closed before is told nothing more. */
  ghost predicate Tells(c: Client, d: Client, asked: set<(nat, int)>) {
    && |c.virtuals| <= |d.virtuals|
    && (forall v: nat :: CodesOf(c, v) <= CodesOf(d, v))
    && (forall v: nat, i: nat | |CodesOf(c, v)| <= i < |CodesOf(d, v)| :: (v, CodesOf(d, v)[i]) in asked)
    && (forall v | 0 <= v < |c.virtuals| :: Closes(c.virtuals[v], d.virtuals[v]))
  }

  lemma TellsTransitive(c: Client, d: Client, f: Client, first: set<(nat, int)>, second: set<(nat, int)>)
    requires Tells(c, d, first) && Tells(d, f, second)
    ensures Tells(c, f, first + second)
  {
    forall v: nat, i: nat | |CodesOf(c, v)| <= i < |CodesOf(f, v)|
      ensures (v, CodesOf(f, v)[i]) in first + second
    {
      if i < |CodesOf(d, v)| {
        assert CodesOf(f, v)[i] == CodesOf(d, v)[i];
      }
    }
    forall v | 0 <= v < |c.virtuals|
      ensures Closes(c.virtuals[v], f.virtuals[v])
    {
      assert Closes(c.virtuals[v], d.virtuals[v]) && Closes(d.virtuals[v], f.virtuals[v]);
      assert CodesOf(c, v) <= CodesOf(d, v) <= CodesOf(f, v);
    }
  }

  predicate SameEnd(s: ReadyState, t: ReadyState) {
    (t.CLOSED? <==> s.CLOSED?) && (t.CLOSING? ==> s.CLOSING?)
  }

  // The virtual sockets of before have the codes they had; new ones have none.
  lemma NothingTold(c: Client, d: Client)
    requires |c.virtuals| <= |d.virtuals|
    requires forall v | 0 <= v < |c.virtuals| ::
               d.virtuals[v].codes == c.virtuals[v].codes && SameEnd(c.virtuals[v].state, d.virtuals[v].state)
    requires forall v | |c.virtuals| <= v < |d.virtuals| :: d.virtuals[v].codes == []
    ensures Tells(c, d, {})
  {
  }

  lemma NobodyIsTold(c: Client, d: Client)
    requires d.virtuals == c.virtuals
    ensures Tells(c, d, {})
  {
  }

  lemma OneIsTold(c: Client, d: Client, v: nat, code: int)
    requires v < |c.virtuals| && !c.virtuals[v].state.CLOSED? && |d.virtuals| == |c.virtuals|
    requires d.virtuals == c.virtuals[v := c.virtuals[v].(state := CLOSED, codes := c.virtuals[v].codes + [code])]
    ensures Tells(c, d, {(v, code)})
  {
  }

  lemma MoreAsked(c: Client, d: Client, asked: set<(nat, int)>, more: set<(nat, int)>)
    requires Tells(c, d, asked) && asked <= more
    ensures Tells(c, d, more)
  {
  }

  lemma PlainTells(c: Client, op: Op)
    requires !op.Close?
    ensures Tells(c, Apply(c, op), {})
  {
    hide Encode;
    NothingTold(c, Apply(c, op));
  }

  /** closeVirtualSocket: a socket that is not closed yet is told this code and no other, whatever its callback does. */
  lemma {:induction false} CloseTells(c: Client, v: nat, code: int, unsubscribe: bool, throws: bool, onclose: Script)
    ensures var d := CloseVirtual(c, v, code, unsubscribe, throws, onclose);
            && Tells(c, d, {(v, code)} + Closings(onclose))
            && (v < |c.virtuals| && c.virtuals[v].state.Live() ==>
                  v < |d.virtuals| && d.virtuals[v].state.CLOSED? && d.virtuals[v].codes == c.virtuals[v].codes + [code])
    decreases onclose, 1
  {
    var d := CloseVirtual(c, v, code, unsubscribe, throws, onclose);
    if v >= |c.virtuals| || !c.virtuals[v].state.Live() {
      NobodyIsTold(c, c);
      MoreAsked(c, c, {}, {(v, code)} + Closings(onclose));
    } else {
      var detached := Detach(c, v, code, unsubscribe, throws).0;
      var called := Run(detached, onclose);
      assert detached.virtuals == c.virtuals[v := c.virtuals[v].(state := CLOSED, codes := c.virtuals[v].codes + [code])] by { hide Encode; }
      assert d.virtuals == called.virtuals by { hide Run, Detach; }
      OneIsTold(c, detached, v, code);
      RunTells(detached, onclose);
      NobodyIsTold(called, d);
      hide Tells, Detach, CloseVirtual, Run;
      TellsTransitive(c, detached, called, {(v, code)}, Closings(onclose));
      TellsTransitive(c, called, d, {(v, code)} + Closings(onclose), {});
      TellsTransitive(detached, called, d, Closings(onclose), {});
      StillTold(detached, d, v, Closings(onclose) + {});
    }
  }

  lemma StillTold(c: Client, d: Client, v: nat, asked: set<(nat, int)>)
    requires Tells(c, d, asked) && v < |c.virtuals| && c.virtuals[v].state.CLOSED?
    ensures v < |d.virtuals| && d.virtuals[v].state.CLOSED? && d.virtuals[v].codes == c.virtuals[v].codes
  {
  }

  lemma {:induction false} ApplyTells(c: Client, op: Op)
    ensures Tells(c, Apply(c, op), ClosingsOf(op))
    decreases op, 0
  {
    match op
    case Close(v, code, throws, onclose) => CloseTells(c, v, code, true, throws, onclose);
    case _ => PlainTells(c, op);
  }

  lemma {:induction false} RunTells(c: Client, script: Script)
    ensures Tells(c, Run(c, script), Closings(script))
    decreases script, 0
  {
    match script
    case Nothing => NobodyIsTold(c, c);
    case Do(op, next) =>
      hide Tells, Apply;
      ApplyTells(c, op);
      RunTells(Apply(c, op), next);
      TellsTransitive(c, Apply(c, op), Run(Apply(c, op), next), ClosingsOf(op), Closings(next));
  }

  lemma {:induction false} SubscribeAllTells(c: Client, keys: seq<Text>, failAt: nat)
    ensures SubscribeAll(c, keys, failAt).virtuals == c.virtuals
    decreases |keys|
  {
    hide Encode;
    if keys != [] {
      SubscribeAllTells(c, keys[1..], failAt);
      if keys[0] in c.registry.entries && c.registry.entries[keys[0]] < |c.virtuals| {
        var v := c.registry.entries[keys[0]];
        var sent := SendPhysical(c, Subscribe(keys[0], c.virtuals[v].grant), v, failAt == 0).0;
        if failAt > 0 {
          SubscribeAllTells(sent, keys[1..], failAt - 1);
        }
      }
    }
  }

  lemma ReceiveTells(c: Client, e: nat, m: Protocol.Message, script: Script)
    requires e < |c.sockets|
    ensures Tells(c, Receive(c, e, m, script),
                  Closings(script) + if m.RoomClosed? && c.registry.Has(m.room) then {(c.registry.entries[m.room], m.code)} else {})
  {
    var d := Receive(c, e, m, script);
    match m
    case RoomClosed(room, code) =>
      if c.registry.Has(room) {
        CloseTells(c, c.registry.entries[room], code, false, false, script);
        assert Closings(script) + {(c.registry.entries[room], code)} == {(c.registry.entries[room], code)} + Closings(script);
      } else {
        NobodyIsTold(c, c);
        MoreAsked(c, c, {}, Closings(script) + {});
      }
    case Subscribed(room) =>
      if c.registry.Has(room) && c.registry.entries[room] < |c.virtuals| && c.virtuals[c.registry.entries[room]].state.CONNECTING? {
        var v := c.registry.entries[room];
        ToldThenRun(c, SetVirtual(c, v, c.virtuals[v].(state := OPEN, opens := c.virtuals[v].opens + 1)), script);
      } else {
        NobodyIsTold(c, c);
        MoreAsked(c, c, {}, Closings(script) + {});
      }
    case Data(room, payload) =>
      if c.registry.Has(room) && c.registry.entries[room] < |c.virtuals| && c.virtuals[c.registry.entries[room]].state.OPEN? {
        var v := c.registry.entries[room];
        ToldThenRun(c, SetVirtual(c, v, c.virtuals[v].(received := c.virtuals[v].received + [payload])), script);
      } else {
        NobodyIsTold(c, c);
        MoreAsked(c, c, {}, Closings(script) + {});
      }
    case _ =>
      NobodyIsTold(c, d);
      MoreAsked(c, d, {}, Closings(script) + {});
  }

  // A callback of somebody who has not been told a code.
  lemma ToldThenRun(c: Client, told: Client, script: Script)
    requires |told.virtuals| == |c.virtuals|
    requires forall v | 0 <= v < |c.virtuals| :: told.virtuals[v].codes == c.virtuals[v].codes && SameEnd(c.virtuals[v].state, told.virtuals[v].state)
    ensures Tells(c, Run(told, script), Closings(script) + {})
  {
    NothingTold(c, told);
    RunTells(told, script);
    hide Tells, Run;
    TellsTransitive(c, told, Run(told, script), {}, Closings(script));
    assert {} + Closings(script) == Closings(script) + {};
  }

  lemma {:induction false} RunAllTells(c: Client, count: nat, scripts: seq<Script>)
    ensures Tells(c, RunAll(c, count, scripts), ClosingsOfAll(scripts))
    decreases count
  {
    if count == 0 || scripts == [] {
      NobodyIsTold(c, c);
      MoreAsked(c, c, {}, ClosingsOfAll(scripts));
    } else {
      var first := Run(c, scripts[0]);
      RunTells(c, scripts[0]);
      RunAllTells(first, count - 1, scripts[1..]);
      hide Tells, Run;
      TellsTransitive(c, first, RunAll(first, count - 1, scripts[1..]), Closings(scripts[0]), ClosingsOfAll(scripts[1..]));
    }
  }

  // ---------- the close fan-out ----------

  // What the turn of the first socket does: it is told the code unless it is closed already, and its callback runs.
  function Turn(c: Client, v: nat, code: int, script: Script): Client {
    if v >= |c.virtuals| || !c.virtuals[v].state.Live() then c
    else Run(SetVirtual(c, v, c.virtuals[v].(state := CLOSED, codes := c.virtuals[v].codes + [code])), script)
  }

  lemma TurnTells(c: Client, v: nat, code: int, script: Script)
    ensures var d := Turn(c, v, code, script);
            && Tells(c, d, {(v, code)} + Closings(script))
            && (v < |c.virtuals| && c.virtuals[v].state.Live() ==>
                  v < |d.virtuals| && d.virtuals[v].state.CLOSED? && d.virtuals[v].codes == c.virtuals[v].codes + [code])
  {
    NobodyIsTold(c, c);
    MoreAsked(c, c, {}, {(v, code)} + Closings(script));
    if v < |c.virtuals| && c.virtuals[v].state.Live() {
      var told := SetVirtual(c, v, c.virtuals[v].(state := CLOSED, codes := c.virtuals[v].codes + [code]));
      OneIsTold(c, told, v, code);
      RunTells(told, script);
      StillTold(told, Run(told, script), v, Closings(script));
      hide Tells, Run;
      TellsTransitive(c, told, Run(told, script), {(v, code)}, Closings(script));
    }
  }

  function First(scripts: seq<Script>): Script {
    if scripts == [] then Nothing else scripts[0]
  }

  function Rest(scripts: seq<Script>): seq<Script> {
    if scripts == [] then [] else scripts[1..]
  }

  lemma FanOutTurns(c: Client, ids: seq<nat>, code: int, scripts: seq<Script>)
    requires ids != []
    ensures FanOut(c, ids, code, scripts) == FanOut(Turn(c, ids[0], code, First(scripts)), ids[1..], code, Rest(scripts))
  {
    hide Run;
  }

  function Each(ids: seq<nat>, code: int): set<(nat, int)> {
    set v | v in ids :: (v, code)
  }

  lemma {:induction false} FanOutTells(c: Client, ids: seq<nat>, code: int, scripts: seq<Script>)
    ensures Tells(c, FanOut(c, ids, code, scripts), Each(ids, code) + ClosingsOfAll(scripts))
    decreases |ids|
  {
    if ids == [] {
      NobodyIsTold(c, c);
      MoreAsked(c, c, {}, Each(ids, code) + ClosingsOfAll(scripts));
    } else {
      var next := Turn(c, ids[0], code, First(scripts));
      var first := {(ids[0], code)} + Closings(First(scripts));
      var rest := Each(ids[1..], code) + ClosingsOfAll(Rest(scripts));
      hide Tells, Turn, FanOut;
      TurnTells(c, ids[0], code, First(scripts));
      FanOutTells(next, ids[1..], code, Rest(scripts));
      FanOutTurns(c, ids, code, scripts);
      TellsTransitive(c, next, FanOut(c, ids, code, scripts), first, rest);
      MoreAsked(c, FanOut(c, ids, code, scripts), first + rest, Each(ids, code) + ClosingsOfAll(scripts));
    }
  }

  // The callbacks of the first k sockets of the fan-out.
  function Earlier(scripts: seq<Script>, k: nat): seq<Script> {
    if k < |scripts| then scripts[..k] else scripts
  }

  lemma EarlierFirst(scripts: seq<Script>, k: nat)
    requires k > 0
    ensures ClosingsOfAll(Earlier(scripts, k)) == Closings(First(scripts)) + ClosingsOfAll(Earlier(Rest(scripts), k - 1))
  {
    if 0 < |scripts| && k < |scripts| {
      assert scripts[..k][1..] == scripts[1..][..k - 1];
    }
  }

  /** Live and told nothing, or closed and told something. */
  predicate Told(s: Virtual) {
    !s.state.CLOSING? && (s.state.CLOSED? <==> s.codes != [])
  }

  /** Socket number k of the fan-out: if it is live it is told this code, unless a callback that comes before closes it. */
  lemma {:induction false} FanOutReports(c: Client, ids: seq<nat>, code: int, scripts: seq<Script>, k: nat)
    requires k < |ids| && ids[k] < |c.virtuals| && Told(c.virtuals[ids[k]]) && forall i | 0 <= i < k :: ids[i] != ids[k]
    ensures var v := ids[k];
            var d := FanOut(c, ids, code, scripts);
            && v < |d.virtuals| && d.virtuals[v].state.CLOSED?
            && (if c.virtuals[v].state.CLOSED? then d.virtuals[v].codes == c.virtuals[v].codes
                else
                  && d.virtuals[v].codes != []
                  && (d.virtuals[v].codes == [code] || (v, d.virtuals[v].codes[0]) in ClosingsOfAll(Earlier(scripts, k))))
    decreases k
  {
    var v := ids[k];
    var next := Turn(c, ids[0], code, First(scripts));
    var d := FanOut(c, ids, code, scripts);
    FanOutTurns(c, ids, code, scripts);
    TurnTells(c, ids[0], code, First(scripts));
    FanOutTells(next, ids[1..], code, Rest(scripts));
    hide FanOut, Turn, ClosingsOfAll, Closings, Earlier;
    assert Closes(c.virtuals[v], next.virtuals[v]) && Closes(next.virtuals[v], d.virtuals[v]);
    if k > 0 {
      EarlierFirst(scripts, k);
      assert ids[1..][k - 1] == v;
      FanOutReports(next, ids[1..], code, Rest(scripts), k - 1);
      if c.virtuals[v].state.Live() && next.virtuals[v].state.CLOSED? {
        assert (v, CodesOf(next, v)[0]) in {(ids[0], code)} + Closings(First(scripts));
      }
    }
  }

  // ---------- the promises ----------

  lemma OpenedTells(c: Client, e: nat, failAt: nat)
    requires e < |c.sockets|
    ensures Tells(c, OnOpen(SetPhysical(c, e, c.sockets[e].(state := OPEN)), e, failAt), {})
  {
    var up := SetPhysical(c, e, c.sockets[e].(state := OPEN));
    SubscribeAllTells(up, c.registry.keys, failAt);
    hide SubscribeAll, Tells;
    NobodyIsTold(c, OnOpen(up, e, failAt));
  }

  lemma MessageTells(c: Client, e: nat, frame: Bytes, callback: Script)
    requires e < |c.sockets|
    ensures Tells(c, OnMessage(c, e, frame, callback), Asked(c, Message(e, frame, callback)))
  {
    var d := OnMessage(c, e, frame, callback);
    hide Tells, Decode, Receive;
    if c.physical == Some(e) && Decode(frame).Ok? {
      ReceiveTells(c, e, Decode(frame).value, callback);
    } else {
      NobodyIsTold(c, d);
      MoreAsked(c, d, {}, Asked(c, Message(e, frame, callback)));
    }
  }

  lemma ClosedTells(c: Client, e: nat, code: int, callbacks: seq<Script>)
    requires e < |c.sockets| && c.registry.Valid()
    ensures Tells(c, OnClose(SetPhysical(c, e, c.sockets[e].(state := CLOSED)), e, code, callbacks), Asked(c, Closed(e, code, callbacks)))
  {
    var down := SetPhysical(c, e, c.sockets[e].(state := CLOSED));
    var dropped := down.(physical := None, registry := Empty());
    var d := OnClose(down, e, code, callbacks);
    hide Tells, FanOut;
    if c.physical == Some(e) {
      var ids := Values(c.registry);
      NobodyIsTold(c, dropped);
      FanOutTells(dropped, ids, code, callbacks);
      TellsTransitive(c, dropped, d, {}, Each(ids, code) + ClosingsOfAll(callbacks));
      MoreAsked(c, d, {} + (Each(ids, code) + ClosingsOfAll(callbacks)), Asked(c, Closed(e, code, callbacks)));
    } else {
      NobodyIsTold(c, d);
      MoreAsked(c, d, {}, Asked(c, Closed(e, code, callbacks)));
    }
  }

  /** In every event, whoever is told a close code is told one that the event asked for. */
  lemma StepTells(c: Client, event: Event)
    requires c.registry.Valid() && Enabled(c, event)
    ensures Tells(c, Step(c, event), Asked(c, event))
  {
    hide Tells, Asked, Apply, OnOpen, OnMessage, OnClose, RunAll;
    match event
    case Consumer(op) =>
      ApplyTells(c, op);
      AskedBy(c, event);
    case Opened(e, failAt) =>
      OpenedTells(c, e, failAt);
      AskedBy(c, event);
    case Message(e, frame, callback) => MessageTells(c, e, frame, callback);
    case Errored(e, callbacks) =>
      AskedBy(c, event);
      RunAllTells(c, |c.registry.keys|, callbacks);
      NobodyIsTold(c, c);
      MoreAsked(c, c, {}, ClosingsOfAll(callbacks));
    case Closed(e, code, callbacks) => ClosedTells(c, e, code, callbacks);
  }

  lemma AskedBy(c: Client, event: Event)
    ensures event.Consumer? ==> Asked(c, event) == ClosingsOf(event.op)
    ensures event.Opened? ==> Asked(c, event) == {}
    ensures event.Errored? ==> Asked(c, event) == ClosingsOfAll(event.callbacks)
  {
  }

  /** A virtual socket that its consumer closes reports the consumer's code, whatever its callback does. */
  lemma CloseReportsItsCode(c: Client, v: nat, code: int, throws: bool, onclose: Script)
    requires Inv(c) && v < |c.virtuals| && c.virtuals[v].state.Live()
    ensures var d := Step(c, Consumer(Close(v, code, throws, onclose)));
            v < |d.virtuals| && d.virtuals[v].state.CLOSED? && d.virtuals[v].codes == [code]
  {
    CloseTells(c, v, code, true, throws, onclose);
    assert VirtualOk(c.virtuals[v], |c.sockets|);
    hide Keeps, Tells, CloseVirtual;
  }

  /** A room_closed makes the virtual socket registered for its room report the frame's code. */
  lemma RoomClosedReportsItsCode(c: Client, e: nat, frame: Bytes, room: Text, code: int, callback: Script)
    requires Inv(c) && Enabled(c, Message(e, frame, callback)) && Decode(frame) == Ok(RoomClosed(room, code)) && c.registry.Has(room)
    ensures var v := c.registry.entries[room];
            var d := Step(c, Message(e, frame, callback));
            v < |d.virtuals| && d.virtuals[v].state.CLOSED? && d.virtuals[v].codes == [code]
  {
    hide Inv, Keeps, Forward, Tells, CloseVirtual, Decode, Step, Enabled;
    IsTold(c, room);
    MessageKeeps(c, e, frame, callback);
    RoomClosedShape(c, e, frame, room, code, callback);
    CloseTells(c, c.registry.entries[room], code, false, false, callback);
  }

  // A registered socket is live and has been told nothing, and it is registered once.
  lemma IsTold(c: Client, room: Text)
    requires Inv(c) && c.registry.Has(room)
    ensures c.registry.Valid()
    ensures var v := c.registry.entries[room];
            v < |c.virtuals| && c.virtuals[v].room == room && c.virtuals[v].state.Live() && c.virtuals[v].codes == []
  {
    var v := c.registry.entries[room];
    assert EntryOk(c, room, v) && VirtualOk(c.virtuals[v], |c.sockets|);
  }

  lemma RoomClosedShape(c: Client, e: nat, frame: Bytes, room: Text, code: int, callback: Script)
    requires c.registry.Valid() && Enabled(c, Message(e, frame, callback)) && c.physical == Some(e)
    requires Decode(frame) == Ok(RoomClosed(room, code)) && c.registry.Has(room)
    ensures Step(c, Message(e, frame, callback)) == CloseVirtual(c, c.registry.entries[room], code, false, false, callback)
  {
    hide Decode, CloseVirtual;
  }

  /**
    The close event of the physical socket makes every registered virtual socket
    report its code, unless the onclose of one registered earlier closes it first,
    and then the code of that closing. So the first one always does.
  */
  lemma PhysicalCloseReportsItsCode(c: Client, e: nat, code: int, callbacks: seq<Script>, k: nat)
    requires Inv(c) && Enabled(c, Closed(e, code, callbacks)) && c.physical == Some(e) && k < |c.registry.keys|
    ensures c.registry.keys[k] in c.registry.entries
    ensures var v := c.registry.entries[c.registry.keys[k]];
            var d := Step(c, Closed(e, code, callbacks));
            && v < |d.virtuals| && d.virtuals[v].state.CLOSED? && |d.virtuals[v].codes| == 1
            && (d.virtuals[v].codes == [code] || (v, d.virtuals[v].codes[0]) in ClosingsOfAll(Earlier(callbacks, k)))
  {
    hide Inv, Keeps, Forward, FanOut, Step, ClosingsOfAll, Earlier, Told, OMap.Valid;
    var keys := c.registry.keys;
    RegistryIsValid(c);
    KeysAreEntries(c.registry, k);
    IsTold(c, keys[k]);
    var ids := Values(c.registry);
    var v := ids[k];
    var dropped := Dropped(c, e);
    forall i | 0 <= i < k
      ensures ids[i] != v
    {
      KeysAreEntries(c.registry, i);
      IsTold(c, keys[i]);
      KeysDiffer(c.registry, i, k);
    }
    StepKeeps(c, Closed(e, code, callbacks));
    CloseShape(c, e, code, callbacks);
    LiveIsTold(dropped.virtuals[v]);
    FanOutReports(dropped, ids, code, callbacks, k);
    OneCode(Step(c, Closed(e, code, callbacks)), v);
  }

  lemma RegistryIsValid(c: Client)
    requires Inv(c)
    ensures c.registry.Valid()
  {
  }

  lemma KeysAreEntries(m: OMap<Text, nat>, k: nat)
    requires m.Valid() && k < |m.keys|
    ensures m.keys[k] in m.entries
  {
  }

  lemma KeysDiffer(m: OMap<Text, nat>, i: nat, k: nat)
    requires m.Valid() && i < k < |m.keys|
    ensures m.keys[i] != m.keys[k]
  {
  }

  lemma LiveIsTold(s: Virtual)
    requires s.state.Live() && s.codes == []
    ensures Told(s)
  {
  }

  lemma CloseShape(c: Client, e: nat, code: int, callbacks: seq<Script>)
    requires c.registry.Valid() && Enabled(c, Closed(e, code, callbacks)) && c.physical == Some(e)
    ensures Step(c, Closed(e, code, callbacks)) == FanOut(Dropped(c, e), Values(c.registry), code, callbacks)
    ensures Dropped(c, e).virtuals == c.virtuals
  {
    hide FanOut;
  }

  // Whoever is closed after an event was closed before it, or has been told what the event asked for.
  lemma ToldInStep(c: Client, event: Event, v: nat)
    requires Inv(c) && c.registry.Valid() && Enabled(c, event) && Inv(Step(c, event))
    requires v < |Step(c, event).virtuals| && Step(c, event).virtuals[v].state.CLOSED?
    ensures var d := Step(c, event);
            && |d.virtuals[v].codes| == 1
            && (|| (v < |c.virtuals| && c.virtuals[v].state.CLOSED? && c.virtuals[v].codes == d.virtuals[v].codes)
                || (v, d.virtuals[v].codes[0]) in Asked(c, event))
  {
    hide Inv, Step, Enabled, Asked;
    var d := Step(c, event);
    StepTells(c, event);
    OneCode(d, v);
    assert CodesOf(d, v) == d.virtuals[v].codes;
    if v < |c.virtuals| {
      OneCode(c, v);
      assert Closes(c.virtuals[v], d.virtuals[v]);
    }
  }

  /** Over every run: the code that a closed virtual socket has reported is one that some event of the run asked for it. */
  lemma {:induction false} CodeIsTheClosers(states: seq<Client>, events: seq<Event>, n: nat, v: nat)
    requires IsRun(states, events) && n < |states| && v < |states[n].virtuals| && states[n].virtuals[v].state.CLOSED?
    ensures |states[n].virtuals[v].codes| == 1
    ensures exists i :: 0 <= i < n && (v, states[n].virtuals[v].codes[0]) in Asked(states[i], events[i])
  {
    hide Inv, Step, Enabled, Asked;
    if n > 0 {
      RunInv(states, events, n - 1);
      RunInv(states, events, n);
      ToldInStep(states[n - 1], events[n - 1], v);
      if (v, states[n].virtuals[v].codes[0]) !in Asked(states[n - 1], events[n - 1]) {
        CodeIsTheClosers(states, events, n - 1, v);
      }
    }
  }

  lemma OneCode(c: Client, v: nat)
    requires Inv(c) && v < |c.virtuals|
    ensures |c.virtuals[v].codes| == if c.virtuals[v].state.CLOSED? then 1 else 0
  {
    assert VirtualOk(c.virtuals[v], |c.sockets|);
  }
}
