/** What the client does when something fails or breaks the protocol, and that every callback it owes is made. */
module SharedWebSocketFaults {
  import opened Basics
  import opened Sockets
  import opened Unicode
  import opened Protocol
  import opened OrderedMap
  import opened RoomFrames
  import opened SharedWebSocket
  import opened SharedWebSocketProofs
  import opened SharedWebSocketCodes
  import ProtocolProofs

  // ---------- frames that break the protocol ----------

  /** Not a message, or one that only clients send. */
  predicate Breaks(frame: Bytes) {
    match Decode(frame)
    case Err(_) => true
    case Ok(m) => m.Subscribe? || m.Unsubscribe?
  }

  /**
    A frame that breaks the protocol closes the physical socket with 4006, unless
    it is closing already, and does nothing else: the virtual sockets learn of it
    from the close event.
  */
  lemma BrokenFramesClose(c: Client, e: nat, frame: Bytes, callback: Script)
    requires Inv(c) && Enabled(c, Message(e, frame, callback)) && Breaks(frame)
    ensures var d := Step(c, Message(e, frame, callback));
            && d.virtuals == c.virtuals && d.registry == c.registry && d.physical == c.physical == Some(e)
            && |d.sockets| == |c.sockets| && d.sockets[e].wire == c.sockets[e].wire
            && d.sockets[e].state == CLOSING
            && d.sockets[e].closes == c.sockets[e].closes + if c.sockets[e].state.OPEN? then [Some(4006)] else []
  {
    MessageKeeps(c, e, frame, callback);
    hide Inv, Forward, Decode;
    assert c.sockets[e].closes + [] == c.sockets[e].closes;
  }

  /** A frame that does not break it never makes the client close with a code. */
  lemma OtherFramesCloseNormally(c: Client, e: nat, frame: Bytes, callback: Script)
    requires Inv(c) && Enabled(c, Message(e, frame, callback)) && !Breaks(frame)
    ensures ClosesNormally(c, Step(c, Message(e, frame, callback)))
  {
    MessageKeeps(c, e, frame, callback);
    var m := Decode(frame).value;
    assert !c.sockets[e].state.CONNECTING?;
    hide Forward, Keeps, Anchored, Decode, Received, Receive;
    ReceiveKeeps(c, e, m, callback);
    ReceivedNormally(c, Receive(c, e, m, callback), m);
  }

  lemma ReceivedNormally(c: Client, d: Client, m: Protocol.Message)
    requires Received(c, d, m)
    ensures ClosesNormally(c, d)
  {
    hide Keeps;
  }

  // ---------- opening ----------

  // The subscribes of some registered rooms, in that order.
  function SubscribesOf(c: Client, keys: seq<Text>): (frames: seq<Packet>)
    ensures |frames| == |keys|
  {
    if keys == [] then []
    else
      var v := if c.registry.Has(keys[0]) then c.registry.entries[keys[0]] else 0;
      [Packet(Subscribe(keys[0], if v < |c.virtuals| then c.virtuals[v].grant else []), v)] + SubscribesOf(c, keys[1..])
  }

  // Everybody registered under these rooms is waiting to be opened.
  predicate Awaited(c: Client, keys: seq<Text>) {
    forall k | k in keys ::
      c.registry.Has(k) && c.registry.entries[k] < |c.virtuals| && c.virtuals[c.registry.entries[k]].state.CONNECTING?
  }

  /** The first n of these frames have gone out: all of them, or those before the one whose send failed, which closes the socket. */
  predicate SubscribedFirst(c: Client, d: Client, e: nat, frames: seq<Packet>, failAt: nat, n: nat)
    requires e < |c.sockets| && n <= |frames|
  {
    && d.virtuals == c.virtuals && d.registry == c.registry && d.physical == c.physical && e < |d.sockets|
    && d.sockets[e].wire == c.sockets[e].wire + frames[..n]
    && if n == |frames| then d.sockets[e].state.OPEN? && d.sockets[e].closes == c.sockets[e].closes
       else
         && d.sockets[e].state.CLOSING? && d.sockets[e].closes == c.sockets[e].closes + [None]
         && (n == failAt || !WithinBounds(frames[n].message))
  }

  // The first room: its subscribe goes out, or the socket is closed.
  lemma SubscribeOne(c: Client, e: nat, keys: seq<Text>, failAt: nat)
    requires c.physical == Some(e) && SendsNow(c) && Awaited(c, keys) && keys != []
    ensures c.registry.Has(keys[0]) && c.registry.entries[keys[0]] < |c.virtuals|
    ensures var v := c.registry.entries[keys[0]];
            var m := Subscribe(keys[0], c.virtuals[v].grant);
            if failAt == 0 || !WithinBounds(m) then
              SubscribeAll(c, keys, failAt) == SetPhysical(c, e, Physical(CLOSING, c.sockets[e].wire, c.sockets[e].closes + [None]))
            else
              SubscribeAll(c, keys, failAt)
              == SubscribeAll(SetPhysical(c, e, c.sockets[e].(wire := c.sockets[e].wire + [Packet(m, v)])), keys[1..], failAt - 1)
  {
    hide Encode, WithinBounds;
    assert keys[0] in keys;
    ProtocolProofs.EncodeSucceedsExactly(Subscribe(keys[0], c.virtuals[c.registry.entries[keys[0]]].grant));
  }

  // One frame and then n more.
  lemma OneMore(c: Client, sent: Client, d: Client, e: nat, frames: seq<Packet>, failAt: nat, n: nat)
    requires e < |c.sockets| && e < |sent.sockets| && n < |frames| && failAt > 0
    requires sent.virtuals == c.virtuals && sent.registry == c.registry && sent.physical == c.physical
    requires sent.sockets[e].wire == c.sockets[e].wire + [frames[0]] && sent.sockets[e].closes == c.sockets[e].closes
    requires SubscribedFirst(sent, d, e, frames[1..], failAt - 1, n)
    ensures SubscribedFirst(c, d, e, frames, failAt, n + 1)
  {
    hide WithinBounds;
    assert frames[..n + 1] == [frames[0]] + frames[1..][..n];
  }

  // No frame has gone out, and there is none left or the first one fails.
  lemma NoMore(c: Client, d: Client, e: nat, frames: seq<Packet>, failAt: nat)
    requires e < |c.sockets| && c.sockets[e].state.OPEN?
    requires if frames == [] then d == c
             else (failAt == 0 || !WithinBounds(frames[0].message))
                  && d == SetPhysical(c, e, Physical(CLOSING, c.sockets[e].wire, c.sockets[e].closes + [None]))
    ensures SubscribedFirst(c, d, e, frames, failAt, 0)
  {
    hide WithinBounds;
    assert c.sockets[e].wire + frames[..0] == c.sockets[e].wire;
  }

  lemma {:induction false} SubscribeAllInOrder(c: Client, e: nat, keys: seq<Text>, failAt: nat) returns (n: nat)
    requires c.physical == Some(e) && SendsNow(c) && Awaited(c, keys)
    ensures n <= |keys|
    ensures SubscribedFirst(c, SubscribeAll(c, keys, failAt), e, SubscribesOf(c, keys), failAt, n)
    decreases |keys|
  {
    hide WithinBounds, SubscribedFirst;
    var frames := SubscribesOf(c, keys);
    var d := SubscribeAll(c, keys, failAt);
    n := 0;
    if keys == [] {
      NoMore(c, d, e, frames, failAt);
    } else {
      SubscribeOne(c, e, keys, failAt);
      hide SubscribeAll;
      if failAt == 0 || !WithinBounds(frames[0].message) {
        NoMore(c, d, e, frames, failAt);
      } else {
        var sent := SetPhysical(c, e, c.sockets[e].(wire := c.sockets[e].wire + [frames[0]]));
        n := SubscribeAllInOrder(sent, e, keys[1..], failAt - 1);
        SameSubscribes(c, sent, keys[1..]);
        OneMore(c, sent, d, e, frames, failAt, n);
        n := n + 1;
      }
    }
  }

  lemma {:induction false} SameSubscribes(c: Client, d: Client, keys: seq<Text>)
    requires d.virtuals == c.virtuals && d.registry == c.registry
    ensures SubscribesOf(d, keys) == SubscribesOf(c, keys)
  {
    if keys != [] {
      SameSubscribes(c, d, keys[1..]);
    }
  }

  /** The open handler subscribes the registered rooms in the order of their registration, until a send fails. */
  lemma OpenSubscribesInOrder(c: Client, e: nat, failAt: nat) returns (n: nat)
    requires Inv(c) && Enabled(c, Opened(e, failAt))
    ensures n <= |c.registry.keys|
    ensures SubscribedFirst(c.(sockets := c.sockets[e := c.sockets[e].(state := OPEN)]), Step(c, Opened(e, failAt)), e,
                            SubscribesOf(c, c.registry.keys), failAt, n)
  {
    var up := SetPhysical(c, e, c.sockets[e].(state := OPEN));
    assert c.physical == Some(e);
    forall k | k in c.registry.keys
      ensures c.registry.Has(k) && c.registry.entries[k] < |c.virtuals| && c.virtuals[c.registry.entries[k]].state.CONNECTING?
    {
      assert EntryOk(c, k, c.registry.entries[k]) && VirtualOk(c.virtuals[c.registry.entries[k]], |c.sockets|);
    }
    hide Inv, SubscribeAll;
    n := SubscribeAllInOrder(up, e, c.registry.keys, failAt);
    SameSubscribes(c, up, c.registry.keys);
  }

  // ---------- sends ----------

  /**
    send() on an open virtual socket: while the physical socket is open the data is
    the next frame; if that send throws, or there is nothing to send, the physical
    socket is closed and nothing counts as sent. On a virtual socket that is not
    open it throws and changes nothing.
  */
  lemma SendDecides(c: Client, v: nat, payload: Bytes, throws: bool)
    requires Inv(c) && v < |c.virtuals|
    ensures var d := Step(c, Consumer(Send(v, payload, throws)));
            if !c.virtuals[v].state.OPEN? then d == c
            else
              && c.physical.Some?
              && var e := c.physical.value;
                 && e < |c.sockets| == |d.sockets| && |d.virtuals| == |c.virtuals|
                 && if c.sockets[e].state.OPEN? && (throws || !WithinBounds(Data(c.virtuals[v].room, payload))) then
                      && d.virtuals == c.virtuals
                      && d.sockets[e] == Physical(CLOSING, c.sockets[e].wire, c.sockets[e].closes + [None])
                    else
                      && d.virtuals[v].sent == c.virtuals[v].sent + [payload]
                      && d.sockets[e].state == c.sockets[e].state
                      && d.sockets[e].wire == c.sockets[e].wire
                                              + if c.sockets[e].state.OPEN? then [Packet(Data(c.virtuals[v].room, payload), v)] else []
  {
    hide Encode, WithinBounds;
    ProtocolProofs.EncodeSucceedsExactly(Data(c.virtuals[v].room, payload));
    if c.virtuals[v].state.OPEN? {
      OnCurrentSocket(c, v);
      assert c.sockets[c.physical.value].wire + [] == c.sockets[c.physical.value].wire;
    }
  }

  lemma OnCurrentSocket(c: Client, v: nat)
    requires Inv(c) && v < |c.virtuals| && c.virtuals[v].state.Live()
    ensures c.physical == Some(c.virtuals[v].home) && c.virtuals[v].home < |c.sockets|
  {
    assert Registered(c, v);
    assert EntryOk(c, c.virtuals[v].room, v) && VirtualOk(c.virtuals[v], |c.sockets|);
  }

  // ---------- every callback is made ----------

  /** The callback itself, not one that it leads to, closes virtual socket v. */
  predicate ClosesItself(script: Script, v: nat) {
    script.Do? && ((script.op.Close? && script.op.socket == v) || ClosesItself(script.next, v))
  }

  /** So after it v is closed. */
  lemma {:induction false} RunCloses(c: Client, script: Script, v: nat)
    requires v < |c.virtuals| && !c.virtuals[v].state.CLOSING? && ClosesItself(script, v)
    ensures var d := Run(c, script); v < |d.virtuals| && d.virtuals[v].state.CLOSED?
    decreases script
  {
    var next := Apply(c, script.op);
    ApplyTells(c, script.op);
    RunTells(next, script.next);
    hide Apply, Closings, ClosingsOf;
    assert Closes(c.virtuals[v], next.virtuals[v]) && Closes(next.virtuals[v], Run(next, script.next).virtuals[v]);
    if script.op.Close? && script.op.socket == v {
      OpCloses(c, script.op);
    } else {
      RunCloses(next, script.next, v);
    }
  }

  lemma OpCloses(c: Client, op: Op)
    requires op.Close? && op.socket < |c.virtuals| && !c.virtuals[op.socket].state.CLOSING?
    ensures var d := Apply(c, op); op.socket < |d.virtuals| && d.virtuals[op.socket].state.CLOSED?
  {
    hide CloseVirtual, Closings;
    CloseTells(c, op.socket, op.code, true, op.sendThrows, op.onclose);
    if c.virtuals[op.socket].state.CLOSED? {
      assert Closes(c.virtuals[op.socket], Apply(c, op).virtuals[op.socket]);
    }
  }

  /** An error event makes one callback for each registered socket: what callback number i closes is closed. */
  lemma {:induction false} ErrorsReachEverySocket(c: Client, e: nat, callbacks: seq<Script>, i: nat, v: nat)
    requires Inv(c) && Enabled(c, Errored(e, callbacks)) && c.physical == Some(e)
    requires i < |c.registry.keys| && i < |callbacks| && v < |c.virtuals| && ClosesItself(callbacks[i], v)
    ensures var d := Step(c, Errored(e, callbacks)); v < |d.virtuals| && d.virtuals[v].state.CLOSED?
  {
    assert VirtualOk(c.virtuals[v], |c.sockets|);
    hide Inv, RunAll;
    RunAllCloses(c, |c.registry.keys|, callbacks, i, v);
  }

  lemma {:induction false} RunAllCloses(c: Client, count: nat, scripts: seq<Script>, i: nat, v: nat)
    requires i < count && i < |scripts| && v < |c.virtuals| && !c.virtuals[v].state.CLOSING? && ClosesItself(scripts[i], v)
    ensures var d := RunAll(c, count, scripts); v < |d.virtuals| && d.virtuals[v].state.CLOSED?
    decreases i
  {
    var first := Run(c, scripts[0]);
    RunTells(c, scripts[0]);
    RunAllTells(first, count - 1, scripts[1..]);
    hide Run, Closings, ClosingsOfAll, ClosesItself;
    assert Closes(c.virtuals[v], first.virtuals[v]);
    assert Closes(first.virtuals[v], RunAll(first, count - 1, scripts[1..]).virtuals[v]);
    if i == 0 {
      RunCloses(c, scripts[0], v);
    } else {
      RunAllCloses(first, count - 1, scripts[1..], i - 1, v);
    }
  }

  /** The frame is for a registered socket that heeds it: to open it, to give it data, or to close it. */
  predicate IsHeeded(c: Client, m: Protocol.Message) {
    c.registry.Has(m.room) && c.registry.entries[m.room] < |c.virtuals|
    && match m
       case Subscribed(_) => c.virtuals[c.registry.entries[m.room]].state.CONNECTING?
       case Data(_, _) => c.virtuals[c.registry.entries[m.room]].state.OPEN?
       case RoomClosed(_, _) => true
       case _ => false
  }

  /** A frame that is heeded makes its callback: what that closes is closed. */
  lemma FramesReachTheirSocket(c: Client, e: nat, frame: Bytes, callback: Script, v: nat)
    requires Inv(c) && Enabled(c, Message(e, frame, callback)) && Decode(frame).Ok? && IsHeeded(c, Decode(frame).value)
    requires v < |c.virtuals| && ClosesItself(callback, v)
    ensures var d := Step(c, Message(e, frame, callback)); v < |d.virtuals| && d.virtuals[v].state.CLOSED?
  {
    hide Inv, Forward, Decode, Step, Enabled, Receive, CloseVirtual, Run, ClosesItself, IsHeeded;
    var m := Decode(frame).value;
    NeverClosing(c, v);
    RegistryIsValid(c);
    MessageKeeps(c, e, frame, callback);
    HeededShape(c, e, frame, m, callback);
    if m.RoomClosed? {
      IsTold(c, m.room);
      ClosedThenRun(c, c.registry.entries[m.room], m.code, callback, v);
    } else {
      RunCloses(Heeded(c, m), callback, v);
    }
  }

  lemma NeverClosing(c: Client, v: nat)
    requires Inv(c) && v < |c.virtuals|
    ensures !c.virtuals[v].state.CLOSING?
  {
    assert VirtualOk(c.virtuals[v], |c.sockets|);
  }

  // The client when a frame has opened its socket or reached it, before the callback.
  function Heeded(c: Client, m: Protocol.Message): Client {
    if !IsHeeded(c, m) then c
    else
      var v := c.registry.entries[m.room];
      match m
      case Subscribed(_) => SetVirtual(c, v, c.virtuals[v].(state := OPEN, opens := c.virtuals[v].opens + 1))
      case Data(_, payload) => SetVirtual(c, v, c.virtuals[v].(received := c.virtuals[v].received + [payload]))
      case _ => c
  }

  lemma HeededShape(c: Client, e: nat, frame: Bytes, m: Protocol.Message, callback: Script)
    requires c.registry.Valid() && Enabled(c, Message(e, frame, callback)) && c.physical == Some(e)
    requires Decode(frame) == Ok(m) && IsHeeded(c, m)
    ensures m.Subscribed? || m.Data? || m.RoomClosed?
    ensures c.registry.Has(m.room)
    ensures Step(c, Message(e, frame, callback))
            == if m.RoomClosed? then CloseVirtual(c, c.registry.entries[m.room], m.code, false, false, callback) else Run(Heeded(c, m), callback)
    ensures var u := Heeded(c, m);
            |u.virtuals| == |c.virtuals| && forall v | 0 <= v < |c.virtuals| && !c.virtuals[v].state.CLOSING? :: !u.virtuals[v].state.CLOSING?
  {
    hide Decode, CloseVirtual, Run;
  }

  lemma ClosedThenRun(c: Client, w: nat, code: int, callback: Script, v: nat)
    requires w < |c.virtuals| && c.virtuals[w].state.Live() && v < |c.virtuals| && !c.virtuals[v].state.CLOSING? && ClosesItself(callback, v)
    ensures var d := CloseVirtual(c, w, code, false, false, callback); v < |d.virtuals| && d.virtuals[v].state.CLOSED?
  {
    var detached := Detach(c, w, code, false, false).0;
    hide ClosesItself;
    RunCloses(detached, callback, v);
    hide Run, Detach;
  }

  /**
    The last room's consumer may come back from within its onclose: the close event
    has cleared the way, so a new physical socket is opened and the room registered anew.
  */
  lemma ReturnsFromOnclose(c: Client, e: nat, code: int, room: Text, grant: Text)
    requires Inv(c) && c.physical == Some(e) && |c.registry.keys| == 1 && WithinBounds(Subscribe(room, grant))
    requires Enabled(c, Closed(e, code, [Do(Construct(room, grant, false, false), Nothing)]))
    ensures var d := Step(c, Closed(e, code, [Do(Construct(room, grant, false, false), Nothing)]));
            && d.physical == Some(|c.sockets|) && |d.sockets| == |c.sockets| + 1
            && d.sockets[|c.sockets|] == Physical(CONNECTING, [], [])
            && |d.virtuals| == |c.virtuals| + 1 && d.registry.entries == map[room := |c.virtuals|]
            && d.virtuals[|c.virtuals|] == Virtual(room, grant, |c.sockets|, CONNECTING, 0, [], [], [])
  {
    hide Inv, FanOut, Run, ConstructSocket, Encode, WithinBounds, OMap.Valid;
    var construct := Construct(room, grant, false, false);
    var callbacks := [Do(construct, Nothing)];
    var dropped := Dropped(c, e);
    RegistryIsValid(c);
    KeysAreEntries(c.registry, 0);
    IsTold(c, c.registry.keys[0]);
    CloseShape(c, e, code, callbacks);
    var v := Values(c.registry)[0];
    var told := SetVirtual(dropped, v, dropped.virtuals[v].(state := CLOSED, codes := dropped.virtuals[v].codes + [code]));
    OneTurn(dropped, Values(c.registry), code, callbacks);
    OneOp(told, construct);
    ConstructsAfresh(told, room, grant);
  }

  lemma OneTurn(c: Client, ids: seq<nat>, code: int, callbacks: seq<Script>)
    requires |ids| == 1 && |callbacks| == 1 && ids[0] < |c.virtuals| && c.virtuals[ids[0]].state.Live()
    ensures var v := ids[0];
            FanOut(c, ids, code, callbacks)
            == Run(SetVirtual(c, v, c.virtuals[v].(state := CLOSED, codes := c.virtuals[v].codes + [code])), callbacks[0])
  {
    FanOutTurns(c, ids, code, callbacks);
    hide Run;
    assert ids[1..] == [];
  }

  lemma OneOp(c: Client, op: Op)
    ensures Run(c, Do(op, Nothing)) == Apply(c, op)
  {
    hide Apply;
  }

  lemma ConstructsAfresh(c: Client, room: Text, grant: Text)
    requires c.physical.None? && c.registry.entries == map[] && WithinBounds(Subscribe(room, grant))
    ensures var d := Apply(c, Construct(room, grant, false, false));
            && d.physical == Some(|c.sockets|) && d.sockets == c.sockets + [Physical(CONNECTING, [], [])]
            && d.virtuals == c.virtuals + [Virtual(room, grant, |c.sockets|, CONNECTING, 0, [], [], [])]
            && d.registry.entries == map[room := |c.virtuals|]
  {
    ProtocolProofs.EncodeSucceedsExactly(Subscribe(room, grant));
    hide Encode, WithinBounds;
  }
}
