/**
  The order in which one client may put the frames of a room on one physical
  socket: (subscribe data* unsubscribe?)*, each round by another virtual socket.
*/
module RoomFrames {
  import opened Basics
  import opened Unicode
  import opened Protocol

  /** A frame handed to the physical socket, with the virtual socket that caused it. */
  datatype Packet = Packet(message: Message, from: nat)

  /** What the frames of one room leave behind: who is inside, and who has ever been. */
  datatype RoomView = Broken | Idle(seen: set<nat>) | Inside(owner: nat, seen: set<nat>)

  function After(view: RoomView, p: Packet): RoomView {
    if view.Broken? then Broken
    else match p.message
      case Subscribe(_, _) => if p.from in view.seen then Broken else Inside(p.from, view.seen + {p.from})
      case Data(_, _) => if view.Inside? && view.owner == p.from then view else Broken
      case Unsubscribe(_) => if view.Inside? && view.owner == p.from then Idle(view.seen) else Broken
      case _ => Broken
  }

  function View(wire: seq<Packet>, room: Text): RoomView {
    if wire == [] then Idle({})
    else
      var p := wire[|wire| - 1];
      var before := View(wire[..|wire| - 1], room);
      if p.message.room == room then After(before, p) else before
  }

  lemma ViewAppend(wire: seq<Packet>, p: Packet, room: Text)
    ensures View(wire + [p], room) == if p.message.room == room then After(View(wire, room), p) else View(wire, room)
  {
    assert (wire + [p])[..|wire|] == wire;
  }

  /** What virtual socket v put on the wire as data. */
  function DataOf(wire: seq<Packet>, v: nat): seq<Bytes> {
    if wire == [] then []
    else
      var p := wire[|wire| - 1];
      var before := DataOf(wire[..|wire| - 1], v);
      if p.from == v && p.message.Data? then before + [p.message.payload] else before
  }

  lemma DataOfAppend(wire: seq<Packet>, p: Packet, v: nat)
    ensures DataOf(wire + [p], v)
         == if p.from == v && p.message.Data? then DataOf(wire, v) + [p.message.payload] else DataOf(wire, v)
  {
    assert (wire + [p])[..|wire|] == wire;
  }

  // The view only ever loses by going on: a broken prefix breaks the whole.
  lemma {:induction false} PrefixView(wire: seq<Packet>, n: nat, room: Text)
    requires n <= |wire| && !View(wire, room).Broken?
    ensures !View(wire[..n], room).Broken?
    ensures View(wire[..n], room).seen <= View(wire, room).seen
  {
    if n == |wire| {
      assert wire[..n] == wire;
    } else {
      var init := wire[..|wire| - 1];
      PrefixView(init, n, room);
      assert init[..n] == wire[..n];
    }
  }

  // ---------- the language, said by positions ----------

  /** Packet i is a subscribe by somebody who has sent nothing for the room before. */
  predicate FirstSubscribe(wire: seq<Packet>, room: Text, i: nat)
    requires i < |wire|
  {
    && wire[i].message.Subscribe?
    && forall j | 0 <= j < i && wire[j].message.room == room :: wire[j].from != wire[i].from
  }

  // The subscribe at j opened a round in which only its sender has sent data since, up to packet n.
  predicate OpenRound(wire: seq<Packet>, room: Text, j: nat, n: nat)
    requires n <= |wire|
  {
    && j < n && wire[j].message.room == room && wire[j].message.Subscribe?
    && forall k | j < k < n && wire[k].message.room == room :: wire[k].message.Data? && wire[k].from == wire[j].from
  }

  /** Packet i is data or an unsubscribe in the round of its own sender, still open. */
  predicate Continues(wire: seq<Packet>, room: Text, i: nat)
    requires i < |wire|
  {
    && (wire[i].message.Data? || wire[i].message.Unsubscribe?)
    && exists j | 0 <= j < i :: OpenRound(wire, room, j, i) && wire[j].from == wire[i].from
  }

  /** The language (subscribe data* unsubscribe?)*, every round by another virtual socket. */
  predicate InLanguage(wire: seq<Packet>, room: Text) {
    forall i | 0 <= i < |wire| && wire[i].message.room == room :: FirstSubscribe(wire, room, i) || Continues(wire, room, i)
  }

  // What a view that is not broken says of the packets.
  ghost predicate Describes(wire: seq<Packet>, room: Text, view: RoomView) {
    && !view.Broken?
    && (forall v :: v in view.seen <==> SentFor(wire, room, v))
    && (view.Inside? ==> exists j | 0 <= j < |wire| :: OpenRound(wire, room, j, |wire|) && wire[j].from == view.owner)
    && (view.Idle? ==> forall j | 0 <= j < |wire| :: !OpenRound(wire, room, j, |wire|))
  }

  predicate SentFor(wire: seq<Packet>, room: Text, v: nat) {
    exists j | 0 <= j < |wire| :: wire[j].message.room == room && wire[j].from == v
  }

  lemma RoundsBefore(wire: seq<Packet>, p: Packet, room: Text)
    ensures forall j: nat, n: nat | n <= |wire| :: OpenRound(wire + [p], room, j, n) == OpenRound(wire, room, j, n)
    ensures forall j: nat | j < |wire| ::
              OpenRound(wire + [p], room, j, |wire| + 1)
              == (OpenRound(wire, room, j, |wire|) && (p.message.room == room ==> p.message.Data? && p.from == wire[j].from))
  {
    var w := wire + [p];
    assert forall i | 0 <= i < |wire| :: w[i] == wire[i];
    forall j: nat | j < |wire|
      ensures OpenRound(w, room, j, |wire| + 1)
           == (OpenRound(wire, room, j, |wire|) && (p.message.room == room ==> p.message.Data? && p.from == wire[j].from))
    {
      assert w[|wire|] == p;
    }
  }

  lemma LanguageAppend(wire: seq<Packet>, p: Packet, room: Text)
    ensures InLanguage(wire + [p], room)
        <==> InLanguage(wire, room)
             && (p.message.room == room ==> FirstSubscribe(wire + [p], room, |wire|) || Continues(wire + [p], room, |wire|))
  {
    var w := wire + [p];
    assert forall i | 0 <= i < |wire| :: w[i] == wire[i];
    RoundsBefore(wire, p, room);
    forall i | 0 <= i < |wire|
      ensures FirstSubscribe(w, room, i) == FirstSubscribe(wire, room, i) && Continues(w, room, i) == Continues(wire, room, i)
    {
    }
    hide FirstSubscribe, Continues;
  }

  lemma OnlyOneRound(wire: seq<Packet>, room: Text, i: nat, j: nat)
    requires OpenRound(wire, room, i, |wire|) && OpenRound(wire, room, j, |wire|)
    ensures i == j
  {
  }

  // One more packet, in place or not, for a room that the view describes.
  lemma DescribesAfter(wire: seq<Packet>, p: Packet, room: Text, view: RoomView)
    requires Describes(wire, room, view) && p.message.room == room
    ensures !After(view, p).Broken? <==> FirstSubscribe(wire + [p], room, |wire|) || Continues(wire + [p], room, |wire|)
    ensures !After(view, p).Broken? ==> Describes(wire + [p], room, After(view, p))
  {
    var w := wire + [p];
    assert w[|wire|] == p && forall i | 0 <= i < |wire| :: w[i] == wire[i];
    RoundsBefore(wire, p, room);
    assert forall v :: SentFor(w, room, v) <==> SentFor(wire, room, v) || v == p.from;
    assert FirstSubscribe(w, room, |wire|) <==> p.message.Subscribe? && !SentFor(wire, room, p.from);
    if view.Inside? {
      var j :| 0 <= j < |wire| && OpenRound(wire, room, j, |wire|) && wire[j].from == view.owner;
      forall i | 0 <= i < |wire| && OpenRound(wire, room, i, |wire|)
        ensures i == j
      {
        OnlyOneRound(wire, room, i, j);
      }
      assert Continues(w, room, |wire|) <==> (p.message.Data? || p.message.Unsubscribe?) && p.from == view.owner by {
        assert OpenRound(w, room, j, |wire|);
      }
      if p.message.Data? && p.from == view.owner {
        assert OpenRound(w, room, j, |w|);
      }
    }
    if p.message.Subscribe? {
      assert OpenRound(w, room, |wire|, |w|);
    }
  }

  lemma DescribesOther(wire: seq<Packet>, p: Packet, room: Text, view: RoomView)
    requires Describes(wire, room, view) && p.message.room != room
    ensures Describes(wire + [p], room, view)
  {
    var w := wire + [p];
    assert w[|wire|] == p && forall i | 0 <= i < |wire| :: w[i] == wire[i];
    RoundsBefore(wire, p, room);
    assert forall v :: SentFor(w, room, v) <==> SentFor(wire, room, v);
    if view.Inside? {
      var j :| 0 <= j < |wire| && OpenRound(wire, room, j, |wire|) && wire[j].from == view.owner;
      assert OpenRound(w, room, j, |w|);
    }
    forall j | view.Idle? && 0 <= j < |w|
      ensures !OpenRound(w, room, j, |w|)
    {
      if j < |wire| {
        assert !OpenRound(wire, room, j, |wire|);
      }
    }
  }

  /** The view of a room is unbroken exactly when its packets, read by their positions, are in the language. */
  lemma {:induction false} UnbrokenIsInLanguage(wire: seq<Packet>, room: Text)
    ensures !View(wire, room).Broken? <==> InLanguage(wire, room)
    ensures !View(wire, room).Broken? ==> Describes(wire, room, View(wire, room))
  {
    if wire != [] {
      var init := wire[..|wire| - 1];
      var p := wire[|wire| - 1];
      assert wire == init + [p];
      UnbrokenIsInLanguage(init, room);
      hide Describes, InLanguage, After;
      LanguageAppend(init, p, room);
      if View(init, room).Broken? {
        BrokenStays(p);
      } else if p.message.room == room {
        DescribesAfter(init, p, room, View(init, room));
      } else {
        DescribesOther(init, p, room, View(init, room));
      }
    }
  }

  lemma BrokenStays(p: Packet)
    ensures After(Broken, p) == Broken
  {
  }
}
