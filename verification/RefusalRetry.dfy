/** What the server's refusals make the client do: the two ends of the close codes for a room. */
module RefusalRetry {
  import opened Basics
  import opened Sockets
  import opened Unicode
  import opened Protocol
  import S = MultiplexSession
  import Steps = MultiplexSessionSteps
  import W = WebSocketClient
  import WR = WebSocketClientRuns
  import WA = WebSocketClientAnswers

  /** Told of a room_closed with the code of this frame, the room's connection lives on. */
  predicate Retries(c: W.Connection, m: Message)
    requires c.held && m.RoomClosed?
  {
    W.Step(c, W.ConnectionClose(W.RoomScope, Some(m.code), false)).eligible
  }

  /** The verdict refuses: anything but a fresh grant of the client's own for the room. */
  predicate IsRefusal(s: S.Session, room: Text, choices: S.Choices) {
    !choices.verification.Fresh? || !Steps.Matches(choices.verification, room, s.initialGrant)
  }

  /**
    A refused room is told so by the first frame of the step, and its connection
    retries exactly when the grant was the client's own and had only expired.
  */
  lemma OnlyAnExpiredGrantRetries(s: S.Session, room: Text, grant: Text, choices: S.Choices, c: W.Connection)
    requires Steps.Inv(s) && s.physical.OPEN? && !s.rooms.Has(room) && IsRefusal(s, room, choices)
    requires !choices.reply.Failed? && 1 <= |EncodeText(room)| <= MAX_ROOM_NAME_BYTES
    requires WR.Inv(c) && c.eligible && c.held && !c.roomLimitExceeded
    ensures var t := S.HandleMessage(s, Subscribe(room, grant), choices);
            && |s.out| < |t.out| && t.out[|s.out|].message.RoomClosed? && t.out[|s.out|].message.room == room
            && (Retries(c, t.out[|s.out|].message)
                <==> choices.verification.Stale? && Steps.Matches(choices.verification, room, s.initialGrant))
  {
    hide Steps.Inv, S.HandleMessage, Steps.Matches, WR.Inv, WA.WaitsAfter, W.Step;
    Steps.VerdictDecides(s, room, grant, choices);
    var t := S.HandleMessage(s, Subscribe(room, grant), choices);
    WA.CloseDecides(c, W.RoomScope, Some(t.out[|s.out|].message.code), false);
  }
}
