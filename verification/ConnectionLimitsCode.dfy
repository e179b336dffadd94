/** Admission as the program has it: a set of socket objects, searched by loops, identified in place. */
module ConnectionLimitsCode {
  import opened Basics
  import opened Unicode
  import opened ConnectionLimits

  class WebSocket {
    var wpClientId: Option<Text>
    var userId: Option<int>

    constructor ()
      ensures Value() == Stranger
    {
      wpClientId, userId := None, None;
    }

    function Value(): Identity
      reads this
    {
      Identity(wpClientId, userId)
    }
  }

  /** The WebSocketServer: its clients in the order in which they connected. */
  class Server {
    const limits: Limits
    var clients: seq<WebSocket>

    constructor (limits: Limits)
      ensures this.limits == limits && Identities() == []
    {
      this.limits := limits;
      clients := [];
    }

    ghost predicate Valid()
      reads this
    {
      forall i, j | 0 <= i < j < |clients| :: clients[i] != clients[j]
    }

    ghost function Identities(): (ids: seq<Identity>)
      reads this, clients
      ensures |ids| == |clients| && forall i | 0 <= i < |ids| :: ids[i] == clients[i].Value()
    {
      seq(|clients|, i requires 0 <= i < |clients| reads this, clients => clients[i].Value())
    }

    method IsClientActive(wpClientId: Option<Text>) returns (active: bool)
      ensures active == ClientActive(Identities(), wpClientId)
    {
      if wpClientId.None? || wpClientId.value == [] {
        return false;
      }
      for k := 0 to |clients|
        invariant forall i | 0 <= i < k :: Identities()[i].wpClientId != wpClientId
      {
        if clients[k].wpClientId == wpClientId {
          assert Identities()[k].wpClientId == wpClientId;
          return true;
        }
      }
      return false;
    }

    method IsUserActive(userId: Option<int>) returns (active: bool)
      ensures active == UserActive(Identities(), userId)
    {
      if userId.None? {
        return false;
      }
      for k := 0 to |clients|
        invariant forall i | 0 <= i < k :: Identities()[i].userId != userId
      {
        if clients[k].userId == userId {
          assert Identities()[k].userId == userId;
          return true;
        }
      }
      return false;
    }

    method GetActiveCollaboratorCount() returns (count: nat)
      ensures count == |Users(Identities())|
    {
      var userIds: set<int> := {};
      for k := 0 to |clients|
        invariant userIds == Users(Identities()[..k])
      {
        Append(Identities()[..k], clients[k].Value());
        assert Identities()[..k + 1] == Identities()[..k] + [clients[k].Value()];
        if clients[k].userId.Some? {
          userIds := userIds + {clients[k].userId.value};
        }
      }
      assert Identities()[..|clients|] == Identities();
      count := |userIds|;
    }

    method ShouldAllowConnection(wpClientId: Option<Text>) returns (allow: bool)
      ensures allow == AllowConnection(limits, Identities(), wpClientId)
    {
      if limits.maxConnections == -1 {
        return true;
      }
      var total := |clients|;
      if total > limits.maxConnections {
        return false;
      }
      if total > SoftLimit(limits.maxConnections, limits.bufferConnections) {
        allow := IsClientActive(wpClientId);
        return;
      }
      return true;
    }

    method ShouldAllowCollaborator(userId: Option<int>) returns (allow: bool)
      ensures allow == AllowCollaborator(limits, Identities(), userId)
    {
      if userId.None? {
        return false;
      }
      if limits.maxCollaborators == -1 {
        return true;
      }
      var active := IsUserActive(userId);
      if active {
        return true;
      }
      var count := GetActiveCollaboratorCount();
      return count < limits.maxCollaborators;
    }

    /** The handleUpgrade callback, the new socket already among the clients. */
    method HandleUpgrade(who: Identity) returns (verdict: Verdict)
      requires Valid()
      modifies this
      ensures Valid()
      ensures (Identities(), verdict) == Upgrade(limits, old(Identities()), who)
    {
      ghost var before := Identities();
      var ws := new WebSocket();
      clients := clients + [ws];
      assert Identities() == before + [Stranger];
      var allowed := ShouldAllowCollaborator(who.userId);
      assert Identities() == before + [Stranger];
      if !allowed {
        return Refused(COLLABORATOR_LIMIT_CLOSE_CODE);
      }
      allowed := ShouldAllowConnection(who.wpClientId);
      if !allowed {
        return Refused(CONNECTION_LIMIT_CLOSE_CODE);
      }
      ws.wpClientId := who.wpClientId;
      ws.userId := who.userId;
      assert Identities() == before + [who];
      return Admitted;
    }

    /** A socket is gone. */
    method HandleGone(i: nat)
      requires Valid() && i < |clients|
      modifies this
      ensures Valid() && Identities() == Step(limits, old(Identities()), Gone(i))
    {
      clients := clients[..i] + clients[i + 1..];
    }
  }
}
