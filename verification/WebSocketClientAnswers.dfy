/**
  How a live connection answers what it is told: which closes it gives up on,
  what it says about them, and how long it then waits.
*/
module WebSocketClientAnswers {
  import opened Basics
  import opened WebSocketClient
  import opened WebSocketClientRuns

  /**
    The closes that end a connection for good: any once the room is over its
    limit; of the physical socket those for a protocol or policy failure; of a
    room all but an interruption.
  */
  predicate IsTerminal(scope: Scope, code: Option<int>, roomLimitExceeded: bool) {
    || roomLimitExceeded
    || (scope.PhysicalScope? && code in {Some(1002), Some(1008), Some(4006)})
    || (scope.RoomScope? && code != Some(4005))
  }

  /** Exactly these are retried without a word about it, because the editor shows a notice of its own. */
  predicate IsSilent(scope: Scope, code: Option<int>) {
    scope.PhysicalScope? && code in {Some(4002), Some(4003)}
  }

  /** What the editor is told: an expired connection, one of the limits reached, or just that it is gone. */
  predicate IsErrorFor(error: ErrorCode, scope: Scope, code: Option<int>, roomLimitExceeded: bool) {
    && (error.RoomConnectionLimitExceeded? <==> roomLimitExceeded)
    && (error.ConnectionExpired? <==> !roomLimitExceeded && scope.PhysicalScope? && code == Some(4001))
    && (error.ConnectionLimitExceeded? <==> !roomLimitExceeded && scope.PhysicalScope? && code == Some(4002))
    && (error.CollaboratorLimitExceeded? <==> !roomLimitExceeded && scope.PhysicalScope? && code == Some(4003))
    && !error.TokenFetchError?
  }

  /** The wait after so many attempts: a second, doubled by each, but never more than fifteen seconds. */
  predicate IsDelay(delay: nat, attempts: nat) {
    delay == Min(1000 * Pow2(attempts), 15000) && 1000 <= delay <= 15000
  }

  /** d has said of the disconnection what retry says, and waits for its next attempt. */
  predicate WaitsAfter(c: Connection, d: Connection, status: Status, delay: nat) {
    && IsDelay(delay, c.attempts)
    && d.outputs == c.outputs + [Told(status), Waits(delay)]
    && d.waiting == [delay] && d.attempts == c.attempts
  }

  lemma DelayOf(attempts: nat)
    ensures IsDelay(Backoff(attempts), attempts)
  {
    BackoffRange(attempts);
  }

  lemma OnlyHolds(c: Connection)
    requires Inv(c) && c.eligible
    ensures !c.disposed && c.hasAttempted && (c.held || c.fetching > 0 ==> c.waiting == [])
  {
  }

  /**
    The close of a live connection: it ends exactly if the close is a terminal one
    or the listener disposes of it; otherwise it waits, and the wait was advertised
    unless the close is a silent one. From three attempts on it also says that
    retries in the background have failed.
  */
  lemma CloseDecides(c: Connection, scope: Scope, code: Option<int>, disposes: bool)
    requires Inv(c) && c.eligible && c.held
    ensures var d := Step(c, ConnectionClose(scope, code, disposes));
            var terminal := IsTerminal(scope, code, c.roomLimitExceeded);
            && (d.eligible <==> !terminal && !disposes)
            && !d.held && (disposes ==> d.disposed)
            && |c.outputs| < |d.outputs| && d.outputs[|c.outputs|].Told?
            && var status := d.outputs[|c.outputs|].status;
               && status.Disconnected?
               && IsErrorFor(status.error, scope, code, c.roomLimitExceeded)
               && (status.retry.Some? <==> !terminal && !IsSilent(scope, code))
               && (status.retry.Some? ==> IsDelay(status.retry.value.0, c.attempts) && (status.retry.value.1 <==> c.attempts >= 3))
               && (d.eligible ==> exists delay :: WaitsAfter(c, d, status, delay))
  {
    OnlyHolds(c);
    DelayOf(c.attempts);
    var d := Step(c, ConnectionClose(scope, code, disposes));
    hide Inv, Backoff, IsDelay;
    if d.eligible {
      assert WaitsAfter(c, d, d.outputs[|c.outputs|].status, Backoff(c.attempts));
    }
  }

  /** A token that cannot be fetched is no reason to give up: the failure is told with its code and the wait advertised. */
  lemma TokenFailureIsRetried(c: Connection, code: int, disposes: bool)
    requires Inv(c) && c.eligible && c.fetching > 0
    ensures var d := Step(c, TokenFailed(code, disposes));
            && (d.eligible <==> !disposes)
            && |c.outputs| < |d.outputs| && d.outputs[|c.outputs|].Told?
            && var status := d.outputs[|c.outputs|].status;
               && status.Disconnected? && status.error == TokenFetchError(code) && status.retry.Some?
               && IsDelay(status.retry.value.0, c.attempts) && (status.retry.value.1 <==> c.attempts >= 3)
               && (d.eligible ==> WaitsAfter(c, d, status, status.retry.value.0))
  {
    OnlyHolds(c);
    DelayOf(c.attempts);
    hide Inv, Backoff, IsDelay;
  }

  /**
    A connection that opened and stayed open until its timer ran out starts over:
    the next drop waits one second. One that drops before that goes on doubling.
  */
  lemma StableConnectionStartsOver(c: Connection, code: Option<int>)
    requires Inv(c) && c.eligible && c.held && !IsTerminal(PhysicalScope, code, c.roomLimitExceeded)
    ensures var online := Step(c, StatusEvent(StatusConnected, false));
            && Enabled(online, ResetTimer)
            && var stable := Step(online, ResetTimer);
               && Enabled(stable, ConnectionClose(PhysicalScope, code, false))
               && Step(stable, ConnectionClose(PhysicalScope, code, false)).waiting == [1000]
               && !Enabled(stable, ResetTimer)
    ensures var online := Step(c, StatusEvent(StatusConnected, false));
            && Enabled(online, ConnectionClose(PhysicalScope, code, false))
            && Step(online, ConnectionClose(PhysicalScope, code, false)).waiting == [Min(1000 * Pow2(c.attempts), 15000)]
  {
    var online := Step(c, StatusEvent(StatusConnected, false));
    var stable := Step(online, ResetTimer);
    OnlyHolds(c);
    StepKeeps(c, StatusEvent(StatusConnected, false));
    StepKeeps(online, ResetTimer);
    hide Inv, WaitsAfter;
    assert online.eligible && online.held && online.attempts == c.attempts && online.roomLimitExceeded == c.roomLimitExceeded;
    assert stable.eligible && stable.held && stable.attempts == 0 && stable.roomLimitExceeded == c.roomLimitExceeded;
    hide Step, Enabled;
    WaitsOnClose(online, code);
    WaitsOnClose(stable, code);
    assert Pow2(0) == 1;
  }

  lemma WaitsOnClose(c: Connection, code: Option<int>)
    requires Inv(c) && c.eligible && c.held && !IsTerminal(PhysicalScope, code, c.roomLimitExceeded)
    ensures Enabled(c, ConnectionClose(PhysicalScope, code, false))
    ensures Step(c, ConnectionClose(PhysicalScope, code, false)).waiting == [Min(1000 * Pow2(c.attempts), 15000)]
  {
    CloseDecides(c, PhysicalScope, code, false);
    hide Inv, Step, IsTerminal;
  }

  // No attempt is forgiven, and no timer started.
  predicate Unforgiven(c: Connection, d: Connection) {
    d.attempts >= c.attempts && (d.resetTimer ==> c.resetTimer)
  }

  lemma ConnectUnforgiven(c: Connection)
    ensures Unforgiven(c, Connect(c)) && Unforgiven(c, Dispose(c))
  {
    hide Backoff;
  }

  lemma TellUnforgiven(c: Connection, status: Status, disposes: bool)
    ensures Unforgiven(c, Tell(c, status, disposes)) && Unforgiven(c, Connect(Tell(c, status, disposes)))
  {
    ConnectUnforgiven(Out(c, Told(status)));
    ConnectUnforgiven(Tell(c, status, disposes));
    hide Connect, Dispose;
  }

  lemma CloseUnforgiven(c: Connection, scope: Scope, code: Option<int>, disposes: bool)
    ensures Unforgiven(c, OnConnectionClose(c, scope, code, disposes))
  {
    hide ClosePolicy, Connect, Tell, Backoff;
    var policy := ClosePolicy(scope, code, c.roomLimitExceeded);
    var closed := c.(held := false, hasConnectionError := true, eligible := c.eligible && policy.shouldRetry);
    TellUnforgiven(closed, Disconnected(policy.errorCode, if policy.includeRetryMetadata then Some(RetryFields(closed)) else None), disposes);
  }

  lemma TokenUnforgiven(c: Connection, code: int, connectThrows: bool, disposes: bool)
    requires c.fetching > 0
    ensures Unforgiven(c, OnTokenFailed(c, code, disposes)) && Unforgiven(c, OnTokenFetched(c, connectThrows))
  {
    hide Connect, Tell, Dispose, Backoff;
    var resumed := c.(fetching := c.fetching - 1);
    ConnectUnforgiven(resumed);
    TellUnforgiven(resumed.(hasConnectionError := true), Disconnected(TokenFetchError(code), Some(RetryFields(resumed))), disposes);
  }

  lemma StatusUnforgiven(c: Connection, status: ProviderStatus, synced: bool, disposes: bool)
    ensures OnStatus(c, status, disposes).attempts >= c.attempts && Unforgiven(c, OnSync(c, synced, disposes))
    ensures !status.StatusConnected? ==> (c.disposed || !OnStatus(c, status, disposes).resetTimer) && Unforgiven(c, OnStatus(c, status, disposes))
  {
    hide Tell;
    TellUnforgiven(c.(resetTimer := status.StatusConnected?), if status.StatusConnected? then Connected(false) else Connecting, disposes);
    TellUnforgiven(c.(hasConnectionError := false), Connected(true), disposes);
  }

  /** Nothing but that timer brings the number of attempts down, and only a connected status starts it. */
  lemma OnlyStabilityForgives(c: Connection, event: Event)
    requires Enabled(c, event)
    ensures var d := Step(c, event);
            && (d.attempts < c.attempts ==> event.ResetTimer?)
            && (d.resetTimer && !c.resetTimer ==> event.StatusEvent? && event.status.StatusConnected?)
            && (event.StatusEvent? && !event.status.StatusConnected? && !c.disposed ==> !d.resetTimer)
  {
    hide OnConnectionClose, OnTokenFailed, OnTokenFetched, OnStatus, OnSync, Dispose;
    match event
    case ConnectionClose(scope, code, disposes) => CloseUnforgiven(c, scope, code, disposes);
    case TokenFailed(code, disposes) => TokenUnforgiven(c, code, false, disposes);
    case TokenFetched(connectThrows) => TokenUnforgiven(c, 0, connectThrows, false);
    case StatusEvent(status, disposes) => StatusUnforgiven(c, status, false, disposes);
    case Sync(synced, disposes) => StatusUnforgiven(c, StatusDisconnected, synced, disposes);
    case Destroy => ConnectUnforgiven(c);
    case _ =>
  }

  /**
    What the provider reports is passed on as it is, but for disconnections, which
    closes have told already, and for anything while an error shows; that ends with
    a sync, which is told as connected.
  */
  lemma StatusIsPassedOn(c: Connection, status: ProviderStatus, synced: bool)
    requires !c.disposed
    ensures Step(c, StatusEvent(status, false)).outputs
            == c.outputs + if status.StatusDisconnected? || c.hasConnectionError then []
                           else [Told(if status.StatusConnected? then Connected(false) else Connecting)]
    ensures Step(c, Sync(synced, false)).outputs == c.outputs + if synced && c.hasConnectionError then [Told(Connected(true))] else []
    ensures synced ==> !Step(c, Sync(synced, false)).hasConnectionError
  {
    assert c.outputs + [] == c.outputs;
  }

  /** Once the room is over its limit the next close is the last, whatever its code; the limit's end lets it live again. */
  lemma RoomLimitIsTerminal(c: Connection, scope: Scope, code: Option<int>, exceeded: bool)
    requires Inv(c) && c.eligible && c.held
    ensures var noted := Step(c, RoomLimit(exceeded));
            && Inv(noted) && noted.eligible && noted.held
            && (Step(noted, ConnectionClose(scope, code, false)).eligible <==> !exceeded && !IsTerminal(scope, code, false))
  {
    OnlyHolds(c);
    StepKeeps(c, RoomLimit(exceeded));
    hide Inv, IsTerminal, WaitsAfter;
    CloseDecides(Step(c, RoomLimit(exceeded)), scope, code, false);
    LimitIsTerminal(scope, code);
  }

  lemma LimitIsTerminal(scope: Scope, code: Option<int>)
    ensures IsTerminal(scope, code, true)
  {
  }

  /** Destroying a connection disposes of it once: its socket and its timer are gone, and nothing is retried; a second time changes nothing. */
  lemma DestroyDisposesOnce(c: Connection)
    requires !c.disposed
    ensures var d := Step(c, Destroy);
            && d.outputs == c.outputs + [Disposes] && !d.eligible && !d.held
            && !Enabled(d, ResetTimer) && (forall scope, code :: !Enabled(d, ConnectionClose(scope, code, false)))
            && Step(d, Destroy) == d
            && (Enabled(d, TokenFetched(false)) ==> Step(d, TokenFetched(false)).outputs == d.outputs)
            && (Enabled(d, WaitOver(0)) ==> Step(d, WaitOver(0)).outputs == d.outputs)
  {
  }

  /** A token that is fetched is used for one attempt to connect; if that throws, the connection is disposed of. */
  lemma TokenIsUsed(c: Connection, connectThrows: bool)
    requires Inv(c) && c.eligible && c.fetching > 0
    ensures var d := Step(c, TokenFetched(connectThrows));
            if connectThrows then d.outputs == c.outputs + [Disposes] && !d.eligible && !d.held
            else d.outputs == c.outputs + [Attempts] && d.eligible && d.held
  {
    OnlyHolds(c);
    hide Inv;
  }
}
