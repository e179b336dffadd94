/**
  One room connection of the editor and its retries, as functions on its state.
  When a wait ends, what a token fetch gives, what the provider reports and
  whether a status listener disposes of the connection come from outside.
*/
module WebSocketClient {
  import opened Basics

  const MAX_BACKOFF_IN_MS: nat := 15000
  const BACKGROUND_RETRIES_FAILED_THRESHOLD: nat := 3

  // ---------- the close policy ----------

  datatype Scope = PhysicalScope | RoomScope

  datatype ErrorCode =
    | ConnectionExpired
    | ConnectionLimitExceeded
    | CollaboratorLimitExceeded
    | RoomConnectionLimitExceeded
    | UnknownError
    | TokenFetchError(code: int)

  datatype Policy = Policy(shouldRetry: bool, errorCode: ErrorCode, includeRetryMetadata: bool)

  function ClosePolicy(scope: Scope, code: Option<int>, roomLimitExceeded: bool): Policy {
    if roomLimitExceeded then Policy(false, RoomConnectionLimitExceeded, false)
    else if scope.RoomScope? then Policy(code == Some(4005), UnknownError, code == Some(4005))
    else match code
      case Some(4001) => Policy(true, ConnectionExpired, true)
      case Some(4002) => Policy(true, ConnectionLimitExceeded, false)
      case Some(4003) => Policy(true, CollaboratorLimitExceeded, false)
      case _ =>
        var shouldRetry := code != Some(1002) && code != Some(1008) && code != Some(4006);
        Policy(shouldRetry, UnknownError, shouldRetry)
  }

  // ---------- state ----------

  function Pow2(n: nat): nat {
    if n == 0 then 1 else 2 * Pow2(n - 1)
  }

  function Backoff(attempts: nat): nat {
    Min(1000 * Pow2(attempts), MAX_BACKOFF_IN_MS)
  }

  /** What listeners are told; retry is the advertised delay, and whether retries in the background have failed. */
  datatype Status =
    | Connecting
    | Connected(bySync: bool)
    | Disconnected(error: ErrorCode, retry: Option<(nat, bool)>)

  /** What the connection does to the world, in order. */
  datatype Output =
    | Told(status: Status)
    | Waits(delayInMs: nat)
    | Fetches
    | Attempts
    | Disposes

  /**
    waiting are the delays of the waits not over yet, fetching the token fetches
    not answered yet; held says that the provider holds a socket whose close has
    not been reported.
  */
  datatype Connection = Connection(
    attempts: nat,
    eligible: bool,
    hasAttempted: bool,
    hasConnectionError: bool,
    roomLimitExceeded: bool,
    disposed: bool,
    resetTimer: bool,
    waiting: seq<nat>,
    fetching: nat,
    held: bool,
    outputs: seq<Output>)

  function Out(c: Connection, output: Output): Connection {
    c.(outputs := c.outputs + [output])
  }

  // The token fetch of a connect run.
  function Fetch(c: Connection): Connection {
    Out(c.(hasAttempted := true, attempts := c.attempts + 1, fetching := c.fetching + 1), Fetches)
  }

  /** connect(), up to its first await. */
  function Connect(c: Connection): Connection {
    if !c.eligible then c
    else if c.hasAttempted then
      var delay := Backoff(c.attempts);
      Out(c.(waiting := c.waiting + [delay]), Waits(delay))
    else Fetch(c)
  }

  function Dispose(c: Connection): Connection {
    if c.disposed then c
    else Out(c.(disposed := true, eligible := false, resetTimer := false, held := false), Disposes)
  }

  // syncStatusEmitter.emit: a listener may dispose of the connection.
  function Tell(c: Connection, status: Status, disposes: bool): Connection {
    var told := Out(c, Told(status));
    if disposes then Dispose(told) else told
  }

  function RetryFields(c: Connection): (nat, bool) {
    (Backoff(c.attempts), c.attempts >= BACKGROUND_RETRIES_FAILED_THRESHOLD)
  }

  const NewConnection := Connection(0, true, false, false, false, false, false, [], 0, false, [])

  /** The connection when its provider has just been made and connect() was called. */
  const Initial := Connect(NewConnection)

  // ---------- events ----------

  datatype ProviderStatus = StatusConnecting | StatusConnected | StatusDisconnected

  datatype Event =
    | WaitOver(index: nat)
    | TokenFetched(connectThrows: bool)
    | TokenFailed(code: int, disposes: bool)
    | ConnectionClose(scope: Scope, closeCode: Option<int>, disposes: bool)
    | StatusEvent(status: ProviderStatus, disposes: bool)
    | Sync(synced: bool, disposes: bool)
    | ResetTimer
    | RoomLimit(exceeded: bool)
    | Destroy

  /** Waits and fetches end once; the provider reports one close for each socket it held. */
  predicate Enabled(c: Connection, event: Event) {
    match event
    case WaitOver(i) => i < |c.waiting|
    case TokenFetched(_) => c.fetching > 0
    case TokenFailed(_, _) => c.fetching > 0
    case ConnectionClose(_, _, _) => c.held
    case ResetTimer => c.resetTimer
    case _ => true
  }

  function OnWaitOver(c: Connection, i: nat): Connection
    requires i < |c.waiting|
  {
    var resumed := c.(waiting := c.waiting[..i] + c.waiting[i + 1..]);
    if resumed.eligible then Fetch(resumed) else resumed
  }

  function OnTokenFetched(c: Connection, connectThrows: bool): Connection
    requires c.fetching > 0
  {
    var resumed := c.(fetching := c.fetching - 1);
    if !resumed.eligible then resumed
    else if connectThrows then Dispose(resumed)
    else Out(resumed.(held := true), Attempts)
  }

  function OnTokenFailed(c: Connection, code: int, disposes: bool): Connection
    requires c.fetching > 0
  {
    var resumed := c.(fetching := c.fetching - 1);
    if !resumed.eligible then resumed
    else Connect(Tell(resumed.(hasConnectionError := true), Disconnected(TokenFetchError(code), Some(RetryFields(resumed))), disposes))
  }

  function OnConnectionClose(c: Connection, scope: Scope, code: Option<int>, disposes: bool): Connection {
    if c.disposed then c
    else
      var policy := ClosePolicy(scope, code, c.roomLimitExceeded);
      var closed := c.(held := false, hasConnectionError := true, eligible := c.eligible && policy.shouldRetry);
      var told := Tell(closed, Disconnected(policy.errorCode, if policy.includeRetryMetadata then Some(RetryFields(closed)) else None), disposes);
      if policy.shouldRetry then Connect(told) else told
  }

  function OnStatus(c: Connection, status: ProviderStatus, disposes: bool): Connection {
    if c.disposed then c
    else
      var timed := c.(resetTimer := status.StatusConnected?);
      if status.StatusDisconnected? || c.hasConnectionError then timed
      else Tell(timed, if status.StatusConnected? then Connected(false) else Connecting, disposes)
  }

  function OnSync(c: Connection, synced: bool, disposes: bool): Connection {
    if c.disposed || !synced || !c.hasConnectionError then c
    else Tell(c.(hasConnectionError := false), Connected(true), disposes)
  }

  function Step(c: Connection, event: Event): Connection
    requires Enabled(c, event)
  {
    match event
    case WaitOver(i) => OnWaitOver(c, i)
    case TokenFetched(connectThrows) => OnTokenFetched(c, connectThrows)
    case TokenFailed(code, disposes) => OnTokenFailed(c, code, disposes)
    case ConnectionClose(scope, code, disposes) => OnConnectionClose(c, scope, code, disposes)
    case StatusEvent(status, disposes) => OnStatus(c, status, disposes)
    case Sync(synced, disposes) => OnSync(c, synced, disposes)
    case ResetTimer => c.(resetTimer := false, attempts := 0)
    case RoomLimit(exceeded) => if c.disposed then c else c.(roomLimitExceeded := exceeded)
    case Destroy => Dispose(c)
  }
}
