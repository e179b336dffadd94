/** The retry machine as the program has it: closure variables that handlers assign. */
module WebSocketClientCode {
  import opened Basics
  import opened Spec = WebSocketClient

  class WebSocketConnection {
    var attempts: nat
    var eligible: bool
    var hasAttemptedConnect: bool
    var hasConnectionError: bool
    var roomLimitExceeded: bool
    var disposed: bool
    var attemptsResetTimer: bool
    var waiting: seq<nat>
    var fetching: nat
    var held: bool
    var outputs: seq<Output>

    ghost function State(): Connection
      reads this
    {
      Connection(attempts, eligible, hasAttemptedConnect, hasConnectionError, roomLimitExceeded, disposed, attemptsResetTimer,
                 waiting, fetching, held, outputs)
    }

    /** The provider is made and connect() called. */
    constructor ()
      ensures State() == Spec.Initial
    {
      attempts, eligible, hasAttemptedConnect, hasConnectionError, roomLimitExceeded := 0, true, false, false, false;
      disposed, attemptsResetTimer, waiting, fetching, held, outputs := false, false, [], 0, false, [];
      new;
      Connect();
    }

    method StartFetch()
      modifies this
      ensures State() == Spec.Fetch(old(State()))
    {
      hasAttemptedConnect := true;
      attempts := attempts + 1;
      fetching := fetching + 1;
      outputs := outputs + [Fetches];
    }

    /** connect(), up to its first await. */
    method Connect()
      modifies this
      ensures State() == Spec.Connect(old(State()))
    {
      if !eligible {
        return;
      }
      if hasAttemptedConnect {
        var backoffDelayInMs := Backoff(attempts);
        waiting := waiting + [backoffDelayInMs];
        outputs := outputs + [Waits(backoffDelayInMs)];
        return;
      }
      StartFetch();
    }

    /** disposeProvider. */
    method Dispose()
      modifies this
      ensures State() == Spec.Dispose(old(State()))
    {
      if disposed {
        return;
      }
      disposed := true;
      eligible := false;
      attemptsResetTimer := false;
      held := false;
      outputs := outputs + [Disposes];
    }

    method Emit(status: Status, disposes: bool)
      modifies this
      ensures State() == Spec.Tell(old(State()), status, disposes)
    {
      outputs := outputs + [Told(status)];
      if disposes {
        Dispose();
      }
    }

    /** A connect run whose wait is over. */
    method HandleWaitOver(i: nat)
      requires i < |waiting|
      modifies this
      ensures State() == Spec.OnWaitOver(old(State()), i)
    {
      waiting := waiting[..i] + waiting[i + 1..];
      if eligible {
        StartFetch();
      }
    }

    /** A connect run whose token has come. */
    method HandleTokenFetched(connectThrows: bool)
      requires fetching > 0
      modifies this
      ensures State() == Spec.OnTokenFetched(old(State()), connectThrows)
    {
      fetching := fetching - 1;
      if !eligible {
        return;
      }
      if connectThrows {
        Dispose();
      } else {
        held := true;
        outputs := outputs + [Attempts];
      }
    }

    /** A connect run whose token fetch failed. */
    method HandleTokenFailed(code: int, disposes: bool)
      requires fetching > 0
      modifies this
      ensures State() == Spec.OnTokenFailed(old(State()), code, disposes)
    {
      fetching := fetching - 1;
      if eligible {
        hasConnectionError := true;
        Emit(Disconnected(TokenFetchError(code), Some((Backoff(attempts), attempts >= BACKGROUND_RETRIES_FAILED_THRESHOLD))), disposes);
        Connect();
      }
    }

    /** handleConnectionClose, detached once the connection is disposed of. */
    method HandleConnectionClose(scope: Scope, code: Option<int>, disposes: bool)
      requires !disposed
      modifies this
      ensures State() == Spec.OnConnectionClose(old(State()), scope, code, disposes)
    {
      var closePolicy := ClosePolicy(scope, code, roomLimitExceeded);
      held := false;
      hasConnectionError := true;
      if !closePolicy.shouldRetry {
        eligible := false;
      }
      var retry := None;
      if closePolicy.includeRetryMetadata {
        retry := Some((Backoff(attempts), attempts >= BACKGROUND_RETRIES_FAILED_THRESHOLD));
      }
      Emit(Disconnected(closePolicy.errorCode, retry), disposes);
      if closePolicy.shouldRetry {
        Connect();
      }
    }

    /** handleStatus, detached once the connection is disposed of. */
    method HandleStatus(status: ProviderStatus, disposes: bool)
      requires !disposed
      modifies this
      ensures State() == Spec.OnStatus(old(State()), status, disposes)
    {
      if status.StatusConnected? {
        attemptsResetTimer := true;
      } else if attemptsResetTimer {
        attemptsResetTimer := false;
      }
      if !status.StatusDisconnected? && !hasConnectionError {
        Emit(if status.StatusConnected? then Connected(false) else Connecting, disposes);
      }
    }

    /** handleSync, detached once the connection is disposed of. */
    method HandleSync(synced: bool, disposes: bool)
      requires !disposed
      modifies this
      ensures State() == Spec.OnSync(old(State()), synced, disposes)
    {
      if synced && hasConnectionError {
        hasConnectionError := false;
        Emit(Connected(true), disposes);
      }
    }

    method HandleResetTimer()
      requires attemptsResetTimer
      modifies this
      ensures State() == Spec.Step(old(State()), ResetTimer)
    {
      attempts := 0;
      attemptsResetTimer := false;
    }
  }
}
