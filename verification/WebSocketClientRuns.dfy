/** What the retry machine promises, over every run. */
module WebSocketClientRuns {
  import opened Basics
  import opened WebSocketClient

  lemma {:induction false} Pow2Positive(n: nat)
    ensures Pow2(n) >= 1
  {
    if n > 0 {
      Pow2Positive(n - 1);
    }
  }

  lemma BackoffRange(attempts: nat)
    ensures 1000 <= Backoff(attempts) <= 15000
  {
    Pow2Positive(attempts);
  }

  /** A retry is advertised only where it is made. */
  lemma MetadataMeansRetry(scope: Scope, code: Option<int>, roomLimitExceeded: bool)
    ensures var p := ClosePolicy(scope, code, roomLimitExceeded); p.includeRetryMetadata ==> p.shouldRetry
  {
  }

  // ---------- the invariant ----------

  // How many things the connection is busy with: waits, fetches, sockets.
  function Busy(c: Connection): nat {
    |c.waiting| + c.fetching + if c.held then 1 else 0
  }

  predicate PhaseOk(c: Connection) {
    && (c.eligible ==> Busy(c) == 1 && c.hasAttempted && !c.disposed)
    && (!c.eligible ==> !c.held && Busy(c) <= 1)
  }

  /** An advertised delay is the next delay waited, unless the listener that was told disposed of the connection. */
  predicate KeepsItsWord(outputs: seq<Output>, i: nat)
    requires i < |outputs|
  {
    outputs[i].Told? && outputs[i].status.Disconnected? && outputs[i].status.retry.Some? ==>
      && i + 1 < |outputs|
      && (outputs[i + 1] == Waits(outputs[i].status.retry.value.0) || outputs[i + 1] == Disposes)
  }

  predicate OutputOk(o: Output) {
    && (o.Waits? ==> 1000 <= o.delayInMs <= 15000)
    && (o.Told? && o.status.Disconnected? && o.status.retry.Some? ==> 1000 <= o.status.retry.value.0 <= 15000)
  }

  // The statuses told, in order.
  function Statuses(outputs: seq<Output>): seq<Status> {
    if outputs == [] then []
    else
      var last := outputs[|outputs| - 1];
      Statuses(outputs[..|outputs| - 1]) + if last.Told? then [last.status] else []
  }

  predicate FollowsWell(statuses: seq<Status>, k: nat)
    requires k + 1 < |statuses|
  {
    statuses[k].Disconnected? ==> statuses[k + 1].Disconnected? || statuses[k + 1] == Connected(true)
  }

  predicate StatusesOk(c: Connection) {
    var statuses := Statuses(c.outputs);
    && (forall k: nat | k + 1 < |statuses| :: FollowsWell(statuses, k))
    && (c.hasConnectionError <==> statuses != [] && statuses[|statuses| - 1].Disconnected?)
  }

  predicate Inv(c: Connection) {
    && PhaseOk(c)
    && LogOk(c.outputs)
    && StatusesOk(c)
  }

  predicate LogOk(outputs: seq<Output>) {
    forall i | 0 <= i < |outputs| :: KeepsItsWord(outputs, i) && OutputOk(outputs[i])
  }

  predicate Advertises(o: Output) {
    o.Told? && o.status.Disconnected? && o.status.retry.Some?
  }

  lemma LogPlain(outputs: seq<Output>, o: Output)
    requires LogOk(outputs) && !Advertises(o) && OutputOk(o)
    ensures LogOk(outputs + [o])
  {
    forall i | 0 <= i < |outputs + [o]|
      ensures KeepsItsWord(outputs + [o], i) && OutputOk((outputs + [o])[i])
    {
      if i < |outputs| {
        assert KeepsItsWord(outputs, i) && OutputOk(outputs[i]);
      }
    }
  }

  lemma LogAdvertised(outputs: seq<Output>, o: Output, next: Output)
    requires LogOk(outputs) && Advertises(o) && OutputOk(o) && OutputOk(next)
    requires next == Waits(o.status.retry.value.0) || next == Disposes
    ensures LogOk(outputs + [o] + [next])
  {
    var all := outputs + [o] + [next];
    forall i | 0 <= i < |all|
      ensures KeepsItsWord(all, i) && OutputOk(all[i])
    {
      if i < |outputs| {
        assert KeepsItsWord(outputs, i) && OutputOk(outputs[i]);
      }
    }
  }

  lemma StatusesAppend(outputs: seq<Output>, o: Output)
    ensures Statuses(outputs + [o]) == Statuses(outputs) + if o.Told? then [o.status] else []
  {
    assert (outputs + [o])[..|outputs|] == outputs;
  }

  // An output that is not a status leaves the statuses alone.
  lemma StatusesSilent(c: Connection, d: Connection, o: Output)
    requires StatusesOk(c) && !o.Told? && d.outputs == c.outputs + [o] && d.hasConnectionError == c.hasConnectionError
    ensures StatusesOk(d)
  {
    StatusesAppend(c.outputs, o);
    assert Statuses(d.outputs) == Statuses(c.outputs);
  }

  // A status that may follow the last one.
  lemma StatusesTold(c: Connection, d: Connection, status: Status)
    requires StatusesOk(c) && d.outputs == c.outputs + [Told(status)]
    requires d.hasConnectionError == status.Disconnected?
    requires c.hasConnectionError ==> status.Disconnected? || status == Connected(true)
    ensures StatusesOk(d)
  {
    StatusesAppend(c.outputs, Told(status));
    var before, after := Statuses(c.outputs), Statuses(d.outputs);
    forall k: nat | k + 1 < |after|
      ensures FollowsWell(after, k)
    {
      if k + 1 < |before| {
        assert FollowsWell(before, k);
      }
    }
  }

  lemma DisposeKeeps(c: Connection)
    requires LogOk(c.outputs) && StatusesOk(c) && Busy(c) <= 1 && (c.disposed ==> !c.eligible && !c.held)
    ensures Inv(Dispose(c))
  {
    if !c.disposed {
      LogPlain(c.outputs, Disposes);
      StatusesSilent(c, Dispose(c), Disposes);
    }
  }

  lemma FetchKeeps(c: Connection)
    requires LogOk(c.outputs) && StatusesOk(c) && c.eligible && !c.disposed && Busy(c) == 0
    ensures Inv(Fetch(c))
  {
    LogPlain(c.outputs, Fetches);
    StatusesSilent(c, Fetch(c), Fetches);
  }

  // A disconnection told, with or without a retry, and the connect run that follows a retry.
  lemma ToldKeeps(c: Connection, error: ErrorCode, retry: Option<(nat, bool)>, retries: bool, disposes: bool)
    requires LogOk(c.outputs) && StatusesOk(c.(hasConnectionError := EndsInError(c))) && c.hasConnectionError && c.hasAttempted && !c.disposed
    requires Busy(c) == 0 && c.eligible == retries
    requires retry == None || (retries && retry == Some(RetryFields(c)))
    ensures var told := Tell(c, Disconnected(error, retry), disposes);
            Inv(if retries then Connect(told) else told)
  {
    var status := Disconnected(error, retry);
    var told := Tell(c, status, disposes);
    BackoffRange(c.attempts);
    StatusesTold(c.(hasConnectionError := EndsInError(c)), Out(c, Told(status)), status);
    if retry.Some? {
      LogAdvertised(c.outputs, Told(status), if disposes then Disposes else Waits(Backoff(c.attempts)));
    } else {
      LogPlain(c.outputs, Told(status));
    }
    if disposes {
      StatusesSilent(Out(c, Told(status)), told, Disposes);
      if retry.None? {
        LogPlain(c.outputs + [Told(status)], Disposes);
      }
      assert !told.eligible;
    } else if retries {
      StatusesSilent(told, Connect(told), Waits(Backoff(c.attempts)));
      if retry.None? {
        LogPlain(told.outputs, Waits(Backoff(c.attempts)));
      }
    }
  }

  // Whether the last status told was a disconnection.
  function EndsInError(c: Connection): bool {
    var statuses := Statuses(c.outputs);
    statuses != [] && statuses[|statuses| - 1].Disconnected?
  }

  /** Every event keeps the invariant. */
  lemma StepKeeps(c: Connection, event: Event)
    requires Inv(c) && Enabled(c, event)
    ensures Inv(Step(c, event))
  {
    hide LogOk, StatusesOk;
    match event
    case WaitOver(i) =>
      var resumed := c.(waiting := c.waiting[..i] + c.waiting[i + 1..]);
      assert StatusesOk(resumed) && LogOk(resumed.outputs) by { SameLog(c, resumed); }
      if c.eligible {
        FetchKeeps(resumed);
      }
    case TokenFetched(connectThrows) =>
      var resumed := c.(fetching := c.fetching - 1);
      assert StatusesOk(resumed) && LogOk(resumed.outputs) by { SameLog(c, resumed); }
      if c.eligible && connectThrows {
        DisposeKeeps(resumed);
      } else if c.eligible {
        LogPlain(c.outputs, Attempts);
        StatusesSilent(c, Step(c, event), Attempts);
      }
    case TokenFailed(code, disposes) =>
      var resumed := c.(fetching := c.fetching - 1);
      SameLog(c, resumed);
      if c.eligible {
        HadError(c, resumed.(hasConnectionError := true));
        ToldKeeps(resumed.(hasConnectionError := true), TokenFetchError(code), Some(RetryFields(resumed)), true, disposes);
      }
    case ConnectionClose(scope, code, disposes) =>
      var policy := ClosePolicy(scope, code, c.roomLimitExceeded);
      var closed := c.(held := false, hasConnectionError := true, eligible := c.eligible && policy.shouldRetry);
      HadError(c, closed);
      MetadataMeansRetry(scope, code, c.roomLimitExceeded);
      ToldKeeps(closed, policy.errorCode, if policy.includeRetryMetadata then Some(RetryFields(closed)) else None, policy.shouldRetry, disposes);
    case StatusEvent(status, disposes) =>
      var timed := c.(resetTimer := status.StatusConnected?);
      SameLog(c, timed);
      if !c.disposed && !status.StatusDisconnected? && !c.hasConnectionError {
        PlainToldKeeps(timed, if status.StatusConnected? then Connected(false) else Connecting, disposes);
      }
    case Sync(synced, disposes) =>
      if !c.disposed && synced && c.hasConnectionError {
        SyncToldKeeps(c, disposes);
      }
    case ResetTimer => SameLog(c, Step(c, event));
    case RoomLimit(exceeded) => SameLog(c, Step(c, event));
    case Destroy =>
      LogOfInv(c);
      DisposeKeeps(c);
  }

  lemma LogOfInv(c: Connection)
    requires Inv(c)
    ensures LogOk(c.outputs)
  {
  }

  lemma SameLog(c: Connection, d: Connection)
    requires Inv(c) && d.outputs == c.outputs && d.hasConnectionError == c.hasConnectionError
    ensures LogOk(d.outputs) && StatusesOk(d)
    ensures PhaseOk(d) ==> Inv(d)
  {
  }

  lemma HadError(c: Connection, d: Connection)
    requires Inv(c) && d.outputs == c.outputs
    ensures LogOk(d.outputs) && StatusesOk(d.(hasConnectionError := EndsInError(d)))
  {
  }

  // A status that is no disconnection, told to a live connection.
  lemma PlainToldKeeps(c: Connection, status: Status, disposes: bool)
    requires Inv(c) && !c.disposed && !c.hasConnectionError && !status.Disconnected?
    ensures Inv(Tell(c, status, disposes))
  {
    LogPlain(c.outputs, Told(status));
    StatusesTold(c, Out(c, Told(status)), status);
    if disposes {
      DisposeKeeps(Out(c, Told(status)));
    }
  }

  lemma SyncToldKeeps(c: Connection, disposes: bool)
    requires Inv(c) && !c.disposed && c.hasConnectionError
    ensures Inv(Tell(c.(hasConnectionError := false), Connected(true), disposes))
  {
    var cleared := Out(c.(hasConnectionError := false), Told(Connected(true)));
    LogPlain(c.outputs, Told(Connected(true)));
    StatusesTold(c, cleared, Connected(true));
    if disposes {
      DisposeKeeps(cleared);
    }
  }

  // ---------- whole runs ----------

  ghost predicate IsRun(states: seq<Connection>, events: seq<Event>) {
    && |states| == |events| + 1
    && states[0] == Initial
    && forall i | 0 <= i < |events| :: Enabled(states[i], events[i]) && states[i + 1] == Step(states[i], events[i])
  }

  lemma InitialInv()
    ensures Inv(Initial)
  {
    FetchKeeps(NewConnection);
  }

  lemma {:induction false} RunInv(states: seq<Connection>, events: seq<Event>, n: nat)
    requires IsRun(states, events) && n < |states|
    ensures Inv(states[n])
  {
    hide Inv, Step, Enabled;
    if n == 0 {
      InitialInv();
    } else {
      RunInv(states, events, n - 1);
      StepKeeps(states[n - 1], events[n - 1]);
    }
  }

  /** A live connection is in exactly one phase: waiting, fetching a token, or holding a socket. */
  lemma ExactlyOnePhase(states: seq<Connection>, events: seq<Event>, n: nat)
    requires IsRun(states, events) && n < |states| && states[n].eligible
    ensures var c := states[n];
            || (|c.waiting| == 1 && c.fetching == 0 && !c.held)
            || (c.waiting == [] && c.fetching == 1 && !c.held)
            || (c.waiting == [] && c.fetching == 0 && c.held)
  {
    RunInv(states, events, n);
  }

  // What a connection that has ended must not do.
  predicate Active(o: Output) {
    o.Waits? || o.Fetches? || o.Attempts? || Advertises(o)
  }

  // d only adds outputs to those of c, none of them active, and has ended too.
  predicate StaysEnded(c: Connection, d: Connection) {
    && !d.eligible
    && c.outputs <= d.outputs
    && forall i | |c.outputs| <= i < |d.outputs| :: !Active(d.outputs[i])
  }

  lemma TellStaysEnded(c: Connection, status: Status, disposes: bool)
    requires !c.eligible && !status.Disconnected?
    ensures StaysEnded(c, Tell(c, status, disposes))
  {
  }

  lemma EndedStatus(c: Connection, status: ProviderStatus, disposes: bool)
    requires !c.eligible
    ensures StaysEnded(c, OnStatus(c, status, disposes))
  {
    hide StaysEnded, Tell;
    var timed := c.(resetTimer := status.StatusConnected?);
    var told := if status.StatusConnected? then Connected(false) else Connecting;
    SameIsEnded(c, c);
    SameIsEnded(c, timed);
    TellStaysEnded(timed, told, disposes);
    EndedFrom(c, timed, Tell(timed, told, disposes));
  }

  lemma EndedSync(c: Connection, synced: bool, disposes: bool)
    requires !c.eligible
    ensures StaysEnded(c, OnSync(c, synced, disposes))
  {
    hide StaysEnded, Tell;
    var cleared := c.(hasConnectionError := false);
    SameIsEnded(c, c);
    TellStaysEnded(cleared, Connected(true), disposes);
    EndedFrom(c, cleared, Tell(cleared, Connected(true), disposes));
  }

  lemma EndedStep(c: Connection, event: Event)
    requires Inv(c) && Enabled(c, event) && !c.eligible
    ensures StaysEnded(c, Step(c, event))
  {
    assert !c.held;
    hide Inv, StaysEnded, OnStatus, OnSync, OnConnectionClose;
    match event
    case StatusEvent(status, disposes) => EndedStatus(c, status, disposes);
    case Sync(synced, disposes) => EndedSync(c, synced, disposes);
    case Destroy => DisposeIsEnded(c);
    case _ => SameIsEnded(c, Step(c, event));
  }

  lemma SameIsEnded(c: Connection, d: Connection)
    requires d.outputs == c.outputs && !d.eligible
    ensures StaysEnded(c, d)
  {
  }

  lemma DisposeIsEnded(c: Connection)
    requires !c.eligible
    ensures StaysEnded(c, Dispose(c))
  {
  }

  lemma EndedFrom(c: Connection, d: Connection, f: Connection)
    requires d.outputs == c.outputs && StaysEnded(d, f)
    ensures StaysEnded(c, f)
  {
  }

  lemma EndedTransitive(c: Connection, d: Connection, f: Connection)
    requires StaysEnded(c, d) && StaysEnded(d, f)
    ensures StaysEnded(c, f)
  {
  }

  /** Once terminal or disposed of, a connection waits, fetches, connects and advertises nothing more, ever. */
  lemma {:induction false} TheEndIsTheEnd(states: seq<Connection>, events: seq<Event>, m: nat, n: nat)
    requires IsRun(states, events) && m <= n < |states| && !states[m].eligible
    ensures var c, d := states[m], states[n];
            !d.eligible && c.outputs <= d.outputs && forall i | |c.outputs| <= i < |d.outputs| :: !Active(d.outputs[i])
  {
    hide Inv, Step, Enabled, Active;
    if m < n {
      TheEndIsTheEnd(states, events, m, n - 1);
      RunInv(states, events, n - 1);
      EndedStep(states[n - 1], events[n - 1]);
      EndedTransitive(states[m], states[n - 1], states[n]);
    }
  }

  /** An advertised delay lies in 1000..15000 and is the delay then waited, unless the listener told of it disposed of the connection. */
  lemma AdvertisedIsWaited(states: seq<Connection>, events: seq<Event>, n: nat, i: nat)
    requires IsRun(states, events) && n < |states| && i < |states[n].outputs|
    requires Advertises(states[n].outputs[i])
    ensures var outputs := states[n].outputs;
            var delay := outputs[i].status.retry.value.0;
            && 1000 <= delay <= 15000
            && i + 1 < |outputs|
            && (outputs[i + 1] == Waits(delay) || outputs[i + 1] == Disposes)
  {
    RunInv(states, events, n);
    hide IsRun, PhaseOk, StatusesOk;
    assert KeepsItsWord(states[n].outputs, i) && OutputOk(states[n].outputs[i]);
  }

  /** After a disconnection, the next status told that is not one is a connected that a sync caused. */
  lemma OnlySyncEndsADisconnection(states: seq<Connection>, events: seq<Event>, n: nat, k: nat)
    requires IsRun(states, events) && n < |states| && k + 1 < |Statuses(states[n].outputs)|
    requires Statuses(states[n].outputs)[k].Disconnected? && !Statuses(states[n].outputs)[k + 1].Disconnected?
    ensures Statuses(states[n].outputs)[k + 1] == Connected(true)
  {
    RunInv(states, events, n);
    hide IsRun, PhaseOk;
    assert FollowsWell(Statuses(states[n].outputs), k);
  }

  // ---------- a token outage ----------

  // k rounds of a failed fetch and the wait after it.
  function Outage(code: int, k: nat): seq<Event> {
    if k == 0 then [] else Outage(code, k - 1) + [TokenFailed(code, false), WaitOver(0)]
  }

  function WaitsOf(outputs: seq<Output>): seq<nat> {
    if outputs == [] then []
    else
      var last := outputs[|outputs| - 1];
      WaitsOf(outputs[..|outputs| - 1]) + if last.Waits? then [last.delayInMs] else []
  }

  lemma WaitsAppend(outputs: seq<Output>, o: Output)
    ensures WaitsOf(outputs + [o]) == WaitsOf(outputs) + if o.Waits? then [o.delayInMs] else []
  {
    assert (outputs + [o])[..|outputs|] == outputs;
  }

  // The connection that has failed k token fetches since it was made, and waited each time.
  ghost predicate AfterOutage(c: Connection, k: nat) {
    && c.eligible && c.hasAttempted && c.attempts == k + 1 && c.waiting == [] && c.fetching == 1 && !c.held && !c.disposed
    && |WaitsOf(c.outputs)| == k
    && forall i | 0 <= i < k :: WaitsOf(c.outputs)[i] == Min(1000 * Pow2(i + 1), 15000)
  }

  // The outputs of one round.
  lemma RoundOutputs(c: Connection, code: int)
    requires c.eligible && c.hasAttempted && c.waiting == [] && c.fetching == 1
    ensures var failed := Step(c, TokenFailed(code, false));
            var delay := Backoff(c.attempts);
            && failed.waiting == [delay]
            && failed == c.(fetching := 0, hasConnectionError := true, waiting := [delay],
                            outputs := c.outputs + [Told(Disconnected(TokenFetchError(code), Some(RetryFields(c))))] + [Waits(delay)])
            && Step(failed, WaitOver(0))
               == failed.(waiting := [], attempts := c.attempts + 1, fetching := 1, outputs := failed.outputs + [Fetches])
  {
    hide Backoff;
    var delay := Backoff(c.attempts);
    assert [delay][..0] + [delay][0 + 1..] == [];
  }

  lemma OutageRound(c: Connection, code: int, k: nat)
    requires AfterOutage(c, k)
    ensures var failed := Step(c, TokenFailed(code, false));
            Enabled(failed, WaitOver(0)) && AfterOutage(Step(failed, WaitOver(0)), k + 1)
  {
    RoundOutputs(c, code);
    hide Step, Pow2, WaitsOf;
    var told := c.outputs + [Told(Disconnected(TokenFetchError(code), Some(RetryFields(c))))];
    WaitsAppend(c.outputs, Told(Disconnected(TokenFetchError(code), Some(RetryFields(c)))));
    WaitsAppend(told, Waits(Backoff(k + 1)));
    WaitsAppend(told + [Waits(Backoff(k + 1))], Fetches);
  }

  /** In an outage of the token endpoint the waits double, from two seconds up to fifteen. */
  lemma {:induction false} OutageDoublesTheWaits(states: seq<Connection>, code: int, k: nat)
    requires IsRun(states, Outage(code, k))
    ensures |states| == 2 * k + 1 && |WaitsOf(states[2 * k].outputs)| == k
    ensures forall i | 0 <= i < k :: WaitsOf(states[2 * k].outputs)[i] == Min(1000 * Pow2(i + 1), 15000)
  {
    OutageReaches(states, code, k);
  }

  lemma {:induction false} OutageReaches(states: seq<Connection>, code: int, k: nat)
    requires IsRun(states, Outage(code, k))
    ensures |states| == 2 * k + 1 && AfterOutage(states[2 * k], k)
    decreases k
  {
    if k == 0 {
      WaitsAppend([], Fetches);
      assert Initial.outputs == [] + [Fetches];
    } else {
      var before := Outage(code, k - 1);
      var n := |before|;
      LastTwo(states, before, TokenFailed(code, false), WaitOver(0));
      hide IsRun, AfterOutage, Step, Enabled;
      OutageReaches(states[..n + 1], code, k - 1);
      assert n == 2 * (k - 1) && states[..n + 1][n] == states[n];
      OutageRound(states[n], code, k - 1);
    }
  }

  // A run with two more events: the run before them, and the two steps.
  lemma LastTwo(states: seq<Connection>, before: seq<Event>, a: Event, b: Event)
    requires IsRun(states, before + [a, b])
    ensures |states| == |before| + 3 && IsRun(states[..|before| + 1], before)
    ensures Enabled(states[|before|], a) && states[|before| + 1] == Step(states[|before|], a)
    ensures Enabled(states[|before| + 1], b) && states[|before| + 2] == Step(states[|before| + 1], b)
  {
    hide Step, Enabled;
    var n := |before|;
    var events := before + [a, b];
    assert events[n] == a && events[n + 1] == b;
    assert forall i | 0 <= i < n :: events[i] == before[i];
    assert states[n + 1 + 1] == Step(states[n + 1], events[n + 1]);
  }
}
