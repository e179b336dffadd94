/**
  Who is admitted to the server. The sockets of the server are listed in the
  order in which they connected; a socket is among them before it is checked,
  and has no identity until it is admitted.
*/
module ConnectionLimits {
  import opened Basics
  import opened Unicode

  const COLLABORATOR_LIMIT_CLOSE_CODE := 4003
  const CONNECTION_LIMIT_CLOSE_CODE := 4002

  datatype Identity = Identity(wpClientId: Option<Text>, userId: Option<int>)

  const Stranger := Identity(None, None)

  datatype Limits = Limits(maxConnections: int, bufferConnections: int, maxCollaborators: int)

  function SoftLimit(max: int, buffer: int): int {
    if max < buffer * 2 then max else max - buffer
  }

  predicate ClientActive(clients: seq<Identity>, wpClientId: Option<Text>) {
    && wpClientId.Some? && wpClientId.value != []
    && exists i | 0 <= i < |clients| :: clients[i].wpClientId == wpClientId
  }

  predicate UserActive(clients: seq<Identity>, userId: Option<int>) {
    userId.Some? && exists i | 0 <= i < |clients| :: clients[i].userId == userId
  }

  /** The distinct users among the sockets. */
  function Users(clients: seq<Identity>): set<int> {
    set i | 0 <= i < |clients| && clients[i].userId.Some? :: clients[i].userId.value
  }

  /** The distinct clients, that is browser tabs, among the sockets. */
  function Tabs(clients: seq<Identity>): set<Text> {
    set i | 0 <= i < |clients| && clients[i].wpClientId.Some? :: clients[i].wpClientId.value
  }

  predicate AllowConnection(limits: Limits, clients: seq<Identity>, wpClientId: Option<Text>) {
    || limits.maxConnections == -1
    || (&& |clients| <= limits.maxConnections
        && (|clients| <= SoftLimit(limits.maxConnections, limits.bufferConnections) || ClientActive(clients, wpClientId)))
  }

  predicate AllowCollaborator(limits: Limits, clients: seq<Identity>, userId: Option<int>) {
    && userId.Some?
    && (|| limits.maxCollaborators == -1
        || UserActive(clients, userId)
        || |Users(clients)| < limits.maxCollaborators)
  }

  datatype Verdict = Admitted | Refused(code: int)

  /** The handleUpgrade callback: the new socket is counted first, then checked, then given its identity. */
  function Upgrade(limits: Limits, clients: seq<Identity>, who: Identity): (seq<Identity>, Verdict) {
    var counted := clients + [Stranger];
    if !AllowCollaborator(limits, counted, who.userId) then (counted, Refused(COLLABORATOR_LIMIT_CLOSE_CODE))
    else if !AllowConnection(limits, counted, who.wpClientId) then (counted, Refused(CONNECTION_LIMIT_CLOSE_CODE))
    else (clients + [who], Admitted)
  }

  // ---------- histories ----------

  datatype Event = Connect(who: Identity) | Gone(index: nat)

  function Step(limits: Limits, clients: seq<Identity>, event: Event): seq<Identity> {
    match event
    case Connect(who) => Upgrade(limits, clients, who).0
    case Gone(i) => if i < |clients| then clients[..i] + clients[i + 1..] else clients
  }

  function After(limits: Limits, events: seq<Event>): seq<Identity> {
    if events == [] then [] else Step(limits, After(limits, events[..|events| - 1]), events[|events| - 1])
  }

  /** The sockets that were admitted: those that have a user. */
  function AdmittedCount(clients: seq<Identity>): nat {
    if clients == [] then 0
    else AdmittedCount(clients[..|clients| - 1]) + if clients[|clients| - 1].userId.Some? then 1 else 0
  }

  lemma {:induction false} AdmittedWithout(clients: seq<Identity>, i: nat)
    requires i < |clients|
    ensures AdmittedCount(clients[..i] + clients[i + 1..]) <= AdmittedCount(clients) <= |clients|
  {
    var init := clients[..|clients| - 1];
    if i == |clients| - 1 {
      assert clients[..i] + clients[i + 1..] == init;
      AdmittedAtMost(init);
    } else {
      AdmittedWithout(init, i);
      var without := clients[..i] + clients[i + 1..];
      assert without[..|without| - 1] == init[..i] + init[i + 1..];
    }
  }

  lemma {:induction false} AdmittedAtMost(clients: seq<Identity>)
    ensures AdmittedCount(clients) <= |clients|
  {
    if clients != [] {
      AdmittedAtMost(clients[..|clients| - 1]);
    }
  }

  lemma AdmittedAppend(clients: seq<Identity>, who: Identity)
    ensures AdmittedCount(clients + [who]) == AdmittedCount(clients) + if who.userId.Some? then 1 else 0
  {
    assert (clients + [who])[..|clients|] == clients;
  }

  lemma Append(clients: seq<Identity>, who: Identity)
    ensures Users(clients + [who]) == Users(clients) + (if who.userId.Some? then {who.userId.value} else {})
    ensures Tabs(clients + [who]) == Tabs(clients) + (if who.wpClientId.Some? then {who.wpClientId.value} else {})
  {
    var all := clients + [who];
    assert forall i | 0 <= i < |clients| :: all[i] == clients[i];
    assert all[|clients|] == who;
  }

  lemma {:induction false} TabsAtMost(clients: seq<Identity>)
    ensures |Tabs(clients)| <= |clients|
  {
    if clients != [] {
      var init := clients[..|clients| - 1];
      var last := clients[|clients| - 1];
      TabsAtMost(init);
      assert clients == init + [last];
      Append(init, last);
    }
  }

  lemma SubsetSize<T>(a: set<T>, b: set<T>)
    requires a <= b
    ensures |a| <= |b|
  {
    assert b == a + (b - a);
  }

  /** The connections left to newcomers: the buffer is kept back, unless it is more than half of all. */
  function NewTabLimit(limits: Limits): int {
    limits.maxConnections - if limits.bufferConnections + limits.bufferConnections > limits.maxConnections then 0 else limits.bufferConnections
  }

  /** Within every limit that is set. */
  predicate WithinLimits(limits: Limits, clients: seq<Identity>) {
    && (limits.maxCollaborators != -1 ==> |Users(clients)| <= Max(0, limits.maxCollaborators))
    && (limits.maxConnections != -1 ==>
          && AdmittedCount(clients) <= Max(0, limits.maxConnections)
          && |Tabs(clients)| <= Max(0, NewTabLimit(limits)))
  }

  lemma GoneKeeps(limits: Limits, clients: seq<Identity>, i: nat)
    requires WithinLimits(limits, clients) && i < |clients|
    ensures WithinLimits(limits, clients[..i] + clients[i + 1..])
  {
    var rest := clients[..i] + clients[i + 1..];
    assert forall k | 0 <= k < |rest| :: rest[k] == clients[if k < i then k else k + 1];
    SubsetSize(Users(rest), Users(clients));
    SubsetSize(Tabs(rest), Tabs(clients));
    AdmittedWithout(clients, i);
  }

  lemma StrangersChangeNothing(clients: seq<Identity>)
    ensures var counted := clients + [Stranger];
            Users(counted) == Users(clients) && Tabs(counted) == Tabs(clients) && AdmittedCount(counted) == AdmittedCount(clients)
  {
    Append(clients, Stranger);
    AdmittedAppend(clients, Stranger);
  }

  lemma ActiveIsListed(clients: seq<Identity>, who: Identity)
    ensures ClientActive(clients + [Stranger], who.wpClientId) ==> who.wpClientId.value in Tabs(clients)
    ensures UserActive(clients + [Stranger], who.userId) ==> who.userId.value in Users(clients)
  {
    var counted := clients + [Stranger];
    assert forall i | 0 <= i < |clients| :: counted[i] == clients[i];
  }

  lemma UsersKeep(limits: Limits, clients: seq<Identity>, who: Identity)
    requires WithinLimits(limits, clients) && AllowCollaborator(limits, clients + [Stranger], who.userId) && limits.maxCollaborators != -1
    ensures |Users(clients + [who])| <= Max(0, limits.maxCollaborators)
  {
    StrangersChangeNothing(clients);
    Append(clients, who);
    ActiveIsListed(clients, who);
    hide Users, Tabs, AdmittedCount, ClientActive, UserActive;
    if who.userId.value in Users(clients) {
      assert Users(clients + [who]) == Users(clients);
    }
  }

  lemma TabsKeep(limits: Limits, clients: seq<Identity>, who: Identity)
    requires WithinLimits(limits, clients) && AllowConnection(limits, clients + [Stranger], who.wpClientId) && limits.maxConnections != -1
    ensures |Tabs(clients + [who])| <= Max(0, NewTabLimit(limits)) && AdmittedCount(clients + [who]) <= Max(0, limits.maxConnections)
  {
    Append(clients, who);
    AdmittedAtMost(clients + [who]);
    TabsAtMost(clients + [who]);
    ActiveIsListed(clients, who);
    hide Users, Tabs, AdmittedCount, ClientActive, UserActive;
    if who.wpClientId.Some? && who.wpClientId.value in Tabs(clients) {
      assert Tabs(clients + [who]) == Tabs(clients);
    }
  }

  lemma ConnectKeeps(limits: Limits, clients: seq<Identity>, who: Identity)
    requires WithinLimits(limits, clients)
    ensures WithinLimits(limits, Upgrade(limits, clients, who).0)
  {
    hide Users, Tabs, AdmittedCount, AllowConnection, AllowCollaborator, NewTabLimit;
    StrangersChangeNothing(clients);
    if Upgrade(limits, clients, who).1.Admitted? {
      if limits.maxCollaborators != -1 {
        UsersKeep(limits, clients, who);
      }
      if limits.maxConnections != -1 {
        TabsKeep(limits, clients, who);
      }
    }
  }

  /**
    Over every history of connections and disconnections: the distinct admitted
    users never exceed the collaborator limit, the admitted connections never
    exceed the maximum, and the distinct admitted clients never exceed the soft
    limit. A limit of -1 is no limit, any other negative one admits nobody.
  */
  lemma {:induction false} AdmissionStaysWithinLimits(limits: Limits, events: seq<Event>)
    ensures WithinLimits(limits, After(limits, events))
  {
    if events != [] {
      var before := After(limits, events[..|events| - 1]);
      AdmissionStaysWithinLimits(limits, events[..|events| - 1]);
      hide WithinLimits, Upgrade;
      match events[|events| - 1]
      case Connect(who) => ConnectKeeps(limits, before, who);
      case Gone(i) =>
        if i < |before| {
          GoneKeeps(limits, before, i);
        }
    }
  }

  /**
    A refusal is for a reason: 4003 that there is no user or the collaborator limit
    has been reached and the user is new, 4002 that the maximum has been reached, or
    that what is left is kept for clients already connected and this is none.
  */
  lemma RefusedForAReason(limits: Limits, clients: seq<Identity>, who: Identity)
    ensures var verdict := Upgrade(limits, clients, who).1;
            && (verdict == Refused(4003) <==>
                  who.userId.None?
                  || (limits.maxCollaborators != -1 && who.userId.value !in Users(clients) && |Users(clients)| >= limits.maxCollaborators))
            && (verdict == Refused(4002) <==>
                  && verdict != Refused(4003)
                  && limits.maxConnections != -1
                  && (|| |clients| >= limits.maxConnections
                      || (|clients| >= NewTabLimit(limits)
                          && (who.wpClientId.None? || who.wpClientId.value == [] || who.wpClientId.value !in Tabs(clients)))))
            && (verdict == Admitted || verdict == Refused(4002) || verdict == Refused(4003))
  {
    StrangersChangeNothing(clients);
    var counted := clients + [Stranger];
    assert forall i | 0 <= i < |clients| :: counted[i] == clients[i];
  }

  /** Whoever is admitted counts from now on, as a socket, a user and a client; whoever is refused only as a socket, until it is gone. */
  lemma AdmittedAreCounted(limits: Limits, clients: seq<Identity>, who: Identity)
    ensures var (next, verdict) := Upgrade(limits, clients, who);
            && |next| == |clients| + 1
            && Users(next) == Users(clients) + (if verdict.Admitted? && who.userId.Some? then {who.userId.value} else {})
            && Tabs(next) == Tabs(clients) + (if verdict.Admitted? && who.wpClientId.Some? then {who.wpClientId.value} else {})
            && AdmittedCount(next) == AdmittedCount(clients) + if verdict.Admitted? then 1 else 0
  {
    Append(clients, who);
    Append(clients, Stranger);
    AdmittedAppend(clients, who);
    AdmittedAppend(clients, Stranger);
    hide Users, Tabs, AdmittedCount;
  }

  /** Whoever is gone no longer counts, and everybody else still does. */
  lemma GoneAreForgotten(limits: Limits, clients: seq<Identity>, i: nat)
    requires i < |clients|
    ensures var next := Step(limits, clients, Gone(i));
            |next| == |clients| - 1 && multiset(next) == multiset(clients) - multiset{clients[i]}
  {
    assert clients == clients[..i] + [clients[i]] + clients[i + 1..];
  }
}
