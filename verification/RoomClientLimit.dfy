/**
  The cap on the connections of one room, which every client applies to itself:
  the connections are ranked by join time, and those that rank past the limit
  yield. A join time is a number or, where a peer has published none, infinity.
*/
module RoomClientLimit {
  import opened Basics

  datatype JoinTime = At(time: real) | Infinity

  datatype Presence = Presence(clientId: int, joinedAt: JoinTime)

  /** A configured limit: a number, or no finite number at all. */
  datatype Limit = Finite(value: real) | NotFinite

  predicate Enforced(limit: Limit) {
    limit.Finite? && limit.value > 0.0
  }

  /** What subtracting two join times gives: a number, an infinity, or not a number, which counts as false. */
  datatype Difference = Number(value: real) | MinusInfinity | PlusInfinity | NotANumber

  function Minus(s: JoinTime, t: JoinTime): Difference {
    match (s, t)
    case (At(x), At(y)) => Number(x - y)
    case (At(_), Infinity) => MinusInfinity
    case (Infinity, At(_)) => PlusInfinity
    case (Infinity, Infinity) => NotANumber
  }

  /** byJoinOrder(a, b) is negative. */
  predicate Before(a: Presence, b: Presence) {
    match Minus(a.joinedAt, b.joinedAt)
    case Number(d) => d < 0.0 || (d == 0.0 && a.clientId < b.clientId)
    case MinusInfinity => true
    case PlusInfinity => false
    case NotANumber => a.clientId < b.clientId
  }

  // ---------- reading the awareness states ----------

  /** What a peer has published: nothing usable, or an object with a join time, or one without. */
  datatype Info = Absent | Published(enteredAt: Option<real>)

  function Presences(states: seq<(int, Info)>): seq<Presence> {
    if states == [] then []
    else
      var (clientId, info) := states[|states| - 1];
      Presences(states[..|states| - 1])
      + match info
        case Absent => []
        case Published(None) => [Presence(clientId, Infinity)]
        case Published(Some(t)) => [Presence(clientId, At(t))]
  }

  method ReadPresences(states: seq<(int, Info)>) returns (presences: seq<Presence>)
    ensures presences == Presences(states)
  {
    presences := [];
    for i := 0 to |states|
      invariant presences == Presences(states[..i])
    {
      assert states[..i + 1][..i] == states[..i];
      var (clientId, info) := states[i];
      if info.Absent? {
        continue;
      }
      presences := presences + [Presence(clientId, if info.enteredAt.Some? then At(info.enteredAt.value) else Infinity)];
    }
    assert states[..|states|] == states;
  }

  // ---------- ranking ----------

  function Insert(sorted: seq<Presence>, p: Presence): seq<Presence> {
    if sorted == [] || Before(p, sorted[0]) then [p] + sorted else [sorted[0]] + Insert(sorted[1..], p)
  }

  /** Array.prototype.sort on a copy, which is stable. */
  function Sorted(presences: seq<Presence>): seq<Presence> {
    if presences == [] then [] else Insert(Sorted(presences[..|presences| - 1]), presences[|presences| - 1])
  }

  /** findIndex by client id; the length if there is none. */
  function IndexOf(presences: seq<Presence>, clientId: int): nat {
    if presences == [] then 0 else if presences[0].clientId == clientId then 0 else 1 + IndexOf(presences[1..], clientId)
  }

  predicate Within(presences: seq<Presence>, localClientId: int, limit: Limit) {
    Enforced(limit) ==>
      var rank := IndexOf(Sorted(presences), localClientId);
      rank == |presences| || (rank as real) < limit.value
  }

  method FindIndex(presences: seq<Presence>, clientId: int) returns (index: int)
    ensures index == if IndexOf(presences, clientId) == |presences| then -1 else IndexOf(presences, clientId)
  {
    for i := 0 to |presences|
      invariant IndexOf(presences, clientId) == i + IndexOf(presences[i..], clientId)
    {
      if presences[i].clientId == clientId {
        return i;
      }
      assert presences[i..][1..] == presences[i + 1..];
    }
    return -1;
  }

  method SortedCopy(presences: seq<Presence>) returns (ordered: seq<Presence>)
    ensures ordered == Sorted(presences)
  {
    ordered := [];
    for i := 0 to |presences|
      invariant ordered == Sorted(presences[..i])
    {
      assert presences[..i + 1][..i] == presences[..i];
      ordered := Insert(ordered, presences[i]);
    }
    assert presences[..|presences|] == presences;
  }

  /** isLocalClientWithinLimit. */
  method IsLocalClientWithinLimit(presences: seq<Presence>, localClientId: int, limit: Limit) returns (within: bool)
    ensures within == Within(presences, localClientId, limit)
  {
    if !Enforced(limit) {
      return true;
    }
    var ordered := SortedCopy(presences);
    SortedLength(presences);
    var rank := FindIndex(ordered, localClientId);
    if rank == -1 {
      return true;
    }
    return (rank as real) < limit.value;
  }

  lemma {:induction false} InsertLength(sorted: seq<Presence>, p: Presence)
    ensures |Insert(sorted, p)| == |sorted| + 1
  {
    if sorted != [] && !Before(p, sorted[0]) {
      InsertLength(sorted[1..], p);
    }
  }

  lemma {:induction false} SortedLength(presences: seq<Presence>)
    ensures |Sorted(presences)| == |presences|
  {
    if presences != [] {
      SortedLength(presences[..|presences| - 1]);
      InsertLength(Sorted(presences[..|presences| - 1]), presences[|presences| - 1]);
    }
  }

  // ---------- what the rank is ----------

  /** Every connection has its own id. */
  predicate DistinctIds(presences: seq<Presence>) {
    forall i, j | 0 <= i < j < |presences| :: presences[i].clientId != presences[j].clientId
  }

  /**
    First come, first served: whoever joined at a smaller time is ahead, at the
    same time the smaller id, and those without a time come after all that have one.
  */
  predicate JoinedBefore(p: Presence, q: Presence) {
    || (p.joinedAt.At? && q.joinedAt.At? && p.joinedAt.time < q.joinedAt.time)
    || (p.joinedAt.At? && q.joinedAt.Infinity?)
    || (p.joinedAt == q.joinedAt && p.clientId < q.clientId)
  }

  /** The comparison of the sort is that order. */
  lemma ComparisonIsJoinOrder(p: Presence, q: Presence)
    ensures Before(p, q) <==> JoinedBefore(p, q)
  {
  }

  predicate Increasing(presences: seq<Presence>) {
    forall i, j | 0 <= i < j < |presences| :: JoinedBefore(presences[i], presences[j])
  }

  function SetOf(presences: seq<Presence>): set<Presence> {
    set p | p in presences
  }

  /** The connections that rank ahead of one. */
  function Ahead(presences: set<Presence>, me: Presence): set<Presence> {
    set p | p in presences && JoinedBefore(p, me)
  }

  lemma {:induction false} InsertIncreasing(sorted: seq<Presence>, p: Presence)
    requires Increasing(sorted) && forall q | q in sorted :: q.clientId != p.clientId
    ensures Increasing(Insert(sorted, p))
    ensures forall q :: q in Insert(sorted, p) <==> q in sorted || q == p
  {
    hide Before;
    if sorted != [] {
      ComparisonIsJoinOrder(p, sorted[0]);
      assert sorted == [sorted[0]] + sorted[1..];
      if !Before(p, sorted[0]) {
        InsertIncreasing(sorted[1..], p);
        var rest := Insert(sorted[1..], p);
        forall j | 0 <= j < |rest|
          ensures JoinedBefore(sorted[0], rest[j])
        {
          assert rest[j] in rest;
        }
      }
    }
  }

  lemma {:induction false} SortedIncreasing(presences: seq<Presence>)
    requires DistinctIds(presences)
    ensures Increasing(Sorted(presences)) && SetOf(Sorted(presences)) == SetOf(presences)
  {
    if presences != [] {
      var init := presences[..|presences| - 1];
      var last := presences[|presences| - 1];
      SortedIncreasing(init);
      assert presences == init + [last];
      assert forall q :: q in Sorted(init) <==> q in SetOf(Sorted(init));
      assert forall q :: q in init <==> q in SetOf(init);
      InsertIncreasing(Sorted(init), last);
    }
  }

  lemma {:induction false} IndexIsWhere(presences: seq<Presence>, k: nat)
    requires DistinctIds(presences) && k < |presences|
    ensures IndexOf(presences, presences[k].clientId) == k
  {
    if k > 0 {
      assert presences[1..][k - 1] == presences[k];
      IndexIsWhere(presences[1..], k - 1);
    }
  }

  lemma {:induction false} IndexOfNobody(presences: seq<Presence>, clientId: int)
    requires forall p | p in presences :: p.clientId != clientId
    ensures IndexOf(presences, clientId) == |presences|
  {
    if presences != [] {
      assert presences == [presences[0]] + presences[1..];
      IndexOfNobody(presences[1..], clientId);
    }
  }

  lemma IncreasingIsDistinct(sorted: seq<Presence>, ids: seq<Presence>)
    requires DistinctIds(ids) && Increasing(sorted) && SetOf(sorted) == SetOf(ids)
    ensures DistinctIds(sorted)
  {
    forall i, j | 0 <= i < j < |sorted|
      ensures sorted[i].clientId != sorted[j].clientId
    {
      assert sorted[i] in SetOf(ids) && sorted[j] in SetOf(ids);
      var m :| 0 <= m < |ids| && ids[m] == sorted[i];
      var n :| 0 <= n < |ids| && ids[n] == sorted[j];
      assert JoinedBefore(ids[m], ids[n]);
      assert m != n;
    }
  }

  lemma PrefixGrows(sorted: seq<Presence>, k: nat)
    requires k < |sorted|
    ensures SetOf(sorted[..k + 1]) == SetOf(sorted[..k]) + {sorted[k]}
    ensures (forall i | 0 <= i < k :: sorted[i] != sorted[k]) ==> sorted[k] !in SetOf(sorted[..k])
  {
  }

  // The first k of an increasing sequence are those ahead of the one at k.
  lemma {:induction false} PrefixSize(sorted: seq<Presence>, k: nat)
    requires Increasing(sorted) && k <= |sorted|
    ensures |SetOf(sorted[..k])| == k
  {
    if k > 0 {
      PrefixSize(sorted, k - 1);
      forall i | 0 <= i < k - 1
        ensures sorted[i] != sorted[k - 1]
      {
        assert JoinedBefore(sorted[i], sorted[k - 1]);
      }
      hide Increasing, JoinedBefore;
      PrefixGrows(sorted, k - 1);
    }
  }

  lemma BeforeIsEarlier(sorted: seq<Presence>, i: nat, k: nat)
    requires Increasing(sorted) && i < |sorted| && k < |sorted|
    ensures JoinedBefore(sorted[i], sorted[k]) <==> i < k
  {
    if i < k {
      assert JoinedBefore(sorted[i], sorted[k]);
    } else if k < i {
      assert JoinedBefore(sorted[k], sorted[i]);
    }
  }

  lemma AheadIsPrefix(sorted: seq<Presence>, k: nat)
    requires Increasing(sorted) && k < |sorted|
    ensures Ahead(SetOf(sorted), sorted[k]) == SetOf(sorted[..k])
  {
    forall p | p in Ahead(SetOf(sorted), sorted[k])
      ensures p in SetOf(sorted[..k])
    {
      var i :| 0 <= i < |sorted| && sorted[i] == p;
      BeforeIsEarlier(sorted, i, k);
    }
    forall p | p in SetOf(sorted[..k])
      ensures p in Ahead(SetOf(sorted), sorted[k])
    {
      var i :| 0 <= i < k && sorted[i] == p;
      assert JoinedBefore(sorted[i], sorted[k]);
    }
  }

  /** The rank of a connection is the number of connections ahead of it, in whatever order they are listed. */
  lemma RankIsAhead(presences: seq<Presence>, me: Presence)
    requires DistinctIds(presences) && me in presences
    ensures IndexOf(Sorted(presences), me.clientId) == |Ahead(SetOf(presences), me)| < |presences|
  {
    var sorted := Sorted(presences);
    SortedIncreasing(presences);
    SortedLength(presences);
    IncreasingIsDistinct(sorted, presences);
    assert me in SetOf(sorted);
    var k :| 0 <= k < |sorted| && sorted[k] == me;
    IndexIsWhere(sorted, k);
    AheadIsPrefix(sorted, k);
    PrefixSize(sorted, k);
  }

  /** A connection may stay exactly when fewer than the limit are ahead of it; one that is not listed may stay. */
  lemma WithinMeansFewAhead(presences: seq<Presence>, limit: Limit, me: Presence)
    requires DistinctIds(presences) && limit.Finite? && limit.value > 0.0
    ensures me in presences ==>
              (Within(presences, me.clientId, limit) <==> |Ahead(SetOf(presences), me)| as real < limit.value)
    ensures (forall p | p in presences :: p.clientId != me.clientId) ==> Within(presences, me.clientId, limit)
  {
    SortedLength(presences);
    if me in presences {
      RankIsAhead(presences, me);
    } else if forall p | p in presences :: p.clientId != me.clientId {
      SortedIncreasing(presences);
      forall p | p in Sorted(presences)
        ensures p.clientId != me.clientId
      {
        assert p in SetOf(Sorted(presences));
      }
      IndexOfNobody(Sorted(presences), me.clientId);
    }
  }

  /** A limit that is not finite or not positive evicts nobody. */
  lemma NoLimitEvictsNobody(presences: seq<Presence>, clientId: int, limit: Limit)
    requires limit.Finite? ==> limit.value <= 0.0
    ensures Within(presences, clientId, limit)
  {
  }

  // ---------- the promises ----------

  /** The verdict does not depend on the order in which the connections are listed. */
  lemma OrderDoesNotMatter(p: seq<Presence>, q: seq<Presence>, clientId: int, limit: Limit)
    requires DistinctIds(p) && DistinctIds(q) && SetOf(p) == SetOf(q)
    ensures Within(p, clientId, limit) == Within(q, clientId, limit)
  {
    if Enforced(limit) {
      if me :| me in p && me.clientId == clientId {
        assert me in SetOf(q);
        WithinMeansFewAhead(p, limit, me);
        WithinMeansFewAhead(q, limit, me);
      } else {
        assert forall x | x in q :: x in SetOf(p);
        WithinMeansFewAhead(p, limit, Presence(clientId, Infinity));
        WithinMeansFewAhead(q, limit, Presence(clientId, Infinity));
      }
    }
  }

  /** A client allowed on the full view is allowed on every partial one: nobody is evicted by what has not been seen, or by later joiners. */
  lemma PartialViewsNeverEvict(full: seq<Presence>, part: seq<Presence>, clientId: int, limit: Limit)
    requires DistinctIds(full) && DistinctIds(part) && SetOf(part) <= SetOf(full)
    requires Within(full, clientId, limit)
    ensures Within(part, clientId, limit)
  {
    if Enforced(limit) {
      if me :| me in part && me.clientId == clientId {
        assert me in SetOf(full);
        WithinMeansFewAhead(full, limit, me);
        WithinMeansFewAhead(part, limit, me);
        var few, many := Ahead(SetOf(part), me), Ahead(SetOf(full), me);
        assert few <= many;
        assert many == few + (many - few);
      } else {
        WithinMeansFewAhead(part, limit, Presence(clientId, Infinity));
      }
    }
  }

  /** Connections that join after this one do not change its verdict. */
  lemma LaterJoinersDoNotMatter(before: seq<Presence>, after: seq<Presence>, me: Presence, limit: Limit)
    requires DistinctIds(before) && DistinctIds(after) && me in before && SetOf(before) <= SetOf(after)
    requires forall p | p in after && p !in before :: JoinedBefore(me, p)
    ensures Within(after, me.clientId, limit) == Within(before, me.clientId, limit)
  {
    if Enforced(limit) {
      assert me in SetOf(after);
      WithinMeansFewAhead(before, limit, me);
      WithinMeansFewAhead(after, limit, me);
      assert Ahead(SetOf(after), me) == Ahead(SetOf(before), me);
    }
  }

  /** The connections that may stay. */
  function Stayers(presences: seq<Presence>, limit: Limit): set<Presence> {
    set p | p in presences && Within(presences, p.clientId, limit)
  }

  /** The least integer not below the limit. */
  function Ceiling(x: real): int {
    if x == x.Floor as real then x.Floor else x.Floor + 1
  }

  lemma BelowCeiling(k: int, x: real)
    ensures (k as real) < x <==> k < Ceiling(x)
  {
  }

  /** Exactly as many stay as there are, or as the limit rounded up allows. */
  lemma ExactlyTheLimitStays(presences: seq<Presence>, limit: Limit)
    requires DistinctIds(presences) && Enforced(limit)
    ensures |Stayers(presences, limit)| == Min(|presences|, Ceiling(limit.value))
  {
    var sorted := Sorted(presences);
    SortedIncreasing(presences);
    SortedLength(presences);
    BelowCeiling(0, limit.value);
    var n := Min(|presences|, Ceiling(limit.value));
    forall p
      ensures p in Stayers(presences, limit) <==> p in SetOf(sorted[..n])
    {
      if p in presences {
        StaysWithinPrefix(presences, p, n, limit);
      } else {
        assert p in SetOf(sorted[..n]) ==> p in SetOf(sorted);
      }
    }
    assert Stayers(presences, limit) == SetOf(sorted[..n]);
    PrefixSize(sorted, n);
  }

  lemma StaysWithinPrefix(presences: seq<Presence>, p: Presence, n: nat, limit: Limit)
    requires DistinctIds(presences) && Enforced(limit) && p in presences && n == Min(|presences|, Ceiling(limit.value))
    ensures |Sorted(presences)| == |presences|
    ensures Within(presences, p.clientId, limit) <==> p in SetOf(Sorted(presences)[..n])
  {
    var sorted := Sorted(presences);
    SortedIncreasing(presences);
    SortedLength(presences);
    IncreasingIsDistinct(sorted, presences);
    assert p in SetOf(sorted);
    var k :| 0 <= k < |sorted| && sorted[k] == p;
    IndexIsWhere(sorted, k);
    BelowCeiling(k, limit.value);
    if k < n {
      assert sorted[..n][k] == p;
    }
    if p in SetOf(sorted[..n]) {
      var i :| 0 <= i < n && sorted[i] == p;
      BeforeIsEarlier(sorted, i, k);
      BeforeIsEarlier(sorted, k, i);
    }
  }

  /** The survivors are stable: once the others have left, everyone who stayed may still stay. */
  lemma SurvivorsAreStable(presences: seq<Presence>, left: seq<Presence>, p: Presence, limit: Limit)
    requires DistinctIds(presences) && DistinctIds(left) && SetOf(left) == Stayers(presences, limit) && p in left
    ensures Within(left, p.clientId, limit)
  {
    assert p in SetOf(left);
    PartialViewsNeverEvict(presences, left, p.clientId, limit);
  }

  // ---------- from awareness to the verdict ----------

  // The peers that have published something.
  predicate HasPublished(states: seq<(int, Info)>, clientId: int) {
    exists i | 0 <= i < |states| :: states[i].0 == clientId && states[i].1.Published?
  }

  predicate IsListed(presences: seq<Presence>, clientId: int) {
    exists i | 0 <= i < |presences| :: presences[i].clientId == clientId
  }

  lemma PublishedAppend(states: seq<(int, Info)>, last: (int, Info), clientId: int)
    ensures HasPublished(states + [last], clientId) <==> HasPublished(states, clientId) || (last.0 == clientId && last.1.Published?)
  {
    assert forall i | 0 <= i < |states| :: (states + [last])[i] == states[i];
    assert (states + [last])[|states|] == last;
  }

  lemma ListedAppend(presences: seq<Presence>, last: Presence, clientId: int)
    ensures IsListed(presences + [last], clientId) <==> IsListed(presences, clientId) || last.clientId == clientId
  {
    assert forall i | 0 <= i < |presences| :: (presences + [last])[i] == presences[i];
    assert (presences + [last])[|presences|] == last;
  }

  /** A connection is read exactly for each peer that has published something. */
  lemma {:induction false} ReadExactlyThePublished(states: seq<(int, Info)>, clientId: int)
    ensures IsListed(Presences(states), clientId) <==> HasPublished(states, clientId)
  {
    if states != [] {
      var init := states[..|states| - 1];
      var last := states[|states| - 1];
      assert states == init + [last];
      ReadExactlyThePublished(init, clientId);
      PublishedAppend(init, last, clientId);
      hide IsListed, HasPublished;
      if last.1.Published? {
        ListedAppend(Presences(init), Presence(last.0, if last.1.enteredAt.Some? then At(last.1.enteredAt.value) else Infinity), clientId);
      } else {
        assert Presences(init) + [] == Presences(init);
      }
    }
  }

  /** It is read with the time that the peer has published, or with infinity if it has published none. */
  lemma {:induction false} ReadWithTheirTimes(states: seq<(int, Info)>, p: Presence)
    ensures p in Presences(states)
            <==> exists i :: 0 <= i < |states| && states[i].0 == p.clientId
                             && states[i].1 == Published(if p.joinedAt.At? then Some(p.joinedAt.time) else None)
  {
    if states != [] {
      var init := states[..|states| - 1];
      ReadWithTheirTimes(init, p);
      var info := Published(if p.joinedAt.At? then Some(p.joinedAt.time) else None);
      assert forall i | 0 <= i < |init| :: states[i] == init[i];
      assert (exists i :: 0 <= i < |states| && states[i] == (p.clientId, info))
        <==> (exists i :: 0 <= i < |init| && init[i] == (p.clientId, info)) || states[|states| - 1] == (p.clientId, info);
    }
  }

  /** Awareness keys are distinct, so the connections read from them are; peers that have published nothing are left out. */
  lemma {:induction false} ReadIdsAreDistinct(states: seq<(int, Info)>)
    requires forall i, j | 0 <= i < j < |states| :: states[i].0 != states[j].0
    ensures DistinctIds(Presences(states))
  {
    if states != [] {
      var init := states[..|states| - 1];
      ReadIdsAreDistinct(init);
      ReadExactlyThePublished(init, states[|states| - 1].0);
      assert forall i | 0 <= i < |init| :: init[i] == states[i];
    }
  }
}
