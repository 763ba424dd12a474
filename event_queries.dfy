/**
 * The category queries over the audit log (Repositories/Implementations/
 * SecurityEventRepository.cs): filter by event type, then order by OccurredUtc
 * descending. The database does not promise an order among equal timestamps;
 * `Query` is one admissible answer and `IsQueryResult` describes them all.
 */
module EventQueries {
  import opened Entities

  datatype EventCategory = AuthEvents | RoleChangeEvents | AllEvents

  /** The WHERE clause of each query. */
  predicate InCategory(c: EventCategory, e: SecurityEvent) {
    match c
    case AuthEvents => e.eventType == LoginSuccessType || e.eventType == LogoutType
    case RoleChangeEvents => e.eventType == RoleAssignedType
    case AllEvents => true
  }

  /** ORDER BY OccurredUtc DESC. */
  ghost predicate NewestFirst(s: seq<SecurityEvent>) {
    forall i, j :: 0 <= i < j < |s| ==> s[i].occurredUtc >= s[j].occurredUtc
  }

  /**
   * `r` is an admissible answer to the query: newest first, and a permutation of
   * exactly the events of the category (each as often as it is stored).
   */
  ghost predicate IsQueryResult(events: seq<SecurityEvent>, c: EventCategory, r: seq<SecurityEvent>) {
    && NewestFirst(r)
    && forall e :: multiset(r)[e] == if InCategory(c, e) then multiset(events)[e] else 0
  }

  function OfCategory(events: seq<SecurityEvent>, c: EventCategory): (r: seq<SecurityEvent>)
    ensures forall e :: multiset(r)[e] == if InCategory(c, e) then multiset(events)[e] else 0
  {
    if events == [] then []
    else
      assert events == [events[0]] + events[1..];
      (if InCategory(c, events[0]) then [events[0]] else []) + OfCategory(events[1..], c)
  }

  /** No event of `s` is newer than `t`. */
  ghost predicate NotNewerThan(s: seq<SecurityEvent>, t: Instant) {
    forall i :: 0 <= i < |s| ==> s[i].occurredUtc <= t
  }

  /** The bound carries over to a sequence holding the same events plus `e`. */
  lemma {:induction false} BoundCarriesOver(r: seq<SecurityEvent>, s: seq<SecurityEvent>, e: SecurityEvent, t: Instant)
    requires multiset(r) == multiset(s) + multiset{e}
    requires NotNewerThan(s, t) && e.occurredUtc <= t
    ensures NotNewerThan(r, t)
  {
    forall i | 0 <= i < |r| ensures r[i].occurredUtc <= t {
      assert r[i] in multiset(r);
      if r[i] != e {
        assert r[i] in multiset(s);
        var k :| 0 <= k < |s| && s[k] == r[i];
      }
    }
  }

  lemma {:induction false} PrependKeepsNewestFirst(x: SecurityEvent, s: seq<SecurityEvent>)
    requires NewestFirst(s) && NotNewerThan(s, x.occurredUtc)
    ensures NewestFirst([x] + s)
  {
    var r := [x] + s;
    forall i, j | 0 <= i < j < |r| ensures r[i].occurredUtc >= r[j].occurredUtc {
      assert r[j] == s[j - 1];
      if i > 0 {
        assert r[i] == s[i - 1];
      }
    }
  }

  /** In a newest-first sequence no event is newer than the first. */
  lemma {:induction false} HeadIsNewest(s: seq<SecurityEvent>)
    requires s != [] && NewestFirst(s)
    ensures NotNewerThan(s, s[0].occurredUtc)
    ensures NotNewerThan(s[1..], s[0].occurredUtc)
  {
    forall i | 0 < i < |s| ensures s[i].occurredUtc <= s[0].occurredUtc {
      assert s[0].occurredUtc >= s[i].occurredUtc;
    }
    forall i | 0 <= i < |s[1..]| ensures s[1..][i].occurredUtc <= s[0].occurredUtc {
      assert s[1..][i] == s[i + 1];
    }
  }

  function InsertNewestFirst(e: SecurityEvent, s: seq<SecurityEvent>): (r: seq<SecurityEvent>)
    requires NewestFirst(s)
    ensures NewestFirst(r)
    ensures multiset(r) == multiset(s) + multiset{e}
  {
    if s == [] then
      PrependKeepsNewestFirst(e, s);
      [e]
    else if e.occurredUtc >= s[0].occurredUtc then
      HeadIsNewest(s);
      PrependKeepsNewestFirst(e, s);
      [e] + s
    else
      var rest := InsertNewestFirst(e, s[1..]);
      assert s == [s[0]] + s[1..];
      HeadIsNewest(s);
      BoundCarriesOver(rest, s[1..], e, s[0].occurredUtc);
      PrependKeepsNewestFirst(s[0], rest);
      [s[0]] + rest
  }

  function SortNewestFirst(s: seq<SecurityEvent>): (r: seq<SecurityEvent>)
    ensures NewestFirst(r)
    ensures multiset(r) == multiset(s)
  {
    if s == [] then []
    else
      assert s == [s[0]] + s[1..];
      InsertNewestFirst(s[0], SortNewestFirst(s[1..]))
  }

  /** Filter, then sort: one admissible answer to the query. */
  function Query(events: seq<SecurityEvent>, c: EventCategory): (r: seq<SecurityEvent>)
    ensures IsQueryResult(events, c, r)
  {
    SortNewestFirst(OfCategory(events, c))
  }

  ghost predicate DistinctTimes(s: seq<SecurityEvent>) {
    forall i, j :: 0 <= i < j < |s| ==> s[i].occurredUtc != s[j].occurredUtc
  }

  /** Removing the same first event from two sequences with the same events leaves the same events. */
  lemma {:induction false} SameTails(a: seq<SecurityEvent>, b: seq<SecurityEvent>)
    requires a != [] && b != [] && a[0] == b[0] && multiset(a) == multiset(b)
    ensures multiset(a[1..]) == multiset(b[1..])
  {
    assert a == [a[0]] + a[1..];
    assert b == [b[0]] + b[1..];
    assert multiset(a) == multiset{a[0]} + multiset(a[1..]);
    assert multiset(b) == multiset{a[0]} + multiset(b[1..]);
    forall x ensures multiset(a[1..])[x] == multiset(b[1..])[x] {
      assert multiset(a)[x] == multiset(b)[x];
    }
  }

  /** Of two newest-first arrangements of the same events, with distinct times, the heads agree. */
  lemma {:induction false} SameHeads(a: seq<SecurityEvent>, b: seq<SecurityEvent>)
    requires a != [] && b != []
    requires NewestFirst(a) && NewestFirst(b) && multiset(a) == multiset(b)
    requires DistinctTimes(a)
    ensures a[0] == b[0]
  {
    assert b[0] in multiset(a);
    var k :| 0 <= k < |a| && a[k] == b[0];
    assert a[0] in multiset(b);
    var m :| 0 <= m < |b| && b[m] == a[0];
    assert a[0].occurredUtc >= a[k].occurredUtc;
    assert b[0].occurredUtc >= b[m].occurredUtc;
    assert a[0].occurredUtc == a[k].occurredUtc;
    assert k == 0;
  }

  /**
   * When no two timestamps coincide the order is fully determined: two
   * newest-first arrangements of the same events are equal.
   */
  lemma {:induction false} NewestFirstIsUnique(a: seq<SecurityEvent>, b: seq<SecurityEvent>)
    requires NewestFirst(a) && NewestFirst(b) && multiset(a) == multiset(b)
    requires DistinctTimes(a)
    ensures a == b
  {
    assert |a| == |multiset(a)| == |multiset(b)| == |b|;
    if a != [] {
      SameHeads(a, b);
      SameTails(a, b);
      assert NewestFirst(a[1..]) && NewestFirst(b[1..]) && DistinctTimes(a[1..]) by {
        forall i, j | 0 <= i < j < |a| - 1 ensures a[1..][i].occurredUtc > a[1..][j].occurredUtc {
          assert a[1..][i] == a[i + 1] && a[1..][j] == a[j + 1];
        }
        forall i, j | 0 <= i < j < |b| - 1 ensures b[1..][i].occurredUtc >= b[1..][j].occurredUtc {
          assert b[1..][i] == b[i + 1] && b[1..][j] == b[j + 1];
        }
      }
      NewestFirstIsUnique(a[1..], b[1..]);
      assert a == [a[0]] + a[1..] && b == [b[0]] + b[1..];
    }
  }

  /**
   * Any admissible answer whose timestamps are pairwise distinct is the answer
   * `Query` gives.
   */
  lemma QueryResultIsDetermined(events: seq<SecurityEvent>, c: EventCategory, r: seq<SecurityEvent>)
    requires IsQueryResult(events, c, r) && DistinctTimes(r)
    ensures r == Query(events, c)
  {
    var q := Query(events, c);
    assert multiset(r) == multiset(q) by {
      forall e ensures multiset(r)[e] == multiset(q)[e] { }
    }
    NewestFirstIsUnique(r, q);
  }

  /** Three authentication events at t1 < t2 < t3 come back as [t3, t2, t1]. */
  lemma AuthQueryOrdersNewestFirst(e1: SecurityEvent, e2: SecurityEvent, e3: SecurityEvent)
    requires InCategory(AuthEvents, e1) && InCategory(AuthEvents, e2) && InCategory(AuthEvents, e3)
    requires e1.occurredUtc < e2.occurredUtc < e3.occurredUtc
    ensures Query([e1, e2, e3], AuthEvents) == [e3, e2, e1]
  {
    var events, r := [e1, e2, e3], [e3, e2, e1];
    assert multiset(r) == multiset(events);
    QueryResultIsDetermined(events, AuthEvents, r);
  }
}
