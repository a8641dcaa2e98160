/** The order of the traffic ranking (internal/VirtualRouterServer/server.go,
    lines 258-303): sort by a strict order, then keep the first few. */
module Ranking {
  import opened Basics

  datatype Snapshot = Snapshot(id: RouteId, incoming: nat, outgoing: nat, total: nat, perMinute: nat)

  /** Busier in the last minute first, then busier overall, then by name. */
  predicate Before(a: Snapshot, b: Snapshot) {
    if a.perMinute == b.perMinute then
      if a.total == b.total then LexLess(a.id, b.id) else a.total > b.total
    else a.perMinute > b.perMinute
  }

  function EffectiveLimit(limit: int): (n: nat)
    ensures 1 <= n <= 500
    ensures limit <= 0 ==> n == 50
    ensures 1 <= limit <= 500 ==> n == limit
  {
    if limit <= 0 then 50 else if limit > 500 then 500 else limit
  }

  ghost predicate DistinctIds(list: seq<Snapshot>) {
    forall i, j :: 0 <= i < j < |list| ==> list[i].id != list[j].id
  }

  ghost predicate Ranked(list: seq<Snapshot>) {
    forall i, j :: 0 <= i < j < |list| ==> Before(list[i], list[j])
  }

  /** The first n of s under the order: nothing left out comes before anything
      kept. The order of enumeration of s does not appear. */
  ghost predicate IsRanking(s: set<Snapshot>, n: nat, list: seq<Snapshot>) {
    && |list| == Min(n, |s|)
    && (forall x :: x in list ==> x in s)
    && Ranked(list)
    && (forall x, y :: x in list && y in s && y !in list ==> Before(x, y))
  }

  // ---------------------------------------------------------------------
  // The order

  lemma BeforeIsStrict(a: Snapshot, b: Snapshot)
    ensures !(Before(a, b) && Before(b, a)) && !Before(a, a)
    ensures a.id != b.id ==> Before(a, b) || Before(b, a)
  {
    LexTrichotomy(a.id, b.id);
  }

  lemma BeforeTransitive(a: Snapshot, b: Snapshot, c: Snapshot)
    requires Before(a, b) && Before(b, c)
    ensures Before(a, c)
  {
    if LexLess(a.id, b.id) && LexLess(b.id, c.id) {
      LexTransitive(a.id, b.id, c.id);
    }
  }

  /** The order in fields: the busiest of the last minute come first, then the
      busiest overall, then the lesser id. */
  lemma RankedInFields(list: seq<Snapshot>, i: nat, j: nat)
    requires Ranked(list) && i < j < |list|
    ensures list[i].perMinute >= list[j].perMinute
    ensures list[i].perMinute == list[j].perMinute ==> list[i].total >= list[j].total
    ensures list[i].perMinute == list[j].perMinute && list[i].total == list[j].total ==> LexLess(list[i].id, list[j].id)
  {
    assert Before(list[i], list[j]);
  }

  /** And what is left out is no better than anything kept. */
  lemma LeftOutInFields(s: set<Snapshot>, n: nat, list: seq<Snapshot>, x: Snapshot, y: Snapshot)
    requires IsRanking(s, n, list) && x in list && y in s && y !in list
    ensures y.perMinute <= x.perMinute
    ensures y.perMinute == x.perMinute ==> y.total <= x.total
    ensures y.perMinute == x.perMinute && y.total == x.total ==> LexLess(x.id, y.id)
  {
    assert Before(x, y);
  }

  // ---------------------------------------------------------------------
  // There is only one ranking

  lemma LaterOrLeftOut(s: set<Snapshot>, n: nat, a: seq<Snapshot>, i: nat, y: Snapshot)
    requires IsRanking(s, n, a) && i < |a| && y in s && y !in a[..i] && y != a[i]
    ensures Before(a[i], y)
  {
    assert forall j :: 0 <= j < i ==> a[j] in a[..i];
  }

  lemma {:induction false} RankingsAgree(s: set<Snapshot>, n: nat, a: seq<Snapshot>, b: seq<Snapshot>, i: nat)
    requires IsRanking(s, n, a) && IsRanking(s, n, b) && i <= |a|
    ensures a[..i] == b[..i]
  {
    if i > 0 {
      var k := i - 1;
      RankingsAgree(s, n, a, b, k);
      if a[k] != b[k] {
        NotEarlier(a, k);
        NotEarlier(b, k);
        LaterOrLeftOut(s, n, a, k, b[k]);
        LaterOrLeftOut(s, n, b, k, a[k]);
        BeforeIsStrict(a[k], b[k]);
      }
      assert a[..i] == a[..k] + [a[k]] && b[..i] == b[..k] + [b[k]];
    }
  }

  lemma NotEarlier(a: seq<Snapshot>, k: nat)
    requires Ranked(a) && k < |a|
    ensures a[k] !in a[..k]
  {
    forall j | 0 <= j < k ensures a[j] != a[k] {
      BeforeIsStrict(a[j], a[k]);
    }
  }

  lemma RankingUnique(s: set<Snapshot>, n: nat, a: seq<Snapshot>, b: seq<Snapshot>)
    requires IsRanking(s, n, a) && IsRanking(s, n, b)
    ensures a == b
  {
    RankingsAgree(s, n, a, b, |a|);
    assert a[..|a|] == a && b[..|b|] == b;
  }

  // ---------------------------------------------------------------------
  // Sorting and cutting gives it

  /** Stands in for sort.Slice, of which only this contract is used. */
  method SortSnapshots(list: seq<Snapshot>) returns (r: seq<Snapshot>)
    requires DistinctIds(list)
    ensures Ranked(r) && |r| == |list|
    ensures forall x :: x in r <==> x in list
  {
    r := [];
    for i := 0 to |list|
      invariant Ranked(r) && |r| == i
      invariant forall x :: x in r <==> x in list[..i]
    {
      var x := list[i];
      forall y | y in r ensures y.id != x.id {
        var j :| 0 <= j < i && list[j] == y;
      }
      r := Insert(x, r);
      assert list[..i + 1] == list[..i] + [x];
    }
    assert list[..|list|] == list;
  }

  method Insert(x: Snapshot, sorted: seq<Snapshot>) returns (r: seq<Snapshot>)
    requires Ranked(sorted) && forall y :: y in sorted ==> y.id != x.id
    ensures Ranked(r) && |r| == |sorted| + 1
    ensures forall y :: y in r <==> y == x || y in sorted
  {
    var i := 0;
    while i < |sorted| && Before(sorted[i], x)
      invariant 0 <= i <= |sorted|
      invariant forall j :: 0 <= j < i ==> Before(sorted[j], x)
    {
      i := i + 1;
    }
    r := sorted[..i] + [x] + sorted[i..];
    forall j | i <= j < |sorted| ensures Before(x, sorted[j]) {
      BeforeIsStrict(x, sorted[i]);
      if j > i {
        BeforeTransitive(x, sorted[i], sorted[j]);
      }
    }
    InsertedIsRanked(x, sorted, i);
    assert sorted == sorted[..i] + sorted[i..];
  }

  lemma InsertedIsRanked(x: Snapshot, sorted: seq<Snapshot>, i: nat)
    requires Ranked(sorted) && i <= |sorted|
    requires forall j :: 0 <= j < i ==> Before(sorted[j], x)
    requires forall j :: i <= j < |sorted| ==> Before(x, sorted[j])
    ensures Ranked(sorted[..i] + [x] + sorted[i..])
  {
    var r := sorted[..i] + [x] + sorted[i..];
    forall a, b | 0 <= a < b < |r| ensures Before(r[a], r[b]) {
      assert r[a] == if a < i then sorted[a] else if a == i then x else sorted[a - 1];
      assert r[b] == if b < i then sorted[b] else if b == i then x else sorted[b - 1];
    }
  }

  lemma {:induction false} RankedSize(list: seq<Snapshot>)
    requires Ranked(list)
    ensures |set x | x in list| == |list|
  {
    if list != [] {
      var k := |list| - 1;
      RankedSize(list[..k]);
      NotEarlier(list, k);
      assert list == list[..k] + [list[k]];
      assert (set x | x in list) == (set x | x in list[..k]) + {list[k]};
    }
  }

  lemma RankingOfSorted(s: set<Snapshot>, all: seq<Snapshot>, sorted: seq<Snapshot>, n: nat)
    requires forall x :: x in all <==> x in s
    requires Ranked(sorted) && forall x :: x in sorted <==> x in all
    ensures IsRanking(s, n, if |sorted| > n then sorted[..n] else sorted)
  {
    RankedSize(sorted);
    assert s == set x | x in sorted;
    if |sorted| > n {
      forall x, y | x in sorted[..n] && y in s && y !in sorted[..n] ensures Before(x, y) {
        var i :| 0 <= i < n && sorted[i] == x;
        var j :| 0 <= j < |sorted| && sorted[j] == y;
        assert j >= n by { assert forall k :: 0 <= k < n ==> sorted[k] in sorted[..n]; }
      }
    }
  }
}
