/** Traffic counters of the server: pruned sliding windows and running totals
    (internal/VirtualRouterServer/server.go, lines 258-366). */
module TrafficStats {
  import opened Basics
  import opened Ranking

  const WINDOW_MS := 60_000

  datatype RouterStats = RouterStats(id: RouteId, incoming: nat, outgoing: nat, hits: seq<int>)

  type StatsMap = map<RouteId, RouterStats>

  datatype Stats = Stats(byRouter: StatsMap, requestHits: seq<int>)

  const NO_STATS := Stats(map[], [])

  // ---------------------------------------------------------------------
  // Windows

  /** What pruneLastMinute keeps: it stops at the first hit that is recent. */
  function DropStale(list: seq<int>, cutoff: int): seq<int> {
    if list != [] && list[0] < cutoff then DropStale(list[1..], cutoff) else list
  }

  function IfRecent(t: int, cutoff: int): seq<int> {
    if t >= cutoff then [t] else []
  }

  /** What it is meant to keep: every recent hit, wherever it stands. */
  function Recent(list: seq<int>, cutoff: int): seq<int> {
    if list == [] then [] else IfRecent(list[0], cutoff) + Recent(list[1..], cutoff)
  }

  method PruneLastMinute(list: seq<int>, now: int) returns (r: seq<int>)
    ensures r == DropStale(list, now - 60_000)
  {
    if |list| == 0 {
      return list;
    }
    var cutoff := now - WINDOW_MS;
    var idx := 0;
    while idx < |list| && list[idx] < cutoff
      invariant 0 <= idx <= |list|
      invariant DropStale(list, cutoff) == DropStale(list[idx..], cutoff)
    {
      idx := idx + 1;
    }
    if idx == 0 {
      return list;
    }
    if idx >= |list| {
      return list[..0];
    }
    return list[idx..];
  }

  /** What filtering means: the hits from the cutoff on, each as often as it was
      recorded, in the order in which it was. */
  lemma {:induction false} RecentMeans(list: seq<int>, cutoff: int)
    ensures forall t :: multiset(Recent(list, cutoff))[t] == if t >= cutoff then multiset(list)[t] else 0
    ensures Ascending(list) ==> Ascending(Recent(list, cutoff))
  {
    if list != [] {
      RecentMeans(list[1..], cutoff);
      RecentIsRecent(list[1..], cutoff);
      assert list == [list[0]] + list[1..];
      if Ascending(list) {
        RecentAscends(list, cutoff);
      }
    }
  }

  lemma RecentAscends(list: seq<int>, cutoff: int)
    requires list != [] && Ascending(list) && Ascending(Recent(list[1..], cutoff))
    ensures Ascending(Recent(list, cutoff))
  {
    RecentIsRecent(list[1..], cutoff);
    var rest := Recent(list[1..], cutoff);
    forall j | 0 <= j < |rest| ensures list[0] <= rest[j] {
      assert rest[j] in rest && rest[j] in list[1..];
    }
  }

  lemma {:induction false} RecentSnoc(list: seq<int>, t: int, cutoff: int)
    ensures Recent(list + [t], cutoff) == Recent(list, cutoff) + IfRecent(t, cutoff)
  {
    if list == [] {
      assert list + [t] == [t] && [t][1..] == [];
    } else {
      RecentSnoc(list[1..], t, cutoff);
      Associates(IfRecent(list[0], cutoff), Recent(list[1..], cutoff), IfRecent(t, cutoff));
      assert (list + [t])[0] == list[0] && (list + [t])[1..] == list[1..] + [t];
    }
  }

  lemma {:induction false} RecentIsRecent(list: seq<int>, cutoff: int)
    ensures forall t :: t in Recent(list, cutoff) ==> t >= cutoff && t in list
    ensures |Recent(list, cutoff)| <= |list|
  {
    if list != [] {
      RecentIsRecent(list[1..], cutoff);
    }
  }

  lemma {:induction false} AllRecent(list: seq<int>, cutoff: int)
    requires forall i :: 0 <= i < |list| ==> list[i] >= cutoff
    ensures Recent(list, cutoff) == list
  {
    if list != [] {
      AllRecent(list[1..], cutoff);
    }
  }

  lemma {:induction false} RecentTwice(list: seq<int>, c1: int, c2: int)
    requires c1 <= c2
    ensures Recent(Recent(list, c1), c2) == Recent(list, c2)
  {
    if list != [] {
      RecentTwice(list[1..], c1, c2);
      if list[0] >= c1 {
        assert Recent(list, c1)[1..] == Recent(list[1..], c1);
      } else {
        assert Recent(list, c1) == Recent(list[1..], c1);
        assert Recent(list, c2) == Recent(list[1..], c2);
      }
    }
  }

  ghost predicate Ascending(list: seq<int>) {
    forall i, j :: 0 <= i < j < |list| ==> list[i] <= list[j]
  }

  /** Once a hit is recent, so is every hit behind it. */
  ghost predicate StaleFirst(list: seq<int>, cutoff: int) {
    forall i, j :: 0 <= i < j < |list| && list[i] >= cutoff ==> list[j] >= cutoff
  }

  lemma {:induction false} PruneFilters(list: seq<int>, cutoff: int)
    requires StaleFirst(list, cutoff)
    ensures DropStale(list, cutoff) == Recent(list, cutoff)
  {
    if list == [] {
    } else if list[0] < cutoff {
      PruneFilters(list[1..], cutoff);
    } else {
      AllRecent(list, cutoff);
    }
  }

  lemma {:induction false} FilterNeedsOrder(list: seq<int>, cutoff: int)
    requires DropStale(list, cutoff) == Recent(list, cutoff)
    ensures StaleFirst(list, cutoff)
  {
    if list == [] {
    } else if list[0] < cutoff {
      var rest := list[1..];
      assert Recent(list, cutoff) == Recent(rest, cutoff);
      FilterNeedsOrder(rest, cutoff);
      forall i, j | 0 <= i < j < |list| && list[i] >= cutoff ensures list[j] >= cutoff {
        assert rest[i - 1] == list[i] && rest[j - 1] == list[j];
      }
    } else {
      RecentIsRecent(list, cutoff);
      forall j | 0 <= j < |list| ensures list[j] >= cutoff {
        assert list[j] in Recent(list, cutoff);
      }
    }
  }

  /** Pruning equals filtering exactly when no recent hit is followed by a stale
      one, which is what a clock that never steps back guarantees. */
  lemma PruneIsFilterExactly(list: seq<int>, cutoff: int)
    ensures DropStale(list, cutoff) == Recent(list, cutoff) <==> StaleFirst(list, cutoff)
  {
    if StaleFirst(list, cutoff) {
      PruneFilters(list, cutoff);
    }
    if DropStale(list, cutoff) == Recent(list, cutoff) {
      FilterNeedsOrder(list, cutoff);
    }
  }

  // ---------------------------------------------------------------------
  // What each operation does to the counters

  function Entry(m: StatsMap, id: RouteId): RouterStats {
    if id in m then m[id] else RouterStats(id, 0, 0, [])
  }

  function Hit(list: seq<int>, now: int): seq<int> {
    DropStale(list + [now], now - WINDOW_MS)
  }

  function Outgoing(m: StatsMap, id: RouteId, now: int): StatsMap {
    if id == "" then m
    else var e := Entry(m, id); m[id := e.(outgoing := e.outgoing + 1, hits := Hit(e.hits, now))]
  }

  function Incoming(m: StatsMap, id: RouteId, now: int): StatsMap {
    if id == "" then m
    else var e := Entry(m, id); m[id := e.(incoming := e.incoming + 1, hits := Hit(e.hits, now))]
  }

  function PrunedEntry(r: RouterStats, now: int): RouterStats {
    r.(hits := DropStale(r.hits, now - WINDOW_MS))
  }

  function Pruned(m: StatsMap, selected: set<RouteId>, now: int): StatsMap {
    map id | id in m :: if id in selected then PrunedEntry(m[id], now) else m[id]
  }

  datatype Event =
    | Rpc(time: int, from: RouteId, to: RouteId)
    | Request(time: int)
    | Ranked(time: int, selected: set<RouteId>)
    | Counted(time: int)

  function StatsStep(s: Stats, e: Event): Stats {
    match e
    case Rpc(t, from, to) => s.(byRouter := Incoming(Outgoing(s.byRouter, from, t), to, t))
    case Request(t) => s.(requestHits := Hit(s.requestHits, t))
    case Ranked(t, selected) => s.(byRouter := Pruned(s.byRouter, selected, t))
    case Counted(t) => s.(requestHits := DropStale(s.requestHits, t - WINDOW_MS))
  }

  function StatsAfter(es: seq<Event>): Stats {
    if es == [] then NO_STATS else StatsStep(StatsAfter(es[..|es| - 1]), es[|es| - 1])
  }

  // ---------------------------------------------------------------------
  // The object

  class ServerStats {
    var byRouter: StatsMap
    var requestHits: seq<int>

    /** Counters are kept under the id they count for. */
    ghost predicate Valid()
      reads this
    {
      KeyedById(byRouter)
    }

    constructor ()
      ensures Valid() && View() == NO_STATS
    {
      byRouter, requestHits := map[], [];
    }

    function View(): Stats
      reads this
    {
      Stats(byRouter, requestHits)
    }

    method EnsureRouterRPCStats(id: RouteId) returns (item: RouterStats)
      requires Valid()
      modifies this`byRouter
      ensures Valid()
      ensures item == Entry(old(byRouter), id) && byRouter == old(byRouter)[id := item]
    {
      if id in byRouter {
        item := byRouter[id];
        assert byRouter == byRouter[id := item];
        return;
      }
      item := RouterStats(id, 0, 0, []);
      byRouter := byRouter[id := item];
    }

    method RecordRouterRPC(from: RouteId, to: RouteId, now: int)
      requires Valid()
      modifies this`byRouter
      ensures Valid()
      ensures View() == StatsStep(old(View()), Rpc(now, from, to))
    {
      if from != "" {
        var outgoing := EnsureRouterRPCStats(from);
        outgoing := outgoing.(outgoing := outgoing.outgoing + 1, hits := outgoing.hits + [now]);
        var kept := PruneLastMinute(outgoing.hits, now);
        byRouter := byRouter[from := outgoing.(hits := kept)];
        assert byRouter == Outgoing(old(byRouter), from, now);
      }
      ghost var sent := byRouter;
      if to != "" {
        var incoming := EnsureRouterRPCStats(to);
        incoming := incoming.(incoming := incoming.incoming + 1, hits := incoming.hits + [now]);
        var kept := PruneLastMinute(incoming.hits, now);
        byRouter := byRouter[to := incoming.(hits := kept)];
        assert byRouter == Incoming(sent, to, now);
      }
    }

    method RecordRequestHit(now: int)
      modifies this`requestHits
      ensures View() == StatsStep(old(View()), Request(now))
    {
      requestHits := requestHits + [now];
      requestHits := PruneLastMinute(requestHits, now);
    }

    method RequestsPerMinute(now: int) returns (n: nat)
      modifies this`requestHits
      ensures View() == StatsStep(old(View()), Counted(now))
      ensures n == |requestHits|
    {
      requestHits := PruneLastMinute(requestHits, now);
      n := |requestHits|;
    }

    /** Prune and list what matches, in the arbitrary order of a Go map. */
    method CollectSnapshots(matches: RouteId -> bool, now: int) returns (all: seq<Snapshot>)
      requires Valid()
      modifies this`byRouter
      ensures Valid()
      ensures byRouter == Pruned(old(byRouter), Selected(old(byRouter), matches), now)
      ensures DistinctIds(all)
      ensures ListsExactly(byRouter, Selected(byRouter, matches), all)
    {
      all := [];
      ghost var before, done := byRouter, {};
      var todo := byRouter.Keys;
      while todo != {}
        invariant todo !! done && todo + done == before.Keys
        invariant byRouter == Pruned(before, Selected(before, matches) * done, now)
        invariant ListsExactly(byRouter, Selected(before, matches) * done, all)
        invariant DistinctIds(all)
        decreases todo
      {
        var id :| id in todo;
        ghost var seen := Selected(before, matches) * done;
        todo, done := todo - {id}, done + {id};
        var item := byRouter[id];
        assert item == before[id];
        if matches(item.id) {
          var kept := PruneLastMinute(item.hits, now);
          item := item.(hits := kept);
          ListedOneMore(before, seen, id, byRouter, now, all);
          byRouter := byRouter[id := item];
          all := all + [SnapshotOf(item)];
          assert Selected(before, matches) * done == seen + {id};
        } else {
          assert Selected(before, matches) * done == seen;
        }
      }
      assert Selected(before, matches) * done == Selected(before, matches);
    }

    /** The ranking page: prune what matches, list it, sort it, cut it. The
        keyword test is any predicate on ids. */
    method RouterRPCStats(matches: RouteId -> bool, limit: int, now: int) returns (list: seq<Snapshot>)
      requires Valid()
      modifies this`byRouter
      ensures Valid()
      ensures View() == StatsStep(old(View()), Ranked(now, Selected(old(byRouter), matches)))
      ensures IsRanking(Snapshots(byRouter, Selected(byRouter, matches)), EffectiveLimit(limit), list)
      ensures |list| == Min(if limit <= 0 then 50 else if limit > 500 then 500 else limit, |set id | id in byRouter && matches(id)|)
      ensures forall x :: x in list ==> IsLineOf(x, byRouter) && matches(x.id)
      ensures forall i, j :: 0 <= i < j < |list| ==> Outranks(list[i], list[j])
      ensures forall id, x :: id in byRouter && matches(id) && x in list && (forall y :: y in list ==> y.id != id) ==>
                Outranks(x, SnapshotOf(byRouter[id]))
    {
      var all := CollectSnapshots(matches, now);
      list := SortSnapshots(all);
      var cap := EffectiveLimit(limit);
      ghost var ids := Selected(byRouter, matches);
      RankingOfSorted(Snapshots(byRouter, ids), all, list, cap);
      if |list| > cap {
        list := list[..cap];
      }
      PageInFields(byRouter, ids, cap, list);
    }
  }

  /** The line shows this router's counters. */
  ghost predicate IsLineOf(x: Snapshot, m: StatsMap) {
    && x.id in m
    && x.incoming == m[x.id].incoming && x.outgoing == m[x.id].outgoing
    && x.total == m[x.id].incoming + m[x.id].outgoing
    && x.perMinute == |m[x.id].hits|
  }

  /** More in the last minute; or as many, and more in all; or the same in both,
      and the lesser id. */
  ghost predicate Outranks(x: Snapshot, y: Snapshot) {
    || x.perMinute > y.perMinute
    || (x.perMinute == y.perMinute && x.total > y.total)
    || (x.perMinute == y.perMinute && x.total == y.total && LexLess(x.id, y.id))
  }

  ghost predicate KeyedById(m: StatsMap) {
    forall id :: id in m ==> m[id].id == id
  }

  lemma {:induction false} SnapshotsSize(m: StatsMap, ids: set<RouteId>)
    requires KeyedById(m) && ids <= m.Keys
    ensures |Snapshots(m, ids)| == |ids|
  {
    if ids == {} {
      assert Snapshots(m, ids) == {};
    } else {
      var id :| id in ids;
      SnapshotsSize(m, ids - {id});
      assert Snapshots(m, ids) == Snapshots(m, ids - {id}) + {SnapshotOf(m[id])};
      assert SnapshotOf(m[id]) !in Snapshots(m, ids - {id});
    }
  }

  lemma PageInFields(m: StatsMap, ids: set<RouteId>, n: nat, list: seq<Snapshot>)
    requires KeyedById(m) && ids <= m.Keys && IsRanking(Snapshots(m, ids), n, list)
    ensures |list| == Min(n, |ids|)
    ensures forall x :: x in list ==> IsLineOf(x, m) && x.id in ids
    ensures forall i, j :: 0 <= i < j < |list| ==> Outranks(list[i], list[j])
    ensures forall id, x :: id in ids && x in list && (forall y :: y in list ==> y.id != id) ==>
              Outranks(x, SnapshotOf(m[id]))
  {
    SnapshotsSize(m, ids);
    forall i, j | 0 <= i < j < |list| ensures Outranks(list[i], list[j]) {
      RankedInFields(list, i, j);
    }
    forall id, x | id in ids && x in list && (forall y :: y in list ==> y.id != id) ensures Outranks(x, SnapshotOf(m[id])) {
      var y := SnapshotOf(m[id]);
      assert y in Snapshots(m, ids) && y.id == id;
      LeftOutInFields(Snapshots(m, ids), n, list, x, y);
    }
  }

  /** One line per router in ids, and no other line. */
  ghost predicate ListsExactly(m: StatsMap, ids: set<RouteId>, all: seq<Snapshot>) {
    && (forall x :: x in all ==> x.id in ids && x.id in m && x == SnapshotOf(m[x.id]))
    && (forall id :: id in ids && id in m ==> SnapshotOf(m[id]) in all)
  }

  /** Pruning and listing one more router. */
  lemma ListedOneMore(before: StatsMap, ids: set<RouteId>, id: RouteId, m: StatsMap, now: int, all: seq<Snapshot>)
    requires KeyedById(before)
    requires m == Pruned(before, ids, now) && ListsExactly(m, ids, all) && DistinctIds(all)
    requires id in before && id !in ids
    ensures var item := PrunedEntry(before[id], now);
            var m' := m[id := item];
            && m' == Pruned(before, ids + {id}, now)
            && ListsExactly(m', ids + {id}, all + [SnapshotOf(item)])
            && DistinctIds(all + [SnapshotOf(item)])
  {
  }

  function Selected(m: StatsMap, matches: RouteId -> bool): set<RouteId> {
    set id | id in m && matches(id)
  }

  function SnapshotOf(r: RouterStats): Snapshot {
    Snapshot(r.id, r.incoming, r.outgoing, r.incoming + r.outgoing, |r.hits|)
  }

  function Snapshots(m: StatsMap, ids: set<RouteId>): set<Snapshot> {
    set id | id in m && id in ids :: SnapshotOf(m[id])
  }

  // ---------------------------------------------------------------------
  // Windows against full history

  ghost predicate ClockAscends(es: seq<Event>) {
    forall i, j :: 0 <= i < j < |es| ==> es[i].time <= es[j].time
  }

  /** A hit for id at time t, if the RPC names it on this side. */
  function HitFor(id: RouteId, named: RouteId, t: int): seq<int> {
    if id != "" && named == id then [t] else []
  }

  function HitsIn(e: Event, id: RouteId): seq<int> {
    if e.Rpc? then HitFor(id, e.from, e.time) + HitFor(id, e.to, e.time) else []
  }

  /** Every hit of a router ever recorded. */
  function RouterHistory(es: seq<Event>, id: RouteId): seq<int> {
    if es == [] then [] else RouterHistory(es[..|es| - 1], id) + HitsIn(es[|es| - 1], id)
  }

  function RequestsIn(e: Event): seq<int> {
    if e.Request? then [e.time] else []
  }

  /** Every request frame ever received. */
  function RequestHistory(es: seq<Event>): seq<int> {
    if es == [] then [] else RequestHistory(es[..|es| - 1]) + RequestsIn(es[|es| - 1])
  }

  /** A window that may be asked about any cutoff from `since` on. */
  ghost predicate Stands(window: seq<int>, history: seq<int>, last: int, cutoff: int) {
    && Ascending(window)
    && (forall t :: t in window ==> t <= last)
    && Recent(window, cutoff) == Recent(history, cutoff)
  }

  lemma DropStaleIsRecent(list: seq<int>, cutoff: int)
    requires Ascending(list)
    ensures DropStale(list, cutoff) == Recent(list, cutoff)
  {
    PruneIsFilterExactly(list, cutoff);
  }

  lemma {:induction false} DropStaleIsSuffix(list: seq<int>, cutoff: int)
    ensures |DropStale(list, cutoff)| <= |list|
    ensures DropStale(list, cutoff) == list[|list| - |DropStale(list, cutoff)|..]
  {
    if list != [] && list[0] < cutoff {
      DropStaleIsSuffix(list[1..], cutoff);
    }
  }

  lemma SuffixStands(window: seq<int>, k: nat, last: int)
    requires k <= |window| && Ascending(window) && forall t :: t in window ==> t <= last
    ensures Ascending(window[k..]) && forall t :: t in window[k..] ==> t <= last
  {
    var kept := window[k..];
    forall i, j | 0 <= i < j < |kept| ensures kept[i] <= kept[j] {
      assert kept[i] == window[k + i] && kept[j] == window[k + j];
    }
    forall t | t in kept ensures t <= last {
      var i :| 0 <= i < |kept| && kept[i] == t;
      assert window[k + i] == t && t in window;
    }
  }

  lemma PruneStands(window: seq<int>, history: seq<int>, last: int, now: int, cutoff: int)
    requires Stands(window, history, last, cutoff) && last <= now && cutoff >= now - WINDOW_MS
    ensures Stands(DropStale(window, now - WINDOW_MS), history, now, cutoff)
  {
    var kept := DropStale(window, now - WINDOW_MS);
    DropStaleIsSuffix(window, now - WINDOW_MS);
    SuffixStands(window, |window| - |kept|, now);
    DropStaleIsRecent(window, now - WINDOW_MS);
    RecentTwice(window, now - WINDOW_MS, cutoff);
    assert Recent(kept, cutoff) == Recent(window, cutoff);
  }

  lemma HitStands(window: seq<int>, history: seq<int>, last: int, now: int, cutoff: int)
    requires Stands(window, history, last, cutoff) && last <= now && cutoff >= now - WINDOW_MS
    ensures Stands(Hit(window, now), history + [now], now, cutoff)
  {
    RecentSnoc(window, now, cutoff);
    RecentSnoc(history, now, cutoff);
    forall i, j | 0 <= i < j < |window + [now]| ensures (window + [now])[i] <= (window + [now])[j] {
      assert window[i] in window;
    }
    PruneStands(window + [now], history + [now], now, now, cutoff);
  }

  /** Right after a hit is recorded, nothing older than 60,000 ms is kept. */
  lemma HitKeepsRecentOnly(window: seq<int>, now: int)
    requires Ascending(window) && forall t :: t in window ==> t <= now
    ensures Hit(window, now) == Recent(window, now - 60_000) + [now]
    ensures forall t :: t in Hit(window, now) ==> t >= now - 60_000
  {
    forall i, j | 0 <= i < j < |window + [now]| ensures (window + [now])[i] <= (window + [now])[j] {
      assert window[i] in window;
    }
    DropStaleIsRecent(window + [now], now - 60_000);
    RecentSnoc(window, now, now - 60_000);
    RecentIsRecent(window, now - 60_000);
  }

  lemma OutgoingStands(m: StatsMap, from: RouteId, id: RouteId, history: seq<int>, now: int, cutoff: int)
    requires cutoff >= now - WINDOW_MS && Stands(Entry(m, id).hits, history, now, cutoff)
    ensures Stands(Entry(Outgoing(m, from, now), id).hits, history + HitFor(id, from, now), now, cutoff)
  {
    if id != "" && from == id {
      HitStands(Entry(m, id).hits, history, now, now, cutoff);
    } else {
      assert history + [] == history;
    }
  }

  lemma IncomingStands(m: StatsMap, to: RouteId, id: RouteId, history: seq<int>, now: int, cutoff: int)
    requires cutoff >= now - WINDOW_MS && Stands(Entry(m, id).hits, history, now, cutoff)
    ensures Stands(Entry(Incoming(m, to, now), id).hits, history + HitFor(id, to, now), now, cutoff)
  {
    if id != "" && to == id {
      HitStands(Entry(m, id).hits, history, now, now, cutoff);
    } else {
      assert history + [] == history;
    }
  }

  lemma RpcStands(m: StatsMap, e: Event, id: RouteId, history: seq<int>, cutoff: int)
    requires e.Rpc? && cutoff >= e.time - WINDOW_MS
    requires Stands(Entry(m, id).hits, history, e.time, cutoff)
    ensures Stands(Entry(Incoming(Outgoing(m, e.from, e.time), e.to, e.time), id).hits, history + HitsIn(e, id), e.time, cutoff)
  {
    var sent := HitFor(id, e.from, e.time);
    OutgoingStands(m, e.from, id, history, e.time, cutoff);
    IncomingStands(Outgoing(m, e.from, e.time), e.to, id, history + sent, e.time, cutoff);
    Associates(history, sent, HitFor(id, e.to, e.time));
  }

  lemma RankedStands(m: StatsMap, selected: set<RouteId>, id: RouteId, history: seq<int>, now: int, cutoff: int)
    requires cutoff >= now - WINDOW_MS && Stands(Entry(m, id).hits, history, now, cutoff)
    ensures Stands(Entry(Pruned(m, selected, now), id).hits, history, now, cutoff)
  {
    if id in m && id in selected {
      PruneStands(m[id].hits, history, now, now, cutoff);
    }
  }

  lemma RouterStepStands(s: Stats, e: Event, id: RouteId, history: seq<int>, cutoff: int)
    requires cutoff >= e.time - WINDOW_MS && Stands(Entry(s.byRouter, id).hits, history, e.time, cutoff)
    ensures Stands(Entry(StatsStep(s, e).byRouter, id).hits, history + HitsIn(e, id), e.time, cutoff)
  {
    match e
    case Rpc(_, _, _) => RpcStands(s.byRouter, e, id, history, cutoff);
    case Ranked(t, selected) =>
      RankedStands(s.byRouter, selected, id, history, t, cutoff);
      assert history + HitsIn(e, id) == history;
    case _ => assert history + HitsIn(e, id) == history;
  }

  lemma {:induction false} RouterWindowStands(es: seq<Event>, id: RouteId, last: int, cutoff: int)
    requires ClockAscends(es) && (es != [] ==> es[|es| - 1].time <= last) && cutoff >= last - WINDOW_MS
    ensures Stands(Entry(StatsAfter(es).byRouter, id).hits, RouterHistory(es, id), last, cutoff)
  {
    if es != [] {
      var before, e := es[..|es| - 1], es[|es| - 1];
      RouterWindowStands(before, id, e.time, cutoff);
      RouterStepStands(StatsAfter(before), e, id, RouterHistory(before, id), cutoff);
    }
  }

  lemma RequestStepStands(s: Stats, e: Event, history: seq<int>, cutoff: int)
    requires cutoff >= e.time - WINDOW_MS && Stands(s.requestHits, history, e.time, cutoff)
    ensures Stands(StatsStep(s, e).requestHits, history + RequestsIn(e), e.time, cutoff)
  {
    if e.Request? {
      HitStands(s.requestHits, history, e.time, e.time, cutoff);
    } else {
      assert history + RequestsIn(e) == history;
      if e.Counted? {
        PruneStands(s.requestHits, history, e.time, e.time, cutoff);
      }
    }
  }

  lemma {:induction false} RequestWindowStands(es: seq<Event>, last: int, cutoff: int)
    requires ClockAscends(es) && (es != [] ==> es[|es| - 1].time <= last) && cutoff >= last - WINDOW_MS
    ensures Stands(StatsAfter(es).requestHits, RequestHistory(es), last, cutoff)
  {
    if es != [] {
      var before, e := es[..|es| - 1], es[|es| - 1];
      RequestWindowStands(before, e.time, cutoff);
      RequestStepStands(StatsAfter(before), e, RequestHistory(before), cutoff);
    }
  }

  /** What a pruned window shows at time now is the count over everything ever
      recorded: for each router, and for requests. */
  lemma WindowRefinesHistory(es: seq<Event>, id: RouteId, now: int)
    requires ClockAscends(es) && (es != [] ==> es[|es| - 1].time <= now)
    ensures DropStale(Entry(StatsAfter(es).byRouter, id).hits, now - 60_000) == Recent(RouterHistory(es, id), now - 60_000)
    ensures StatsStep(StatsAfter(es), Counted(now)).requestHits == Recent(RequestHistory(es), now - 60_000)
  {
    RouterWindowStands(es, id, now, now - WINDOW_MS);
    DropStaleIsRecent(Entry(StatsAfter(es).byRouter, id).hits, now - WINDOW_MS);
    RequestWindowStands(es, now, now - WINDOW_MS);
    DropStaleIsRecent(StatsAfter(es).requestHits, now - WINDOW_MS);
  }

  /** A clock that steps back breaks it: a hit that should have left the window
      hides behind a later reading and is still counted. */
  lemma ClockStepBackBreaksWindow(t: int)
    ensures var es := [Request(t), Request(t - 100_000)];
            StatsStep(StatsAfter(es), Counted(t)).requestHits != Recent(RequestHistory(es), t - WINDOW_MS)
  {
    var u := t - 100_000;
    var es := [Request(t), Request(u)];
    assert es[..1] == [Request(t)] && es[..1][..0] == [];
    assert Hit([], t) == [t] by {
      assert [] + [t] == [t];
    }
    assert Hit([t], u) == [t, u] by {
      assert [t] + [u] == [t, u];
    }
    assert StatsAfter(es[..1]).requestHits == [t] && RequestHistory(es[..1]) == [t];
    assert StatsAfter(es).requestHits == [t, u] && RequestHistory(es) == [t, u];
    StaleHidesBehindRecent(t, u);
  }

  lemma StaleHidesBehindRecent(t: int, u: int)
    requires u < t - WINDOW_MS
    ensures DropStale([t, u], t - WINDOW_MS) != Recent([t, u], t - WINDOW_MS)
  {
    assert [t, u][0] == t && [t, u][1] == u;
    PruneIsFilterExactly([t, u], t - WINDOW_MS);
  }

  // ---------------------------------------------------------------------
  // Totals

  ghost function Sum(m: StatsMap, f: RouterStats -> nat): nat
    decreases m.Keys
  {
    if m == map[] then 0
    else
      var id :| id in m;
      assert (m - {id}).Keys == m.Keys - {id};
      f(m[id]) + Sum(m - {id}, f)
  }

  lemma {:induction false} SumSplit(m: StatsMap, id: RouteId, f: RouterStats -> nat)
    requires id in m
    ensures Sum(m, f) == f(m[id]) + Sum(m - {id}, f)
    decreases m.Keys
  {
    var k :| k in m && Sum(m, f) == f(m[k]) + Sum(m - {k}, f);
    assert (m - {k}).Keys == m.Keys - {k} && (m - {id}).Keys == m.Keys - {id};
    if k != id {
      SumSplit(m - {k}, id, f);
      SumSplit(m - {id}, k, f);
      assert m - {k} - {id} == m - {id} - {k};
    }
  }

  lemma SumPut(m: StatsMap, id: RouteId, r: RouterStats, f: RouterStats -> nat)
    requires f(RouterStats(id, 0, 0, [])) == 0
    ensures Sum(m[id := r], f) == Sum(m, f) - f(Entry(m, id)) + f(r)
  {
    SumSplit(m[id := r], id, f);
    assert m[id := r] - {id} == m - {id};
    if id in m {
      SumSplit(m, id, f);
    } else {
      assert m - {id} == m;
    }
  }

  lemma {:induction false} SumSame(m: StatsMap, n: StatsMap, f: RouterStats -> nat)
    requires m.Keys == n.Keys && forall id :: id in m ==> f(m[id]) == f(n[id])
    ensures Sum(m, f) == Sum(n, f)
    decreases m.Keys
  {
    if m != map[] {
      var id :| id in m;
      SumSplit(m, id, f);
      SumSplit(n, id, f);
      assert (m - {id}).Keys == m.Keys - {id};
      SumSame(m - {id}, n - {id}, f);
    } else {
      assert n == map[];
    }
  }

  function CountSent(es: seq<Event>): nat {
    if es == [] then 0
    else CountSent(es[..|es| - 1]) + (if es[|es| - 1].Rpc? && es[|es| - 1].from != "" then 1 else 0)
  }

  function CountAddressed(es: seq<Event>): nat {
    if es == [] then 0
    else CountAddressed(es[..|es| - 1]) + (if es[|es| - 1].Rpc? && es[|es| - 1].to != "" then 1 else 0)
  }

  const SENT: RouterStats -> nat := (r: RouterStats) => r.outgoing
  const RECEIVED: RouterStats -> nat := (r: RouterStats) => r.incoming

  lemma RpcAddsOne(m: StatsMap, from: RouteId, to: RouteId, t: int)
    ensures var m' := Incoming(Outgoing(m, from, t), to, t);
            && Sum(m', SENT) == Sum(m, SENT) + (if from != "" then 1 else 0)
            && Sum(m', RECEIVED) == Sum(m, RECEIVED) + (if to != "" then 1 else 0)
  {
    var m1 := Outgoing(m, from, t);
    if from != "" {
      SumPut(m, from, m1[from], SENT);
      SumPut(m, from, m1[from], RECEIVED);
    }
    var m2 := Incoming(m1, to, t);
    if to != "" {
      SumPut(m1, to, m2[to], SENT);
      SumPut(m1, to, m2[to], RECEIVED);
    }
  }

  /** Summed over all routers, the outgoing totals are the requests that named a
      sender and the incoming totals those that named a target, self-calls and
      pruning included. */
  lemma {:induction false} TotalsAddUp(es: seq<Event>)
    ensures Sum(StatsAfter(es).byRouter, SENT) == CountSent(es)
    ensures Sum(StatsAfter(es).byRouter, RECEIVED) == CountAddressed(es)
  {
    if es != [] {
      var before, e := es[..|es| - 1], es[|es| - 1];
      var m := StatsAfter(before).byRouter;
      TotalsAddUp(before);
      match e
      case Rpc(t, from, to) => RpcAddsOne(m, from, to, t);
      case Ranked(t, selected) =>
        SumSame(m, Pruned(m, selected, t), SENT);
        SumSame(m, Pruned(m, selected, t), RECEIVED);
      case _ =>
    }
  }

  ghost predicate Tallies(r: RouterStats, id: RouteId, n: nat) {
    r.id == id && r.incoming + r.outgoing == n && |r.hits| <= n
  }

  lemma HitSize(list: seq<int>, t: int)
    ensures |Hit(list, t)| <= |list| + 1
  {
    DropStaleIsSuffix(list + [t], t - WINDOW_MS);
  }

  lemma OthersUntouched(m: StatsMap, other: RouteId, id: RouteId, t: int)
    requires id == "" || other != id
    ensures Entry(Outgoing(m, other, t), id) == Entry(m, id) && Entry(Incoming(m, other, t), id) == Entry(m, id)
  {
  }

  lemma SelfTallies(m: StatsMap, id: RouteId, n: nat, t: int)
    requires id != "" && Tallies(Entry(m, id), id, n)
    ensures Tallies(Entry(Outgoing(m, id, t), id), id, n + 1) && Tallies(Entry(Incoming(m, id, t), id), id, n + 1)
  {
    HitSize(Entry(m, id).hits, t);
  }

  lemma RpcTallies(m: StatsMap, e: Event, id: RouteId, n: nat)
    requires e.Rpc? && Tallies(Entry(m, id), id, n)
    ensures Tallies(Entry(Incoming(Outgoing(m, e.from, e.time), e.to, e.time), id), id, n + |HitsIn(e, id)|)
  {
    var m1 := Outgoing(m, e.from, e.time);
    var sends, gets := id != "" && e.from == id, id != "" && e.to == id;
    if sends {
      SelfTallies(m, id, n, e.time);
    } else {
      OthersUntouched(m, e.from, id, e.time);
    }
    if gets {
      SelfTallies(m1, id, if sends then n + 1 else n, e.time);
    } else {
      OthersUntouched(m1, e.to, id, e.time);
    }
  }

  /** Each router's totals count its own history, so its window is never longer
      than its total. */
  lemma {:induction false} WindowWithinTotal(es: seq<Event>, id: RouteId)
    ensures var r := Entry(StatsAfter(es).byRouter, id);
            && r.id == id
            && r.incoming + r.outgoing == |RouterHistory(es, id)|
            && |r.hits| <= r.incoming + r.outgoing
  {
    if es != [] {
      var before, e := es[..|es| - 1], es[|es| - 1];
      var m, n := StatsAfter(before).byRouter, |RouterHistory(before, id)|;
      WindowWithinTotal(before, id);
      assert Tallies(Entry(m, id), id, n);
      match e
      case Rpc(_, _, _) => RpcTallies(m, e, id, n);
      case Ranked(t, selected) => DropStaleIsSuffix(Entry(m, id).hits, t - WINDOW_MS);
      case _ =>
    }
  }

  // ---------------------------------------------------------------------
  // The ranking is a function of the history

  /** What the page shows for a router: its hits of the last minute and its hits
      ever, counted over everything recorded. */
  lemma RankingCountsHistory(es: seq<Event>, selected: set<RouteId>, now: int, x: Snapshot)
    requires ClockAscends(es) && (es != [] ==> es[|es| - 1].time <= now)
    requires x in Snapshots(StatsStep(StatsAfter(es), Ranked(now, selected)).byRouter, selected)
    ensures x.perMinute == |Recent(RouterHistory(es, x.id), now - 60_000)|
    ensures x.total == |RouterHistory(es, x.id)|
  {
    var m := StatsAfter(es).byRouter;
    var id :| id in m && id in selected && x == SnapshotOf(PrunedEntry(m[id], now));
    WindowWithinTotal(es, id);
    WindowRefinesHistory(es, id, now);
  }

  /** The RPCs among the events. */
  function RpcsOf(es: seq<Event>): seq<Event> {
    if es == [] then []
    else RpcsOf(es[..|es| - 1]) + (if es[|es| - 1].Rpc? then [es[|es| - 1]] else [])
  }

  /** A router's history is that of its RPCs alone. */
  lemma {:induction false} HistoryOfRpcs(es: seq<Event>, id: RouteId)
    ensures RouterHistory(RpcsOf(es), id) == RouterHistory(es, id)
  {
    if es != [] {
      var before, e := es[..|es| - 1], es[|es| - 1];
      HistoryOfRpcs(before, id);
      if e.Rpc? {
        assert (RpcsOf(before) + [e])[..|RpcsOf(before)|] == RpcsOf(before);
      } else {
        assert RpcsOf(es) == RpcsOf(before) && RouterHistory(es, id) == RouterHistory(before, id);
      }
    }
  }

  /** Two maps of counters that differ in their windows at most. */
  ghost predicate SameTotals(m: StatsMap, n: StatsMap) {
    && m.Keys == n.Keys
    && forall id :: id in m ==> m[id].id == n[id].id && m[id].incoming == n[id].incoming && m[id].outgoing == n[id].outgoing
  }

  lemma RpcKeepsSameTotals(m: StatsMap, n: StatsMap, from: RouteId, to: RouteId, t: int)
    requires SameTotals(m, n)
    ensures SameTotals(Incoming(Outgoing(m, from, t), to, t), Incoming(Outgoing(n, from, t), to, t))
  {
    assert SameTotals(Outgoing(m, from, t), Outgoing(n, from, t));
  }

  /** Pruning and everything that is not an RPC leave the totals alone. */
  lemma {:induction false} TotalsOfRpcs(es: seq<Event>)
    ensures SameTotals(StatsAfter(es).byRouter, StatsAfter(RpcsOf(es)).byRouter)
  {
    if es != [] {
      var before, e := es[..|es| - 1], es[|es| - 1];
      var rpcs := RpcsOf(before);
      TotalsOfRpcs(before);
      if !e.Rpc? {
        assert RpcsOf(es) == rpcs;
        assert SameTotals(StatsAfter(es).byRouter, StatsAfter(before).byRouter);
      } else {
        assert (rpcs + [e])[..|rpcs|] == rpcs;
        RpcKeepsSameTotals(StatsAfter(before).byRouter, StatsAfter(rpcs).byRouter, e.from, e.to, e.time);
      }
    }
  }

  /** What the ranking page of the routers that match is made from at time now. */
  function PageEntries(es: seq<Event>, matches: RouteId -> bool, now: int): set<Snapshot> {
    var m := StatsAfter(es).byRouter;
    var pruned := Pruned(m, Selected(m, matches), now);
    Snapshots(pruned, Selected(pruned, matches))
  }

  ghost predicate EndsBy(es: seq<Event>, now: int) {
    ClockAscends(es) && (es != [] ==> es[|es| - 1].time <= now)
  }

  lemma EntriesWithin(es: seq<Event>, fs: seq<Event>, matches: RouteId -> bool, now: int)
    requires EndsBy(es, now) && EndsBy(fs, now) && RpcsOf(es) == RpcsOf(fs)
    ensures PageEntries(es, matches, now) <= PageEntries(fs, matches, now)
  {
    var m, n := StatsAfter(es).byRouter, StatsAfter(fs).byRouter;
    TotalsOfRpcs(es);
    TotalsOfRpcs(fs);
    assert SameTotals(m, n);
    forall x | x in PageEntries(es, matches, now) ensures x in PageEntries(fs, matches, now) {
      var id :| id in m && matches(id) && x == SnapshotOf(PrunedEntry(m[id], now));
      WindowRefinesHistory(es, id, now);
      WindowRefinesHistory(fs, id, now);
      HistoryOfRpcs(es, id);
      HistoryOfRpcs(fs, id);
      var pruned := Pruned(n, Selected(n, matches), now);
      assert id in Selected(pruned, matches) && SnapshotOf(pruned[id]) == x;
    }
  }

  /** The page is a function of the recorded RPCs: take any two runs of events
      that agree on the RPCs, however requests, counts and other ranking pages,
      with all the pruning these do, come between; any two pages of the same
      moment, keyword and limit are equal, whatever order the maps of counters
      are walked in. */
  lemma RankingIsAFunctionOfHistory(es: seq<Event>, fs: seq<Event>, matches: RouteId -> bool, now: int, limit: int, a: seq<Snapshot>, b: seq<Snapshot>)
    requires EndsBy(es, now) && EndsBy(fs, now) && RpcsOf(es) == RpcsOf(fs)
    requires IsRanking(PageEntries(es, matches, now), EffectiveLimit(limit), a)
    requires IsRanking(PageEntries(fs, matches, now), EffectiveLimit(limit), b)
    ensures a == b
  {
    EntriesWithin(es, fs, matches, now);
    EntriesWithin(fs, es, matches, now);
    assert PageEntries(es, matches, now) == PageEntries(fs, matches, now);
    RankingUnique(PageEntries(es, matches, now), EffectiveLimit(limit), a, b);
  }

  // ---------------------------------------------------------------------
  // What the page shows, in terms of the history alone

  function CountFrom(es: seq<Event>, id: RouteId): nat {
    if es == [] then 0
    else CountFrom(es[..|es| - 1], id) + (if es[|es| - 1].Rpc? && es[|es| - 1].from == id then 1 else 0)
  }

  function CountTo(es: seq<Event>, id: RouteId): nat {
    if es == [] then 0
    else CountTo(es[..|es| - 1], id) + (if es[|es| - 1].Rpc? && es[|es| - 1].to == id then 1 else 0)
  }

  /** This router's counters stand at these numbers; it has an entry if it has
      any. */
  ghost predicate StandsAt(m: StatsMap, id: RouteId, sent: nat, received: nat) {
    && Entry(m, id).outgoing == sent && Entry(m, id).incoming == received
    && (id in m <==> sent + received > 0)
  }

  lemma RpcCounts(m: StatsMap, id: RouteId, from: RouteId, to: RouteId, t: int, sent: nat, received: nat)
    requires id != "" && StandsAt(m, id, sent, received)
    ensures StandsAt(Incoming(Outgoing(m, from, t), to, t), id,
              sent + (if from == id then 1 else 0), received + (if to == id then 1 else 0))
  {
    assert StandsAt(Outgoing(m, from, t), id, sent + (if from == id then 1 else 0), received);
  }

  /** Each router's own outgoing and incoming totals count the RPCs that name it
      as sender and as target, and it has an entry from the first of them on. */
  lemma {:induction false} RouterTotals(es: seq<Event>, id: RouteId)
    requires id != ""
    ensures StandsAt(StatsAfter(es).byRouter, id, CountFrom(es, id), CountTo(es, id))
  {
    if es != [] {
      var before, e := es[..|es| - 1], es[|es| - 1];
      RouterTotals(before, id);
      if e.Rpc? {
        RpcCounts(StatsAfter(before).byRouter, id, e.from, e.to, e.time, CountFrom(before, id), CountTo(before, id));
      }
    }
  }

  lemma {:induction false} NobodyHasNoEntry(es: seq<Event>)
    ensures "" !in StatsAfter(es).byRouter
  {
    if es != [] {
      NobodyHasNoEntry(es[..|es| - 1]);
    }
  }

  /** The lines of a page, exactly: one for each router that matches and was
      named in an RPC, with the numbers of RPCs that named it and of its hits in
      the last 60 seconds. */
  lemma PageLinesExactly(es: seq<Event>, matches: RouteId -> bool, now: int, x: Snapshot)
    requires EndsBy(es, now)
    ensures x in PageEntries(es, matches, now) <==>
      && x.id != "" && matches(x.id)
      && CountFrom(es, x.id) + CountTo(es, x.id) > 0
      && x.outgoing == CountFrom(es, x.id) && x.incoming == CountTo(es, x.id)
      && x.total == x.outgoing + x.incoming
      && x.perMinute == |Recent(RouterHistory(es, x.id), now - 60_000)|
  {
    var m := StatsAfter(es).byRouter;
    NobodyHasNoEntry(es);
    if x.id != "" {
      RouterTotals(es, x.id);
      WindowRefinesHistory(es, x.id, now);
      WindowWithinTotal(es, x.id);
    }
    CountersKeyed(es);
    ListedExactly(m, matches, now, x);
  }

  lemma {:induction false} CountersKeyed(es: seq<Event>)
    ensures KeyedById(StatsAfter(es).byRouter)
  {
    if es != [] {
      CountersKeyed(es[..|es| - 1]);
    }
  }

  lemma ListedExactly(m: StatsMap, matches: RouteId -> bool, now: int, x: Snapshot)
    requires KeyedById(m)
    ensures var pruned := Pruned(m, Selected(m, matches), now);
            x in Snapshots(pruned, Selected(pruned, matches)) <==>
              x.id in m && matches(x.id) && x == SnapshotOf(PrunedEntry(m[x.id], now))
  {
    var pruned := Pruned(m, Selected(m, matches), now);
    var ids := Selected(pruned, matches);
    if x in Snapshots(pruned, ids) {
      var id :| id in pruned && id in ids && x == SnapshotOf(pruned[id]);
      assert pruned[id] == PrunedEntry(m[id], now);
    }
    if x.id in m && matches(x.id) {
      assert x.id in ids && pruned[x.id] == PrunedEntry(m[x.id], now);
    }
  }
}
