/** The server's registry of live sessions
    (internal/VirtualRouterServer/session.go and session_manager.go). */
module SessionRegistry {
  import opened Basics

  /** A connection, named by the remote address the server compares. */
  type ConnId = nat

  datatype RouteNode = RouteNode(id: RouteId, host: string, port: int)

  datatype Session = Session(id: RouteId, conn: ConnId, host: string, port: int, lastHeartbeat: int)

  type Registry = map<RouteId, Session>

  const SESSION_TIMEOUT_MS := 30_000
  const SWEEP_PERIOD_MS := 60_000

  function NodeOf(s: Session): RouteNode {
    RouteNode(s.id, s.host, s.port)
  }

  ghost predicate WellKeyed(m: Registry) {
    forall r :: r in m ==> m[r].id == r
  }

  // ---------------------------------------------------------------------
  // What each operation does to the registry

  datatype Admission = Inserted | Refreshed | Refused

  /** A registered id answers only to its own connection. */
  function Admit(m: Registry, offer: Session): Admission {
    if offer.id !in m then Inserted
    else if m[offer.id].conn == offer.conn then Refreshed
    else Refused
  }

  function Upsert(m: Registry, offer: Session, now: int): Registry {
    match Admit(m, offer)
    case Inserted => m[offer.id := offer]
    case Refreshed => m[offer.id := m[offer.id].(lastHeartbeat := now)]
    case Refused => m
  }

  function Remove(m: Registry, ids: set<RouteId>): Registry {
    m - ids
  }

  predicate Expired(s: Session, now: int) {
    s.lastHeartbeat < now - SESSION_TIMEOUT_MS
  }

  function ExpiredIds(m: Registry, now: int): set<RouteId> {
    set r | r in m && Expired(m[r], now)
  }

  function Elements<T>(s: seq<T>): set<T> {
    set x | x in s
  }

  ghost predicate Distinct<T(!new)>(s: seq<T>) {
    forall i, j :: 0 <= i < j < |s| ==> s[i] != s[j]
  }

  /** The list a heartbeat is answered with: every live node once, in the
      arbitrary order of a Go map. */
  ghost predicate IsListing(m: Registry, list: seq<RouteNode>) {
    && (forall n :: n in list ==> n.id in m && n == NodeOf(m[n.id]))
    && (forall r :: r in m ==> NodeOf(m[r]) in list)
    && Distinct(list)
  }

  // ---------------------------------------------------------------------
  // The objects

  class RouterSession {
    const routerId: RouteId
    const conn: ConnId
    const host: string
    const port: int
    var lastHeartbeat: int
    var closed: bool

    constructor (routerId: RouteId, conn: ConnId, host: string, port: int, now: int)
      ensures !closed && Value() == Session(routerId, conn, host, port, now)
    {
      this.routerId, this.conn, this.host, this.port := routerId, conn, host, port;
      lastHeartbeat, closed := now, false;
    }

    function Value(): Session
      reads this
    {
      Session(routerId, conn, host, port, lastHeartbeat)
    }

    method RefreshHeartbeat(now: int)
      modifies this`lastHeartbeat
      ensures Value() == old(Value()).(lastHeartbeat := now)
    {
      lastHeartbeat := now;
    }

    method MarkClosed()
      modifies this`closed
      ensures closed
    {
      closed := true;
    }
  }

  class RouterSessionManager {
    var sessions: map<RouteId, RouterSession>

    ghost predicate Valid()
      reads this, sessions.Values
    {
      forall r :: r in sessions ==> sessions[r].routerId == r && !sessions[r].closed
    }

    ghost function View(): Registry
      reads this, sessions.Values
    {
      map r | r in sessions :: sessions[r].Value()
    }

    constructor ()
      ensures Valid() && View() == map[]
    {
      sessions := map[];
    }

    method UpsertSession(routeId: RouteId, session: RouterSession, now: int) returns (r: Option<RouterSession>)
      requires Valid() && session.routerId == routeId && !session.closed
      modifies this`sessions, sessions.Values`lastHeartbeat
      ensures Valid()
      ensures View() == Upsert(old(View()), session.Value(), now)
      ensures r.None? <==> Admit(old(View()), session.Value()) == Refused
      ensures r.Some? ==> routeId in sessions && r.value == sessions[routeId]
    {
      if routeId in sessions {
        var registered := sessions[routeId];
        if !registered.closed {
          if registered.conn == session.conn {
            registered.RefreshHeartbeat(now);
            return Some(registered);
          }
          return None;
        }
      }
      sessions := sessions[routeId := session];
      r := Some(session);
    }

    /** The part of RemoveSessions under the write lock. */
    method RemoveSessions(routeIds: seq<RouteId>) returns (removed: seq<RouteId>)
      requires Valid()
      modifies this`sessions, sessions.Values`closed
      ensures Valid()
      ensures View() == Remove(old(View()), Elements(routeIds))
      ensures Elements(removed) == Elements(routeIds) * old(sessions).Keys
      ensures Distinct(removed)
      ensures forall r :: r in removed ==> r in old(sessions) && old(sessions)[r].closed
    {
      removed := [];
      for i := 0 to |routeIds|
        invariant Valid()
        invariant sessions == old(sessions) - Elements(routeIds[..i])
        invariant forall r :: r in removed <==> r in routeIds[..i] && r in old(sessions)
        invariant Distinct(removed)
        invariant forall r :: r in removed ==> r in old(sessions) && old(sessions)[r].closed
      {
        var routeId := routeIds[i];
        assert routeIds[..i + 1] == routeIds[..i] + [routeId];
        if routeId !in sessions {
          continue;
        }
        var session := sessions[routeId];
        sessions := sessions - {routeId};
        removed := removed + [routeId];
        session.MarkClosed();
      }
      assert routeIds[..|routeIds|] == routeIds;
    }

    /** The sweep's first half, under the read lock. */
    method CollectOffline(now: int) returns (offline: seq<RouteId>)
      requires Valid()
      ensures Elements(offline) == ExpiredIds(View(), now)
    {
      offline := [];
      var todo := sessions.Keys;
      while todo != {}
        invariant todo <= sessions.Keys
        invariant forall r :: r in offline <==> r in sessions.Keys - todo && Expired(sessions[r].Value(), now)
        decreases todo
      {
        var r :| r in todo;
        if sessions[r].lastHeartbeat < now - SESSION_TIMEOUT_MS {
          offline := offline + [r];
        }
        todo := todo - {r};
      }
    }

    /** A whole sweep with nothing between its two halves. */
    method CheckHeartbeat(now: int) returns (removed: seq<RouteId>)
      requires Valid()
      modifies this`sessions, sessions.Values`closed
      ensures Valid()
      ensures View() == Remove(old(View()), ExpiredIds(old(View()), now))
      ensures Elements(removed) == ExpiredIds(old(View()), now)
    {
      var offline := CollectOffline(now);
      removed := [];
      if |offline| > 0 {
        removed := RemoveSessions(offline);
      }
    }

    method GetAllRouteNodeList() returns (list: seq<RouteNode>)
      requires Valid()
      ensures IsListing(View(), list)
    {
      list := [];
      var todo := sessions.Keys;
      while todo != {}
        invariant todo <= sessions.Keys
        invariant forall n :: n in list ==> n.id in sessions.Keys - todo && n == NodeOf(sessions[n.id].Value())
        invariant forall r :: r in sessions.Keys - todo ==> NodeOf(sessions[r].Value()) in list
        invariant Distinct(list)
        decreases todo
      {
        var r :| r in todo;
        var s := sessions[r];
        list := list + [RouteNode(s.routerId, s.host, s.port)];
        todo := todo - {r};
      }
    }
  }

  // ---------------------------------------------------------------------
  // How long a silent session can stay

  /** The registry with its clock. A sweep is two steps: it collected what was
      silent at time `collectedAt`, and while `offline` is there those ids are
      still to be purged. `purgedAt` is when the last sweep ended. */
  datatype Timed = Timed(
    now: int,
    purgedAt: int,
    collectedAt: int,
    offline: Option<set<RouteId>>,
    registry: Registry)

  datatype TimedAction =
    | Tick(ms: nat)
    | Heartbeat(id: RouteId, conn: ConnId, host: string, port: int)
    | Drop(ids: set<RouteId>)
    | Collect
    | Purge

  /** Sweeps start within a period of each other's end, and `delay` is how long
      one may take from its first lock to its second. */
  predicate TimedEnabled(s: Timed, a: TimedAction, delay: nat) {
    match a
    case Tick(ms) => s.now + ms <= if s.offline.Some? then s.collectedAt + delay else s.purgedAt + SWEEP_PERIOD_MS
    case Heartbeat(_, _, _, _) => true
    case Drop(_) => true
    case Collect => s.offline.None?
    case Purge => s.offline.Some?
  }

  function OfferAt(s: Timed, a: TimedAction): Session
    requires a.Heartbeat?
  {
    Session(a.id, a.conn, a.host, a.port, s.now)
  }

  function TimedStep(s: Timed, a: TimedAction): Timed
    requires a.Purge? ==> s.offline.Some?
  {
    match a
    case Tick(ms) => s.(now := s.now + ms)
    case Heartbeat(_, _, _, _) => s.(registry := Upsert(s.registry, OfferAt(s, a), s.now))
    case Drop(ids) => s.(registry := Remove(s.registry, ids))
    case Collect => s.(collectedAt := s.now, offline := Some(ExpiredIds(s.registry, s.now)))
    case Purge => s.(purgedAt := s.now, offline := None, registry := Remove(s.registry, s.offline.value))
  }

  ghost predicate TimedRun(run: seq<Timed>, acts: seq<TimedAction>, delay: nat) {
    && |run| == |acts| + 1
    && run[0].registry == map[] && run[0].offline == None && run[0].purgedAt == run[0].collectedAt == run[0].now
    && forall i :: 0 <= i < |acts| ==> TimedEnabled(run[i], acts[i], delay) && run[i + 1] == TimedStep(run[i], acts[i])
  }

  /** How long ago a session may have been heard from: a session that no sweep
      has picked was heard from within the timeout when the last one looked. */
  ghost predicate HeardSinceSweep(s: Timed, delay: nat) {
    && s.collectedAt <= s.now
    && (if s.offline.Some? then s.now <= s.collectedAt + delay
        else s.collectedAt <= s.purgedAt <= s.collectedAt + delay && s.purgedAt <= s.now <= s.purgedAt + SWEEP_PERIOD_MS)
    && (forall r :: r in s.registry ==> s.registry[r].lastHeartbeat <= s.now)
    && (forall r :: r in s.registry && (s.offline.None? || r !in s.offline.value) ==>
          s.registry[r].lastHeartbeat >= s.collectedAt - SESSION_TIMEOUT_MS)
    && (s.offline.Some? ==> forall r :: r in s.registry ==>
          s.registry[r].lastHeartbeat >= s.collectedAt - SWEEP_PERIOD_MS - SESSION_TIMEOUT_MS - delay)
  }

  lemma {:induction false} RunHeardSinceSweep(run: seq<Timed>, acts: seq<TimedAction>, delay: nat, i: nat)
    requires TimedRun(run, acts, delay) && i < |run|
    ensures HeardSinceSweep(run[i], delay)
  {
    if i > 0 {
      RunHeardSinceSweep(run, acts, delay, i - 1);
      assert TimedEnabled(run[i - 1], acts[i - 1], delay) && run[i] == TimedStep(run[i - 1], acts[i - 1]);
    }
  }

  /** In every reachable state a registered session was heard from within the
      last 90 s and twice what a sweep may take between its locks; what a sweep
      picks is exactly what was silent for over 30 s when it looked. */
  lemma StalenessBound(run: seq<Timed>, acts: seq<TimedAction>, delay: nat, i: nat, r: RouteId)
    requires TimedRun(run, acts, delay) && i < |run| && r in run[i].registry
    ensures run[i].now - run[i].registry[r].lastHeartbeat <= 90_000 + 2 * delay
    ensures i < |acts| && acts[i] == Collect ==>
              (r in run[i + 1].offline.value <==> run[i].now - run[i].registry[r].lastHeartbeat > 30_000)
  {
    RunHeardSinceSweep(run, acts, delay, i);
    assert i < |acts| ==> run[i + 1] == TimedStep(run[i], acts[i]);
  }

  /** The bound is met: for any delay there is a run in which a session was last
      heard from exactly that long ago. */
  lemma StalenessBoundIsMet(id: RouteId, conn: ConnId, delay: nat) returns (run: seq<Timed>, acts: seq<TimedAction>)
    ensures TimedRun(run, acts, delay)
    ensures var s := run[|acts|]; id in s.registry && s.now - s.registry[id].lastHeartbeat == 90_000 + 2 * delay
  {
    var beat := Heartbeat(id, conn, "h", 1);
    acts := [beat, Tick(30_000), Collect, Tick(delay), Purge, Tick(60_000), Collect, Tick(delay)];
    var s0 := Timed(0, 0, 0, None, map[]);
    var m := map[id := Session(id, conn, "h", 1, 0)];
    var s1 := s0.(registry := m);
    var s2 := s1.(now := 30_000);
    var s3 := s2.(collectedAt := 30_000, offline := Some({}));
    var s4 := s3.(now := 30_000 + delay);
    var s5 := s4.(purgedAt := 30_000 + delay, offline := None);
    var s6 := s5.(now := 90_000 + delay);
    var s7 := TimedStep(s6, Collect);
    run := [s0, s1, s2, s3, s4, s5, s6, s7, TimedStep(s7, Tick(delay))];
    assert TimedStep(s0, beat) == s1 by {
      assert s0.registry[id := Session(id, conn, "h", 1, 0)] == m;
    }
    assert TimedStep(s2, Collect) == s3 by {
      assert ExpiredIds(m, 30_000) == {};
    }
    assert TimedStep(s4, Purge) == s5 by {
      assert m - {} == m;
    }
  }

  /** An admitted heartbeat for r, as a refresh or as a new registration, in one
      of the steps from i on and before j. */
  ghost predicate HeardBetween(run: seq<Timed>, acts: seq<TimedAction>, i: nat, j: nat, r: RouteId)
    requires |run| == |acts| + 1 && j <= |acts|
  {
    exists k :: i <= k < j && HeardAt(run[k], acts[k], r)
  }

  ghost predicate HeardAt(s: Timed, a: TimedAction, r: RouteId) {
    a.Heartbeat? && a.id == r && Admit(s.registry, OfferAt(s, a)) != Refused
  }

  /** Between the two locks: the sweep is still the same one, and a session's
      time of last heartbeat tells whether it was heard from since. */
  lemma {:induction false} BetweenLocks(run: seq<Timed>, acts: seq<TimedAction>, delay: nat, i: nat, j: nat, r: RouteId)
    requires TimedRun(run, acts, delay) && i < j < |run| && acts[i] == Collect
    requires r in run[i + 1].offline.value
    requires forall k :: i < k < j ==> acts[k] != Purge
    ensures run[j].offline == run[i + 1].offline && run[j].collectedAt == run[i].now <= run[j].now
    ensures r in run[j].registry ==>
              if HeardBetween(run, acts, i, j, r) then run[j].registry[r].lastHeartbeat >= run[i].now
              else run[j].registry[r].lastHeartbeat < run[i].now - SESSION_TIMEOUT_MS
    decreases j
  {
    assert TimedEnabled(run[j - 1], acts[j - 1], delay) && run[j] == TimedStep(run[j - 1], acts[j - 1]);
    if j > i + 1 {
      BetweenLocks(run, acts, delay, i, j - 1, r);
      assert HeardAt(run[j - 1], acts[j - 1], r) ==> HeardBetween(run, acts, i, j, r);
      assert HeardBetween(run, acts, i, j - 1, r) ==> HeardBetween(run, acts, i, j, r);
    }
  }

  /** What a purge takes out is what its sweep collected. As long as no more than
      the timeout lies between, a session taken out is really silent exactly
      when it was not heard from since it was collected. */
  lemma PurgeTakesSilentExactly(run: seq<Timed>, acts: seq<TimedAction>, delay: nat, i: nat, j: nat, r: RouteId)
    requires TimedRun(run, acts, delay) && i < j < |acts| && acts[i] == Collect && acts[j] == Purge
    requires forall k :: i < k < j ==> acts[k] != Purge
    requires r in run[j].registry
    ensures r !in run[j + 1].registry <==> r in run[i + 1].offline.value
    ensures r in run[i + 1].offline.value && run[j].now - run[i].now <= 30_000 ==>
              (run[j].now - run[j].registry[r].lastHeartbeat > 30_000 <==> !HeardBetween(run, acts, i, j, r))
  {
    assert run[j + 1] == TimedStep(run[j], acts[j]);
    SameSweep(run, acts, delay, i, j);
    if r in run[i + 1].offline.value {
      BetweenLocks(run, acts, delay, i, j, r);
    }
  }

  lemma {:induction false} SameSweep(run: seq<Timed>, acts: seq<TimedAction>, delay: nat, i: nat, j: nat)
    requires TimedRun(run, acts, delay) && i < j < |run| && acts[i] == Collect
    requires forall k :: i < k < j ==> acts[k] != Purge
    ensures run[i + 1].offline.Some? && run[j].offline == run[i + 1].offline
    decreases j
  {
    assert TimedEnabled(run[j - 1], acts[j - 1], delay) && run[j] == TimedStep(run[j - 1], acts[j - 1]);
    if j > i + 1 {
      SameSweep(run, acts, delay, i, j - 1);
    }
  }

  /** So a heartbeat between the locks does not save a session that any sweep has
      collected: whatever the run before, it goes on so that a session heard
      from at this very instant is taken out. */
  lemma SweepCanRemoveAFreshSession(run: seq<Timed>, acts: seq<TimedAction>, delay: nat, r: RouteId)
    returns (run': seq<Timed>, acts': seq<TimedAction>)
    requires TimedRun(run, acts, delay)
    requires var s := run[|acts|]; s.offline.Some? && r in s.offline.value && r in s.registry
    ensures TimedRun(run', acts', delay) && |acts'| == |acts| + 2
    ensures run'[..|run|] == run && acts'[..|acts|] == acts
    ensures acts'[|acts|].Heartbeat? && acts'[|acts| + 1] == Purge
    ensures var s := run'[|acts| + 1];
            r in s.registry && s.registry[r].lastHeartbeat == s.now && r !in run'[|acts| + 2].registry
  {
    var s := run[|acts|];
    var beat := Heartbeat(r, s.registry[r].conn, s.registry[r].host, s.registry[r].port);
    var s1 := TimedStep(s, beat);
    run' := run + [s1, TimedStep(s1, Purge)];
    acts' := acts + [beat, Purge];
    forall i | 0 <= i < |acts'| ensures TimedEnabled(run'[i], acts'[i], delay) && run'[i + 1] == TimedStep(run'[i], acts'[i]) {
      if i < |acts| {
        assert acts'[i] == acts[i] && run'[i] == run[i] && run'[i + 1] == run[i + 1];
      }
    }
  }
}
