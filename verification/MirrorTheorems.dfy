/** What the mirror protocol promises over whole runs, and the three places
    where the naive promise fails. */
module MirrorTheorems {
  import opened Basics
  import opened SessionRegistry
  import opened RouteTable
  import opened MirrorProtocol

  // ---------------------------------------------------------------------
  // Coherence

  /** In every reachable state, for every open connection, each entry the
      client will hold once its queue is drained is what the server has now,
      or its removal is deleted but not broadcast yet, or it is stale. */
  lemma MirrorCoherence(run: seq<State>, acts: seq<Action>, i: nat, c: ConnId, id: RouteId)
    requires IsRun(run, acts) && i < |run|
    requires c in run[i].conns && run[i].conns[c].open && id in Mirror(run[i].conns[c])
    ensures var s := run[i];
            || id in s.conns[c].stale
            || InPending(s, id)
            || (id in s.sessions && Mirror(s.conns[c])[id] == NodeOf(s.sessions[id]))
  {
    RunKeeps(run, acts, i);
  }

  /** This connection's client started from an empty table. */
  ghost predicate StartsEmpty(acts: seq<Action>, c: ConnId) {
    forall i :: 0 <= i < |acts| && acts[i].Connect? && acts[i].c == c ==> acts[i].table == EMPTY_TABLE
  }

  /** A removal is broadcast while a reply that lists the removed id is still to
      be written to c. */
  ghost predicate Overtakes(s: State, a: Action, c: ConnId) {
    && Enabled(s, a) && a.Broadcast? && c in s.conns && s.conns[c].stage.Answering?
    && !(s.pending[a.i] !! IdsOf(s.conns[c].stage.list))
  }

  ghost predicate NotOvertaken(run: seq<State>, acts: seq<Action>, c: ConnId)
    requires |run| == |acts| + 1
  {
    forall i :: 0 <= i < |acts| ==> !Overtakes(run[i], acts[i], c)
  }

  ghost predicate Spotless(k: Conn) {
    k.stale == {} && (k.stage.Answering? ==> k.stage.spoiled !! IdsOf(k.stage.list))
  }

  lemma {:induction false} RunIsSpotless(run: seq<State>, acts: seq<Action>, i: nat, c: ConnId)
    requires IsRun(run, acts) && StartsEmpty(acts, c) && NotOvertaken(run, acts, c)
    requires i < |run| && c in run[i].conns
    ensures Spotless(run[i].conns[c])
  {
    var a, s := acts[i - 1], run[i - 1];
    assert run[i] == Step(s, a);
    if c in s.conns {
      RunIsSpotless(run, acts, i - 1, c);
      StepIsSpotless(s, a, c);
    }
  }

  lemma StepIsSpotless(s: State, a: Action, c: ConnId)
    requires Enabled(s, a) && c in s.conns && Spotless(s.conns[c])
    requires !Overtakes(s, a, c)
    ensures Spotless(Step(s, a).conns[c])
  {
  }

  /** Coherence without exceptions, for every client that started empty and
      whose replies were not overtaken, whatever all the others do. */
  lemma SpotlessMirrorCoherence(run: seq<State>, acts: seq<Action>, i: nat, c: ConnId, id: RouteId)
    requires IsRun(run, acts) && StartsEmpty(acts, c) && NotOvertaken(run, acts, c)
    requires i < |run| && c in run[i].conns && run[i].conns[c].open && id in Mirror(run[i].conns[c])
    ensures var s := run[i];
            || InPending(s, id)
            || (id in s.sessions && Mirror(s.conns[c])[id] == NodeOf(s.sessions[id]))
  {
    RunIsSpotless(run, acts, i, c);
    MirrorCoherence(run, acts, i, c, id);
  }

  /** No other step comes between a snapshot for c and its write. */
  ghost predicate AtomicReplies(acts: seq<Action>, c: ConnId) {
    forall i :: 0 <= i < |acts| && acts[i].Snapshot? && acts[i].c == c ==> i + 1 < |acts| && acts[i + 1] == WriteReply(c)
  }

  lemma {:induction false} AnswersAtOnce(run: seq<State>, acts: seq<Action>, i: nat, c: ConnId)
    requires IsRun(run, acts) && AtomicReplies(acts, c)
    requires i < |run| && c in run[i].conns && run[i].conns[c].stage.Answering?
    ensures i > 0 && acts[i - 1].Snapshot? && acts[i - 1].c == c
  {
    var a, s := acts[i - 1], run[i - 1];
    assert run[i] == Step(s, a);
    if c in s.conns && s.conns[c].stage.Answering? {
      AnswersAtOnce(run, acts, i - 1, c);
      assert a == WriteReply(c);
    }
  }

  /** An atomic reply is never overtaken. */
  lemma AtomicMirrorCoherence(run: seq<State>, acts: seq<Action>, i: nat, c: ConnId, id: RouteId)
    requires IsRun(run, acts) && StartsEmpty(acts, c) && AtomicReplies(acts, c)
    requires i < |run| && c in run[i].conns && run[i].conns[c].open && id in Mirror(run[i].conns[c])
    ensures var s := run[i];
            || InPending(s, id)
            || (id in s.sessions && Mirror(s.conns[c])[id] == NodeOf(s.sessions[id]))
  {
    forall j | 0 <= j < |acts| ensures !Overtakes(run[j], acts[j], c) {
      if c in run[j].conns && run[j].conns[c].stage.Answering? {
        AnswersAtOnce(run, acts, j, c);
      }
    }
    SpotlessMirrorCoherence(run, acts, i, c, id);
  }

  function ServerNodes(s: State): map<RouteId, RouteNode> {
    map r | r in s.sessions :: NodeOf(s.sessions[r])
  }

  /** At step i the snapshot of a reply to c is taken, at the next one the reply
      is written, and the connection is open. */
  ghost predicate AnswersAt(run: seq<State>, acts: seq<Action>, i: nat, c: ConnId) {
    && IsRun(run, acts) && i + 1 < |acts|
    && acts[i].Snapshot? && acts[i].c == c && acts[i + 1] == WriteReply(c)
    && c in run[i + 2].conns && run[i + 2].conns[c].open
  }

  /** An atomic reply puts the server's nodes over what the table held. */
  lemma ReplyOverwrites(run: seq<State>, acts: seq<Action>, i: nat, c: ConnId, id: RouteId)
    requires AnswersAt(run, acts, i, c)
    ensures run[i + 2].sessions == run[i].sessions && run[i + 2].pending == run[i].pending
    ensures run[i + 2].conns[c].stage == Idle
    ensures c in run[i].conns && run[i].conns[c].open && run[i + 2].conns[c].stale <= run[i].conns[c].stale
    ensures var s := run[i + 2];
            var before, mirror := Mirror(run[i].conns[c]), Mirror(s.conns[c]);
            && (id in s.sessions ==> id in mirror && mirror[id] == NodeOf(s.sessions[id]))
            && (id !in s.sessions ==> (id in mirror <==> id in before))
  {
    var list := acts[i].list;
    var s0, s1, s := run[i], run[i + 1], run[i + 2];
    assert s1 == Step(s0, acts[i]) && s == Step(s1, acts[i + 1]);
    var k := s0.conns[c];
    RunKeeps(run, acts, i);
    DrainSnoc(k.table.nodes, k.queue, Reply(list));
    assert Mirror(s.conns[c]) == PutAll(Mirror(k), list);
    PutAllAt(Mirror(k), list, id);
    if id in s.sessions {
      assert NodeOf(s.sessions[id]) in list;
    }
  }

  /** Right after an atomic reply the drained table holds every live node; what
      else it holds is waiting to be broadcast or was stale and not listed. */
  lemma ReplyBringsEverything(run: seq<State>, acts: seq<Action>, i: nat, c: ConnId, id: RouteId)
    requires AnswersAt(run, acts, i, c)
    ensures var s := run[i + 2];
            var mirror := Mirror(s.conns[c]);
            && (id in s.sessions ==> id in mirror && mirror[id] == NodeOf(s.sessions[id]))
            && (id in mirror && id !in s.sessions ==> InPending(s, id) || id in run[i].conns[c].stale)
  {
    ReplyOverwrites(run, acts, i, c, id);
    RunKeeps(run, acts, i + 2);
  }

  /** Draining an atomic reply makes the client's table exactly the server's
      list if and only if, drained before the reply, it held no id that the
      server does not have. */
  lemma ReplyIsExactExactly(run: seq<State>, acts: seq<Action>, i: nat, c: ConnId)
    requires AnswersAt(run, acts, i, c)
    ensures c in run[i].conns
    ensures Mirror(run[i + 2].conns[c]) == ServerNodes(run[i + 2])
       <==> Mirror(run[i].conns[c]).Keys <= run[i].sessions.Keys
  {
    var mirror, server := Mirror(run[i + 2].conns[c]), ServerNodes(run[i + 2]);
    ReplyOverwrites(run, acts, i, c, "");
    forall id ensures id in server ==> id in mirror && mirror[id] == server[id] {
      ReplyOverwrites(run, acts, i, c, id);
    }
    forall id ensures id !in server ==> (id in mirror <==> id in Mirror(run[i].conns[c])) {
      ReplyOverwrites(run, acts, i, c, id);
    }
    if mirror == server {
      assert forall id :: id in Mirror(run[i].conns[c]) ==> id in server;
    }
  }

  /** That is so when nothing waits to be broadcast and nothing but live ids is
      stale. */
  lemma FreshReplyIsExact(run: seq<State>, acts: seq<Action>, i: nat, c: ConnId)
    requires AnswersAt(run, acts, i, c)
    requires run[i].pending == [] && c in run[i].conns && run[i].conns[c].stale <= run[i].sessions.Keys
    ensures Mirror(run[i + 2].conns[c]) == ServerNodes(run[i + 2])
  {
    ReplyOverwrites(run, acts, i, c, "");
    forall id | id in Mirror(run[i].conns[c]) ensures id in run[i].sessions {
      MirrorCoherence(run, acts, i, c, id);
    }
    ReplyIsExactExactly(run, acts, i, c);
  }

  /** For a client that started empty and whose replies were not overtaken,
      nothing pending is enough. */
  lemma SpotlessReplyIsExact(run: seq<State>, acts: seq<Action>, i: nat, c: ConnId)
    requires AnswersAt(run, acts, i, c) && StartsEmpty(acts, c) && NotOvertaken(run, acts, c)
    requires run[i].pending == []
    ensures Mirror(run[i + 2].conns[c]) == ServerNodes(run[i + 2])
  {
    ReplyOverwrites(run, acts, i, c, "");
    RunIsSpotless(run, acts, i, c);
    FreshReplyIsExact(run, acts, i, c);
  }

  /** A direct client cached by a client that has caught up points at the
      address its node is registered under. */
  lemma CachedClientsPointAtTheServersNodes(run: seq<State>, acts: seq<Action>, i: nat, c: ConnId, id: RouteId)
    requires IsRun(run, acts) && i < |run|
    requires c in run[i].conns && run[i].conns[c].open && run[i].conns[c].queue == []
    requires id in run[i].conns[c].table.clients
    ensures var s := run[i];
            var client := s.conns[c].table.clients[id];
            || id in s.conns[c].stale
            || InPending(s, id)
            || (id in s.sessions && client.host == s.sessions[id].host && client.port == s.sessions[id].port)
  {
    RunKeeps(run, acts, i);
    MirrorCoherence(run, acts, i, c, id);
  }

  // ---------------------------------------------------------------------
  // Ownership

  /** As long as an id stays registered, its connection and address stay. */
  lemma SessionKeepsOwner(s: State, a: Action, r: RouteId)
    requires Enabled(s, a) && r in s.sessions && r in Step(s, a).sessions
    ensures Step(s, a).sessions[r].conn == s.sessions[r].conn
    ensures NodeOf(Step(s, a).sessions[r]) == NodeOf(s.sessions[r])
  {
  }

  /** An id changes hands only through a state in which nobody holds it. */
  lemma {:induction false} OwnerChangesThroughGap(run: seq<State>, acts: seq<Action>, i: nat, j: nat, r: RouteId)
    returns (k: nat)
    requires IsRun(run, acts) && i <= j < |run|
    requires r in run[i].sessions && r in run[j].sessions
    requires run[i].sessions[r].conn != run[j].sessions[r].conn || NodeOf(run[i].sessions[r]) != NodeOf(run[j].sessions[r])
    ensures i < k < j && r !in run[k].sessions
    decreases j
  {
    k := j - 1;
    assert run[j] == Step(run[k], acts[k]);
    if r in run[k].sessions {
      SessionKeepsOwner(run[k], acts[k], r);
      k := OwnerChangesThroughGap(run, acts, i, k, r);
    }
  }

  /** Every session is stored under the id it was made for. */
  lemma SessionsKeyedByTheirId(run: seq<State>, acts: seq<Action>, i: nat, r: RouteId)
    requires IsRun(run, acts) && i < |run| && r in run[i].sessions
    ensures run[i].sessions[r].id == r
  {
    RunKeeps(run, acts, i);
  }

  /** A heartbeat for somebody else's id changes nothing in the registry and
      ends the connection it came from. */
  lemma ConflictIsRefused(s: State, c: ConnId, id: RouteId, host: string, port: int, now: int)
    requires Enabled(s, Beat(c, id, host, port, now))
    requires id in s.sessions && s.sessions[id].conn != c
    ensures var s' := Step(s, Beat(c, id, host, port, now));
            && s'.sessions == s.sessions && s'.pending == s.pending
            && !s'.conns[c].open
            && (forall d :: d in s.conns && d != c ==> s'.conns[d] == s.conns[d])
  {
  }

  /** Teardown removes by id. It takes out another connection's session exactly
      when the last id this connection named is held by another connection. */
  lemma TeardownEvictsExactly(s: State, c: ConnId, r: RouteId)
    requires Enabled(s, Teardown(c))
    ensures r in s.sessions && r !in Step(s, Teardown(c)).sessions && s.sessions[r].conn != c
       <==> r in s.sessions && s.sessions[r].conn != c && r == s.conns[c].lastId && r != ""
  {
    var id := s.conns[c].lastId;
    if id != "" && id in s.sessions {
      assert {id} * s.sessions.Keys == {id};
    }
  }

  // ---------------------------------------------------------------------
  // Where the naive promise fails

  /** Two connections name the same id; the second is refused, and when it is
      torn down the first one loses its registration and its connection. */
  lemma RefusedDuplicateEvictsOwner(id: RouteId, c: ConnId, d: ConnId) returns (run: seq<State>, acts: seq<Action>)
    requires id != "" && c != d
    ensures IsRun(run, acts)
    ensures |acts| == 5 && acts[2].Beat? && acts[2].c == c && acts[3].Beat? && acts[3].c == d && acts[4] == Teardown(d)
    ensures id in run[4].sessions && run[4].sessions[id].conn == c && run[4].conns[c].open
    ensures id !in run[5].sessions && !run[5].conns[c].open
  {
    var first := Session(id, c, "h", 1, 0);
    acts := [Connect(c, EMPTY_TABLE), Connect(d, EMPTY_TABLE), Beat(c, id, "h", 1, 0), Beat(d, id, "h", 2, 0), Teardown(d)];
    var s1 := Step(INIT, acts[0]);
    var s2 := Step(s1, acts[1]);
    var s3 := Step(s2, acts[2]);
    assert s3.sessions == map[id := first];
    assert s3.conns[d] == s2.conns[d];
    var s4 := Step(s3, acts[3]);
    assert s4.sessions == s3.sessions && s4.conns[c] == s3.conns[c] && s4.conns[d].lastId == id;
    var s5 := Step(s4, acts[4]);
    assert {id} * s4.sessions.Keys == {id};
    assert c in OwnersOf(s4.sessions, {id});
    run := [INIT, s1, s2, s3, s4, s5];
  }

  lemma ExtendRun(run: seq<State>, acts: seq<Action>, s: seq<State>, a: seq<Action>)
    requires IsRun(run, acts) && IsPath(s, a) && s[0] == run[|acts|]
    ensures IsRun(run + s[1..], acts + a)
    ensures (run + s[1..])[|acts + a|] == s[|a|]
  {
    var run', acts' := run + s[1..], acts + a;
    forall i | 0 <= i < |acts'| ensures Enabled(run'[i], acts'[i]) && run'[i + 1] == Step(run'[i], acts'[i]) {
      if i >= |acts| {
        assert run'[i] == s[i - |acts|] && run'[i + 1] == s[i - |acts| + 1] && acts'[i] == a[i - |acts|];
      }
    }
  }

  /** An entry for a node that is gone, with nothing under way to say so. */
  ghost predicate IsGhost(s: State, c: ConnId, x: RouteId) {
    c in s.conns && x in Mirror(s.conns[c]) && x !in s.sessions && !InPending(s, x)
  }

  ghost predicate Registers(a: Action, x: RouteId) {
    a.Beat? && a.id == x
  }

  lemma BroadcastKeepsGhost(s: State, i: nat, c: ConnId, x: RouteId)
    requires IsGhost(s, c, x) && i < |s.pending|
    ensures IsGhost(BroadcastStep(s, i), c, x)
  {
    NotifiedMirror(s.conns[c], c in Owners(s.sessions), s.pending[i]);
  }

  lemma WriteKeepsGhost(s: State, c: ConnId, d: ConnId, x: RouteId)
    requires IsGhost(s, c, x) && Enabled(s, WriteReply(d))
    ensures IsGhost(Step(s, WriteReply(d)), c, x)
  {
    if d == c {
      var k := s.conns[c];
      DrainSnoc(k.table.nodes, k.queue, Reply(k.stage.list));
      PutAllAt(Mirror(k), k.stage.list, x);
    }
  }

  lemma BeatKeepsGhost(s: State, c: ConnId, d: ConnId, offer: Session, now: int, x: RouteId)
    requires IsGhost(s, c, x) && d in s.conns && offer.id != x
    ensures IsGhost(BeatStep(s, d, offer, now), c, x)
  {
    if d == c {
      DrainSnoc(s.conns[c].table.nodes, s.conns[c].queue, Conflict);
    }
  }

  lemma DeleteKeepsGhost(s: State, c: ConnId, ids: set<RouteId>, x: RouteId)
    requires IsGhost(s, c, x)
    ensures IsGhost(Delete(s, ids), c, x)
  {
  }

  lemma GhostStays(s: State, a: Action, c: ConnId, x: RouteId)
    requires Enabled(s, a) && IsGhost(s, c, x) && !Registers(a, x)
    ensures IsGhost(Step(s, a), c, x)
  {
    match a
    case Beat(d, id, host, port, now) => BeatKeepsGhost(s, c, d, Session(id, d, host, port, now), now, x);
    case WriteReply(d) => WriteKeepsGhost(s, c, d, x);
    case Teardown(d) => DeleteKeepsGhost(s, c, {s.conns[d].lastId}, x);
    case RemoveIds(ids) => DeleteKeepsGhost(s, c, ids, x);
    case Broadcast(i) => BroadcastKeepsGhost(s, i, c, x);
    case Deliver(d) => DeliverKeepsMirror(s.conns[d]);
    case _ =>
  }

  /** A ghost is there to stay: whatever replies, deliveries, removals and
      teardowns come, until somebody asks to register its id. */
  lemma {:induction false} GhostStaysUntilRegistered(path: seq<State>, acts: seq<Action>, i: nat, c: ConnId, x: RouteId)
    requires IsPath(path, acts) && i < |path| && IsGhost(path[0], c, x)
    requires forall k :: 0 <= k < i ==> !Registers(acts[k], x)
    ensures IsGhost(path[i], c, x)
  {
    if i > 0 {
      GhostStaysUntilRegistered(path, acts, i - 1, c, x);
      assert path[i] == Step(path[i - 1], acts[i - 1]);
      GhostStays(path[i - 1], acts[i - 1], c, x);
    }
  }

  /** From here, without anybody asking to register x, c's client can come to
      forget it. */
  ghost predicate CanForget(s: State, c: ConnId, x: RouteId) {
    exists path, acts :: Forgets(s, path, acts, c, x)
  }

  ghost predicate Forgets(s: State, path: seq<State>, acts: seq<Action>, c: ConnId, x: RouteId) {
    && IsPath(path, acts) && path[0] == s
    && (forall k :: 0 <= k < |acts| ==> !Registers(acts[k], x))
    && c in path[|acts|].conns && x !in Mirror(path[|acts|].conns[c])
  }

  lemma BroadcastForgets(s: State, i: nat, c: ConnId, x: RouteId) returns (path: seq<State>, acts: seq<Action>)
    requires c in s.conns && s.conns[c].open && c in Owners(s.sessions)
    requires i < |s.pending| && x in s.pending[i]
    ensures Forgets(s, path, acts, c, x)
  {
    var s' := BroadcastStep(s, i);
    NotifiedMirror(s.conns[c], true, s.pending[i]);
    path, acts := [s, s'], [Broadcast(i)];
    assert Enabled(s, Broadcast(i)) && s' == Step(s, Broadcast(i));
  }

  lemma GhostIsNotForgotten(s: State, c: ConnId, x: RouteId)
    requires IsGhost(s, c, x)
    ensures !CanForget(s, c, x)
  {
    if CanForget(s, c, x) {
      var path, acts :| Forgets(s, path, acts, c, x);
      GhostStaysUntilRegistered(path, acts, |acts|, c, x);
    }
  }

  /** An open client that is registered and lists a node that is gone can come to
      forget it, without its being registered again, if and only if its removal
      is still to be broadcast. */
  lemma ForgottenExactly(s: State, c: ConnId, x: RouteId)
    requires c in s.conns && s.conns[c].open && c in Owners(s.sessions)
    requires x in Mirror(s.conns[c]) && x !in s.sessions
    ensures CanForget(s, c, x) <==> InPending(s, x)
  {
    if InPending(s, x) {
      var i :| 0 <= i < |s.pending| && x in s.pending[i];
      var path, acts := BroadcastForgets(s, i, c, x);
    } else {
      GhostIsNotForgotten(s, c, x);
    }
  }

  /** The snapshot and its write are not under one lock. Any run that is about
      to answer c and has another node x registered can go on so that x is
      removed, its removal broadcast, and then undone by the late reply: x is a
      ghost at c. */
  lemma LateReplyLeavesGhost(run: seq<State>, acts: seq<Action>, c: ConnId, x: RouteId, list: seq<RouteNode>)
    returns (run': seq<State>, acts': seq<Action>)
    requires IsRun(run, acts) && run[|acts|].pending == []
    requires Enabled(run[|acts|], Snapshot(c, list)) && run[|acts|].conns[c].open
    requires x in run[|acts|].sessions && run[|acts|].sessions[x].conn != c
    ensures IsRun(run', acts') && acts' == acts + [Snapshot(c, list), RemoveIds({x}), Broadcast(0), WriteReply(c)]
    ensures var s' := run'[|acts'|];
            && IsGhost(s', c, x) && s'.conns[c].open && s'.pending == [] && x in s'.conns[c].stale
  {
    RunKeeps(run, acts, |acts|);
    var s := LateReplySteps(run[|acts|], c, x, list);
    var a := [Snapshot(c, list), RemoveIds({x}), Broadcast(0), WriteReply(c)];
    ExtendRun(run, acts, s, a);
    run', acts' := run + s[1..], acts + a;
  }

  lemma RemovedMeanwhile(s1: State, c: ConnId, x: RouteId, list: seq<RouteNode>) returns (s2: State, s3: State)
    requires s1.pending == [] && x in s1.sessions && s1.sessions[x].conn != c
    requires c in s1.conns && s1.conns[c].open && s1.conns[c].stage == Answering(list, {})
    ensures s2 == Step(s1, RemoveIds({x})) && Enabled(s2, Broadcast(0)) && s3 == Step(s2, Broadcast(0))
    ensures s3.pending == [] && x !in s3.sessions
    ensures c in s3.conns && s3.conns[c].open && s3.conns[c].stage == Answering(list, {x})
  {
    assert {x} * s1.sessions.Keys == {x};
    assert OwnersOf(s1.sessions, {x}) == {s1.sessions[x].conn};
    s2 := Step(s1, RemoveIds({x}));
    assert s2.pending == [{x}] && s2.conns[c] == s1.conns[c];
    s3 := Step(s2, Broadcast(0));
  }

  lemma LateReplySteps(s0: State, c: ConnId, x: RouteId, list: seq<RouteNode>) returns (s: seq<State>)
    requires Inv(s0) && s0.pending == [] && Enabled(s0, Snapshot(c, list)) && s0.conns[c].open
    requires x in s0.sessions && s0.sessions[x].conn != c
    ensures IsPath(s, [Snapshot(c, list), RemoveIds({x}), Broadcast(0), WriteReply(c)]) && s[0] == s0
    ensures c in s[4].conns && s[4].conns[c].open && s[4].pending == []
    ensures x !in s[4].sessions && x in Mirror(s[4].conns[c]) && x in s[4].conns[c].stale
  {
    var s1 := Step(s0, Snapshot(c, list));
    var s2, s3 := RemovedMeanwhile(s1, c, x, list);
    s := [s0, s1, s2, s3, Step(s3, WriteReply(c))];
    LateReply(s0, s3.conns[c], x, list);
  }

  lemma LateReply(s: State, k: Conn, x: RouteId, list: seq<RouteNode>)
    requires IsListing(s.sessions, list) && x in s.sessions && WellKeyed(s.sessions)
    requires k.open && k.stage == Answering(list, {x})
    ensures x in Mirror(Replied(k)) && x in Replied(k).stale
  {
    assert NodeOf(s.sessions[x]) in list;
    DrainSnoc(k.table.nodes, k.queue, Reply(list));
    PutAllAt(Mirror(k), list, x);
    assert Mentions(list, x);
  }

  /** A client that reconnects keeps its table. Whatever id it registers under
      and whatever list the server answers with, an entry whose node is gone
      survives the reply; unless its removal is still to be broadcast, it is
      then a ghost. */
  lemma ReconnectKeepsGhost(run: seq<State>, acts: seq<Action>, c: ConnId, t: Table, x: RouteId, id: RouteId, list: seq<RouteNode>)
    returns (run': seq<State>, acts': seq<Action>)
    requires IsRun(run, acts) && Enabled(run[|acts|], Connect(c, t))
    requires x in t.nodes && x !in run[|acts|].sessions && x != id && id !in run[|acts|].sessions
    requires IsListing(run[|acts|].sessions[id := Session(id, c, "h", 1, 0)], list)
    ensures IsRun(run', acts')
    ensures acts' == acts + [Connect(c, t), Beat(c, id, "h", 1, 0), Snapshot(c, list), WriteReply(c)]
    ensures var s' := run'[|acts'|];
            && c in s'.conns && s'.conns[c].open && c in Owners(s'.sessions) && s'.pending == run[|acts|].pending
            && x !in s'.sessions && x in Mirror(s'.conns[c]) && x in s'.conns[c].stale
            && (IsGhost(s', c, x) <==> !InPending(run[|acts|], x))
  {
    var s1 := Step(run[|acts|], Connect(c, t));
    var s2 := Step(s1, Beat(c, id, "h", 1, 0));
    assert s2.sessions == s1.sessions[id := Session(id, c, "h", 1, 0)];
    var s3 := Step(s2, Snapshot(c, list));
    var s4 := Step(s3, WriteReply(c));
    assert s4.sessions[id].conn == c;
    UnlistedStays(s3.conns[c], t, x, list);
    var s, a := [run[|acts|], s1, s2, s3, s4], [Connect(c, t), Beat(c, id, "h", 1, 0), Snapshot(c, list), WriteReply(c)];
    ExtendRun(run, acts, s, a);
    run', acts' := run + s[1..], acts + a;
  }

  lemma UnlistedStays(k: Conn, t: Table, x: RouteId, list: seq<RouteNode>)
    requires k.open && k.stage == Answering(list, {}) && k.table == t && k.queue == [] && k.stale == t.nodes.Keys
    requires x in t.nodes && forall n :: n in list ==> n.id != x
    ensures x in Mirror(Replied(k)) && x in Replied(k).stale
  {
    DrainSnoc(k.table.nodes, k.queue, Reply(list));
    PutAllAt(Mirror(k), list, x);
    assert !Mentions(list, x);
  }
}
