/** What the steps of the mirror protocol do, told from outside: who is removed
    by a teardown, what a heartbeat changes, how a client catches up. */
module MirrorSteps {
  import opened Basics
  import opened SessionRegistry
  import opened RouteTable
  import opened MirrorProtocol

  // ---------------------------------------------------------------------
  // Heartbeats

  /** A heartbeat registers a free id with what it offers, refreshes its own
      session without moving its address, and is turned away from somebody
      else's: then the client is told of the conflict and the connection closes.
      Nothing else changes, here or at any other connection. */
  lemma BeatExactly(s: State, c: ConnId, id: RouteId, host: string, port: int, now: int)
    requires Enabled(s, Beat(c, id, host, port, now))
    ensures var s' := Step(s, Beat(c, id, host, port, now));
            var k, k' := s.conns[c], s'.conns[c];
            && s'.pending == s.pending && s'.conns.Keys == s.conns.Keys
            && (forall d :: d in s.conns && d != c ==> s'.conns[d] == s.conns[d])
            && k'.table == k.table && k'.stale == k.stale
            && (id !in s.sessions ==>
                  && s'.sessions == s.sessions[id := Session(id, c, host, port, now)]
                  && k'.stage == Admitted && k'.open == k.open && k'.queue == k.queue)
            && (id in s.sessions && s.sessions[id].conn == c ==>
                  && s'.sessions == s.sessions[id := s.sessions[id].(lastHeartbeat := now)]
                  && k'.stage == Admitted && k'.open == k.open && k'.queue == k.queue)
            && (id in s.sessions && s.sessions[id].conn != c ==>
                  && s'.sessions == s.sessions
                  && k'.stage == Idle && !k'.open && k'.queue == (if k.open then k.queue + [Conflict] else k.queue))
  {
  }

  /** The last non-empty id that messages from c have named. */
  function LastNamed(acts: seq<Action>, c: ConnId): RouteId {
    if acts == [] then ""
    else
      var a := acts[|acts| - 1];
      if (a.Touch? || a.Beat?) && a.c == c && a.id != "" then a.id else LastNamed(acts[..|acts| - 1], c)
  }

  /** It is what the connection's handler remembers, refused heartbeats
      included. */
  lemma {:induction false} RemembersLastNamed(run: seq<State>, acts: seq<Action>, i: nat, c: ConnId)
    requires IsRun(run, acts) && i < |run|
    ensures if c in run[i].conns then run[i].conns[c].lastId == LastNamed(acts[..i], c) else LastNamed(acts[..i], c) == ""
  {
    if i > 0 {
      RemembersLastNamed(run, acts, i - 1, c);
      assert acts[..i][..i - 1] == acts[..i - 1];
      StepRemembers(run[i - 1], acts[i - 1], c);
      assert run[i] == Step(run[i - 1], acts[i - 1]);
    }
  }

  lemma StepRemembers(s: State, a: Action, c: ConnId)
    requires Enabled(s, a)
    ensures c in s.conns ==> c in Step(s, a).conns
    ensures c !in s.conns && c in Step(s, a).conns ==> a.Connect? && Step(s, a).conns[c].lastId == ""
    ensures c in s.conns && (a.Touch? || a.Beat?) && a.c == c && a.id != "" ==> Step(s, a).conns[c].lastId == a.id
    ensures c in s.conns && !((a.Touch? || a.Beat?) && a.c == c && a.id != "") ==>
              Step(s, a).conns[c].lastId == s.conns[c].lastId
  {
  }

  // ---------------------------------------------------------------------
  // Teardown

  /** Tearing c down takes out the session of the last id it named, whoever holds
      it, and no other; its removal then waits to be broadcast; c is closed. */
  lemma TeardownRemovesExactly(s: State, c: ConnId, r: RouteId)
    requires Enabled(s, Teardown(c))
    ensures var s' := Step(s, Teardown(c));
            && (r in s.sessions && r !in s'.sessions <==> r in s.sessions && r == s.conns[c].lastId && r != "")
            && (r in s'.sessions ==> r in s.sessions && s'.sessions[r] == s.sessions[r])
            && (r in s.sessions && r !in s'.sessions ==> s'.pending == s.pending + [{r}] && InPending(s', r))
            && (s'.sessions == s.sessions ==> s'.pending == s.pending)
            && c in s'.conns && !s'.conns[c].open
  {
    var id, s' := s.conns[c].lastId, Step(s, Teardown(c));
    if id != "" && id in s.sessions {
      assert {id} * s.sessions.Keys == {id};
      assert s'.pending[|s.pending|] == {id};
    } else {
      assert id != "" ==> {id} * s.sessions.Keys == {};
    }
  }

  /** From a heartbeat for r on c to c's teardown, c names no other id; then
      r is free afterwards, and the next heartbeat for it is admitted, from
      whatever connection it comes. */
  lemma FreedByTeardown(run: seq<State>, acts: seq<Action>, i: nat, j: nat, c: ConnId, r: RouteId)
    requires IsRun(run, acts) && i < j < |acts| && r != ""
    requires acts[i].Beat? && acts[i].c == c && acts[i].id == r && acts[j] == Teardown(c)
    requires forall k :: i < k < j && (acts[k].Touch? || acts[k].Beat?) && acts[k].c == c ==> acts[k].id == "" || acts[k].id == r
    ensures r !in run[j + 1].sessions
    ensures forall d, host, port, now :: Enabled(run[j + 1], Beat(d, r, host, port, now)) ==>
              var s' := Step(run[j + 1], Beat(d, r, host, port, now));
              r in s'.sessions && s'.sessions[r] == Session(r, d, host, port, now) && s'.conns[d].stage == Admitted
  {
    assert run[j + 1] == Step(run[j], acts[j]);
    assert Enabled(run[j], acts[j]);
    RemembersLastNamed(run, acts, j, c);
    LastNamedIs(acts, i, j, c, r);
    TeardownRemovesExactly(run[j], c, r);
  }

  lemma {:induction false} LastNamedIs(acts: seq<Action>, i: nat, j: nat, c: ConnId, r: RouteId)
    requires i < j <= |acts| && r != "" && acts[i].Beat? && acts[i].c == c && acts[i].id == r
    requires forall k :: i < k < j && (acts[k].Touch? || acts[k].Beat?) && acts[k].c == c ==> acts[k].id == "" || acts[k].id == r
    ensures LastNamed(acts[..j], c) == r
    decreases j
  {
    assert acts[..j][..j - 1] == acts[..j - 1];
    if i + 1 < j {
      LastNamedIs(acts, i, j - 1, c, r);
    }
  }

  /** A connection that breaks is closed; its session stays until it is torn
      down or swept. */
  lemma BreakOnlyCloses(s: State, c: ConnId)
    requires Enabled(s, Break(c))
    ensures var s' := Step(s, Break(c));
            && s'.sessions == s.sessions && s'.pending == s.pending && s'.conns.Keys == s.conns.Keys
            && !s'.conns[c].open && Mirror(s'.conns[c]) == Mirror(s.conns[c])
            && forall d :: d in s.conns && d != c ==> s'.conns[d] == s.conns[d]
  {
  }

  // ---------------------------------------------------------------------
  // Catching up

  /** Delivering what is under way, one notice after the other, takes the
      client's table to its mirror, and changes nothing else anywhere. */
  lemma {:induction false} CatchesUp(s: State, c: ConnId) returns (path: seq<State>, acts: seq<Action>)
    requires c in s.conns
    ensures IsPath(path, acts) && path[0] == s && |acts| == |s.conns[c].queue|
    ensures forall a :: a in acts ==> a == Deliver(c)
    ensures var t := path[|acts|];
            && t.sessions == s.sessions && t.pending == s.pending && t.conns.Keys == s.conns.Keys
            && (forall d :: d in s.conns && d != c ==> t.conns[d] == s.conns[d])
            && t.conns[c].queue == [] && t.conns[c].table.nodes == Mirror(s.conns[c])
    decreases |s.conns[c].queue|
  {
    var k := s.conns[c];
    if k.queue == [] {
      path, acts := [s], [];
    } else {
      var s1 := Step(s, Deliver(c));
      DeliverKeepsMirror(k);
      var rest, more := CatchesUp(s1, c);
      path, acts := [s] + rest, [Deliver(c)] + more;
      forall i | 0 <= i < |acts| ensures Enabled(path[i], acts[i]) && path[i + 1] == Step(path[i], acts[i]) {
        if i > 0 {
          assert path[i] == rest[i - 1] && acts[i] == more[i - 1];
        }
      }
    }
  }
}
