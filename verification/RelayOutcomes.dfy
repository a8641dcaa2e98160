/** What becomes of a relayed call: what it comes back with, that it can go
    well, and how often its request can run (internal/rpc/relay_client.go). */
module RelayOutcomes {
  import opened Basics
  import opened Futures
  import opened Stubs
  import opened RelayCalls

  // ---------------------------------------------------------------------
  // What a call comes back with

  /** The call comes back at this step, with o. */
  ghost predicate ComesBack(s: System, s': System, id: CallId, o: Outcome) {
    && id in s.calls && !s.calls[id].phase.Back?
    && id in s'.calls && s'.calls[id].phase == Back(o)
  }

  /** The four ways back, exactly: with what the future holds once its channel is
      closed; with the time-out; with the error of the first send, if no second
      one is tried; with the error of the second send. */
  lemma ComesBackExactly(s: System, x: Action, id: CallId, o: Outcome)
    requires Enabled(s, x) && UidIsNew(s, x)
    ensures ComesBack(s, Step(s, x), id, o) <==>
      id in s.calls &&
      (|| (x == Return(id) && FutureOf(s, id) == Some(o))
       || (x == TimeOut(id) && o == Failure("rpc timeout"))
       || (x == GiveUp(id) && o.Failure? && s.calls[id].phase == Retrying(o.error))
       || (x.Send? && x.id == id && s.calls[id].phase.Retrying? && o.Failure? && x.failure == Some(o.error)))
  {
    if x.Begin? {
      assert Step(s, x).calls == s.calls[IdOf(x.req) := Step(s, x).calls[IdOf(x.req)]];
    } else if x.Send? || x.GiveUp? || x.Return? || x.TimeOut? {
      CallerComesBack(s, x, id, o);
    } else {
      assert Step(s, x).calls == s.calls;
    }
  }

  lemma CallerComesBack(s: System, x: Action, id: CallId, o: Outcome)
    requires Enabled(s, x) && (x.Send? || x.GiveUp? || x.Return? || x.TimeOut?)
    ensures ComesBack(s, Step(s, x), id, o) <==>
      id in s.calls &&
      (|| (x == Return(id) && FutureOf(s, id) == Some(o))
       || (x == TimeOut(id) && o == Failure("rpc timeout"))
       || (x == GiveUp(id) && o.Failure? && s.calls[id].phase == Retrying(o.error))
       || (x.Send? && x.id == id && s.calls[id].phase.Retrying? && o.Failure? && x.failure == Some(o.error)))
  {
    assert Step(s, x).calls == s.calls[x.id := Step(s, x).calls[x.id]];
  }

  /** A first send that fails is tried once more; a send that does not fail is
      followed by waiting. */
  lemma SendLeadsOn(s: System, id: CallId, failure: Option<string>, leaves: bool)
    requires Enabled(s, Send(id, failure, leaves))
    ensures var c, s' := s.calls[id], Step(s, Send(id, failure, leaves));
            && id in s'.calls && s'.calls[id].attempts == c.attempts + 1
            && (failure.None? ==> s'.calls[id].phase == Waiting)
            && (failure.Some? && c.phase == Sending ==> s'.calls[id].phase == Retrying(failure.value))
            && s'.atServer == (if leaves then s.atServer + multiset{Ask(c.req)} else s.atServer)
  {
  }

  /** A call that returns gives its caller what its future holds, which is what
      an earlier execution of this request by its addressee gave: value and
      error text alike. */
  lemma ReturnGivesInvocation(run: seq<System>, acts: seq<Action>, j: nat, id: CallId)
    requires IsRun(run, acts) && j < |acts| && acts[j] == Return(id)
    ensures id in run[j].calls && FutureOf(run[j], id).Some?
    ensures id in run[j + 1].calls && run[j + 1].calls[id].phase == Back(FutureOf(run[j], id).value)
    ensures exists k :: 0 <= k < j && RanAt(run, acts, k, run[j].calls[id].req, FutureOf(run[j], id).value)
  {
    assert Leads(run[j], acts[j], run[j + 1]);
    FutureHoldsInvocation(run, acts, j, id);
  }

  /** Nothing is under way to a node but what is addressed to one, and no answer
      to the server's own debugger. */
  lemma {:induction false} OnlyAddressedArrives(run: seq<System>, acts: seq<Action>, i: nat, m: Msg)
    requires IsRun(run, acts) && i < |run| && m in run[i].toNode
    ensures (if m.Ask? then m.req.to else m.caller) != "" && !(m.Answer? && m.caller == "debug-admin")
  {
    if i > 0 {
      assert Leads(run[i - 1], acts[i - 1], run[i]);
      if m in run[i - 1].toNode {
        OnlyAddressedArrives(run, acts, i - 1, m);
      } else {
        ForwardedFits(run[i - 1], acts[i - 1], m);
      }
    }
  }

  lemma ForwardedFits(s: System, x: Action, m: Msg)
    requires Enabled(s, x) && m !in s.toNode && m in Step(s, x).toNode
    ensures x == Forward(m) && Forwards(m)
  {
  }

  /** The network moves, loses or hands over one copy at a time. */
  lemma NetworkMovesOne(s: System, m: Msg)
    requires m in s.atServer
    ensures m in s.toNode && m.Answer? && m.caller in s.nodes ==>
              var s' := Step(s, Receive(m));
              s'.toNode[m] == s.toNode[m] - 1 && s'.atServer == s.atServer && s'.calls == s.calls
    ensures Forwards(m) ==>
              var s' := Step(s, Forward(m));
              s'.atServer == s.atServer - multiset{m} && s'.toNode[m] == s.toNode[m] + 1
    ensures Step(s, LoseAtServer(m)).atServer[m] == s.atServer[m] - 1 && Step(s, LoseAtServer(m)).toNode == s.toNode
  {
  }

  /** Once a node's handlers are replaced, requests to it run the new ones, and
      requests to others run theirs. */
  lemma InstallTakesEffect(s: System, a: RouteId, handlers: Handlers, req: RpcRequest)
    requires a in s.nodes && req.to in s.nodes
    ensures LocalOutcome(Step(s, Install(a, handlers)), req) ==
      (if req.to == a then InvokeLocal(handlers, req.packetId, RawArgs(req.args)) else LocalOutcome(s, req))
  {
  }

  // ---------------------------------------------------------------------
  // A call that goes well

  /** The call is at this phase, with its future still open in the given slot. */
  ghost predicate Pending(s: System, req: RpcRequest, p: Phase) {
    var id := IdOf(req);
    && id in s.calls && s.calls[id].req == req && s.calls[id].phase == p
    && req.from in s.nodes && req.to in s.nodes
    && var l := s.nodes[req.from].ledger;
       && req.uid in l.index && l.index[req.uid] == s.calls[id].slot < |l.entries|
       && l.entries[s.calls[id].slot] == Entry(req.uid, None)
  }

  lemma BeginsWell(s: System, req: RpcRequest, clock: int) returns (s': System)
    requires Enabled(s, Begin(req, clock)) && req.to in s.nodes
    ensures Leads(s, Begin(req, clock), s') && Pending(s', req, Sending)
    ensures s'.nodes[req.to].handlers == s.nodes[req.to].handlers
  {
    s' := BeginStep(s, req, clock);
  }

  lemma SendsWell(s: System, req: RpcRequest) returns (s': System)
    requires Pending(s, req, Sending)
    ensures Leads(s, Send(IdOf(req), None, true), s') && Pending(s', req, Waiting)
    ensures s'.nodes == s.nodes && Ask(req) in s'.atServer
  {
    s' := SendStep(s, IdOf(req), None, true);
  }

  lemma ForwardsWell(s: System, m: Msg, req: RpcRequest) returns (s': System)
    requires Pending(s, req, Waiting) && m in s.atServer && Forwards(m)
    ensures Leads(s, Forward(m), s') && Pending(s', req, Waiting)
    ensures s'.nodes == s.nodes && m in s'.toNode
  {
    s' := s.(atServer := s.atServer - multiset{m}, toNode := s.toNode + multiset{m});
  }

  lemma ExecutesWell(s: System, req: RpcRequest) returns (s': System)
    requires Pending(s, req, Waiting) && Ask(req) in s.toNode
    ensures Leads(s, Execute(req, true), s') && Pending(s', req, Waiting)
    ensures s'.nodes == s.nodes && Answer(req.to, req.from, Response(s, req)) in s'.atServer
  {
    s' := Answered(s, req, Response(s, req), true);
  }

  lemma ReceivesWell(s: System, req: RpcRequest, resp: RpcResponse) returns (s': System)
    requires Pending(s, req, Waiting) && Answer(req.to, req.from, resp) in s.toNode && resp.uid == req.uid
    ensures Leads(s, Receive(Answer(req.to, req.from, resp)), s')
    ensures IdOf(req) in s'.calls && s'.calls[IdOf(req)].phase == Waiting
    ensures FutureOf(s', IdOf(req)) == Some(CarriedOutcome(resp))
  {
    s' := ReceiveStep(s, Answer(req.to, req.from, resp));
  }

  lemma ReturnsWell(s: System, id: CallId, o: Outcome) returns (s': System)
    requires id in s.calls && s.calls[id].phase == Waiting && FutureOf(s, id) == Some(o)
    ensures Leads(s, Return(id), s') && id in s'.calls && s'.calls[id].phase == Back(o)
  {
    s' := PhaseStep(s, id, Back(o));
  }

  function WayThere(req: RpcRequest, clock: int): seq<Action> {
    [Begin(req, clock), Send(IdOf(req), None, true), Forward(Ask(req)), Execute(req, true)]
  }

  function WayBack(req: RpcRequest, resp: RpcResponse): seq<Action> {
    var answer := Answer(req.to, req.from, resp);
    [Forward(answer), Receive(answer), Return(IdOf(req))]
  }

  lemma GoesThere(s: System, req: RpcRequest, clock: int) returns (path: seq<System>)
    requires Enabled(s, Begin(req, clock)) && req.to in s.nodes && req.to != ""
    ensures IsPath(path, WayThere(req, clock)) && path[0] == s
    ensures Pending(path[4], req, Waiting) && Answer(req.to, req.from, Response(s, req)) in path[4].atServer
  {
    var s1 := BeginsWell(s, req, clock);
    var s2 := SendsWell(s1, req);
    var s3 := ForwardsWell(s2, Ask(req), req);
    var s4 := ExecutesWell(s3, req);
    assert Response(s3, req) == Response(s, req);
    path := [s, s1, s2, s3, s4];
    FourSteps(path, WayThere(req, clock));
  }

  lemma FourSteps(path: seq<System>, acts: seq<Action>)
    requires |path| == 5 && |acts| == 4
    requires Leads(path[0], acts[0], path[1]) && Leads(path[1], acts[1], path[2])
    requires Leads(path[2], acts[2], path[3]) && Leads(path[3], acts[3], path[4])
    ensures IsPath(path, acts)
  {
  }

  lemma ComesBackWell(s: System, req: RpcRequest, resp: RpcResponse) returns (path: seq<System>)
    requires Pending(s, req, Waiting) && Answer(req.to, req.from, resp) in s.atServer && resp.uid == req.uid
    requires req.from != "" && req.from != "debug-admin"
    ensures IsPath(path, WayBack(req, resp)) && path[0] == s
    ensures IdOf(req) in path[3].calls && path[3].calls[IdOf(req)].phase == Back(CarriedOutcome(resp))
  {
    var s1 := ForwardsWell(s, Answer(req.to, req.from, resp), req);
    var s2 := ReceivesWell(s1, req, resp);
    var s3 := ReturnsWell(s2, IdOf(req), CarriedOutcome(resp));
    path := [s, s1, s2, s3];
  }

  /** Wherever a system stands, a call that a process may make now to another one
      that is alive can come back with what calling the method there gives:
      the frame is sent, forwarded and executed, the answer forwarded and
      received, and the call returns. */
  lemma CallCanReturn(s: System, req: RpcRequest, clock: int) returns (path: seq<System>, acts: seq<Action>)
    requires Enabled(s, Begin(req, clock)) && req.to in s.nodes
    requires req.to != "" && req.from != "" && req.from != "debug-admin"
    ensures IsPath(path, acts) && path[0] == s
    ensures acts == WayThere(req, clock) + WayBack(req, Response(s, req))
    ensures var t := path[|acts|];
            IdOf(req) in t.calls && t.calls[IdOf(req)].phase == Back(LocalOutcome(s, req))
  {
    var resp := Response(s, req);
    var there := GoesThere(s, req, clock);
    var back := ComesBackWell(there[4], req, resp);
    ResponseCarriesOutcome(req, Invoked(s.nodes[req.to].handlers, req.packetId, RawArgs(req.args)));
    JoinPaths(there, WayThere(req, clock), back, WayBack(req, resp));
    path, acts := there + back[1..], WayThere(req, clock) + WayBack(req, resp);
  }

  // ---------------------------------------------------------------------
  // How often a request can still run

  function SendsLeft(p: Phase): nat {
    match p
    case Sending => 2
    case Retrying(_) => 1
    case Waiting => 0
    case Back(_) => 0
  }

  /** The executions made, the copies under way and the sends still to come. */
  function Potential(s: System, id: CallId): nat
    requires id in s.calls
  {
    var c := s.calls[id];
    Runs(s.log, c.req) + InFlight(s, c.req) + SendsLeft(c.phase)
  }

  /** The call is there as before, and no more executions of it have become
      possible. */
  ghost predicate NoMorePossible(s: System, s': System, id: CallId)
    requires id in s.calls
  {
    id in s'.calls && s'.calls[id].req == s.calls[id].req && Potential(s', id) <= Potential(s, id)
  }

  lemma SendAddsNone(s: System, d: CallId, failure: Option<string>, leaves: bool, id: CallId)
    requires CallsOk(s) && Enabled(s, Send(d, failure, leaves)) && id in s.calls
    ensures NoMorePossible(s, SendStep(s, d, failure, leaves), id)
  {
    assert CallOk(s, id, s.calls[id]) && CallOk(s, d, s.calls[d]);
  }

  lemma PhaseAddsNone(s: System, d: CallId, p: Phase, id: CallId)
    requires d in s.calls && p.Back? && id in s.calls
    ensures NoMorePossible(s, PhaseStep(s, d, p), id)
  {
  }

  lemma ExecuteTakesCopy(s: System, req: RpcRequest, resp: RpcResponse, leaves: bool, other: RpcRequest)
    requires Ask(req) in s.toNode
    ensures InFlight(Answered(s, req, resp, leaves), other) == InFlight(s, other) - (if other == req then 1 else 0)
  {
    var s' := Answered(s, req, resp, leaves);
    assert s'.toNode[Ask(other)] == s.toNode[Ask(other)] - (if other == req then 1 else 0);
    assert s'.atServer[Ask(other)] == s.atServer[Ask(other)];
  }

  lemma ExecuteAddsNone(s: System, req: RpcRequest, resp: RpcResponse, leaves: bool, id: CallId)
    requires Ask(req) in s.toNode && id in s.calls
    ensures NoMorePossible(s, Answered(s, req, resp, leaves), id)
  {
    var s' := Answered(s, req, resp, leaves);
    ExecuteTakesCopy(s, req, resp, leaves, s.calls[id].req);
    RunsSnoc(s.log, Ran(req.to, req, CarriedOutcome(resp)), s.calls[id].req);
    assert s'.calls == s.calls && s'.log == s.log + [Ran(req.to, req, CarriedOutcome(resp))];
  }

  lemma TransportAddsNone(s: System, s': System, id: CallId)
    requires id in s.calls && s'.calls == s.calls && s'.log == s.log
    requires forall req :: InFlight(s', req) <= InFlight(s, req)
    ensures NoMorePossible(s, s', id)
  {
  }

  lemma BeginAddsNone(s: System, req: RpcRequest, clock: int, id: CallId)
    requires req.from in s.nodes && IdOf(req) !in s.calls && id in s.calls
    ensures NoMorePossible(s, BeginStep(s, req, clock), id)
  {
  }

  lemma CallerAddsNone(s: System, x: Action, id: CallId)
    requires CallsOk(s) && Enabled(s, x) && id in s.calls
    requires x.Send? || x.GiveUp? || x.Return? || x.TimeOut?
    ensures NoMorePossible(s, Step(s, x), id)
  {
    match x
    case Send(d, failure, leaves) => SendAddsNone(s, d, failure, leaves, id);
    case GiveUp(d) => PhaseAddsNone(s, d, Back(Failure(s.calls[d].phase.error)), id);
    case Return(d) => PhaseAddsNone(s, d, Back(FutureOf(s, d).value), id);
    case TimeOut(d) => PhaseAddsNone(s, d, Back(Failure("rpc timeout")), id);
  }

  lemma StepAddsNone(s: System, x: Action, id: CallId)
    requires CallsOk(s) && Enabled(s, x) && UidIsNew(s, x) && id in s.calls
    ensures NoMorePossible(s, Step(s, x), id)
  {
    if x.Begin? {
      BeginAddsNone(s, x.req, x.clock, id);
    } else if x.Execute? {
      ExecuteAddsNone(s, x.req, Response(s, x.req), x.leaves, id);
    } else if x.Send? || x.GiveUp? || x.Return? || x.TimeOut? {
      CallerAddsNone(s, x, id);
    } else {
      TransportAddsNone(s, Step(s, x), id);
    }
  }

  lemma RunStepAddsNone(run: seq<System>, acts: seq<Action>, j: nat, id: CallId)
    requires IsRun(run, acts) && j < |acts| && id in run[j].calls
    ensures NoMorePossible(run[j], run[j + 1], id)
  {
    RunKeeps(run, acts, j);
    RunUidIsNew(run, acts, j);
    assert Leads(run[j], acts[j], run[j + 1]);
    StepAddsNone(run[j], acts[j], id);
  }

  lemma {:induction false} RunAddsNone(run: seq<System>, acts: seq<Action>, i: nat, j: nat, id: CallId)
    requires IsRun(run, acts) && i <= j < |run| && id in run[i].calls
    ensures NoMorePossible(run[i], run[j], id)
    decreases j
  {
    if i < j {
      RunAddsNone(run, acts, i, j - 1, id);
      RunStepAddsNone(run, acts, j - 1, id);
    }
  }

  /** From here, some way of going on takes the request to n executions. */
  ghost predicate CanRun(s: System, req: RpcRequest, n: nat) {
    exists path, acts :: TakesTo(s, path, acts, req, n)
  }

  ghost predicate TakesTo(s: System, path: seq<System>, acts: seq<Action>, req: RpcRequest, n: nat) {
    IsPath(path, acts) && path[0] == s && Runs(path[|acts|].log, req) >= n
  }

  /** What is still to be done: sends count more than forwards, and these more
      than executions. */
  function StepsLeft(s: System, id: CallId): nat
    requires id in s.calls
  {
    var c := s.calls[id];
    3 * SendsLeft(c.phase) + 2 * s.atServer[Ask(c.req)] + s.toNode[Ask(c.req)]
  }

  ghost predicate Alive(s: System, id: CallId) {
    id in s.calls && s.calls[id].req.to in s.nodes && s.calls[id].req.to != ""
  }

  /** One step nearer, without losing anything. */
  ghost predicate Nearer(s: System, s': System, id: CallId)
    requires Alive(s, id)
  {
    && Alive(s', id) && s'.calls[id].req == s.calls[id].req
    && Potential(s', id) == Potential(s, id) && StepsLeft(s', id) < StepsLeft(s, id)
  }

  lemma ExecutesOne(s: System, id: CallId)
    requires Alive(s, id) && Ask(s.calls[id].req) in s.toNode
    ensures var s' := Answered(s, s.calls[id].req, Response(s, s.calls[id].req), false); Nearer(s, s', id)
  {
    var req := s.calls[id].req;
    RunsSnoc(s.log, Ran(req.to, req, CarriedOutcome(Response(s, req))), req);
  }

  lemma ForwardsOne(s: System, id: CallId)
    requires Alive(s, id) && Ask(s.calls[id].req) in s.atServer
    ensures var m := Ask(s.calls[id].req);
            Nearer(s, s.(atServer := s.atServer - multiset{m}, toNode := s.toNode + multiset{m}), id)
  {
  }

  lemma SendsOne(s: System, id: CallId, failure: Option<string>)
    requires Alive(s, id) && (failure.Some? <==> s.calls[id].phase.Sending?) && SendsLeft(s.calls[id].phase) > 0
    ensures Nearer(s, SendStep(s, id, failure, true), id)
  {
  }

  lemma GoesOn(s: System, id: CallId) returns (x: Action, s': System)
    requires Alive(s, id) && StepsLeft(s, id) > 0
    ensures Leads(s, x, s') && Nearer(s, s', id)
  {
    var req := s.calls[id].req;
    if Ask(req) in s.toNode {
      ExecutesOne(s, id);
      x, s' := Execute(req, false), Answered(s, req, Response(s, req), false);
    } else if Ask(req) in s.atServer {
      ForwardsOne(s, id);
      x := Forward(Ask(req));
      s' := s.(atServer := s.atServer - multiset{Ask(req)}, toNode := s.toNode + multiset{Ask(req)});
    } else {
      var failure := if s.calls[id].phase.Sending? then Some("broken pipe") else None;
      SendsOne(s, id, failure);
      x, s' := Send(id, failure, true), SendStep(s, id, failure, true);
    }
  }

  /** The potential can be used up to the last. */
  lemma {:induction false} RunsThemAll(s: System, id: CallId) returns (path: seq<System>, acts: seq<Action>)
    requires Alive(s, id)
    ensures TakesTo(s, path, acts, s.calls[id].req, Potential(s, id))
    decreases StepsLeft(s, id)
  {
    if StepsLeft(s, id) == 0 {
      path, acts := [s], [];
    } else {
      var x, s' := GoesOn(s, id);
      var rest, more := RunsThemAll(s', id);
      JoinPaths([s, s'], [x], rest, more);
      path, acts := [s, s'] + rest[1..], [x] + more;
    }
  }

  /** How often a request can still come to run, exactly: at any moment of any
      run, a call whose addressee is alive can be taken to n executions if and
      only if those made, the copies under way and the sends left add up to n.
      They never add up to more than two. */
  lemma RunsExactly(run: seq<System>, acts: seq<Action>, i: nat, id: CallId, n: nat)
    requires IsRun(run, acts) && i < |run| && Alive(run[i], id)
    ensures CanRun(run[i], run[i].calls[id].req, n) <==> n <= Potential(run[i], id)
    ensures Potential(run[i], id) <= 2
  {
    var s := run[i];
    RunKeeps(run, acts, i);
    assert CallOk(s, id, s.calls[id]);
    if n <= Potential(s, id) {
      var path, more := RunsThemAll(s, id);
      assert TakesTo(s, path, more, s.calls[id].req, n);
    }
    if CanRun(s, s.calls[id].req, n) {
      var path, more :| TakesTo(s, path, more, s.calls[id].req, n);
      GoingOnAddsNone(run, acts, i, path, more, id);
    }
  }

  lemma GoingOnAddsNone(run: seq<System>, acts: seq<Action>, i: nat, path: seq<System>, more: seq<Action>, id: CallId)
    requires IsRun(run, acts) && i < |run| && id in run[i].calls
    requires IsPath(path, more) && path[0] == run[i]
    ensures NoMorePossible(run[i], path[|more|], id)
  {
    var before, done := run[..i + 1], acts[..i];
    assert IsPath(before, done) by {
      forall k | 0 <= k < i ensures Leads(before[k], done[k], before[k + 1]) {
        assert Leads(run[k], acts[k], run[k + 1]);
      }
    }
    JoinPaths(before, done, path, more);
    RunAddsNone(before + path[1..], done + more, i, i + |more|, id);
  }
}
