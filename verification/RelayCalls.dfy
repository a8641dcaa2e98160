/** Relayed calls end to end: the caller with its futures and its one retry,
    the server that forwards, the callee that runs the method
    (internal/rpc/relay_client.go, relay_handlers.go,
    internal/VirtualRouterServer/server.go).

    The network loses messages and delivers them in any order, but forges none.
    There is one process per route id, and each has its own table of handlers. */
module RelayCalls {
  import opened Basics
  import opened Futures
  import opened Stubs

  const DEBUG_ADMIN := "debug-admin"

  datatype Msg = Ask(req: RpcRequest) | Answer(callee: RouteId, caller: RouteId, resp: RpcResponse)

  /** Where a call stands: the first send, the send after a failed one, waiting
      on the future, or back with the caller. */
  datatype Phase = Sending | Retrying(error: string) | Waiting | Back(outcome: Outcome)

  datatype Call = Call(req: RpcRequest, clock: int, count: nat, attempts: nat, phase: Phase, slot: nat)

  type Handlers = map<int, Handler>

  datatype Node = Node(counter: nat, ledger: Ledger, handlers: Handlers)

  datatype CallId = CallId(caller: RouteId, uid: Uid)

  /** One execution of Invoke at a node, and what came out of it. */
  datatype Ran = Ran(node: RouteId, req: RpcRequest, outcome: Outcome)

  datatype System = System(
    nodes: map<RouteId, Node>,
    calls: map<CallId, Call>,
    atServer: multiset<Msg>,
    toNode: multiset<Msg>,
    log: seq<Ran>)

  /** `Install` replaces a node's handlers: it stands for registering, for
      resetting, and for any change in what a handler will do next time. */
  datatype Action =
    | Install(node: RouteId, handlers: Handlers)
    | Begin(req: RpcRequest, clock: int)
    | Send(id: CallId, failure: Option<string>, leaves: bool)
    | GiveUp(id: CallId)
    | Forward(m: Msg)
    | LoseAtServer(m: Msg)
    | LoseToNode(m: Msg)
    | Execute(req: RpcRequest, leaves: bool)
    | Receive(m: Msg)
    | Return(id: CallId)
    | TimeOut(id: CallId)

  // ---------------------------------------------------------------------
  // The steps

  ghost predicate Initial(s: System) {
    && (forall a :: a in s.nodes ==> s.nodes[a].counter == 0 && s.nodes[a].ledger == EMPTY_LEDGER)
    && s.calls == map[] && s.atServer == multiset{} && s.toNode == multiset{} && s.log == []
  }

  function IdOf(req: RpcRequest): CallId {
    CallId(req.from, req.uid)
  }

  function BeginStep(s: System, req: RpcRequest, clock: int): System
    requires req.from in s.nodes
  {
    var n := s.nodes[req.from];
    var call := Call(req, clock, n.counter + 1, 0, Sending, |n.ledger.entries|);
    s.(nodes := s.nodes[req.from := n.(counter := n.counter + 1, ledger := Enter(n.ledger, req.uid))],
       calls := s.calls[IdOf(req) := call])
  }

  function PhaseAfterSend(p: Phase, failure: Option<string>): Phase {
    if failure.None? then Waiting
    else if p.Sending? then Retrying(failure.value)
    else Back(Failure(failure.value))
  }

  function SendStep(s: System, id: CallId, failure: Option<string>, leaves: bool): System
    requires id in s.calls
  {
    var c := s.calls[id];
    var s1 := s.(calls := s.calls[id := c.(attempts := c.attempts + 1, phase := PhaseAfterSend(c.phase, failure))]);
    if leaves then s1.(atServer := s1.atServer + multiset{Ask(c.req)}) else s1
  }

  function PhaseStep(s: System, id: CallId, p: Phase): System
    requires id in s.calls
  {
    s.(calls := s.calls[id := s.calls[id].(phase := p)])
  }

  function InstallStep(s: System, a: RouteId, handlers: Handlers): System
    requires a in s.nodes
  {
    s.(nodes := s.nodes[a := s.nodes[a].(handlers := handlers)])
  }

  /** What the addressee's request handler sends back. */
  function Response(s: System, req: RpcRequest): RpcResponse
    requires req.to in s.nodes
  {
    Respond(req, Invoked(s.nodes[req.to].handlers, req.packetId, RawArgs(req.args)))
  }

  /** What calling the same method at the addressee itself would give now. */
  function LocalOutcome(s: System, req: RpcRequest): Outcome
    requires req.to in s.nodes
  {
    InvokeLocal(s.nodes[req.to].handlers, req.packetId, RawArgs(req.args))
  }

  function Answered(s: System, req: RpcRequest, resp: RpcResponse, leaves: bool): System {
    var s1 := s.(toNode := s.toNode - multiset{Ask(req)}, log := s.log + [Ran(req.to, req, CarriedOutcome(resp))]);
    if leaves then s1.(atServer := s1.atServer + multiset{Answer(req.to, req.from, resp)}) else s1
  }

  function ReceiveStep(s: System, m: Msg): System
    requires m.Answer? && m.caller in s.nodes
  {
    var n := s.nodes[m.caller];
    s.(toNode := s.toNode - multiset{m},
       nodes := s.nodes[m.caller := n.(ledger := Complete(n.ledger, m.resp.uid, CarriedOutcome(m.resp)))])
  }

  function Target(m: Msg): RouteId {
    if m.Ask? then m.req.to else m.caller
  }

  /** The server keeps answers addressed to its own debugger and drops what has
      no addressee. */
  predicate Forwards(m: Msg) {
    Target(m) != "" && !(m.Answer? && m.caller == DEBUG_ADMIN)
  }

  /** What the call's future holds, if its channel is closed. */
  function FutureOf(s: System, id: CallId): Option<Outcome>
    requires id in s.calls
  {
    if id.caller in s.nodes && s.calls[id].slot < |s.nodes[id.caller].ledger.entries|
    then s.nodes[id.caller].ledger.entries[s.calls[id].slot].outcome
    else None
  }

  ghost predicate Enabled(s: System, x: Action) {
    match x
    case Install(a, _) => a in s.nodes
    case Begin(req, clock) =>
      req.from in s.nodes && req.from != req.to && req.uid == UidOf(clock, s.nodes[req.from].counter + 1)
    case Send(id, failure, leaves) =>
      id in s.calls && (s.calls[id].phase.Sending? || s.calls[id].phase.Retrying?) && (failure.None? ==> leaves)
    case GiveUp(id) => id in s.calls && s.calls[id].phase.Retrying?
    case Forward(m) => m in s.atServer && Forwards(m)
    case LoseAtServer(m) => m in s.atServer
    case LoseToNode(m) => m in s.toNode
    case Execute(req, _) => Ask(req) in s.toNode && req.to in s.nodes
    case Receive(m) => m in s.toNode && m.Answer? && m.caller in s.nodes
    case Return(id) => id in s.calls && s.calls[id].phase.Waiting? && FutureOf(s, id).Some?
    case TimeOut(id) => id in s.calls && s.calls[id].phase.Waiting?
  }

  ghost function Step(s: System, x: Action): System
    requires Enabled(s, x)
  {
    match x
    case Install(a, handlers) => InstallStep(s, a, handlers)
    case Begin(req, clock) => BeginStep(s, req, clock)
    case Send(id, failure, leaves) => SendStep(s, id, failure, leaves)
    case GiveUp(id) => PhaseStep(s, id, Back(Failure(s.calls[id].phase.error)))
    case Forward(m) => s.(atServer := s.atServer - multiset{m}, toNode := s.toNode + multiset{m})
    case LoseAtServer(m) => s.(atServer := s.atServer - multiset{m})
    case LoseToNode(m) => s.(toNode := s.toNode - multiset{m})
    case Execute(req, leaves) => Answered(s, req, Response(s, req), leaves)
    case Receive(m) => ReceiveStep(s, m)
    case Return(id) => PhaseStep(s, id, Back(FutureOf(s, id).value))
    case TimeOut(id) => PhaseStep(s, id, Back(Failure("rpc timeout")))
  }

  ghost predicate Leads(s: System, x: Action, s': System) {
    Enabled(s, x) && s' == Step(s, x)
  }

  ghost predicate IsPath(path: seq<System>, acts: seq<Action>) {
    && |path| == |acts| + 1
    && forall i :: 0 <= i < |acts| ==> Leads(path[i], acts[i], path[i + 1])
  }

  ghost predicate IsRun(run: seq<System>, acts: seq<Action>) {
    IsPath(run, acts) && Initial(run[0])
  }

  // ---------------------------------------------------------------------
  // The invariant

  function Runs(log: seq<Ran>, req: RpcRequest): nat {
    if log == [] then 0
    else Runs(log[..|log| - 1], req) + (if log[|log| - 1].req == req then 1 else 0)
  }

  function InFlight(s: System, req: RpcRequest): nat {
    s.atServer[Ask(req)] + s.toNode[Ask(req)]
  }

  ghost predicate SentBy(s: System, req: RpcRequest) {
    IdOf(req) in s.calls && s.calls[IdOf(req)].req == req
  }

  /** Every uid in use came out of its process's generator. */
  ghost predicate UidsOk(s: System) {
    forall id :: id in s.calls ==>
      && id.caller in s.nodes
      && s.calls[id].count <= s.nodes[id.caller].counter
      && id.uid == UidOf(s.calls[id].clock, s.calls[id].count)
  }

  ghost predicate CallOk(s: System, id: CallId, c: Call) {
    && IdOf(c.req) == id && c.req.to != id.caller
    && (c.phase.Sending? ==> c.attempts == 0) && (c.phase.Retrying? ==> c.attempts == 1) && c.attempts <= 2
    && (c.phase.Back? && c.phase.outcome.Value? ==> Ran(c.req.to, c.req, c.phase.outcome) in s.log)
    && InFlight(s, c.req) + Runs(s.log, c.req) <= c.attempts
  }

  ghost predicate CallsOk(s: System) {
    forall id :: id in s.calls ==> CallOk(s, id, s.calls[id])
  }

  ghost predicate SlotOk(s: System, id: CallId, c: Call) {
    && id.caller in s.nodes
    && c.slot < |s.nodes[id.caller].ledger.entries|
    && s.nodes[id.caller].ledger.entries[c.slot].uid == id.uid
  }

  ghost predicate SlotsOk(s: System) {
    forall id :: id in s.calls ==> SlotOk(s, id, s.calls[id])
  }

  /** A future belongs to one call, and holds only what that call's callee ran. */
  ghost predicate EntryOk(s: System, a: RouteId, i: nat, e: Entry) {
    var id := CallId(a, e.uid);
    && id in s.calls && s.calls[id].slot == i
    && (e.outcome.Some? ==> Ran(s.calls[id].req.to, s.calls[id].req, e.outcome.value) in s.log)
  }

  ghost predicate LedgersOk(s: System) {
    forall a :: a in s.nodes ==>
      && LedgerOk(s.nodes[a].ledger)
      && forall i :: 0 <= i < |s.nodes[a].ledger.entries| ==> EntryOk(s, a, i, s.nodes[a].ledger.entries[i])
  }

  ghost predicate MsgOk(s: System, m: Msg) {
    match m
    case Ask(req) => SentBy(s, req)
    case Answer(callee, caller, resp) =>
      var id := CallId(caller, resp.uid);
      id in s.calls && s.calls[id].req.to == callee && Ran(callee, s.calls[id].req, CarriedOutcome(resp)) in s.log
  }

  ghost predicate NetOk(s: System) {
    forall m :: m in s.atServer || m in s.toNode ==> MsgOk(s, m)
  }

  ghost predicate LogOk(s: System) {
    forall r :: r in s.log ==> r.node == r.req.to && SentBy(s, r.req)
  }

  ghost predicate Inv(s: System) {
    CallsOk(s) && SlotsOk(s) && LedgersOk(s) && NetOk(s) && LogOk(s)
  }

  // ---------------------------------------------------------------------
  // Counting runs

  lemma RunsSnoc(log: seq<Ran>, r: Ran, req: RpcRequest)
    ensures Runs(log + [r], req) == Runs(log, req) + (if r.req == req then 1 else 0)
  {
    assert (log + [r])[..|log|] == log;
  }

  lemma {:induction false} NoRuns(log: seq<Ran>, req: RpcRequest)
    requires forall r :: r in log ==> r.req != req
    ensures Runs(log, req) == 0
  {
    if log != [] {
      NoRuns(log[..|log| - 1], req);
    }
  }

  // ---------------------------------------------------------------------
  // What each step keeps

  /** Nothing known is forgotten: a call keeps its request and its future, and
      the log only grows. */
  ghost predicate Grows(s: System, s': System) {
    && (forall id :: id in s.calls ==>
          id in s'.calls && s'.calls[id].req == s.calls[id].req && s'.calls[id].slot == s.calls[id].slot)
    && (forall r :: r in s.log ==> r in s'.log)
  }

  lemma MsgKept(s: System, s': System, m: Msg)
    requires Grows(s, s') && MsgOk(s, m)
    ensures MsgOk(s', m)
  {
  }

  lemma LogKept(s: System, s': System)
    requires Grows(s, s') && LogOk(s) && s'.log == s.log
    ensures LogOk(s')
  {
  }

  ghost predicate SameLedgers(s: System, s': System) {
    s'.nodes.Keys == s.nodes.Keys && forall a :: a in s.nodes ==> s'.nodes[a].ledger == s.nodes[a].ledger
  }

  lemma LedgersKept(s: System, s': System)
    requires Grows(s, s') && LedgersOk(s) && SameLedgers(s, s')
    ensures LedgersOk(s')
  {
    forall a, i | a in s'.nodes && 0 <= i < |s'.nodes[a].ledger.entries|
      ensures EntryOk(s', a, i, s'.nodes[a].ledger.entries[i])
    {
      assert EntryOk(s, a, i, s.nodes[a].ledger.entries[i]);
    }
  }

  /** A call left alone stays right if no more copies of its request exist. */
  lemma CallKept(s: System, s': System, id: CallId, c: Call)
    requires CallOk(s, id, c)
    requires forall r :: r in s.log ==> r in s'.log
    requires InFlight(s', c.req) + Runs(s'.log, c.req) <= InFlight(s, c.req) + Runs(s.log, c.req)
    ensures CallOk(s', id, c)
  {
  }

  lemma CallsKeptBut(s: System, s': System, id: CallId)
    requires CallsOk(s) && id in s'.calls && s'.calls == s.calls[id := s'.calls[id]] && s'.log == s.log
    requires CallOk(s', id, s'.calls[id])
    requires forall d :: d in s.calls && d != id ==> InFlight(s', s.calls[d].req) <= InFlight(s, s.calls[d].req)
    ensures CallsOk(s')
  {
    forall d | d in s'.calls ensures CallOk(s', d, s'.calls[d]) {
      if d != id {
        CallKept(s, s', d, s.calls[d]);
      }
    }
  }

  lemma NetKeptBut(s: System, s': System, req: RpcRequest)
    requires Grows(s, s') && NetOk(s) && SentBy(s, req)
    requires forall m :: m in s'.atServer || m in s'.toNode ==> m in s.atServer || m in s.toNode || m == Ask(req)
    ensures NetOk(s')
  {
    forall m | m in s'.atServer || m in s'.toNode ensures MsgOk(s', m) {
      MsgKept(s, s', if m == Ask(req) then Ask(req) else m);
    }
  }

  /** Requests of different calls are different, so they travel apart. */
  lemma OthersTravelApart(s: System, s': System, id: CallId)
    requires CallsOk(s) && id in s.calls
    requires forall req :: req != s.calls[id].req ==> InFlight(s', req) <= InFlight(s, req)
    ensures forall d :: d in s.calls && d != id ==> InFlight(s', s.calls[d].req) <= InFlight(s, s.calls[d].req)
  {
    forall d | d in s.calls && d != id ensures s.calls[d].req != s.calls[id].req {
      assert CallOk(s, d, s.calls[d]) && CallOk(s, id, s.calls[id]);
    }
  }

  /** A step in which only one call moves, messages aside. */
  lemma OneCallMoves(s: System, s': System, id: CallId)
    requires Inv(s) && id in s.calls && s'.nodes == s.nodes && s'.log == s.log
    requires id in s'.calls && s'.calls == s.calls[id := s'.calls[id]]
    requires var c, c' := s.calls[id], s'.calls[id];
             c'.req == c.req && c'.slot == c.slot && c'.clock == c.clock && c'.count == c.count
    requires CallOk(s', id, s'.calls[id])
    requires forall m :: m in s'.atServer || m in s'.toNode ==> m in s.atServer || m in s.toNode || m == Ask(s.calls[id].req)
    requires forall req :: req != s.calls[id].req ==> InFlight(s', req) <= InFlight(s, req)
    ensures Inv(s')
  {
    LogKept(s, s');
    LedgersKept(s, s');
    assert CallOk(s, id, s.calls[id]);
    NetKeptBut(s, s', s.calls[id].req);
    OthersTravelApart(s, s', id);
    CallsKeptBut(s, s', id);
  }

  lemma PhaseKeeps(s: System, id: CallId, p: Phase)
    requires Inv(s) && id in s.calls
    requires p.Back? && (p.outcome.Value? ==> Ran(s.calls[id].req.to, s.calls[id].req, p.outcome) in s.log)
    ensures Inv(PhaseStep(s, id, p))
  {
    assert CallOk(s, id, s.calls[id]);
    OneCallMoves(s, PhaseStep(s, id, p), id);
  }

  lemma SendKeeps(s: System, id: CallId, failure: Option<string>, leaves: bool)
    requires Inv(s) && Enabled(s, Send(id, failure, leaves))
    ensures Inv(SendStep(s, id, failure, leaves))
  {
    assert CallOk(s, id, s.calls[id]);
    OneCallMoves(s, SendStep(s, id, failure, leaves), id);
  }

  lemma NewCallOk(s: System, req: RpcRequest, clock: int)
    requires Inv(s) && req.from in s.nodes && req.from != req.to && IdOf(req) !in s.calls
    ensures var s' := BeginStep(s, req, clock); CallOk(s', IdOf(req), s'.calls[IdOf(req)])
  {
    assert !SentBy(s, req);
    assert !MsgOk(s, Ask(req));
    NoRuns(s.log, req);
  }

  lemma BeginKeepsLedgers(s: System, req: RpcRequest, clock: int)
    requires Inv(s) && req.from in s.nodes && IdOf(req) !in s.calls
    ensures LedgersOk(BeginStep(s, req, clock)) && SlotsOk(BeginStep(s, req, clock))
  {
    var s' := BeginStep(s, req, clock);
    LedgerStepKeeps(s.nodes[req.from].ledger, Registers(req.uid));
    forall a, i | a in s'.nodes && 0 <= i < |s'.nodes[a].ledger.entries|
      ensures EntryOk(s', a, i, s'.nodes[a].ledger.entries[i])
    {
      if i < |s.nodes[a].ledger.entries| {
        assert EntryOk(s, a, i, s.nodes[a].ledger.entries[i]);
      }
    }
    forall id | id in s'.calls ensures SlotOk(s', id, s'.calls[id]) {
      assert id in s.calls ==> SlotOk(s, id, s.calls[id]);
    }
  }

  lemma BeginKeepsOthers(s: System, req: RpcRequest, clock: int)
    requires CallsOk(s) && NetOk(s) && LogOk(s) && req.from in s.nodes && IdOf(req) !in s.calls
    ensures var s' := BeginStep(s, req, clock);
            && NetOk(s') && LogOk(s')
            && forall id :: id in s.calls ==> id in s'.calls && CallOk(s', id, s'.calls[id])
  {
    var s' := BeginStep(s, req, clock);
    LogKept(s, s');
    forall m | m in s'.atServer || m in s'.toNode ensures MsgOk(s', m) {
      MsgKept(s, s', m);
    }
    forall id | id in s.calls ensures CallOk(s', id, s'.calls[id]) {
      CallKept(s, s', id, s.calls[id]);
    }
  }

  lemma BeginKeeps(s: System, req: RpcRequest, clock: int)
    requires Inv(s) && req.from in s.nodes && req.from != req.to && IdOf(req) !in s.calls
    ensures Inv(BeginStep(s, req, clock))
  {
    NewCallOk(s, req, clock);
    BeginKeepsLedgers(s, req, clock);
    BeginKeepsOthers(s, req, clock);
  }

  /** Moving or losing messages, or replacing handlers. */
  lemma TransportKeeps(s: System, s': System)
    requires Inv(s) && SameLedgers(s, s') && s'.calls == s.calls && s'.log == s.log
    requires forall m :: m in s'.atServer || m in s'.toNode ==> m in s.atServer || m in s.toNode
    requires forall req :: InFlight(s', req) <= InFlight(s, req)
    ensures Inv(s')
  {
    forall m | m in s'.atServer || m in s'.toNode ensures MsgOk(s', m) {
      MsgKept(s, s', m);
    }
    LogKept(s, s');
    LedgersKept(s, s');
    forall id | id in s'.calls ensures CallOk(s', id, s'.calls[id]) {
      CallKept(s, s', id, s.calls[id]);
    }
  }

  lemma ForwardKeeps(s: System, m: Msg)
    requires Inv(s) && m in s.atServer
    ensures Inv(s.(atServer := s.atServer - multiset{m}, toNode := s.toNode + multiset{m}))
  {
    TransportKeeps(s, s.(atServer := s.atServer - multiset{m}, toNode := s.toNode + multiset{m}));
  }

  lemma LossAtServerKeeps(s: System, m: Msg)
    requires Inv(s)
    ensures Inv(s.(atServer := s.atServer - multiset{m}))
  {
    var s' := s.(atServer := s.atServer - multiset{m});
    assert forall req :: InFlight(s', req) <= InFlight(s, req);
    TransportKeeps(s, s');
  }

  lemma LossToNodeKeeps(s: System, m: Msg)
    requires Inv(s)
    ensures Inv(s.(toNode := s.toNode - multiset{m}))
  {
    var s' := s.(toNode := s.toNode - multiset{m});
    assert forall req :: InFlight(s', req) <= InFlight(s, req);
    TransportKeeps(s, s');
  }

  lemma ExecuteKeepsCounts(s: System, req: RpcRequest, resp: RpcResponse, leaves: bool)
    requires Inv(s) && Ask(req) in s.toNode && resp.uid == req.uid
    ensures CallsOk(Answered(s, req, resp, leaves))
  {
    var s' := Answered(s, req, resp, leaves);
    forall id | id in s'.calls ensures CallOk(s', id, s'.calls[id]) {
      RunsSnoc(s.log, Ran(req.to, req, CarriedOutcome(resp)), s.calls[id].req);
      CallKept(s, s', id, s.calls[id]);
    }
  }

  lemma ExecuteGrows(s: System, req: RpcRequest, resp: RpcResponse, leaves: bool)
    requires Inv(s) && Ask(req) in s.toNode && resp.uid == req.uid
    ensures var s' := Answered(s, req, resp, leaves);
            Grows(s, s') && LogOk(s') && MsgOk(s', Answer(req.to, req.from, resp))
  {
    assert MsgOk(s, Ask(req));
    assert Answered(s, req, resp, leaves).log == s.log + [Ran(req.to, req, CarriedOutcome(resp))];
  }

  lemma ExecuteKeepsNet(s: System, req: RpcRequest, resp: RpcResponse, leaves: bool)
    requires Inv(s) && Ask(req) in s.toNode && resp.uid == req.uid
    ensures NetOk(Answered(s, req, resp, leaves)) && LogOk(Answered(s, req, resp, leaves))
  {
    var s' := Answered(s, req, resp, leaves);
    ExecuteGrows(s, req, resp, leaves);
    forall m | m in s'.atServer || m in s'.toNode ensures MsgOk(s', m) {
      if m != Answer(req.to, req.from, resp) {
        MsgKept(s, s', m);
      }
    }
  }

  lemma ExecuteKeeps(s: System, req: RpcRequest, resp: RpcResponse, leaves: bool)
    requires Inv(s) && Ask(req) in s.toNode && resp.uid == req.uid
    ensures Inv(Answered(s, req, resp, leaves))
  {
    ExecuteKeepsNet(s, req, resp, leaves);
    ExecuteKeepsCounts(s, req, resp, leaves);
    LedgersKept(s, Answered(s, req, resp, leaves));
  }

  lemma ReceiveKeepsEntry(s: System, m: Msg, a: RouteId, i: nat)
    requires LedgersOk(s) && m.Answer? && m.caller in s.nodes && MsgOk(s, m)
    requires a in s.nodes && i < |s.nodes[a].ledger.entries|
    ensures var s' := ReceiveStep(s, m);
            && |s'.nodes[a].ledger.entries| == |s.nodes[a].ledger.entries|
            && s'.nodes[a].ledger.entries[i].uid == s.nodes[a].ledger.entries[i].uid
            && EntryOk(s', a, i, s'.nodes[a].ledger.entries[i])
  {
    assert LedgerOk(s.nodes[a].ledger) && EntryOk(s, a, i, s.nodes[a].ledger.entries[i]);
  }

  lemma ReceiveKeepsLedgers(s: System, m: Msg)
    requires LedgersOk(s) && m.Answer? && m.caller in s.nodes && MsgOk(s, m)
    ensures LedgersOk(ReceiveStep(s, m))
  {
    var s' := ReceiveStep(s, m);
    LedgerStepKeeps(s.nodes[m.caller].ledger, Responds(m.resp.uid, CarriedOutcome(m.resp)));
    forall a, i | a in s'.nodes && 0 <= i < |s'.nodes[a].ledger.entries|
      ensures EntryOk(s', a, i, s'.nodes[a].ledger.entries[i])
    {
      ReceiveKeepsEntry(s, m, a, i);
    }
  }

  lemma ReceiveKeepsSlots(s: System, m: Msg)
    requires LedgersOk(s) && SlotsOk(s) && m.Answer? && m.caller in s.nodes && MsgOk(s, m)
    ensures SlotsOk(ReceiveStep(s, m))
  {
    var s' := ReceiveStep(s, m);
    forall id | id in s'.calls ensures SlotOk(s', id, s'.calls[id]) {
      assert SlotOk(s, id, s.calls[id]);
      ReceiveKeepsEntry(s, m, id.caller, s.calls[id].slot);
    }
  }

  lemma ReceiveKeepsNet(s: System, m: Msg)
    requires CallsOk(s) && NetOk(s) && m.Answer? && m.caller in s.nodes
    ensures CallsOk(ReceiveStep(s, m)) && NetOk(ReceiveStep(s, m))
  {
    var s' := ReceiveStep(s, m);
    forall x | x in s'.atServer || x in s'.toNode ensures MsgOk(s', x) {
      MsgKept(s, s', x);
    }
    forall id | id in s'.calls ensures CallOk(s', id, s'.calls[id]) {
      CallKept(s, s', id, s.calls[id]);
    }
  }

  lemma ReceiveKeeps(s: System, m: Msg)
    requires Inv(s) && Enabled(s, Receive(m))
    ensures Inv(ReceiveStep(s, m))
  {
    ReceiveKeepsLedgers(s, m);
    ReceiveKeepsSlots(s, m);
    ReceiveKeepsNet(s, m);
    LogKept(s, ReceiveStep(s, m));
  }

  lemma ReturnKeeps(s: System, id: CallId)
    requires Inv(s) && Enabled(s, Return(id))
    ensures Inv(PhaseStep(s, id, Back(FutureOf(s, id).value)))
  {
    var i := s.calls[id].slot;
    assert SlotOk(s, id, s.calls[id]) && EntryOk(s, id.caller, i, s.nodes[id.caller].ledger.entries[i]);
    PhaseKeeps(s, id, Back(FutureOf(s, id).value));
  }

  /** The uid a call would get now has never been used by its process. */
  ghost predicate UidIsNew(s: System, x: Action) {
    x.Begin? ==> IdOf(x.req) !in s.calls
  }

  lemma CallerStepKeeps(s: System, x: Action)
    requires Inv(s) && Enabled(s, x)
    requires x.Send? || x.GiveUp? || x.Return? || x.TimeOut?
    ensures Inv(Step(s, x))
  {
    match x
    case Send(id, failure, leaves) => SendKeeps(s, id, failure, leaves);
    case GiveUp(id) => PhaseKeeps(s, id, Back(Failure(s.calls[id].phase.error)));
    case Return(id) => ReturnKeeps(s, id);
    case TimeOut(id) => PhaseKeeps(s, id, Back(Failure("rpc timeout")));
  }

  lemma NetworkStepKeeps(s: System, x: Action)
    requires Inv(s) && Enabled(s, x)
    requires x.Forward? || x.LoseAtServer? || x.LoseToNode? || x.Execute? || x.Receive?
    ensures Inv(Step(s, x))
  {
    match x
    case Forward(m) => ForwardKeeps(s, m);
    case LoseAtServer(m) => LossAtServerKeeps(s, m);
    case LoseToNode(m) => LossToNodeKeeps(s, m);
    case Execute(req, leaves) => ExecuteKeeps(s, req, Response(s, req), leaves);
    case Receive(m) => ReceiveKeeps(s, m);
  }

  lemma StepKeeps(s: System, x: Action)
    requires Inv(s) && Enabled(s, x) && UidIsNew(s, x)
    ensures Inv(Step(s, x))
  {
    if x.Begin? {
      BeginKeeps(s, x.req, x.clock);
    } else if x.Install? {
      TransportKeeps(s, Step(s, x));
    } else if x.Send? || x.GiveUp? || x.Return? || x.TimeOut? {
      CallerStepKeeps(s, x);
    } else {
      NetworkStepKeeps(s, x);
    }
  }

  lemma UidsSame(s: System, s': System)
    requires UidsOk(s) && s'.calls.Keys == s.calls.Keys
    requires forall a :: a in s.nodes ==> a in s'.nodes && s'.nodes[a].counter == s.nodes[a].counter
    requires forall id :: id in s.calls ==>
               s'.calls[id].clock == s.calls[id].clock && s'.calls[id].count == s.calls[id].count
    ensures UidsOk(s')
  {
  }

  lemma ReceiveUidsKept(s: System, m: Msg)
    requires UidsOk(s) && m.Answer? && m.caller in s.nodes
    ensures UidsOk(ReceiveStep(s, m))
  {
    UidsSame(s, ReceiveStep(s, m));
  }

  lemma MessageUidsKept(s: System, s': System)
    requires UidsOk(s) && s'.calls == s.calls && s'.nodes == s.nodes
    ensures UidsOk(s')
  {
  }

  lemma NetworkUidsKept(s: System, x: Action)
    requires UidsOk(s) && Enabled(s, x)
    requires x.Forward? || x.LoseAtServer? || x.LoseToNode? || x.Execute? || x.Receive?
    ensures UidsOk(Step(s, x))
  {
    if x.Receive? {
      ReceiveUidsKept(s, x.m);
    } else {
      MessageUidsKept(s, Step(s, x));
    }
  }

  lemma PhaseUidsKept(s: System, id: CallId, p: Phase)
    requires UidsOk(s) && id in s.calls
    ensures UidsOk(PhaseStep(s, id, p))
  {
    UidsSame(s, PhaseStep(s, id, p));
  }

  lemma UidsKept(s: System, x: Action)
    requires UidsOk(s) && Enabled(s, x)
    ensures UidsOk(Step(s, x))
  {
    match x
    case Begin(_, _) =>
    case Install(a, handlers) => UidsSame(s, InstallStep(s, a, handlers));
    case Send(id, failure, leaves) => UidsSame(s, SendStep(s, id, failure, leaves));
    case GiveUp(id) => PhaseUidsKept(s, id, Back(Failure(s.calls[id].phase.error)));
    case Return(id) => PhaseUidsKept(s, id, Back(FutureOf(s, id).value));
    case TimeOut(id) => PhaseUidsKept(s, id, Back(Failure("rpc timeout")));
    case _ => NetworkUidsKept(s, x);
  }

  lemma NewUidIsNew(s: System, x: Action)
    requires UidsOk(s) && Enabled(s, x)
    ensures UidIsNew(s, x)
  {
    if x.Begin? && IdOf(x.req) in s.calls {
      var c := s.calls[IdOf(x.req)];
      UidsDiffer(x.clock, s.nodes[x.req.from].counter + 1, c.clock, c.count);
    }
  }

  lemma {:induction false} RunUids(run: seq<System>, acts: seq<Action>, i: nat)
    requires IsRun(run, acts) && i < |run|
    ensures UidsOk(run[i])
  {
    if i > 0 {
      RunUids(run, acts, i - 1);
      assert Leads(run[i - 1], acts[i - 1], run[i]);
      UidsKept(run[i - 1], acts[i - 1]);
    }
  }

  lemma RunUidIsNew(run: seq<System>, acts: seq<Action>, i: nat)
    requires IsRun(run, acts) && i < |acts|
    ensures UidIsNew(run[i], acts[i])
  {
    RunUids(run, acts, i);
    assert Leads(run[i], acts[i], run[i + 1]);
    NewUidIsNew(run[i], acts[i]);
  }

  lemma {:induction false} RunKeeps(run: seq<System>, acts: seq<Action>, i: nat)
    requires IsRun(run, acts) && i < |run|
    ensures Inv(run[i])
  {
    if i > 0 {
      RunKeeps(run, acts, i - 1);
      RunUidIsNew(run, acts, i - 1);
      assert Leads(run[i - 1], acts[i - 1], run[i]);
      StepKeeps(run[i - 1], acts[i - 1]);
    }
  }

  // ---------------------------------------------------------------------
  // Over whole runs

  /** Step j is an execution of this request by its addressee, in which Invoke
      on the request's packet id and arguments comes out as o. */
  ghost predicate RanAt(run: seq<System>, acts: seq<Action>, j: int, req: RpcRequest, o: Outcome)
    requires |run| == |acts| + 1
  {
    && 0 <= j < |acts| && acts[j].Execute? && acts[j].req == req
    && req.to in run[j].nodes && o == LocalOutcome(run[j], req)
  }

  lemma ExecuteLogs(s: System, req: RpcRequest, leaves: bool, r: Ran)
    requires Enabled(s, Execute(req, leaves)) && r in Step(s, Execute(req, leaves)).log && r !in s.log
    ensures r == Ran(req.to, req, LocalOutcome(s, req))
  {
    ResponseCarriesOutcome(req, Invoked(s.nodes[req.to].handlers, req.packetId, RawArgs(req.args)));
  }

  /** Every log entry goes back to the execution that wrote it. */
  lemma {:induction false} LoggedRan(run: seq<System>, acts: seq<Action>, i: nat, r: Ran) returns (j: nat)
    requires IsRun(run, acts) && i < |run| && r in run[i].log
    ensures j < i && RanAt(run, acts, j, r.req, r.outcome)
  {
    j := i - 1;
    assert Leads(run[j], acts[j], run[i]);
    if r in run[j].log {
      j := LoggedRan(run, acts, j, r);
    } else {
      ExecuteLogs(run[j], acts[j].req, acts[j].leaves, r);
    }
  }

  /** Whatever a call's future holds, value or error, is what calling the method
      locally at the addressee gave at some earlier moment of the run at which
      the addressee executed this very request. */
  lemma FutureHoldsInvocation(run: seq<System>, acts: seq<Action>, i: nat, id: CallId)
    requires IsRun(run, acts) && i < |run| && id in run[i].calls && FutureOf(run[i], id).Some?
    ensures exists j :: 0 <= j < i && RanAt(run, acts, j, run[i].calls[id].req, FutureOf(run[i], id).value)
  {
    RunKeeps(run, acts, i);
    var s, c := run[i], run[i].calls[id];
    assert SlotOk(s, id, c) && EntryOk(s, id.caller, c.slot, s.nodes[id.caller].ledger.entries[c.slot]);
    var j := LoggedRan(run, acts, i, Ran(c.req.to, c.req, FutureOf(s, id).value));
  }

  /** The text of a returned value: of a string, the string itself. */
  ghost predicate Shows(text: string, v: GoValue) {
    && (v.Nil? ==> text == "")
    && (v.Text? ==> text == v.text)
    && (v.Object? ==> text == v.json)
  }

  /** A call that comes back with a value brings the text of what the addressed
      node's handler returned when it ran on the packet id and arguments of
      this very request. However often messages are lost, delayed or answered
      twice, the request runs at most once per send attempt, hence at most
      twice. */
  lemma RelayCorrelation(run: seq<System>, acts: seq<Action>, i: nat, id: CallId)
    requires IsRun(run, acts) && i < |run| && id in run[i].calls
    ensures var s := run[i];
            var c := s.calls[id];
            && c.req.from == id.caller && c.req.uid == id.uid
            && Runs(s.log, c.req) <= c.attempts <= 2
            && (c.phase.Back? && c.phase.outcome.Value? ==>
                  exists j, v :: 0 <= j < i && ReturnedAt(run, acts, j, c.req, v) && Shows(c.phase.outcome.text, v))
  {
    RunKeeps(run, acts, i);
    var c := run[i].calls[id];
    assert CallOk(run[i], id, c);
    if c.phase.Back? && c.phase.outcome.Value? {
      var j := LoggedRan(run, acts, i, Ran(c.req.to, c.req, c.phase.outcome));
      var v := ValueWasReturned(run, acts, j, c.req, c.phase.outcome);
      assert ReturnedAt(run, acts, j, c.req, v);
    }
  }

  /** Step j executes the request at its addressee, where a handler is
      registered for its packet id and returns v on its arguments. */
  ghost predicate ReturnedAt(run: seq<System>, acts: seq<Action>, j: int, req: RpcRequest, v: GoValue)
    requires |run| == |acts| + 1
  {
    && 0 <= j < |acts| && acts[j].Execute? && acts[j].req == req && req.to in run[j].nodes
    && var handlers := run[j].nodes[req.to].handlers;
       req.packetId in handlers && handlers[req.packetId](RawArgs(req.args)) == Returned(v)
  }

  lemma ValueWasReturned(run: seq<System>, acts: seq<Action>, j: nat, req: RpcRequest, o: Outcome) returns (v: GoValue)
    requires |run| == |acts| + 1 && RanAt(run, acts, j, req, o) && o.Value?
    ensures ReturnedAt(run, acts, j, req, v) && Shows(o.text, v)
  {
    v := run[j].nodes[req.to].handlers[req.packetId](RawArgs(req.args)).value;
  }

  /** Nothing runs anywhere but at its addressee, and only what some other
      process asked for. */
  lemma OnlyAskedForRuns(run: seq<System>, acts: seq<Action>, i: nat, r: Ran)
    requires IsRun(run, acts) && i < |run| && r in run[i].log
    ensures r.node == r.req.to && r.node != r.req.from
    ensures IdOf(r.req) in run[i].calls && run[i].calls[IdOf(r.req)].req == r.req
  {
    RunKeeps(run, acts, i);
    assert CallOk(run[i], IdOf(r.req), run[i].calls[IdOf(r.req)]);
  }

  /** A closed future stays as it is, whatever answer arrives. */
  lemma ReceiveKeepsDone(s: System, m: Msg, id: CallId)
    requires SlotsOk(s) && m.Answer? && m.caller in s.nodes && LedgerOk(s.nodes[m.caller].ledger)
    requires id in s.calls && FutureOf(s, id).Some?
    ensures FutureOf(ReceiveStep(s, m), id) == FutureOf(s, id)
  {
    assert SlotOk(s, id, s.calls[id]);
  }

  lemma BeginKeepsDone(s: System, req: RpcRequest, clock: int, id: CallId)
    requires SlotsOk(s) && req.from in s.nodes && IdOf(req) !in s.calls && id in s.calls && FutureOf(s, id).Some?
    ensures FutureOf(BeginStep(s, req, clock), id) == FutureOf(s, id)
  {
    assert SlotOk(s, id, s.calls[id]);
  }

  lemma LedgersStay(s: System, x: Action)
    requires Enabled(s, x) && !x.Begin? && !x.Receive?
    ensures SameLedgers(s, Step(s, x))
  {
  }

  lemma SlotsStay(s: System, x: Action, id: CallId)
    requires Enabled(s, x) && UidIsNew(s, x) && id in s.calls
    ensures id in Step(s, x).calls && Step(s, x).calls[id].slot == s.calls[id].slot
  {
  }

  lemma FutureIsFinal(s: System, x: Action, id: CallId)
    requires SlotsOk(s) && LedgersOk(s) && Enabled(s, x) && UidIsNew(s, x) && id in s.calls && FutureOf(s, id).Some?
    ensures id in Step(s, x).calls && FutureOf(Step(s, x), id) == FutureOf(s, id)
  {
    if x.Begin? {
      BeginKeepsDone(s, x.req, x.clock, id);
    } else if x.Receive? {
      ReceiveKeepsDone(s, x.m, id);
    } else {
      LedgersStay(s, x);
      SlotsStay(s, x, id);
    }
  }

  /** One step never changes what a call came back with. */
  lemma ReturnIsFinal(s: System, x: Action, id: CallId)
    requires Enabled(s, x) && UidIsNew(s, x) && id in s.calls
    ensures id in Step(s, x).calls && Step(s, x).calls[id].req == s.calls[id].req
    ensures s.calls[id].phase.Back? ==> Step(s, x).calls[id].phase == s.calls[id].phase
  {
  }

  /** From one moment to a later one the call is the same call, and what it came
      back with and what its future holds are as they were. */
  ghost predicate Settled(s: System, s': System, id: CallId)
    requires id in s.calls
  {
    && id in s'.calls && s'.calls[id].req == s.calls[id].req
    && (s.calls[id].phase.Back? ==> s'.calls[id].phase == s.calls[id].phase)
    && (FutureOf(s, id).Some? ==> FutureOf(s', id) == FutureOf(s, id))
  }

  lemma StepSettles(s: System, x: Action, id: CallId)
    requires Inv(s) && Enabled(s, x) && UidIsNew(s, x) && id in s.calls
    ensures Settled(s, Step(s, x), id)
  {
    ReturnIsFinal(s, x, id);
    if FutureOf(s, id).Some? {
      FutureIsFinal(s, x, id);
    }
  }

  lemma RunSettles(run: seq<System>, acts: seq<Action>, j: nat, id: CallId)
    requires IsRun(run, acts) && j < |acts| && id in run[j].calls
    ensures Settled(run[j], run[j + 1], id)
  {
    RunKeeps(run, acts, j);
    RunUidIsNew(run, acts, j);
    assert Leads(run[j], acts[j], run[j + 1]);
    StepSettles(run[j], acts[j], id);
  }

  /** A call completes at most once. */
  lemma {:induction false} CallCompletesOnce(run: seq<System>, acts: seq<Action>, i: nat, j: nat, id: CallId)
    requires IsRun(run, acts) && i <= j < |run| && id in run[i].calls
    ensures Settled(run[i], run[j], id)
    decreases j
  {
    if i < j {
      CallCompletesOnce(run, acts, i, j - 1, id);
      RunSettles(run, acts, j - 1, id);
    }
  }

  lemma CallBegins(req: RpcRequest, handlers: Handlers) returns (s0: System, s1: System)
    requires req.from != req.to && req.uid == UidOf(0, 1)
    ensures Initial(s0) && Leads(s0, Begin(req, 0), s1)
    ensures IdOf(req) in s1.calls && s1.calls[IdOf(req)].req == req && s1.calls[IdOf(req)].phase == Sending
    ensures s1.atServer == multiset{} && s1.toNode == multiset{} && s1.log == []
    ensures req.to in s1.nodes && s1.nodes[req.to].handlers == handlers
  {
    var nodes := map[req.from := Node(0, EMPTY_LEDGER, map[]), req.to := Node(0, EMPTY_LEDGER, handlers)];
    s0 := System(nodes, map[], multiset{}, multiset{}, []);
    s1 := BeginStep(s0, req, 0);
  }

  /** The first send reports an error after its frame has left. */
  lemma RetrySendsTwice(req: RpcRequest, handlers: Handlers, error: string) returns (run: seq<System>, acts: seq<Action>)
    requires req.from != req.to && req.uid == UidOf(0, 1)
    ensures IsRun(run, acts) && |acts| == 3 && SentBy(run[3], req)
    ensures run[3].atServer == multiset{Ask(req), Ask(req)} && run[3].toNode == multiset{} && run[3].log == []
    ensures req.to in run[3].nodes && run[3].nodes[req.to].handlers == handlers
  {
    var id := IdOf(req);
    var s0, s1 := CallBegins(req, handlers);
    var s2 := SendStep(s1, id, Some(error), true);
    var s3 := SendStep(s2, id, None, true);
    run := [s0, s1, s2, s3];
    acts := [Begin(req, 0), Send(id, Some(error), true), Send(id, None, true)];
    assert Leads(s1, acts[1], s2) && Leads(s2, acts[2], s3);
  }

  lemma JoinPaths(p: seq<System>, a: seq<Action>, q: seq<System>, b: seq<Action>)
    requires IsPath(p, a) && IsPath(q, b) && p[|a|] == q[0]
    ensures IsPath(p + q[1..], a + b) && (p + q[1..])[|a + b|] == q[|b|]
  {
    var r, c := p + q[1..], a + b;
    forall i | 0 <= i < |c| ensures Leads(r[i], c[i], r[i + 1]) {
      if i < |a| {
        assert Leads(p[i], a[i], p[i + 1]);
      } else {
        assert Leads(q[i - |a|], b[i - |a|], q[i - |a| + 1]);
      }
    }
  }

  lemma TwoForwards(s: System, req: RpcRequest) returns (path: seq<System>, acts: seq<Action>)
    requires s.atServer == multiset{Ask(req), Ask(req)} && s.toNode == multiset{} && req.to != ""
    ensures IsPath(path, acts) && path[0] == s
    ensures path[|acts|] == s.(atServer := multiset{}, toNode := multiset{Ask(req), Ask(req)})
  {
    var s1 := Step(s, Forward(Ask(req)));
    path, acts := [s, s1, Step(s1, Forward(Ask(req)))], [Forward(Ask(req)), Forward(Ask(req))];
  }

  lemma TwoExecutions(s: System, req: RpcRequest) returns (path: seq<System>, acts: seq<Action>)
    requires s.toNode == multiset{Ask(req), Ask(req)} && s.log == [] && req.to in s.nodes
    ensures IsPath(path, acts) && path[0] == s
    ensures path[|acts|].calls == s.calls
    ensures path[|acts|].log == [Ran(req.to, req, LocalOutcome(s, req)), Ran(req.to, req, LocalOutcome(s, req))]
  {
    var execute := Execute(req, false);
    var s1 := Step(s, execute);
    ResponseCarriesOutcome(req, Invoked(s.nodes[req.to].handlers, req.packetId, RawArgs(req.args)));
    path, acts := [s, s1, Step(s1, execute)], [execute, execute];
  }

  /** The bound is met: a first send that fails after its frame has left, then a
      good second send, and the request runs twice, whatever its handlers do. */
  lemma RetryCanRunTwice(req: RpcRequest, handlers: Handlers, error: string) returns (run: seq<System>, acts: seq<Action>)
    requires req.from != req.to && req.to != "" && req.uid == UidOf(0, 1)
    ensures IsRun(run, acts) && SentBy(run[|acts|], req)
    ensures var o := InvokeLocal(handlers, req.packetId, RawArgs(req.args));
            run[|acts|].log == [Ran(req.to, req, o), Ran(req.to, req, o)] && Runs(run[|acts|].log, req) == 2
  {
    var p1, a1 := RetrySendsTwice(req, handlers, error);
    var p2, a2 := TwoForwards(p1[3], req);
    JoinPaths(p1, a1, p2, a2);
    var p12 := p1 + p2[1..];
    var p3, a3 := TwoExecutions(p12[|a1 + a2|], req);
    JoinPaths(p12, a1 + a2, p3, a3);
    run, acts := p12 + p3[1..], a1 + a2 + a3;
    var r := Ran(req.to, req, InvokeLocal(handlers, req.packetId, RawArgs(req.args)));
    RunsSnoc([], r, req);
    RunsSnoc([r], r, req);
    assert [] + [r] == [r] && [r] + [r] == [r, r];
  }
}
