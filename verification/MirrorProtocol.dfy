/** Server, connections and clients together: how every client's route table
    follows the registry (internal/VirtualRouterServer/server.go and
    session_manager.go, internal/VirtualRouterClient/client.go).

    One step is one critical section of the source. A heartbeat is three
    steps: admit, take the snapshot of the registry, write the reply; a
    removal is two: delete, then broadcast. */
module MirrorProtocol {
  import opened Basics
  import opened SessionRegistry
  import opened RouteTable

  /** What the server writes to a connection. */
  datatype Notice = Reply(nodes: seq<RouteNode>) | Removed(ids: set<RouteId>) | Conflict

  /** Where the connection's handler stands. */
  datatype Stage =
    | Idle
    | Admitted
    | Answering(list: seq<RouteNode>, spoiled: set<RouteId>)
    | Gone

  /** A connection with the queue of notices under way to the client and the
      client's table, which is taken over from the client's last connection when
      the new one is made. `open` is false once either side has closed. `stale`
      names the ids whose mirror entry may be out of date: what the table held
      when the connection was made, and what a late reply put back. `spoiled`
      names the ids whose removal was broadcast since the snapshot was taken. */
  datatype Conn = Conn(
    open: bool,
    lastId: RouteId,
    stage: Stage,
    queue: seq<Notice>,
    table: Table,
    stale: set<RouteId>)

  datatype State = State(
    sessions: Registry,
    pending: seq<set<RouteId>>,
    conns: map<ConnId, Conn>)

  datatype Action =
    | Connect(c: ConnId, table: Table)
    | Touch(c: ConnId, id: RouteId)
    | Beat(c: ConnId, id: RouteId, host: string, port: int, now: int)
    | Snapshot(c: ConnId, list: seq<RouteNode>)
    | WriteReply(c: ConnId)
    | Break(c: ConnId)
    | Teardown(c: ConnId)
    | RemoveIds(ids: set<RouteId>)
    | Broadcast(i: nat)
    | Deliver(c: ConnId)
    | Lookup(c: ConnId, local: RouteId, id: RouteId)

  const INIT := State(map[], [], map[])

  // ---------------------------------------------------------------------
  // The client's side

  function ApplyNotice(t: Table, n: Notice): Table {
    match n
    case Reply(ns) => UpsertNodes(t, ns)
    case Removed(ids) => RemoveNodes(t, ids)
    case Conflict => t
  }

  function ApplyToNodes(nodes: map<RouteId, RouteNode>, n: Notice): map<RouteId, RouteNode> {
    match n
    case Reply(ns) => PutAll(nodes, ns)
    case Removed(ids) => nodes - ids
    case Conflict => nodes
  }

  function Drain(nodes: map<RouteId, RouteNode>, queue: seq<Notice>): map<RouteId, RouteNode> {
    if queue == [] then nodes else ApplyToNodes(Drain(nodes, queue[..|queue| - 1]), queue[|queue| - 1])
  }

  /** The client's node map once everything under way has arrived. */
  function Mirror(k: Conn): map<RouteId, RouteNode> {
    Drain(k.table.nodes, k.queue)
  }

  // ---------------------------------------------------------------------
  // The steps

  function Owners(m: Registry): set<ConnId> {
    set r | r in m :: m[r].conn
  }

  function OwnersOf(m: Registry, ids: set<RouteId>): set<ConnId> {
    set r | r in m && r in ids :: m[r].conn
  }

  function Named(k: Conn, id: RouteId): Conn {
    if id != "" then k.(lastId := id) else k
  }

  function Write(k: Conn, n: Notice): Conn {
    if k.open then k.(queue := k.queue + [n]) else k
  }

  function Cut(conns: map<ConnId, Conn>, gone: set<ConnId>): map<ConnId, Conn> {
    map c | c in conns :: if c in gone then conns[c].(open := false) else conns[c]
  }

  /** RemoveSessions up to the broadcast: delete, close, remember the batch. */
  function Delete(s: State, ids: set<RouteId>): State {
    var removed := ids * s.sessions.Keys;
    if removed == {} then s
    else State(Remove(s.sessions, removed), s.pending + [removed], Cut(s.conns, OwnersOf(s.sessions, removed)))
  }

  function Notified(k: Conn, alive: bool, batch: set<RouteId>): Conn {
    var k1 := if alive && k.open then Write(k, Removed(batch)).(stale := k.stale - batch) else k;
    if k.stage.Answering? then k1.(stage := Answering(k.stage.list, k.stage.spoiled + batch)) else k1
  }

  function IdsOf(list: seq<RouteNode>): set<RouteId> {
    set n | n in list :: n.id
  }

  function Replied(k: Conn): Conn
    requires k.stage.Answering?
  {
    var ids := IdsOf(k.stage.list);
    if k.open then
      Write(k, Reply(k.stage.list)).(stage := Idle, stale := (k.stale - ids) + ids * k.stage.spoiled)
    else k.(stage := Idle)
  }

  function BeatStep(s: State, c: ConnId, offer: Session, now: int): State
    requires c in s.conns
  {
    var k := Named(s.conns[c], offer.id);
    match Admit(s.sessions, offer)
    case Refused => s.(conns := s.conns[c := Write(k, Conflict).(open := false)])
    case _ => s.(sessions := Upsert(s.sessions, offer, now), conns := s.conns[c := k.(stage := Admitted)])
  }

  function TeardownStep(s: State, c: ConnId): State
    requires c in s.conns
  {
    var id := s.conns[c].lastId;
    var s1 := if id != "" then Delete(s, {id}) else s;
    s1.(conns := s1.conns[c := s1.conns[c].(open := false, stage := Gone)])
  }

  function BroadcastStep(s: State, i: nat): State
    requires i < |s.pending|
  {
    var alive := Owners(s.sessions);
    s.(pending := s.pending[..i] + s.pending[i + 1..],
       conns := map c | c in s.conns :: Notified(s.conns[c], c in alive, s.pending[i]))
  }

  ghost predicate Enabled(s: State, a: Action) {
    match a
    case Connect(c, t) => c !in s.conns && CacheAgrees(t) && NodesKeyed(t)
    case Touch(c, _) => c in s.conns && s.conns[c].stage.Idle?
    case Beat(c, _, _, _, _) => c in s.conns && s.conns[c].stage.Idle?
    case Snapshot(c, list) => c in s.conns && s.conns[c].stage.Admitted? && IsListing(s.sessions, list)
    case WriteReply(c) => c in s.conns && s.conns[c].stage.Answering?
    case Break(c) => c in s.conns
    case Teardown(c) => c in s.conns && s.conns[c].stage.Idle?
    case RemoveIds(_) => true
    case Broadcast(i) => i < |s.pending|
    case Deliver(c) => c in s.conns && s.conns[c].queue != []
    case Lookup(c, _, _) => c in s.conns
  }

  ghost function Step(s: State, a: Action): State
    requires Enabled(s, a)
  {
    match a
    case Connect(c, t) => s.(conns := s.conns[c := Conn(true, "", Idle, [], t, t.nodes.Keys)])
    case Touch(c, id) => s.(conns := s.conns[c := Named(s.conns[c], id)])
    case Beat(c, id, host, port, now) => BeatStep(s, c, Session(id, c, host, port, now), now)
    case Snapshot(c, list) => s.(conns := s.conns[c := s.conns[c].(stage := Answering(list, {}))])
    case WriteReply(c) => s.(conns := s.conns[c := Replied(s.conns[c])])
    case Break(c) => s.(conns := s.conns[c := s.conns[c].(open := false)])
    case Teardown(c) => TeardownStep(s, c)
    case RemoveIds(ids) => Delete(s, ids)
    case Broadcast(i) => BroadcastStep(s, i)
    case Deliver(c) =>
      var k := s.conns[c];
      s.(conns := s.conns[c := k.(table := ApplyNotice(k.table, k.queue[0]), queue := k.queue[1..])])
    case Lookup(c, local, id) =>
      var k := s.conns[c];
      s.(conns := s.conns[c := k.(table := AfterLookup(k.table, local, id))])
  }

  ghost predicate IsPath(path: seq<State>, acts: seq<Action>) {
    && |path| == |acts| + 1
    && forall i :: 0 <= i < |acts| ==> Enabled(path[i], acts[i]) && path[i + 1] == Step(path[i], acts[i])
  }

  ghost predicate IsRun(run: seq<State>, acts: seq<Action>) {
    IsPath(run, acts) && run[0] == INIT
  }

  // ---------------------------------------------------------------------
  // The invariant

  ghost predicate InPending(s: State, id: RouteId) {
    exists i :: 0 <= i < |s.pending| && id in s.pending[i]
  }

  /** The entry is what the server has, or its removal is still to be told. */
  ghost predicate Current(s: State, id: RouteId, n: RouteNode) {
    InPending(s, id) || (id in s.sessions && NodeOf(s.sessions[id]) == n)
  }

  ghost predicate MirrorFollows(s: State, c: ConnId, k: Conn) {
    forall id :: id in Mirror(k) ==> id in k.stale || (c in Owners(s.sessions) && Current(s, id, Mirror(k)[id]))
  }

  ghost predicate AnswerFollows(s: State, c: ConnId, k: Conn) {
    && (k.stage.Admitted? || k.stage.Answering? ==> c in Owners(s.sessions))
    && (k.stage.Answering? ==> forall n :: n in k.stage.list ==> n.id in k.stage.spoiled || Current(s, n.id, n))
  }

  ghost predicate ConnOk(s: State, c: ConnId, k: Conn) {
    && CacheAgrees(k.table) && NodesKeyed(k.table)
    && (k.stage.Answering? ==> OnePerId(k.stage.list))
    && (k.open ==> MirrorFollows(s, c, k) && AnswerFollows(s, c, k))
  }

  ghost predicate Inv(s: State) {
    && WellKeyed(s.sessions)
    && forall c :: c in s.conns ==> ConnOk(s, c, s.conns[c])
  }

  // ---------------------------------------------------------------------
  // Queues

  lemma DrainSnoc(nodes: map<RouteId, RouteNode>, queue: seq<Notice>, n: Notice)
    ensures Drain(nodes, queue + [n]) == ApplyToNodes(Drain(nodes, queue), n)
  {
    assert (queue + [n])[..|queue|] == queue;
  }

  lemma {:induction false} DrainCons(nodes: map<RouteId, RouteNode>, queue: seq<Notice>)
    requires queue != []
    ensures Drain(nodes, queue) == Drain(ApplyToNodes(nodes, queue[0]), queue[1..])
    decreases |queue|
  {
    if |queue| == 1 {
      assert queue[..0] == [] && queue[1..] == [];
    } else {
      var init := queue[..|queue| - 1];
      DrainCons(nodes, init);
      assert queue[1..][..|queue| - 2] == init[1..];
    }
  }

  lemma NoticeOnNodes(t: Table, n: Notice)
    ensures ApplyNotice(t, n).nodes == ApplyToNodes(t.nodes, n)
  {
    if n.Reply? {
      UpsertNodesIsPutAll(t, n.nodes);
    }
  }

  /** Delivery moves a notice from the queue to the table and changes nothing else. */
  lemma DeliverKeepsMirror(k: Conn)
    requires k.queue != []
    ensures Mirror(k.(table := ApplyNotice(k.table, k.queue[0]), queue := k.queue[1..])) == Mirror(k)
  {
    NoticeOnNodes(k.table, k.queue[0]);
    DrainCons(k.table.nodes, k.queue);
  }

  lemma NoticeKeepsCache(t: Table, n: Notice)
    requires CacheAgrees(t) && NodesKeyed(t)
    ensures CacheAgrees(ApplyNotice(t, n)) && NodesKeyed(ApplyNotice(t, n))
  {
    if n.Reply? {
      UpsertKeepsCache(t, n.nodes);
    }
  }

  // ---------------------------------------------------------------------
  // What each step keeps

  /** A connection that is left alone, or only closed or renamed, stays right
      when the registry moves on without forgetting anything. */
  lemma ConnKept(s: State, s': State, c: ConnId, k: Conn, k': Conn)
    requires ConnOk(s, c, k)
    requires k'.table == k.table && k'.stage == k.stage
    requires k'.open ==> k.open && k'.queue == k.queue && k'.stale == k.stale
    requires k'.open && c in Owners(s.sessions) ==> c in Owners(s'.sessions)
    requires forall id, n :: Current(s, id, n) ==> Current(s', id, n)
    ensures ConnOk(s', c, k')
  {
  }

  /** The registry never changes a live session's node. */
  lemma UpsertKeepsCurrent(s: State, offer: Session, now: int, s': State)
    requires s'.sessions == Upsert(s.sessions, offer, now) && s'.pending == s.pending
    ensures forall id, n :: Current(s, id, n) ==> Current(s', id, n)
    ensures Owners(s.sessions) <= Owners(s'.sessions)
  {
    forall c | c in Owners(s.sessions) ensures c in Owners(s'.sessions) {
      var r :| r in s.sessions && s.sessions[r].conn == c;
      assert r in s'.sessions && s'.sessions[r].conn == c;
    }
    forall id, n | Current(s, id, n) ensures Current(s', id, n) {
      if InPending(s, id) {
        assert InPending(s', id);
      }
    }
  }

  lemma AdmittedOwns(m: Registry, offer: Session, now: int)
    requires Admit(m, offer) != Refused
    ensures offer.conn in Owners(Upsert(m, offer, now))
  {
    assert Upsert(m, offer, now)[offer.id].conn == offer.conn;
  }

  lemma BeatKeeps(s: State, c: ConnId, offer: Session, now: int)
    requires Inv(s) && c in s.conns && s.conns[c].stage.Idle? && offer.conn == c
    ensures Inv(BeatStep(s, c, offer, now))
  {
    var s' := BeatStep(s, c, offer, now);
    UpsertKeepsCurrent(s, offer, now, s');
    if Admit(s.sessions, offer) != Refused {
      AdmittedOwns(s.sessions, offer, now);
    }
    forall d | d in s'.conns ensures ConnOk(s', d, s'.conns[d]) {
      var k := s.conns[d];
      if d != c {
        ConnKept(s, s', d, k, k);
      } else if Admit(s.sessions, offer) != Refused {
        ConnKept(s, s', c, k, Named(k, offer.id));
      }
    }
  }

  lemma DeleteKeepsCurrent(s: State, ids: set<RouteId>)
    ensures var s' := Delete(s, ids); forall id, n :: Current(s, id, n) ==> Current(s', id, n)
  {
    var s' := Delete(s, ids);
    var removed := ids * s.sessions.Keys;
    if removed != {} {
      forall id, n | Current(s, id, n) ensures Current(s', id, n) {
        if InPending(s, id) {
          var i :| 0 <= i < |s.pending| && id in s.pending[i];
          assert s'.pending[i] == s.pending[i];
        } else if id in removed {
          assert s'.pending[|s.pending|] == removed;
        }
      }
    }
  }

  lemma DeleteKeepsOpenOwners(s: State, ids: set<RouteId>, c: ConnId)
    requires c in s.conns && c in Owners(s.sessions) && Delete(s, ids).conns[c].open
    ensures c in Owners(Delete(s, ids).sessions)
  {
    var r :| r in s.sessions && s.sessions[r].conn == c;
    var removed := ids * s.sessions.Keys;
    if r in removed {
      assert c in OwnersOf(s.sessions, removed);
    }
    assert r in Delete(s, ids).sessions;
  }

  /** What a deletion does, told from outside: it closes exactly the owners'
      connections, and every id deleted is waiting to be broadcast. */
  ghost predicate Deleted(s: State, ids: set<RouteId>, s': State) {
    && s'.conns.Keys == s.conns.Keys
    && s'.pending == s.pending + (if ids * s.sessions.Keys == {} then [] else [ids * s.sessions.Keys])
    && (forall c :: c in s.conns ==> (s'.conns[c].open <==> s.conns[c].open && c !in OwnersOf(s.sessions, ids)))
    && (forall id :: id in s.sessions && id in ids ==> id !in s'.sessions && InPending(s', id))
    && (forall id :: id in s.sessions && id !in ids ==> id in s'.sessions && s'.sessions[id] == s.sessions[id])
  }

  lemma DeleteDeletes(s: State, ids: set<RouteId>)
    ensures Deleted(s, ids, Delete(s, ids))
  {
    var s', removed := Delete(s, ids), ids * s.sessions.Keys;
    assert OwnersOf(s.sessions, ids) == OwnersOf(s.sessions, removed);
    forall id | id in s.sessions && id in ids ensures id !in s'.sessions && InPending(s', id) {
      assert id in removed;
      assert s'.pending[|s.pending|] == removed;
    }
  }

  lemma DeleteKeeps(s: State, ids: set<RouteId>)
    requires Inv(s)
    ensures Inv(Delete(s, ids)) && Deleted(s, ids, Delete(s, ids))
  {
    var s' := Delete(s, ids);
    DeleteDeletes(s, ids);
    DeleteKeepsCurrent(s, ids);
    forall c | c in s'.conns ensures ConnOk(s', c, s'.conns[c]) {
      if s'.conns[c].open && c in Owners(s.sessions) {
        DeleteKeepsOpenOwners(s, ids, c);
      }
      ConnKept(s, s', c, s.conns[c], s'.conns[c]);
    }
  }

  lemma TeardownKeeps(s: State, c: ConnId)
    requires Inv(s) && c in s.conns
    ensures Inv(TeardownStep(s, c))
  {
    var id := s.conns[c].lastId;
    DeleteKeeps(s, {id});
    var s1 := if id != "" then Delete(s, {id}) else s;
    var s' := TeardownStep(s, c);
    forall d | d in s'.conns ensures ConnOk(s', d, s'.conns[d]) {
      if d != c {
        ConnKept(s1, s', d, s1.conns[d], s1.conns[d]);
      }
    }
  }

  /** After a broadcast an id is either in the batch or as current as before. */
  lemma BroadcastKeepsOthersCurrent(s: State, i: nat, id: RouteId, n: RouteNode)
    requires i < |s.pending| && Current(s, id, n) && id !in s.pending[i]
    ensures Current(BroadcastStep(s, i), id, n)
  {
    if InPending(s, id) {
      var s' := BroadcastStep(s, i);
      var j :| 0 <= j < |s.pending| && id in s.pending[j];
      assert s'.pending[if j < i then j else j - 1] == s.pending[j];
    }
  }

  lemma BroadcastKeepsConn(s: State, i: nat, c: ConnId)
    requires Inv(s) && i < |s.pending| && c in s.conns
    ensures var s' := BroadcastStep(s, i); ConnOk(s', c, s'.conns[c])
  {
    var s', k, batch := BroadcastStep(s, i), s.conns[c], s.pending[i];
    var k' := s'.conns[c];
    if k'.open {
      if c in Owners(s.sessions) {
        DrainSnoc(k.table.nodes, k.queue, Removed(batch));
      }
      forall id | id in Mirror(k') ensures id in k'.stale || (c in Owners(s'.sessions) && Current(s', id, Mirror(k')[id])) {
        if id !in k'.stale {
          BroadcastKeepsOthersCurrent(s, i, id, Mirror(k')[id]);
        }
      }
      if k'.stage.Answering? {
        forall n | n in k'.stage.list ensures n.id in k'.stage.spoiled || Current(s', n.id, n) {
          if n.id !in k'.stage.spoiled {
            BroadcastKeepsOthersCurrent(s, i, n.id, n);
          }
        }
      }
    }
  }

  /** A broadcast takes its ids out of the drained table of every open
      connection that owns a session, and leaves all other mirrors alone. */
  ghost predicate Announced(s: State, i: nat, s': State)
    requires i < |s.pending|
  {
    var batch := s.pending[i];
    && s'.sessions == s.sessions && s'.conns.Keys == s.conns.Keys
    && s'.pending == s.pending[..i] + s.pending[i + 1..]
    && forall c :: c in s.conns ==>
         Mirror(s'.conns[c]) == Mirror(s.conns[c]) - (if c in Owners(s.sessions) && s.conns[c].open then batch else {})
  }

  lemma NotifiedMirror(k: Conn, alive: bool, batch: set<RouteId>)
    ensures Mirror(Notified(k, alive, batch)) == Mirror(k) - (if alive && k.open then batch else {})
  {
    DrainSnoc(k.table.nodes, k.queue, Removed(batch));
  }

  lemma BroadcastKeeps(s: State, i: nat)
    requires Inv(s) && i < |s.pending|
    ensures Inv(BroadcastStep(s, i)) && Announced(s, i, BroadcastStep(s, i))
  {
    var s' := BroadcastStep(s, i);
    forall c | c in s.conns ensures ConnOk(s', c, s'.conns[c]) {
      BroadcastKeepsConn(s, i, c);
    }
    forall c | c in s.conns {
      NotifiedMirror(s.conns[c], c in Owners(s.sessions), s.pending[i]);
    }
  }

  lemma ReplyKeepsMirror(s: State, c: ConnId, k: Conn)
    requires ConnOk(s, c, k) && k.open && k.stage.Answering?
    ensures MirrorFollows(s, c, Replied(k))
  {
    var list := k.stage.list;
    var k' := Replied(k);
    DrainSnoc(k.table.nodes, k.queue, Reply(list));
    forall id | id in Mirror(k') ensures id in k'.stale || (c in Owners(s.sessions) && Current(s, id, Mirror(k')[id])) {
      PutAllAt(Mirror(k), list, id);
      if Mentions(list, id) {
        assert Mirror(k')[id] in list;
      } else {
        assert id !in IdsOf(list);
      }
    }
  }

  /** A step that touches one connection only. */
  lemma OneConnChanged(s: State, s': State, c: ConnId)
    requires Inv(s) && s'.sessions == s.sessions && s'.pending == s.pending
    requires c in s'.conns && s'.conns == s.conns[c := s'.conns[c]]
    requires ConnOk(s, c, s'.conns[c])
    ensures Inv(s')
  {
    assert forall id, n :: Current(s, id, n) <==> Current(s', id, n) by {
      assert forall id :: InPending(s, id) <==> InPending(s', id);
    }
    ConnKept(s, s', c, s'.conns[c], s'.conns[c]);
    forall d | d in s'.conns ensures ConnOk(s', d, s'.conns[d]) {
      if d != c {
        ConnKept(s, s', d, s.conns[d], s.conns[d]);
      }
    }
  }

  lemma SnapshotKeeps(s: State, c: ConnId, list: seq<RouteNode>)
    requires Inv(s) && Enabled(s, Snapshot(c, list))
    ensures Inv(Step(s, Snapshot(c, list)))
  {
    var s' := Step(s, Snapshot(c, list));
    OneConnChanged(s, s', c);
  }

  /** A reply on an open connection brings every listed node into the drained
      table; each is up to date or its removal was broadcast since the
      snapshot, and those become stale. */
  lemma WriteReplyKeeps(s: State, c: ConnId)
    requires Inv(s) && Enabled(s, WriteReply(c))
    ensures Inv(Step(s, WriteReply(c)))
    ensures var k, k' := s.conns[c], Step(s, WriteReply(c)).conns[c];
            k.open ==> forall n :: n in k.stage.list ==>
              && n.id in Mirror(k') && Mirror(k')[n.id] == n
              && (n.id in k.stage.spoiled <==> n.id in k'.stale)
              && (n.id !in k.stage.spoiled ==> Current(s, n.id, n))
  {
    var k := s.conns[c];
    if k.open {
      ReplyKeepsMirror(s, c, k);
      DrainSnoc(k.table.nodes, k.queue, Reply(k.stage.list));
      forall n | n in k.stage.list ensures n.id in Mirror(Replied(k)) && Mirror(Replied(k))[n.id] == n {
        PutAllAt(Mirror(k), k.stage.list, n.id);
        assert Mentions(k.stage.list, n.id);
      }
    }
    OneConnChanged(s, Step(s, WriteReply(c)), c);
  }

  lemma DeliverKeeps(s: State, c: ConnId)
    requires Inv(s) && Enabled(s, Deliver(c))
    ensures Inv(Step(s, Deliver(c)))
  {
    var k := s.conns[c];
    DeliverKeepsMirror(k);
    NoticeKeepsCache(k.table, k.queue[0]);
    OneConnChanged(s, Step(s, Deliver(c)), c);
  }

  lemma ClientStepKeeps(s: State, a: Action)
    requires Inv(s) && Enabled(s, a) && (a.Connect? || a.Touch? || a.Break? || a.Lookup?)
    ensures Inv(Step(s, a))
  {
    var c := a.c;
    var s' := Step(s, a);
    if !a.Connect? {
      assert Mirror(s'.conns[c]) == Mirror(s.conns[c]);
    }
    OneConnChanged(s, s', c);
  }

  lemma StepKeeps(s: State, a: Action)
    requires Inv(s) && Enabled(s, a)
    ensures Inv(Step(s, a))
  {
    match a
    case Beat(c, id, host, port, now) => BeatKeeps(s, c, Session(id, c, host, port, now), now);
    case Snapshot(c, list) => SnapshotKeeps(s, c, list);
    case WriteReply(c) => WriteReplyKeeps(s, c);
    case Teardown(c) => TeardownKeeps(s, c);
    case RemoveIds(ids) => DeleteKeeps(s, ids);
    case Broadcast(i) => BroadcastKeeps(s, i);
    case Deliver(c) => DeliverKeeps(s, c);
    case _ => ClientStepKeeps(s, a);
  }

  lemma {:induction false} RunKeeps(run: seq<State>, acts: seq<Action>, i: nat)
    requires IsRun(run, acts) && i < |run|
    ensures Inv(run[i])
  {
    if i > 0 {
      RunKeeps(run, acts, i - 1);
      StepKeeps(run[i - 1], acts[i - 1]);
    }
  }
}
