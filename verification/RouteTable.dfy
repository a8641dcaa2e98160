/** The client's mirror of the registry, with the direct RPC clients cached on
    top of it (internal/VirtualRouterClient/route_table.go). */
module RouteTable {
  import opened Basics
  import opened SessionRegistry

  /** What a direct client remembers of the node it was made for. */
  datatype DirectClient = DirectClient(local: RouteId, id: RouteId, host: string, port: int)

  datatype Table = Table(nodes: map<RouteId, RouteNode>, clients: map<RouteId, DirectClient>)

  const EMPTY_TABLE := Table(map[], map[])

  datatype LookupError = RouteNotFound

  // ---------------------------------------------------------------------
  // What each operation does to the table

  function UpsertNode(t: Table, n: RouteNode): Table {
    if n.id in t.nodes && t.nodes[n.id] == n then t
    else Table(t.nodes[n.id := n], if n.id in t.nodes then t.clients - {n.id} else t.clients)
  }

  function UpsertNodes(t: Table, ns: seq<RouteNode>): Table {
    if ns == [] then t else UpsertNode(UpsertNodes(t, ns[..|ns| - 1]), ns[|ns| - 1])
  }

  function RemoveNodes(t: Table, ids: set<RouteId>): Table {
    Table(t.nodes - ids, t.clients - ids)
  }

  function AfterLookup(t: Table, local: RouteId, id: RouteId): Table {
    if id in t.clients || id !in t.nodes then t
    else t.(clients := t.clients[id := DirectClient(local, id, t.nodes[id].host, t.nodes[id].port)])
  }

  /** Every cached client is for a known node and points where the node is. */
  ghost predicate CacheAgrees(t: Table) {
    forall id :: id in t.clients ==>
      && id in t.nodes
      && t.clients[id].id == id
      && t.clients[id].host == t.nodes[id].host
      && t.clients[id].port == t.nodes[id].port
  }

  ghost predicate NodesKeyed(t: Table) {
    forall id :: id in t.nodes ==> t.nodes[id].id == id
  }

  // ---------------------------------------------------------------------
  // The object

  class ClientRouteTable {
    const routeId: RouteId
    var nodes: map<RouteId, RouteNode>
    var clients: map<RouteId, DirectClient>

    constructor (routeId: RouteId)
      ensures View() == EMPTY_TABLE && this.routeId == routeId
    {
      this.routeId := routeId;
      nodes, clients := map[], map[];
    }

    function View(): Table
      reads this
    {
      Table(nodes, clients)
    }

    method UpsertRouteNode(list: seq<RouteNode>)
      modifies this
      ensures View() == UpsertNodes(old(View()), list)
    {
      for i := 0 to |list|
        invariant View() == UpsertNodes(old(View()), list[..i])
      {
        var node := list[i];
        assert list[..i + 1][..i] == list[..i];
        if node.id in nodes && nodes[node.id] == node {
          continue;
        }
        if node.id in nodes {
          clients := clients - {node.id};
        }
        nodes := nodes[node.id := node];
      }
      assert list[..|list|] == list;
    }

    method RemoveRouteNode(ids: seq<RouteId>)
      modifies this
      ensures View() == RemoveNodes(old(View()), Elements(ids))
      ensures forall id :: id in nodes <==> id in old(nodes) && id !in ids
      ensures forall id :: id in clients <==> id in old(clients) && id !in ids
      ensures forall id :: id in nodes ==> nodes[id] == old(nodes)[id]
      ensures forall id :: id in clients ==> clients[id] == old(clients)[id]
    {
      for i := 0 to |ids|
        invariant nodes == old(nodes) - Elements(ids[..i])
        invariant clients == old(clients) - Elements(ids[..i])
      {
        assert ids[..i + 1] == ids[..i] + [ids[i]];
        nodes := nodes - {ids[i]};
        if ids[i] in clients {
          clients := clients - {ids[i]};
        }
      }
      assert ids[..|ids|] == ids;
    }

    method GetOrCreateRpcClient(id: RouteId) returns (r: Result<DirectClient, LookupError>)
      modifies this`clients
      ensures View() == AfterLookup(old(View()), routeId, id)
      ensures r.Err? <==> id !in old(clients) && id !in nodes
      ensures r.Ok? ==> id in clients && r.value == clients[id]
      ensures id in old(clients) ==> clients == old(clients)
      ensures id !in old(clients) && id in nodes ==>
                clients == old(clients)[id := DirectClient(routeId, id, nodes[id].host, nodes[id].port)]
    {
      if id in clients {
        return Ok(clients[id]);
      }
      if id !in nodes {
        return Err(RouteNotFound);
      }
      var client := DirectClient(routeId, id, nodes[id].host, nodes[id].port);
      clients := clients[id := client];
      r := Ok(client);
    }
  }

  // ---------------------------------------------------------------------
  // What a list does to the node map

  ghost predicate Mentions(ns: seq<RouteNode>, id: RouteId) {
    exists n :: n in ns && n.id == id
  }

  ghost predicate OnePerId(ns: seq<RouteNode>) {
    forall a, b :: a in ns && b in ns && a.id == b.id ==> a == b
  }

  /** The node map alone after a list. */
  function PutAll(nodes: map<RouteId, RouteNode>, ns: seq<RouteNode>): map<RouteId, RouteNode> {
    if ns == [] then nodes
    else PutAll(nodes, ns[..|ns| - 1])[ns[|ns| - 1].id := ns[|ns| - 1]]
  }

  lemma {:induction false} UpsertNodesIsPutAll(t: Table, ns: seq<RouteNode>)
    ensures UpsertNodes(t, ns).nodes == PutAll(t.nodes, ns)
  {
    if ns != [] {
      UpsertNodesIsPutAll(t, ns[..|ns| - 1]);
    }
  }

  /** A list overwrites exactly the ids it mentions... */
  lemma {:induction false} PutAllAt(nodes: map<RouteId, RouteNode>, ns: seq<RouteNode>, id: RouteId)
    ensures var u := PutAll(nodes, ns);
            if Mentions(ns, id) then id in u && u[id] in ns && u[id].id == id
            else (id in u <==> id in nodes) && (id in u ==> u[id] == nodes[id])
  {
    if ns != [] {
      var init, last := ns[..|ns| - 1], ns[|ns| - 1];
      assert ns == init + [last];
      PutAllAt(nodes, init, id);
      assert Mentions(init, id) ==> Mentions(ns, id);
    }
  }

  /** ... and where an id is listed twice, the last node counts. */
  lemma {:induction false} LastOneCounts(nodes: map<RouteId, RouteNode>, ns: seq<RouteNode>, i: nat)
    requires i < |ns| && forall j :: i < j < |ns| ==> ns[j].id != ns[i].id
    ensures ns[i].id in PutAll(nodes, ns) && PutAll(nodes, ns)[ns[i].id] == ns[i]
  {
    if i < |ns| - 1 {
      LastOneCounts(nodes, ns[..|ns| - 1], i);
    }
  }

  // ---------------------------------------------------------------------
  // The cache follows the nodes

  lemma {:induction false} UpsertKeepsCache(t: Table, ns: seq<RouteNode>)
    requires CacheAgrees(t) && NodesKeyed(t)
    ensures CacheAgrees(UpsertNodes(t, ns)) && NodesKeyed(UpsertNodes(t, ns))
  {
    if ns != [] {
      UpsertKeepsCache(t, ns[..|ns| - 1]);
    }
  }

  /** A cached client is kept exactly as long as every list that names its node
      says what is already known; it is never replaced. */
  lemma {:induction false} ClientKeptExactly(t: Table, ns: seq<RouteNode>, id: RouteId)
    requires CacheAgrees(t) && id in t.clients
    ensures var u := UpsertNodes(t, ns);
            && (id in u.clients <==> forall n :: n in ns && n.id == id ==> n == t.nodes[id])
            && (id in u.clients ==> u.clients[id] == t.clients[id] && id in u.nodes && u.nodes[id] == t.nodes[id])
  {
    if ns != [] {
      var init, last := ns[..|ns| - 1], ns[|ns| - 1];
      assert ns == init + [last];
      ClientKeptExactly(t, init, id);
      UpsertNodesIsPutAll(t, init);
      PutAllAt(t.nodes, init, id);
      NoNewClients(t, init);
    }
  }

  lemma {:induction false} NoNewClients(t: Table, ns: seq<RouteNode>)
    ensures UpsertNodes(t, ns).clients.Keys <= t.clients.Keys
  {
    if ns != [] {
      NoNewClients(t, ns[..|ns| - 1]);
    }
  }

  datatype TableAction = Upserts(nodes: seq<RouteNode>) | Removes(ids: set<RouteId>) | Looks(id: RouteId)

  function TableStep(t: Table, local: RouteId, a: TableAction): Table {
    match a
    case Upserts(ns) => UpsertNodes(t, ns)
    case Removes(ids) => RemoveNodes(t, ids)
    case Looks(id) => AfterLookup(t, local, id)
  }

  function TableAfter(local: RouteId, acts: seq<TableAction>): Table {
    if acts == [] then EMPTY_TABLE
    else TableStep(TableAfter(local, acts[..|acts| - 1]), local, acts[|acts| - 1])
  }

  /** Every cached client was made for this client's own id. */
  ghost predicate LocalClients(t: Table, local: RouteId) {
    forall id :: id in t.clients ==> t.clients[id].local == local
  }

  lemma {:induction false} UpsertKeepsLocal(t: Table, ns: seq<RouteNode>, local: RouteId)
    requires LocalClients(t, local)
    ensures LocalClients(UpsertNodes(t, ns), local)
  {
    if ns != [] {
      UpsertKeepsLocal(t, ns[..|ns| - 1], local);
    }
  }

  /** Cache coherence in every reachable table. */
  lemma {:induction false} CacheCoherence(local: RouteId, acts: seq<TableAction>)
    ensures CacheAgrees(TableAfter(local, acts)) && NodesKeyed(TableAfter(local, acts))
    ensures LocalClients(TableAfter(local, acts), local)
  {
    if acts != [] {
      var before := TableAfter(local, acts[..|acts| - 1]);
      CacheCoherence(local, acts[..|acts| - 1]);
      match acts[|acts| - 1]
      case Upserts(ns) =>
        UpsertKeepsCache(before, ns);
        UpsertKeepsLocal(before, ns, local);
      case Removes(ids) =>
      case Looks(id) =>
    }
  }
}
