/** The bounded neighborhood of an identity. */
module IdentityGraph {
  import opened Basics
  import opened Sorting
  import opened Keys

  type NodeId = nat
  type EdgeId = nat

  datatype NodeRow = NodeRow(chain: int, kind: string, value: string)
  datatype EdgeRow = EdgeRow(chain: int, source: NodeId, relation: string, target: NodeId)

  /** The two tables. Nothing ties an edge's endpoints to rows of `nodes`: foreign keys are only
      switched on for the connection that creates the schema. */
  datatype Graph = Graph(nodes: map<NodeId, NodeRow>, edges: map<EdgeId, EdgeRow>)

  const MAX_DEPTH: nat := 4

  // ----- the queries

  predicate IsSeed(row: NodeRow, chain: int, value: string) {
    row.chain == chain && row.value == value
  }

  function Seeds(g: Graph, chain: int, value: string): set<NodeId> {
    set n | n in g.nodes && IsSeed(g.nodes[n], chain, value)
  }

  predicate TouchesRow(row: EdgeRow, chain: int, frontier: set<NodeId>) {
    row.chain == chain && (row.source in frontier || row.target in frontier)
  }

  function Touching(g: Graph, chain: int, frontier: set<NodeId>): set<EdgeId> {
    set e | e in g.edges && TouchesRow(g.edges[e], chain, frontier)
  }

  function Sources(g: Graph, edges: set<EdgeId>): set<NodeId> {
    set e | e in edges && e in g.edges :: g.edges[e].source
  }

  function Targets(g: Graph, edges: set<EdgeId>): set<NodeId> {
    set e | e in edges && e in g.edges :: g.edges[e].target
  }

  function Ends(g: Graph, edges: set<EdgeId>): set<NodeId> {
    Sources(g, edges) + Targets(g, edges)
  }

  function NodeKey(g: Graph): NodeId -> Key {
    (n: NodeId) => if n in g.nodes then PairKey(g.nodes[n].kind, g.nodes[n].value) else []
  }

  /** Nodes are ordered by kind, then by value, as texts. */
  lemma NodeOrder(g: Graph, a: NodeId, b: NodeId)
    requires a in g.nodes && b in g.nodes && KeyLe(NodeKey(g)(a), NodeKey(g)(b))
    ensures if g.nodes[a].kind == g.nodes[b].kind then TextLe(g.nodes[a].value, g.nodes[b].value)
            else TextLe(g.nodes[a].kind, g.nodes[b].kind)
  {
    hide PairKey, KeyLe;
    PairKeyOrder(g.nodes[a].kind, g.nodes[a].value, g.nodes[b].kind, g.nodes[b].value);
  }

  // ----- the reference: undirected walks along the chain's edges

  predicate Joined(g: Graph, chain: int, a: NodeId, b: NodeId, e: EdgeId) {
    && e in g.edges && g.edges[e].chain == chain
    && ((g.edges[e].source == a && g.edges[e].target == b) || (g.edges[e].source == b && g.edges[e].target == a))
  }

  ghost predicate Neighbors(g: Graph, chain: int, a: NodeId, b: NodeId) {
    exists e :: Joined(g, chain, a, b, e)
  }

  ghost predicate IsPath(g: Graph, chain: int, path: seq<NodeId>) {
    path != [] && forall i :: 0 <= i < |path| - 1 ==> Neighbors(g, chain, path[i], path[i + 1])
  }

  /** n can be reached from a seed along at most d edges. */
  ghost predicate Near(g: Graph, chain: int, seeds: set<NodeId>, n: NodeId, d: nat) {
    exists path :: IsPath(g, chain, path) && path[0] in seeds && path[|path| - 1] == n && |path| <= d + 1
  }

  // ----- the nodes within d edges, layer by layer

  function Ball(g: Graph, chain: int, seeds: set<NodeId>, d: nat): set<NodeId> {
    if d == 0 then seeds
    else Ball(g, chain, seeds, d - 1) + Ends(g, Touching(g, chain, Ball(g, chain, seeds, d - 1)))
  }

  /** The edges incident to a node at distance less than d. */
  function BallEdges(g: Graph, chain: int, seeds: set<NodeId>, d: nat): set<EdgeId> {
    if d == 0 then {} else Touching(g, chain, Ball(g, chain, seeds, d - 1))
  }

  lemma TouchingUnion(g: Graph, chain: int, a: set<NodeId>, b: set<NodeId>)
    ensures Touching(g, chain, a + b) == Touching(g, chain, a) + Touching(g, chain, b)
  {
  }

  lemma EndsUnion(g: Graph, a: set<EdgeId>, b: set<EdgeId>)
    ensures Ends(g, a + b) == Ends(g, a) + Ends(g, b)
  {
  }

  /** Only the newest layer needs expanding. */
  lemma NextLayer(g: Graph, chain: int, seeds: set<NodeId>, d: nat, frontier: set<NodeId>)
    requires d > 0 ==> Ball(g, chain, seeds, d) == Ball(g, chain, seeds, d - 1) + frontier
    requires d == 0 ==> frontier == seeds
    ensures BallEdges(g, chain, seeds, d + 1) == BallEdges(g, chain, seeds, d) + Touching(g, chain, frontier)
    ensures Ball(g, chain, seeds, d + 1) == Ball(g, chain, seeds, d) + Ends(g, Touching(g, chain, frontier))
  {
    hide Touching, Ends;
    if d > 0 {
      var inner := Ball(g, chain, seeds, d - 1);
      TouchingUnion(g, chain, inner, frontier);
      EndsUnion(g, Touching(g, chain, inner), Touching(g, chain, frontier));
    }
  }

  /** An empty layer ends the growth. */
  lemma {:induction false} Saturated(g: Graph, chain: int, seeds: set<NodeId>, d: nat, m: nat)
    requires d <= m && (d == 0 ==> seeds == {}) && (d > 0 ==> Ball(g, chain, seeds, d) == Ball(g, chain, seeds, d - 1))
    ensures Ball(g, chain, seeds, m) == Ball(g, chain, seeds, d)
            && BallEdges(g, chain, seeds, m) == BallEdges(g, chain, seeds, d)
  {
    if d < m {
      Saturated(g, chain, seeds, d, m - 1);
      if d == 0 {
        assert Touching(g, chain, {}) == {} && Ends(g, {}) == {};
      }
    }
  }

  function DepthOf(depth: int): nat {
    Max(0, Min(MAX_DEPTH, depth))
  }

  method SearchLayers(g: Graph, chain: int, seeds: set<NodeId>, depth: nat)
    returns (seenNodes: set<NodeId>, seenEdges: set<EdgeId>)
    ensures seenNodes == Ball(g, chain, seeds, depth) && seenEdges == BallEdges(g, chain, seeds, depth)
  {
    hide Ball, BallEdges, Touching, Ends;
    LayerZero(g, chain, seeds);
    var frontier := seeds;
    seenNodes, seenEdges := frontier, {};
    for d := 0 to depth
      invariant seenNodes == Ball(g, chain, seeds, d) && seenEdges == BallEdges(g, chain, seeds, d)
      invariant d == 0 ==> frontier == seeds
      invariant d > 0 ==> Ball(g, chain, seeds, d) == Ball(g, chain, seeds, d - 1) + frontier
    {
      if frontier == {} {
        Saturated(g, chain, seeds, d, depth);
        return;
      }
      var rows := Touching(g, chain, frontier);
      NextLayer(g, chain, seeds, d, frontier);
      seenEdges := seenEdges + rows;
      frontier := Ends(g, rows) - seenNodes;
      seenNodes := seenNodes + frontier;
    }
  }

  lemma LayerZero(g: Graph, chain: int, seeds: set<NodeId>)
    ensures Ball(g, chain, seeds, 0) == seeds && BallEdges(g, chain, seeds, 0) == {}
  {
  }

  /** The stored nodes and the edges found, in their order. */
  method IdentityNeighborhood(g: Graph, chain: int, value: string, depth: int)
    returns (nodes: seq<NodeId>, edges: seq<EdgeId>)
    ensures var seeds, d := Seeds(g, chain, value), DepthOf(depth);
            && (forall n :: n in nodes <==> n in Ball(g, chain, seeds, d) && n in g.nodes)
            && |nodes| == |Ball(g, chain, seeds, d) * g.nodes.Keys|
            && (forall i, j :: 0 <= i < j < |nodes| ==> KeyLe(NodeKey(g)(nodes[i]), NodeKey(g)(nodes[j])))
            && edges == Ascending(BallEdges(g, chain, seeds, d))
  {
    hide NodeKey;
    var seenNodes, seenEdges := SearchLayers(g, chain, Seeds(g, chain, value), DepthOf(depth));
    var stored := Ascending(seenNodes * g.nodes.Keys);
    nodes := Sort<NodeId>(stored, ByKey<NodeId>(NodeKey(g)));
    edges := Ascending(seenEdges);
    SortMembers<NodeId>(stored, ByKey<NodeId>(NodeKey(g)));
    forall i, j | 0 <= i < j < |nodes| ensures KeyLe(NodeKey(g)(nodes[i]), NodeKey(g)(nodes[j])) {
      SortedByKey<NodeId>(stored, NodeKey(g), i, j);
    }
  }

  // ----- the layers are the distances

  lemma {:induction false} BallIsNear(g: Graph, chain: int, seeds: set<NodeId>, n: NodeId, d: nat)
    requires n in Ball(g, chain, seeds, d)
    ensures Near(g, chain, seeds, n, d)
    decreases d
  {
    if d == 0 {
      assert IsPath(g, chain, [n]);
    } else {
      var inner := Ball(g, chain, seeds, d - 1);
      if n in inner {
        BallIsNear(g, chain, seeds, n, d - 1);
      } else {
        var a := TouchedFrom(g, chain, inner, n);
        BallIsNear(g, chain, seeds, a, d - 1);
        var path :| IsPath(g, chain, path) && path[0] in seeds && path[|path| - 1] == a && |path| <= d;
        NearStep(g, chain, seeds, path, n, d);
      }
    }
  }

  lemma NearStep(g: Graph, chain: int, seeds: set<NodeId>, path: seq<NodeId>, n: NodeId, d: nat)
    requires IsPath(g, chain, path) && path[0] in seeds && |path| <= d && Neighbors(g, chain, path[|path| - 1], n)
    ensures Near(g, chain, seeds, n, d)
  {
    var longer := path + [n];
    forall i | 0 <= i < |longer| - 1 ensures Neighbors(g, chain, longer[i], longer[i + 1]) {
      assert i < |path| - 1 ==> Neighbors(g, chain, path[i], path[i + 1]);
    }
    assert IsPath(g, chain, longer);
  }

  lemma TouchedFrom(g: Graph, chain: int, inner: set<NodeId>, n: NodeId) returns (a: NodeId)
    requires n in Ends(g, Touching(g, chain, inner)) && n !in inner
    ensures a in inner && Neighbors(g, chain, a, n)
  {
    var e :| e in Touching(g, chain, inner) && (g.edges[e].source == n || g.edges[e].target == n);
    a := if g.edges[e].source == n then g.edges[e].target else g.edges[e].source;
    assert Joined(g, chain, a, n, e);
  }

  lemma {:induction false} PathInBall(g: Graph, chain: int, seeds: set<NodeId>, path: seq<NodeId>, d: nat)
    requires IsPath(g, chain, path) && path[0] in seeds && |path| <= d + 1
    ensures path[|path| - 1] in Ball(g, chain, seeds, d)
    decreases d
  {
    if d > 0 {
      if |path| == 1 {
        PathInBall(g, chain, seeds, path, d - 1);
      } else {
        var init := path[..|path| - 1];
        PathInBall(g, chain, seeds, init, d - 1);
        assert Neighbors(g, chain, path[|path| - 2], path[|path| - 1]);
        EndReached(g, chain, Ball(g, chain, seeds, d - 1), path[|path| - 2], path[|path| - 1]);
      }
    }
  }

  lemma EndReached(g: Graph, chain: int, inner: set<NodeId>, a: NodeId, b: NodeId)
    requires a in inner && Neighbors(g, chain, a, b)
    ensures b in Ends(g, Touching(g, chain, inner))
  {
    var e :| Joined(g, chain, a, b, e);
    assert e in Touching(g, chain, inner);
  }

  /** A node is reported exactly when it is stored and within the clamped depth of a seed. */
  lemma BallIsDistance(g: Graph, chain: int, seeds: set<NodeId>, n: NodeId, d: nat)
    ensures n in Ball(g, chain, seeds, d) <==> Near(g, chain, seeds, n, d)
  {
    if n in Ball(g, chain, seeds, d) {
      BallIsNear(g, chain, seeds, n, d);
    }
    if Near(g, chain, seeds, n, d) {
      var path :| IsPath(g, chain, path) && path[0] in seeds && path[|path| - 1] == n && |path| <= d + 1;
      PathInBall(g, chain, seeds, path, d);
    }
  }

  /** An edge is reported exactly when it is the chain's and one endpoint is closer than the
      clamped depth. */
  lemma EdgesAreIncident(g: Graph, chain: int, seeds: set<NodeId>, e: EdgeId, d: nat)
    ensures e in BallEdges(g, chain, seeds, d) <==>
            d > 0 && e in g.edges && g.edges[e].chain == chain
            && (Near(g, chain, seeds, g.edges[e].source, d - 1) || Near(g, chain, seeds, g.edges[e].target, d - 1))
  {
    hide Near, Ball;
    if d > 0 && e in g.edges {
      BallIsDistance(g, chain, seeds, g.edges[e].source, d - 1);
      BallIsDistance(g, chain, seeds, g.edges[e].target, d - 1);
    }
  }

  /** A walk of at most d edges from a stored node of the chain with the value to n. */
  ghost predicate WalkFromValue(g: Graph, chain: int, value: string, n: NodeId, d: nat) {
    exists path :: IsPath(g, chain, path) && path[|path| - 1] == n && |path| - 1 <= d
                   && path[0] in g.nodes && g.nodes[path[0]].chain == chain && g.nodes[path[0]].value == value
  }

  lemma NearIsWalk(g: Graph, chain: int, value: string, n: NodeId, d: nat)
    ensures Near(g, chain, Seeds(g, chain, value), n, d) <==> WalkFromValue(g, chain, value, n, d)
  {
    hide Neighbors;
    if Near(g, chain, Seeds(g, chain, value), n, d) {
      var path :| IsPath(g, chain, path) && path[0] in Seeds(g, chain, value) && path[|path| - 1] == n
                  && |path| <= d + 1;
      assert g.nodes[path[0]].chain == chain && g.nodes[path[0]].value == value;
    }
    if WalkFromValue(g, chain, value, n, d) {
      var path :| IsPath(g, chain, path) && path[|path| - 1] == n && |path| - 1 <= d
                  && path[0] in g.nodes && g.nodes[path[0]].chain == chain && g.nodes[path[0]].value == value;
      assert path[0] in Seeds(g, chain, value);
    }
  }

  /** The two parts of a neighborhood in the columns of the tables: the nodes on walks from the value,
      of as many edges as the depth says, at least 0 and at most 4; and the chain's edges with an end
      on a walk one edge shorter. */
  lemma ReportedExactly(g: Graph, chain: int, value: string, depth: int, n: NodeId, e: EdgeId)
    ensures var d: nat := if depth < 0 then 0 else if depth > 4 then 4 else depth;
            var seeds := Seeds(g, chain, value);
            && (n in Ball(g, chain, seeds, DepthOf(depth)) <==> WalkFromValue(g, chain, value, n, d))
            && (e in BallEdges(g, chain, seeds, DepthOf(depth)) <==>
                  d > 0 && e in g.edges && g.edges[e].chain == chain
                  && (WalkFromValue(g, chain, value, g.edges[e].source, d - 1)
                      || WalkFromValue(g, chain, value, g.edges[e].target, d - 1)))
  {
    hide Ball, BallEdges, Near, WalkFromValue, Seeds;
    var d, seeds := DepthOf(depth), Seeds(g, chain, value);
    BallIsDistance(g, chain, seeds, n, d);
    NearIsWalk(g, chain, value, n, d);
    EdgesAreIncident(g, chain, seeds, e, d);
    if d > 0 && e in g.edges {
      NearIsWalk(g, chain, value, g.edges[e].source, d - 1);
      NearIsWalk(g, chain, value, g.edges[e].target, d - 1);
    }
  }

  /** The endpoints of a reported edge are both reported exactly when both are stored: an edge
      may name a node no row describes. */
  lemma EndpointsReportedWhenStored(g: Graph, chain: int, seeds: set<NodeId>, e: EdgeId, d: nat)
    requires e in BallEdges(g, chain, seeds, d)
    ensures var reported := Ball(g, chain, seeds, d) * g.nodes.Keys;
            g.edges[e].source in reported && g.edges[e].target in reported <==>
            g.edges[e].source in g.nodes && g.edges[e].target in g.nodes
  {
    var row := g.edges[e];
    assert row.source in Sources(g, BallEdges(g, chain, seeds, d))
           && row.target in Targets(g, BallEdges(g, chain, seeds, d));
  }

  /** A seed with an edge to a node that was never stored: the edge is reported, its target is
      not. */
  lemma DanglingEdgeReported() returns (g: Graph, e: EdgeId)
    ensures var seeds := Seeds(g, 1, "a");
            e in BallEdges(g, 1, seeds, 1) && g.edges[e].target in Ball(g, 1, seeds, 1) && g.edges[e].target !in g.nodes
  {
    var nodes: map<NodeId, NodeRow> := map[10 := NodeRow(1, "address", "a")];
    var edges: map<EdgeId, EdgeRow> := map[7 := EdgeRow(1, 10, "deployed", 20)];
    g, e := Graph(nodes, edges), 7;
    var seeds := Seeds(g, 1, "a");
    assert 10 in seeds;
    assert Ball(g, 1, seeds, 0) == seeds;
    assert e in Touching(g, 1, seeds);
    assert g.edges[e].target in Targets(g, Touching(g, 1, seeds));
  }

  // ----- the writers

  /** A node id is already taken by another chain, kind and value. */
  datatype Result<T> = Ok(value: T) | Collision

  /** How ids are computed: any function of what identifies a row. */
  datatype Ids = Ids(node: (int, string, string) -> NodeId, edge: (int, NodeId, string, NodeId) -> EdgeId)

  /** Insert a node; one already stored under its chain, kind and value is kept. */
  function WithNode(ids: Ids, g: Graph, row: NodeRow): Result<Graph> {
    var id := ids.node(row.chain, row.kind, row.value);
    if exists n :: n in g.nodes && g.nodes[n] == row then Ok(g)
    else if id in g.nodes then Collision
    else Ok(g.(nodes := g.nodes[id := row]))
  }

  /** Insert an edge; one already stored under its id is kept. Nothing looks its endpoints up. */
  function WithEdge(ids: Ids, g: Graph, row: EdgeRow): Graph {
    var id := ids.edge(row.chain, row.source, row.relation, row.target);
    if id in g.edges then g else g.(edges := g.edges[id := row])
  }

  class IdentityStore {
    const ids: Ids
    var nodes: map<NodeId, NodeRow>
    var edges: map<EdgeId, EdgeRow>

    constructor (ids: Ids)
      ensures this.ids == ids && Contents() == Graph(map[], map[])
    {
      this.ids := ids;
      nodes, edges := map[], map[];
    }

    function Contents(): Graph
      reads this
    {
      Graph(nodes, edges)
    }

    method UpsertIdentityNode(chain: int, kind: string, value: string) returns (r: Result<NodeId>)
      modifies this
      ensures var g := WithNode(ids, old(Contents()), NodeRow(chain, kind, value));
              if g.Ok? then Contents() == g.value && r == Ok(ids.node(chain, kind, value))
              else Contents() == old(Contents()) && r == Collision
    {
      var row, id := NodeRow(chain, kind, value), ids.node(chain, kind, value);
      if exists n :: n in nodes && nodes[n] == row {
        return Ok(id);
      }
      if id in nodes {
        return Collision;
      }
      nodes := nodes[id := row];
      r := Ok(id);
    }

    method UpsertIdentityEdge(chain: int, source: NodeId, relation: string, target: NodeId) returns (id: EdgeId)
      modifies this`edges
      ensures Contents() == WithEdge(ids, old(Contents()), EdgeRow(chain, source, relation, target))
      ensures id == ids.edge(chain, source, relation, target)
    {
      id := ids.edge(chain, source, relation, target);
      if id !in edges {
        edges := edges[id := EdgeRow(chain, source, relation, target)];
      }
    }
  }

  // ----- runs of the writers

  datatype Write = Node(node: NodeRow) | Link(edge: EdgeRow)

  function Written(ids: Ids, g: Graph, w: Write): Graph {
    match w
    case Node(row) => var r := WithNode(ids, g, row); if r.Ok? then r.value else g
    case Link(row) => WithEdge(ids, g, row)
  }

  function WrittenAll(ids: Ids, g: Graph, writes: seq<Write>): Graph
    decreases writes
  {
    if writes == [] then g else WrittenAll(ids, Written(ids, g, writes[0]), writes[1..])
  }

  /** The node id a write returns. */
  function Handed(ids: Ids, g: Graph, w: Write): set<NodeId> {
    if w.Node? && WithNode(ids, g, w.node).Ok? then {ids.node(w.node.chain, w.node.kind, w.node.value)} else {}
  }

  /** How the program writes: the ids of an edge's endpoints are ids that earlier node writes
      returned. */
  predicate Disciplined(ids: Ids, g: Graph, handed: set<NodeId>, writes: seq<Write>)
    decreases writes
  {
    writes == [] ||
    (&& (writes[0].Link? ==> writes[0].edge.source in handed && writes[0].edge.target in handed)
     && Disciplined(ids, Written(ids, g, writes[0]), handed + Handed(ids, g, writes[0]), writes[1..]))
  }

  /** Every node is stored under its own id, and every edge joins two stored nodes. */
  predicate WellKept(ids: Ids, g: Graph) {
    && (forall n :: n in g.nodes ==> n == ids.node(g.nodes[n].chain, g.nodes[n].kind, g.nodes[n].value))
    && (forall e :: e in g.edges ==> g.edges[e].source in g.nodes && g.edges[e].target in g.nodes)
  }

  lemma NodeKept(ids: Ids, g: Graph, row: NodeRow)
    requires WellKept(ids, g)
    ensures var r := WithNode(ids, g, row);
            r.Ok? ==> WellKept(ids, r.value) && ids.node(row.chain, row.kind, row.value) in r.value.nodes
                      && g.nodes.Keys <= r.value.nodes.Keys
  {
  }

  lemma {:induction false} DisciplineKeeps(ids: Ids, g: Graph, handed: set<NodeId>, writes: seq<Write>)
    requires WellKept(ids, g) && handed <= g.nodes.Keys && Disciplined(ids, g, handed, writes)
    ensures WellKept(ids, WrittenAll(ids, g, writes))
    decreases writes
  {
    if writes != [] {
      var w := writes[0];
      if w.Node? {
        NodeKept(ids, g, w.node);
      }
      DisciplineKeeps(ids, Written(ids, g, w), handed + Handed(ids, g, w), writes[1..]);
    }
  }

  /** In a store written from empty as the program writes it, every reported edge has both
      endpoints reported. */
  lemma DisciplinedEdgesHaveEndpoints(ids: Ids, writes: seq<Write>, chain: int, value: string, d: nat, e: EdgeId)
    requires Disciplined(ids, Graph(map[], map[]), {}, writes)
    ensures var g := WrittenAll(ids, Graph(map[], map[]), writes);
            var seeds := Seeds(g, chain, value);
            var reported := Ball(g, chain, seeds, d) * g.nodes.Keys;
            e in BallEdges(g, chain, seeds, d) ==> g.edges[e].source in reported && g.edges[e].target in reported
  {
    DisciplineKeeps(ids, Graph(map[], map[]), {}, writes);
    var g := WrittenAll(ids, Graph(map[], map[]), writes);
    var seeds := Seeds(g, chain, value);
    hide WrittenAll, Seeds, Ball, Disciplined;
    if e in BallEdges(g, chain, seeds, d) {
      EndpointsReportedWhenStored(g, chain, seeds, e, d);
    }
  }

  // ----- what a store holds

  function NodeIdOf(ids: Ids, row: NodeRow): NodeId {
    ids.node(row.chain, row.kind, row.value)
  }

  function EdgeIdOf(ids: Ids, row: EdgeRow): EdgeId {
    ids.edge(row.chain, row.source, row.relation, row.target)
  }

  /** The rows come from the writes, each under its own id, and no row is lost or altered. */
  ghost predicate HoldsWrites(ids: Ids, before: Graph, writes: seq<Write>, after: Graph) {
    && (forall n :: n in before.nodes ==> n in after.nodes && after.nodes[n] == before.nodes[n])
    && (forall e :: e in before.edges ==> e in after.edges && after.edges[e] == before.edges[e])
    && (forall n :: n in after.nodes && n !in before.nodes ==>
          Node(after.nodes[n]) in writes && n == NodeIdOf(ids, after.nodes[n]))
    && (forall e :: e in after.edges && e !in before.edges ==>
          Link(after.edges[e]) in writes && e == EdgeIdOf(ids, after.edges[e]))
    && (forall w :: w in writes ==>
          match w
          case Node(row) => NodeIdOf(ids, row) in after.nodes || exists n :: n in after.nodes && after.nodes[n] == row
          case Link(row) => EdgeIdOf(ids, row) in after.edges)
  }

  lemma {:induction false} WritesAreHeld(ids: Ids, g: Graph, writes: seq<Write>)
    ensures HoldsWrites(ids, g, writes, WrittenAll(ids, g, writes))
    decreases writes
  {
    if writes != [] {
      var next, rest := Written(ids, g, writes[0]), writes[1..];
      assert writes == [writes[0]] + rest;
      WritesAreHeld(ids, next, rest);
      OneIsHeld(ids, g, writes[0]);
    }
  }

  lemma OneIsHeld(ids: Ids, g: Graph, w: Write)
    ensures HoldsWrites(ids, g, [w], Written(ids, g, w))
  {
    assert w in [w];
  }

  /** Every run of writes into an empty store: its nodes and edges are rows that were written, under
      their own ids; every node written is stored, or its id is taken; and every edge written has its
      id stored. */
  lemma StoreHoldsWhatWasWritten(ids: Ids, writes: seq<Write>)
    ensures HoldsWrites(ids, Graph(map[], map[]), writes, WrittenAll(ids, Graph(map[], map[]), writes))
  {
    WritesAreHeld(ids, Graph(map[], map[]), writes);
  }
}
