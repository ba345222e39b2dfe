/**
 The frozen workflow definition of an iteration: nodes with their declared inputs
 and outputs, and directed edges.  Nothing is assumed about it: edges may repeat,
 form cycles, or name nodes that do not exist, and node ids may repeat.
 Ids are numbers here because the code only ever compares them.
 */
module Flow {
  import opened Wrappers

  type NodeId = nat
  type SlotId = nat
  type FileId = nat
  type FilePath = nat

  /** The implicit output slot that a legacy `outputFilePath` stands for. */
  const DEFAULT_SLOT: SlotId := 0

  datatype Kind = TRIGGER | TASK | GATEWAY

  /** OTHER is any unrecognised gate name. */
  datatype Logic = AND | OR | XOR | OTHER

  /** A PREDECESSOR binding may be half filled in; None is the empty string. */
  datatype Source =
    | MANUAL
    | DATASOURCE
    | PREDECESSOR(nodeId: Option<NodeId>, outputId: Option<SlotId>)

  datatype Input = Input(id: SlotId, source: Source)
  datatype Output = Output(id: SlotId, required: bool)
  datatype Node = Node(id: NodeId, kind: Kind, logic: Logic, inputs: seq<Input>, outputs: seq<Output>)
  datatype Edge = Edge(source: NodeId, target: NodeId)
  datatype Graph = Graph(nodes: seq<Node>, edges: seq<Edge>)

  function Elements(ts: seq<NodeId>): set<NodeId> {
    set n | n in ts
  }

  function Ids(g: Graph): set<NodeId> {
    set n | n in g.nodes :: n.id
  }

  /** `nodes.find`: the first node with this id. */
  function Find(nodes: seq<Node>, id: NodeId): (r: Option<Node>)
    ensures r.Some? ==> r.value in nodes && r.value.id == id
    ensures r.None? <==> forall n | n in nodes :: n.id != id
  {
    if nodes == [] then None
    else if nodes[0].id == id then Some(nodes[0])
    else Find(nodes[1..], id)
  }

  /** The targets of the edges leaving `from`, in edge order and with repetitions. */
  function Targets(edges: seq<Edge>, from: NodeId): (ts: seq<NodeId>)
    ensures forall t :: t in ts <==> Edge(from, t) in edges
  {
    if edges == [] then []
    else
      var rest := Targets(edges[1..], from);
      assert forall e :: e in edges <==> e == edges[0] || e in edges[1..];
      if edges[0].source == from then [edges[0].target] + rest else rest
  }

  /** The distinct sources of the edges entering `to`. */
  function Prereqs(g: Graph, to: NodeId): (ps: set<NodeId>)
    ensures forall p :: p in ps <==> Edge(p, to) in g.edges
  {
    var ps := set e | e in g.edges && e.target == to :: e.source;
    assert forall p :: Edge(p, to) in g.edges ==> Edge(p, to).source in ps;
    ps
  }

  predicate Bound(i: Input) {
    i.source.PREDECESSOR? && i.source.nodeId.Some?
  }

  /** Every file binding of every node points at a node with an edge into it. */
  ghost predicate BindingsFollowEdges(g: Graph) {
    forall n, i | n in g.nodes && i in n.inputs && Bound(i) :: Edge(i.source.nodeId.value, n.id) in g.edges
  }

  /** `rank` witnesses that the graph is acyclic. */
  ghost predicate Ranked(g: Graph, rank: NodeId -> nat) {
    forall e | e in g.edges :: rank(e.source) < rank(e.target)
  }

  /** Both ends of every edge are nodes. */
  ghost predicate EdgesJoinNodes(g: Graph) {
    forall e | e in g.edges :: e.source in Ids(g) && e.target in Ids(g)
  }

  ghost predicate Walk(g: Graph, path: seq<NodeId>) {
    |path| > 0 && forall i, j | 0 <= i < j < |path| && j == i + 1 :: Edge(path[i], path[j]) in g.edges
  }

  /** `to` can be reached from `from` along zero or more edges. */
  ghost predicate Reaches(g: Graph, from: NodeId, to: NodeId) {
    exists path :: Walk(g, path) && path[0] == from && path[|path| - 1] == to
  }

  lemma ReachesItself(g: Graph, n: NodeId)
    ensures Reaches(g, n, n)
  {
    assert Walk(g, [n]);
  }

  lemma ReachesStep(g: Graph, from: NodeId, mid: NodeId, to: NodeId)
    requires Reaches(g, from, mid) && Edge(mid, to) in g.edges
    ensures Reaches(g, from, to)
  {
    var path :| Walk(g, path) && path[0] == from && path[|path| - 1] == mid;
    assert Walk(g, path + [to]);
  }

  /** Whatever is reached, other than the start itself, is entered from something reached. */
  lemma ReachedThrough(g: Graph, from: NodeId, to: NodeId)
    requires Reaches(g, from, to) && from != to
    ensures exists p :: Reaches(g, from, p) && Edge(p, to) in g.edges
  {
    var path :| Walk(g, path) && path[0] == from && path[|path| - 1] == to;
    var short := path[..|path| - 1];
    assert Walk(g, short) && short[0] == from;
    assert Reaches(g, from, short[|short| - 1]);
  }

  /** A set that holds the start and is closed under edges holds everything reached. */
  lemma {:induction false} ClosedHoldsReached(g: Graph, s: set<NodeId>, path: seq<NodeId>)
    requires Walk(g, path) && path[0] in s
    requires forall a, b | a in s && Edge(a, b) in g.edges :: b in s
    ensures path[|path| - 1] in s
  {
    if |path| > 1 {
      var short := path[..|path| - 1];
      ClosedHoldsReached(g, s, short);
    }
  }

  lemma RankGrows(g: Graph, rank: NodeId -> nat, path: seq<NodeId>)
    requires Walk(g, path) && Ranked(g, rank)
    ensures |path| > 1 ==> rank(path[0]) < rank(path[|path| - 1])
  {
    if |path| > 1 {
      RankGrows(g, rank, path[..|path| - 1]);
    }
  }
}
