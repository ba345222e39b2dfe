/**
 Gateways invent no files.  As long as uploads and links go to nodes that are not
 gateways, every file a gateway forwards is still in the slot its input is bound to, and
 following bindings from gateway to gateway ends at a slot of a real producer.
 */
module Provenance {
  import opened Wrappers
  import opened Flow
  import opened Runtime
  import opened Activation
  import opened Settling
  import opened Lifecycle
  import opened Runs
  import opened Histories

  ghost predicate IsGateway(g: Graph, n: NodeId) {
    Find(g.nodes, n).Some? && Find(g.nodes, n).value.kind == GATEWAY
  }

  ghost predicate BoundTo(i: Input, k: SlotId, p: NodeId, o: SlotId) {
    i.id == k && i.source == PREDECESSOR(Some(p), Some(o))
  }

  /** Some input of the gateway that is published as slot `k` is bound to a slot holding `f`. */
  ghost predicate Backed(rows: Rows, node: Node, k: SlotId, f: FileId) {
    exists i, p, o | i in node.inputs && BoundTo(i, k, p, o) :: f in Slot(rows, p, o)
  }

  /** What a gateway's row may hold: nothing before it passed, and only backed files afterwards. */
  ghost predicate GateFilesAt(rows: Rows, node: Node)
    requires node.id in rows
  {
    && (rows[node.id].status == IDLE ==> rows[node.id].outputs == map[])
    && forall k, f | f in Slot(rows, node.id, k) :: Backed(rows, node, k, f)
  }

  ghost predicate GateFiles(g: Graph, rows: Rows) {
    forall n | n in rows && IsGateway(g, n) :: GateFilesAt(rows, Find(g.nodes, n).value)
  }

  ghost predicate Grows(a: Rows, b: Rows) {
    forall p, o, f | f in Slot(a, p, o) :: f in Slot(b, p, o)
  }

  lemma BackedGrows(a: Rows, b: Rows, node: Node, k: SlotId, f: FileId)
    requires Grows(a, b) && Backed(a, node, k, f)
    ensures Backed(b, node, k, f)
  {
    var i, p, o :| i in node.inputs && BoundTo(i, k, p, o) && f in Slot(a, p, o);
    assert f in Slot(b, p, o);
  }

  // ------------------------------------------------------------ what a gate forwards

  lemma {:induction false} ResolvedIsBacked(rows: Rows, inputs: seq<Input>, k: SlotId, f: FileId)
    requires k in ResolveAll(rows, inputs) && f in ResolveAll(rows, inputs)[k].fileIds
    ensures exists i, p, o | i in inputs && BoundTo(i, k, p, o) :: f in Slot(rows, p, o)
  {
    var last := inputs[|inputs| - 1];
    if last.source.PREDECESSOR? && last.id == k {
      var p, o := last.source.nodeId.value, last.source.outputId.value;
      assert last in inputs && BoundTo(last, k, p, o) && f in Slot(rows, p, o);
    } else {
      ResolvedIsBacked(rows, inputs[..|inputs| - 1], k, f);
    }
  }

  lemma GateForwardsBacked(g: Graph, rows: Rows, node: Node, k: SlotId, f: FileId)
    requires node.id in rows && rows[node.id].outputs == map[]
    requires k in GateRow(g, rows, node).outputs && f in GateRow(g, rows, node).outputs[k]
    ensures Backed(rows, node, k, f)
  {
    ResolvedIsBacked(rows, node.inputs, k, f);
  }

  // ------------------------------------------------------------ activation

  /** Activation never empties a slot: only empty gateway rows are overwritten. */
  lemma ActivationGrows(g: Graph, seeds: set<NodeId>, rows: Rows, rows': Rows)
    requires GateFiles(g, rows) && Settled(g, seeds, rows, rows')
    ensures Grows(rows, rows')
  {
    forall p, o, f | f in Slot(rows, p, o) ensures f in Slot(rows', p, o) {
      if Left(rows, rows', p) {
        assert Explained(g, seeds, rows, rows', p);
        if SkippedByCascade(g, rows, rows', p) {
        } else {
          var snap :| FiredAt(g, rows, snap, rows', p);
          FiredOutputs(g, snap, p);
        }
      }
    }
  }

  lemma FiredOutputs(g: Graph, snap: Rows, p: NodeId)
    requires Decide(g, snap, p).Some?
    ensures p in snap && (IsGateway(g, p) || Decide(g, snap, p).value.outputs == snap[p].outputs)
  {
  }

  lemma GateFires(g: Graph, snap: Rows, n: NodeId)
    requires IsGateway(g, n) && Decide(g, snap, n).Some?
    ensures n in snap && snap[n].status == IDLE && Decide(g, snap, n) == Some(GateRow(g, snap, Find(g.nodes, n).value))
  {
  }

  lemma SnapshotGrows(rows: Rows, snap: Rows, rows': Rows)
    requires Grows(rows, rows') && Evolves(rows, snap) && Evolves(snap, rows')
    ensures Grows(snap, rows')
  {
    forall p, o, f | f in Slot(snap, p, o) ensures f in Slot(rows', p, o) {
      if snap[p].status == IDLE { assert f in Slot(rows, p, o); }
    }
  }

  lemma TryAllKeepsGateFiles(g: Graph, rows: Rows, ts: seq<NodeId>)
    requires rows.Keys == Ids(g) && GateFiles(g, rows)
    ensures GateFiles(g, TryAll(g, rows, ts))
  {
    var rows' := TryAll(g, rows, ts);
    TryAllIsSettled(g, rows, ts);
    ActivationGrows(g, Elements(ts), rows, rows');
    forall n, k, f | n in rows' && IsGateway(g, n) && f in Slot(rows', n, k)
      ensures Backed(rows', Find(g.nodes, n).value, k, f)
    {
      hide Decide;
      var node := Find(g.nodes, n).value;
      if f in Slot(rows, n, k) {
        BackedGrows(rows, rows', node, k, f);
      } else {
        assert Left(rows, rows', n) && Explained(g, Elements(ts), rows, rows', n);
        if !SkippedByCascade(g, rows, rows', n) {
          var snap :| FiredAt(g, rows, snap, rows', n);
          GateFires(g, snap, n);
          GateForwardsBacked(g, snap, node, k, f);
          SnapshotGrows(rows, snap, rows');
          BackedGrows(snap, rows', node, k, f);
        }
      }
    }
  }

  // ------------------------------------------------------------ histories

  /** Uploads and links go to nodes that are not gateways. */
  ghost predicate UploadsToProducers(g: Graph, op: Op) {
    op.AttachFile? ==> !IsGateway(g, op.n)
  }

  /** Writing a row without losing files, and without touching a gateway's outputs, is harmless. */
  lemma WriteKeepsGateFiles(g: Graph, rows: Rows, n: NodeId, row: Row)
    requires GateFiles(g, rows) && n in rows
    requires Grows(rows, rows[n := row])
    requires IsGateway(g, n) ==> row.outputs == rows[n].outputs && (row.status == IDLE ==> rows[n].status == IDLE)
    ensures GateFiles(g, rows[n := row])
  {
    var rows' := rows[n := row];
    forall m, k, f | m in rows' && IsGateway(g, m) && f in Slot(rows', m, k)
      ensures Backed(rows', Find(g.nodes, m).value, k, f)
    {
      assert f in Slot(rows, m, k);
      BackedGrows(rows, rows', Find(g.nodes, m).value, k, f);
    }
  }

  lemma ForkKeepsGateFiles(g: Graph, rows: Rows, from: NodeId)
    requires BindingsFollowEdges(g) && rows.Keys == Ids(g) && GateFiles(g, rows)
    ensures GateFiles(g, ForkRows(g, rows, from))
  {
    var inherited := ForkRows(g, rows, from);
    forall n, k, f | n in inherited && IsGateway(g, n) && f in Slot(inherited, n, k)
      ensures Backed(inherited, Find(g.nodes, n).value, k, f)
    {
      var node := Find(g.nodes, n).value;
      assert Backed(rows, node, k, f);
      var i, p, o :| i in node.inputs && BoundTo(i, k, p, o) && f in Slot(rows, p, o);
      assert Bound(i) && Edge(p, n) in g.edges;
      KeptIsClosed(g, from, p, n);
      assert f in Slot(inherited, p, o);
    }
  }

  lemma StatusKeepsGateFiles(g: Graph, rows: Rows, n: NodeId, status: Status)
    requires GateFiles(g, rows) && status != IDLE
    ensures n in rows ==> GateFiles(g, rows[n := rows[n].(status := status)])
  {
    if n in rows { WriteKeepsGateFiles(g, rows, n, rows[n].(status := status)); }
  }

  lemma ReportKeepsGateFiles(g: Graph, s: State, n: NodeId, r: Report)
    requires GateFiles(g, s.rows)
    ensures GateFiles(g, Handle(s, n, r).rows)
  {
    if n in s.rows { WriteKeepsGateFiles(g, s.rows, n, Handle(s, n, r).rows[n]); }
  }

  lemma UploadKeepsGateFiles(g: Graph, rows: Rows, n: NodeId, slot: SlotId, f: FileId)
    requires GateFiles(g, rows) && !IsGateway(g, n)
    ensures n in rows ==> GateFiles(g, rows[n := AddOutput(rows[n], slot, f)])
  {
    if n in rows { WriteKeepsGateFiles(g, rows, n, AddOutput(rows[n], slot, f)); }
  }

  lemma CompletionKeepsGateFiles(g: Graph, rows: Rows, n: NodeId, path: Option<FilePath>)
    requires rows.Keys == Ids(g) && GateFiles(g, rows) && n in rows
    ensures GateFiles(g, Advance(g, rows[n := CompletedRow(rows[n], path)], n))
  {
    var row := CompletedRow(rows[n], path);
    WriteKeepsGateFiles(g, rows, n, row);
    TryAllKeepsGateFiles(g, rows[n := row], Targets(g.edges, n));
  }

  lemma ForkedGateFiles(g: Graph, s: State, from: NodeId)
    requires BindingsFollowEdges(g) && s.rows.Keys == Ids(g) && GateFiles(g, s.rows) && Fork(g, s, from).Some?
    ensures GateFiles(g, Fork(g, s, from).value.rows)
  {
    var inherited := ForkRows(g, s.rows, from);
    ForkKeepsGateFiles(g, s.rows, from);
    ReachesItself(g, from);
    assert inherited.Keys == Ids(g) && from in inherited && inherited[from] == FRESH_ROW;
    hide GateFiles, TryAll, ForkRows, Reaches, BindingsFollowEdges;
    match FirstPrereq(g.edges, from)
    case None => StatusKeepsGateFiles(g, inherited, from, PENDING);
    case Some(p) => TryAllKeepsGateFiles(g, inherited, Targets(g.edges, p));
  }

  lemma ApplyKeepsGateFiles(g: Graph, s: State, op: Op)
    requires BindingsFollowEdges(g) && UploadsToProducers(g, op)
    requires s.rows.Keys == Ids(g) && GateFiles(g, s.rows)
    ensures GateFiles(g, Apply(g, s, op).rows)
  {
    hide GateFiles, CompletedRow, TryAll;
    match op
    case View =>
    case ClaimNode(n) => StatusKeepsGateFiles(g, s.rows, n, RUNNING);
    case HandlerReports(n, r) => ReportKeepsGateFiles(g, s, n, r);
    case AttachFile(n, slot, f) => UploadKeepsGateFiles(g, s.rows, n, slot, f);
    case RepairIteration(order) => TryAllKeepsGateFiles(g, s.rows, RepairList(g, s.rows, order));
    case CompleteNode(n, path) =>
      if Complete(g, s, n, path).1.Done? { CompletionKeepsGateFiles(g, s.rows, n, path); }
    case ForkFrom(n) => if Fork(g, s, n).Some? { ForkedGateFiles(g, s, n); }
  }

  /** After every such history each forwarded file is still where its input is bound. */
  lemma {:induction false} GatewaysInventNothing(g: Graph, ops: seq<Op>)
    requires BindingsFollowEdges(g) && forall op | op in ops :: UploadsToProducers(g, op)
    ensures GateFiles(g, Run(g, ops).rows)
    decreases |ops|
  {
    if ops != [] {
      var before := ops[..|ops| - 1];
      GatewaysInventNothing(g, before);
      RowsOfNodes(g, before);
      ApplyKeepsGateFiles(g, Run(g, before), ops[|ops| - 1]);
    }
  }

  // ------------------------------------------------------------ following bindings to the producer

  datatype Place = Place(node: NodeId, slot: SlotId)

  /** `b` is the slot that the gateway at `a` published under `a.slot` is bound to. */
  ghost predicate Binds(g: Graph, a: Place, b: Place) {
    IsGateway(g, a.node) && exists i | i in Find(g.nodes, a.node).value.inputs :: BoundTo(i, a.slot, b.node, b.slot)
  }

  ghost predicate FileChain(g: Graph, rows: Rows, places: seq<Place>, f: FileId) {
    && places != []
    && (forall a | a in places :: f in Slot(rows, a.node, a.slot))
    && (forall i, j | 0 <= i < j < |places| && j == i + 1 :: Binds(g, places[i], places[j]))
  }

  lemma GatewayAt(g: Graph, rows: Rows, at: Place, f: FileId) returns (node: Node)
    requires rows.Keys == Ids(g) && GateFiles(g, rows) && IsGateway(g, at.node) && f in Slot(rows, at.node, at.slot)
    ensures Find(g.nodes, at.node) == Some(node) && Backed(rows, node, at.slot, f)
  {
    node := Find(g.nodes, at.node).value;
    assert GateFilesAt(rows, node);
  }

  lemma ChainLonger(g: Graph, rows: Rows, at: Place, rest: seq<Place>, f: FileId)
    requires FileChain(g, rows, rest, f) && Binds(g, at, rest[0]) && f in Slot(rows, at.node, at.slot)
    ensures FileChain(g, rows, [at] + rest, f)
  {
  }

  /** One binding back. */
  lemma NextPlace(g: Graph, rank: NodeId -> nat, rows: Rows, at: Place, f: FileId) returns (next: Place)
    requires Ranked(g, rank) && BindingsFollowEdges(g) && rows.Keys == Ids(g) && GateFiles(g, rows)
    requires IsGateway(g, at.node) && f in Slot(rows, at.node, at.slot)
    ensures Binds(g, at, next) && f in Slot(rows, next.node, next.slot) && rank(next.node) < rank(at.node)
  {
    var node := GatewayAt(g, rows, at, f);
    var i, p, o :| i in node.inputs && BoundTo(i, at.slot, p, o) && f in Slot(rows, p, o);
    assert Bound(i) && Edge(p, at.node) in g.edges;
    next := Place(p, o);
  }

  /** The chain of bindings behind one slot ends at a producer. */
  ghost predicate Traced(g: Graph, rows: Rows, at: Place, f: FileId) {
    exists places: seq<Place> ::
      FileChain(g, rows, places, f) && places[0] == at && !IsGateway(g, places[|places| - 1].node)
  }

  lemma {:induction false} ChainToProducer(g: Graph, rank: NodeId -> nat, rows: Rows, at: Place, f: FileId)
    requires Ranked(g, rank) && BindingsFollowEdges(g) && rows.Keys == Ids(g) && GateFiles(g, rows)
    requires f in Slot(rows, at.node, at.slot)
    ensures Traced(g, rows, at, f)
    decreases rank(at.node)
  {
    hide IsGateway, GateFiles, BindingsFollowEdges, Ranked, Binds;
    if !IsGateway(g, at.node) {
      assert FileChain(g, rows, [at], f);
    } else {
      var next := NextPlace(g, rank, rows, at, f);
      ChainToProducer(g, rank, rows, next, f);
      hide FileChain;
      var rest: seq<Place> :| FileChain(g, rows, rest, f) && rest[0] == next && !IsGateway(g, rest[|rest| - 1].node);
      ChainLonger(g, rows, at, rest, f);
      assert ([at] + rest)[|[at] + rest| - 1] == rest[|rest| - 1];
    }
  }

  /** Every file recorded anywhere in a run leads back, binding by binding, to a producer's slot holding it. */
  lemma EveryFileHasProducer(g: Graph, rank: NodeId -> nat, ops: seq<Op>, at: Place, f: FileId)
    requires Ranked(g, rank) && BindingsFollowEdges(g)
    requires forall op | op in ops :: UploadsToProducers(g, op)
    requires f in Slot(Run(g, ops).rows, at.node, at.slot)
    ensures Traced(g, Run(g, ops).rows, at, f)
  {
    RowsOfNodes(g, ops);
    GatewaysInventNothing(g, ops);
    ChainToProducer(g, rank, Run(g, ops).rows, at, f);
  }
}
