/** Every call keeps the properties of Runs, so every history of calls has them. */
module Histories {
  import opened Wrappers
  import opened Flow
  import opened Runtime
  import opened Activation
  import opened Lifecycle
  import opened Runs
  import opened Reports
  import opened Ledgers

  // ------------------------------------------------------------ one row at a time

  /** The evidence of a gate does not change when other rows change without touching terminal statuses. */
  ghost predicate Upholds(a: Rows, b: Rows) {
    && a.Keys == b.Keys
    && forall n | n in a ::
      && (!Open(a[n].status) ==> b[n].status == a[n].status)
      && b[n].inputs == a[n].inputs
      && (a[n].status == IDLE <==> b[n].status == IDLE)
  }

  lemma {:induction false} TraceUpheld(g: Graph, a: Rows, b: Rows, n: NodeId, k: nat)
    requires Upholds(a, b) && TracesToGate(g, a, n, k)
    ensures TracesToGate(g, b, n, k)
    decreases k
  {
    if k == 0 {
      StatusesUpheld(g, a, b, n);
    } else {
      var p :| p in Prereqs(g, n) && TracesToGate(g, a, p, k - 1);
      TraceUpheld(g, a, b, p, k - 1);
    }
  }

  lemma StatusesUpheld(g: Graph, a: Rows, b: Rows, n: NodeId)
    requires Upholds(a, b) && PrereqsTerminal(g, a, n)
    ensures PrereqsTerminal(g, b, n) && PrereqStatuses(g, a, n) == PrereqStatuses(g, b, n)
    ensures forall p | p in Prereqs(g, n) :: StatusOf(a, p) == StatusOf(b, p)
  {
    forall p | p in Prereqs(g, n) ensures StatusOf(a, p) == StatusOf(b, p) {
      assert !Open(StatusOf(a, p));
    }
  }

  /** A node whose own status is unchanged stays accounted for. */
  lemma CausalUpheld(g: Graph, a: Rows, b: Rows, node: Node)
    requires Upholds(a, b) && node.id in a && a[node.id].status == b[node.id].status
    requires CausalAt(g, a, node)
    ensures CausalAt(g, b, node)
  {
    var n := node.id;
    match a[n].status
    case IDLE =>
    case SKIPPED =>
      var k: nat :| TracesToGate(g, a, n, k);
      TraceUpheld(g, a, b, n, k);
    case _ =>
      assert PrereqsTerminal(g, a, n);
      StatusesUpheld(g, a, b, n);
  }

  /** Claiming, completing or failing one node keeps every node accounted for. */
  lemma WriteKeepsCausal(g: Graph, rows: Rows, n: NodeId, row: Row)
    requires Causal(g, rows) && n in rows
    requires Upholds(rows, rows[n := row])
    requires rows[n].status == row.status || (rows[n].status == PENDING && row.status == RUNNING)
      || (rows[n].status == RUNNING && (row.status == COMPLETED || row.status == ERROR))
    ensures Causal(g, rows[n := row])
  {
    var rows' := rows[n := row];
    forall m | m in rows' ensures Find(g.nodes, m).Some? && CausalAt(g, rows', Find(g.nodes, m).value) {
      var node := Find(g.nodes, m).value;
      if rows[m].status == rows'[m].status {
        CausalUpheld(g, rows, rows', node);
      } else {
        assert m == n && CausalAt(g, rows, node);
        if node.kind == GATEWAY {
          assert forall p | p in Prereqs(g, m) :: Edge(p, m) in g.edges;
          assert Prereqs(g, m) == {};
        } else {
          assert PrereqsTerminal(g, rows, m);
          StatusesUpheld(g, rows, rows', m);
        }
      }
    }
  }

  // ------------------------------------------------------------ each call

  lemma CreateRemembers(g: Graph)
    ensures Remembers(g, Create(g).rows, {})
  {
    var rows := StartRows(g);
    forall n | n in rows && rows[n].status == IDLE ensures Held(g, rows, n) {
      var e :| e in g.edges && e.target == n;
      assert Edge(e.source, n) == e;
      assert e.source in Prereqs(g, n) && !Cleared(StatusOf(rows, e.source));
    }
  }

  lemma CreateCausal(g: Graph)
    ensures Causal(g, Create(g).rows)
  {
    var rows := StartRows(g);
    forall n | n in rows ensures Find(g.nodes, n).Some? && CausalAt(g, rows, Find(g.nodes, n).value) {
      forall p | p in Prereqs(g, n) ensures HasInEdge(g, n) { assert Edge(p, n) in g.edges; }
    }
  }

  /** Writing one status can overlook successors only, and those only if it is COMPLETED. */
  lemma WriteRemembers(g: Graph, rows: Rows, n: NodeId, row: Row, missed: set<NodeId>)
    requires Remembers(g, rows, missed) && n in rows
    requires row.status != SKIPPED && row.status != IDLE
    ensures Remembers(g, rows[n := row], if row.status == COMPLETED then missed + Elements(Targets(g.edges, n))
      else missed)
  {
    var rows' := rows[n := row];
    forall m | Overlooked(g, rows', m)
      ensures Fed(g, rows', m) && (m in missed || (row.status == COMPLETED && m in Targets(g.edges, n)))
    {
      if n in Prereqs(g, m) {
        assert Cleared(StatusOf(rows', n)) && Edge(n, m) in g.edges;
      } else {
        assert forall p | p in Prereqs(g, m) :: StatusOf(rows', p) == StatusOf(rows, p);
        assert Overlooked(g, rows, m);
      }
    }
  }

  /** Changing no status overlooks nothing. */
  lemma FilesRemember(g: Graph, rows: Rows, n: NodeId, row: Row, missed: set<NodeId>)
    requires Remembers(g, rows, missed) && n in rows && row.status == rows[n].status
    ensures Remembers(g, rows[n := row], missed)
  {
    var rows' := rows[n := row];
    assert forall m :: StatusOf(rows', m) == StatusOf(rows, m);
    forall m | Overlooked(g, rows', m) ensures m in missed && Fed(g, rows', m) {
      assert Overlooked(g, rows, m);
    }
  }

  lemma TargetsHaveInEdges(g: Graph, n: NodeId)
    ensures forall t | t in Targets(g.edges, n) :: HasInEdge(g, t)
  {
    forall t | t in Targets(g.edges, n) ensures HasInEdge(g, t) { assert Edge(n, t) in g.edges; }
  }

  /** Writing COMPLETED can only overlook successors, which is what is tried next. */
  lemma CompletionRemembers(g: Graph, rows: Rows, n: NodeId, row: Row, missed: set<NodeId>)
    requires Remembers(g, rows, missed) && n in rows && row.status == COMPLETED
    ensures Remembers(g, Advance(g, rows[n := row], n), missed - Attempts(g, rows[n := row], Targets(g.edges, n)))
  {
    WriteRemembers(g, rows, n, row, missed);
    TryAllRemembers(g, rows[n := row], Targets(g.edges, n), missed);
  }

  lemma CompletionCausal(g: Graph, rows: Rows, n: NodeId, row: Row)
    requires rows.Keys == Ids(g) && Causal(g, rows) && n in rows && rows[n].status == RUNNING
    requires row.status == COMPLETED && row.inputs == rows[n].inputs
    ensures Causal(g, Advance(g, rows[n := row], n))
  {
    assert Upholds(rows, rows[n := row]);
    WriteKeepsCausal(g, rows, n, row);
    TargetsHaveInEdges(g, n);
    TryAllKeepsCausal(g, rows[n := row], Targets(g.edges, n));
  }

  lemma RepairCausal(g: Graph, s: State, order: seq<NodeId>)
    requires s.rows.Keys == Ids(g) && Causal(g, s.rows)
    ensures Causal(g, Repair(g, s, order).rows)
  {
    var ts := RepairList(g, s.rows, order);
    forall t | t in ts ensures HasInEdge(g, t) {
      var n :| n in order && NeedsRepair(g, s.rows, n) && Edge(n, t) in g.edges;
    }
    TryAllKeepsCausal(g, s.rows, ts);
  }

  // ------------------------------------------------------------ fork

  /** Nothing that is kept has a predecessor that is reset. */
  lemma KeptIsClosed(g: Graph, from: NodeId, p: NodeId, n: NodeId)
    requires Edge(p, n) in g.edges && !Reaches(g, from, n)
    ensures !Reaches(g, from, p)
  {
    if Reaches(g, from, p) { ReachesStep(g, from, p, n); }
  }

  lemma {:induction false} TraceInherited(g: Graph, rows: Rows, from: NodeId, n: NodeId, k: nat)
    requires rows.Keys == Ids(g) && !Reaches(g, from, n) && TracesToGate(g, rows, n, k)
    ensures TracesToGate(g, ForkRows(g, rows, from), n, k)
    decreases k
  {
    if k == 0 {
      InheritedStatuses(g, rows, from, n);
    } else {
      var p :| p in Prereqs(g, n) && TracesToGate(g, rows, p, k - 1);
      KeptIsClosed(g, from, p, n);
      TraceInherited(g, rows, from, p, k - 1);
    }
  }

  lemma InheritedStatuses(g: Graph, rows: Rows, from: NodeId, n: NodeId)
    requires rows.Keys == Ids(g) && !Reaches(g, from, n)
    ensures forall p | p in Prereqs(g, n) :: StatusOf(ForkRows(g, rows, from), p) == StatusOf(rows, p)
    ensures PrereqStatuses(g, ForkRows(g, rows, from), n) == PrereqStatuses(g, rows, n)
  {
    forall p | p in Prereqs(g, n) ensures StatusOf(ForkRows(g, rows, from), p) == StatusOf(rows, p) {
      KeptIsClosed(g, from, p, n);
    }
  }

  lemma ForkRowsCausal(g: Graph, rows: Rows, from: NodeId)
    requires rows.Keys == Ids(g) && Causal(g, rows)
    ensures Causal(g, ForkRows(g, rows, from))
  {
    var inherited := ForkRows(g, rows, from);
    forall n | n in inherited ensures Find(g.nodes, n).Some? && CausalAt(g, inherited, Find(g.nodes, n).value) {
      InheritedCausal(g, rows, from, Find(g.nodes, n).value);
    }
  }

  lemma InheritedCausal(g: Graph, rows: Rows, from: NodeId, node: Node)
    requires rows.Keys == Ids(g) && node.id in rows && CausalAt(g, rows, node)
    ensures CausalAt(g, ForkRows(g, rows, from), node)
  {
    var n := node.id;
    if !Reaches(g, from, n) {
      hide Reaches;
      InheritedStatuses(g, rows, from, n);
      if rows[n].status == SKIPPED {
        var k: nat :| TracesToGate(g, rows, n, k);
        TraceInherited(g, rows, from, n, k);
      }
    }
  }

  /** Of the reset nodes, only the restart node itself can be ready. */
  lemma ResetIsHeld(g: Graph, rows: Rows, from: NodeId, n: NodeId)
    requires Reaches(g, from, n) && n != from
    ensures Held(g, ForkRows(g, rows, from), n)
  {
    ReachedThrough(g, from, n);
    var p :| Reaches(g, from, p) && Edge(p, n) in g.edges;
    assert p in Prereqs(g, n) && StatusOf(ForkRows(g, rows, from), p) == IDLE;
  }

  lemma ForkRowsRemember(g: Graph, rows: Rows, from: NodeId, n: NodeId, missed: set<NodeId>)
    requires Remembers(g, rows, missed)
    requires n != from && Overlooked(g, ForkRows(g, rows, from), n)
    ensures n in missed && !Reaches(g, from, n) && Fed(g, ForkRows(g, rows, from), n)
  {
    var inherited := ForkRows(g, rows, from);
    if Reaches(g, from, n) {
      ResetIsHeld(g, rows, from, n);
    } else {
      hide Reaches;
      InheritedStatuses(g, rows, from, n);
      assert Overlooked(g, rows, n);
    }
  }

  /** The nodes a fork resets. */
  ghost function ResetSet(g: Graph, from: NodeId): set<NodeId> {
    set n | n in Ids(g) && Reaches(g, from, n)
  }

  /** The restart node is a start node: it is woken directly. */
  lemma ForkAtStartRemembers(g: Graph, rows: Rows, from: NodeId, missed: set<NodeId>)
    requires Remembers(g, rows, missed) && from in Ids(g) && !HasInEdge(g, from)
    ensures Remembers(g, ForkRows(g, rows, from)[from := FRESH_ROW.(status := PENDING)], missed - ResetSet(g, from))
  {
    var inherited := ForkRows(g, rows, from);
    var rows' := inherited[from := FRESH_ROW.(status := PENDING)];
    ReachesItself(g, from);
    hide Reaches;
    forall n | Overlooked(g, rows', n) ensures n in missed - ResetSet(g, from) && Fed(g, rows', n) {
      assert StatusOf(rows', from) == PENDING && n != from;
      if from !in Prereqs(g, n) {
        assert forall p | p in Prereqs(g, n) :: StatusOf(rows', p) == StatusOf(inherited, p);
        ForkRowsRemember(g, rows, from, n, missed);
      }
    }
  }

  lemma ForkAtStartCausal(g: Graph, rows: Rows, from: NodeId)
    requires rows.Keys == Ids(g) && Causal(g, rows) && from in Ids(g) && !HasInEdge(g, from)
    ensures Causal(g, ForkRows(g, rows, from)[from := FRESH_ROW.(status := PENDING)])
  {
    hide CausalAt;
    var inherited := ForkRows(g, rows, from);
    ReachesItself(g, from);
    assert forall p | p in Prereqs(g, from) :: Edge(p, from) in g.edges;
    assert Prereqs(g, from) == {};
    ForkRowsCausal(g, rows, from);
    StartKeepsCausal(g, inherited, from);
  }

  /** The restart node is tried as a successor of its first predecessor. */
  lemma ForkBehindRemembers(g: Graph, rows: Rows, from: NodeId, p: NodeId, missed: set<NodeId>)
    requires Remembers(g, rows, missed) && from in Ids(g) && Edge(p, from) in g.edges
    ensures var inherited, ts := ForkRows(g, rows, from), Targets(g.edges, p);
      Remembers(g, Advance(g, inherited, p), missed - ResetSet(g, from) - Attempts(g, inherited, ts))
  {
    var inherited, ts := ForkRows(g, rows, from), Targets(g.edges, p);
    forall n | Overlooked(g, inherited, n) && n !in ts ensures n in missed - ResetSet(g, from) && Fed(g, inherited, n) {
      ForkRowsRemember(g, rows, from, n, missed);
    }
    TryAllRemembers(g, inherited, ts, missed - ResetSet(g, from));
  }

  lemma ForkCausal(g: Graph, s: State, from: NodeId)
    requires s.rows.Keys == Ids(g) && Causal(g, s.rows) && Fork(g, s, from).Some?
    ensures Causal(g, Fork(g, s, from).value.rows)
  {
    hide Causal;
    match FirstPrereq(g.edges, from)
    case None =>
      ReachesItself(g, from);
      ForkAtStartCausal(g, s.rows, from);
    case Some(p) =>
      ForkBehindCausal(g, s.rows, from, p);
  }

  lemma ForkBehindCausal(g: Graph, rows: Rows, from: NodeId, p: NodeId)
    requires rows.Keys == Ids(g) && Causal(g, rows)
    ensures Causal(g, Advance(g, ForkRows(g, rows, from), p))
  {
    ForkRowsCausal(g, rows, from);
    hide Causal;
    TargetsHaveInEdges(g, p);
    TryAllKeepsCausal(g, ForkRows(g, rows, from), Targets(g.edges, p));
  }

  /** Waking a node without predecessors disturbs nobody. */
  lemma StartKeepsCausal(g: Graph, rows: Rows, n: NodeId)
    requires Causal(g, rows) && n in rows && rows[n].status == IDLE && !HasInEdge(g, n) && Prereqs(g, n) == {}
    ensures Causal(g, rows[n := rows[n].(status := PENDING)])
  {
    var rows' := rows[n := rows[n].(status := PENDING)];
    forall m | m in rows' ensures Find(g.nodes, m).Some? && CausalAt(g, rows', Find(g.nodes, m).value) {
      if m != n && rows[m].status != IDLE { CausalStable(g, rows, rows', Find(g.nodes, m).value); }
    }
  }

  // ------------------------------------------------------------ what may have been overlooked

  /** The nodes that a call attempts to activate, or resets. */
  ghost function Tried(g: Graph, s: State, op: Op): set<NodeId> {
    match op
    case CompleteNode(n, path) =>
      if Complete(g, s, n, path).1.Done?
      then Attempts(g, s.rows[n := CompletedRow(s.rows[n], path)], Targets(g.edges, n)) else {}
    case RepairIteration(order) => Attempts(g, s.rows, RepairList(g, s.rows, order))
    case ForkFrom(from) =>
      if from !in Ids(g) then {}
      else (
        match FirstPrereq(g.edges, from)
        case None => ResetSet(g, from)
        case Some(p) => ResetSet(g, from) + Attempts(g, ForkRows(g, s.rows, from), Targets(g.edges, p)))
    case _ => {}
  }

  /** A handler's report that it finished leaves its successors untried. */
  function Silenced(g: Graph, op: Op): set<NodeId> {
    if op.HandlerReports? && op.r.Finished? then Elements(Targets(g.edges, op.n)) else {}
  }

  /** What each call tried and what it silenced. */
  ghost function Record(g: Graph, ops: seq<Op>): (es: seq<Entry>)
    ensures |es| == |ops|
  {
    if ops == [] then []
    else
      var before, op := ops[..|ops| - 1], ops[|ops| - 1];
      Record(g, before) + [Entry(Tried(g, Run(g, before), op), Silenced(g, op))]
  }

  /** The nodes with a predecessor that finished silently since they were last tried. */
  ghost function Missed(g: Graph, ops: seq<Op>): set<NodeId> {
    Balance({}, Record(g, ops))
  }

  lemma MissedMore(g: Graph, ops: seq<Op>)
    requires ops != []
    ensures var before, op := ops[..|ops| - 1], ops[|ops| - 1];
      Missed(g, ops) == Missed(g, before) - Tried(g, Run(g, before), op) + Silenced(g, op)
  {
    assert Record(g, ops)[..|ops| - 1] == Record(g, ops[..|ops| - 1]);
  }

  lemma {:induction false} RecordAt(g: Graph, ops: seq<Op>, i: nat)
    requires i < |ops|
    ensures Record(g, ops)[i] == Entry(Tried(g, Run(g, ops[..i]), ops[i]), Silenced(g, ops[i]))
    decreases |ops|
  {
    hide Tried, Silenced;
    if i < |ops| - 1 {
      RecordAt(g, ops[..|ops| - 1], i);
      assert ops[..|ops| - 1][..i] == ops[..i];
    }
  }

  /** Exactly that: some report silenced the node, and no later call tried it. */
  lemma MissedMeaning(g: Graph, ops: seq<Op>, n: NodeId)
    ensures n in Missed(g, ops) <==>
      exists i | 0 <= i < |ops| :: n in Silenced(g, ops[i]) && Untried(Record(g, ops), i + 1, n)
  {
    hide Tried, Silenced;
    BalanceMeaning({}, Record(g, ops), n);
    forall i | 0 <= i < |ops| ensures Record(g, ops)[i].lost == Silenced(g, ops[i]) { RecordAt(g, ops, i); }
  }

  // ------------------------------------------------------------ every history

  lemma ForkRemembers(g: Graph, s: State, from: NodeId, missed: set<NodeId>)
    requires Remembers(g, s.rows, missed)
    ensures Remembers(g, Apply(g, s, ForkFrom(from)).rows, missed - Tried(g, s, ForkFrom(from)))
  {
    if from in Ids(g) {
      match FirstPrereq(g.edges, from)
      case None =>
        ReachesItself(g, from);
        ForkAtStartRemembers(g, s.rows, from, missed);
      case Some(p) =>
        ForkBehindRemembers(g, s.rows, from, p, missed);
        var inherited, ts := ForkRows(g, s.rows, from), Targets(g.edges, p);
        assert missed - (ResetSet(g, from) + Attempts(g, inherited, ts)) ==
          missed - ResetSet(g, from) - Attempts(g, inherited, ts);
    }
  }

  lemma HandleRemembers(g: Graph, s: State, n: NodeId, r: Report, missed: set<NodeId>)
    requires Remembers(g, s.rows, missed)
    ensures Remembers(g, Handle(s, n, r).rows, missed + Silenced(g, HandlerReports(n, r)))
  {
    if n in s.rows {
      WriteRemembers(g, s.rows, n, Handle(s, n, r).rows[n], missed);
    }
  }

  /** No call overlooks a node, except a handler that finishes silently. */
  lemma CallRemembers(g: Graph, s: State, op: Op, missed: set<NodeId>)
    requires Remembers(g, s.rows, missed)
    ensures Remembers(g, Apply(g, s, op).rows, missed - Tried(g, s, op) + Silenced(g, op))
  {
    hide Remembers, TryAll, Fork, Attempts, ForkRows, ResetSet;
    assert missed - {} + {} == missed;
    match op
    case View =>
    case ClaimNode(n) =>
      if Claim(s, n).1.Done? { WriteRemembers(g, s.rows, n, s.rows[n].(status := RUNNING), missed); }
    case CompleteNode(n, path) =>
      if Complete(g, s, n, path).1.Done? {
        CompletionRemembers(g, s.rows, n, CompletedRow(s.rows[n], path), missed);
        assert missed - Tried(g, s, op) + {} == missed - Tried(g, s, op);
      }
    case HandlerReports(n, r) =>
      HandleRemembers(g, s, n, r, missed);
      assert missed - {} + Silenced(g, op) == missed + Silenced(g, op);
    case AttachFile(n, slot, f) =>
      if n in s.rows { FilesRemember(g, s.rows, n, AddOutput(s.rows[n], slot, f), missed); }
    case RepairIteration(order) =>
      RepairRemembers(g, s, order, missed);
      assert missed - Tried(g, s, op) + {} == missed - Tried(g, s, op);
    case ForkFrom(n) =>
      ForkRemembers(g, s, n, missed);
      assert missed - Tried(g, s, op) + {} == missed - Tried(g, s, op);
  }

  lemma RepairRemembers(g: Graph, s: State, order: seq<NodeId>, missed: set<NodeId>)
    requires Remembers(g, s.rows, missed)
    ensures Remembers(g, Repair(g, s, order).rows, missed - Attempts(g, s.rows, RepairList(g, s.rows, order)))
  {
    TryAllRemembers(g, s.rows, RepairList(g, s.rows, order), missed);
  }

  lemma CallCausal(g: Graph, s: State, op: Op)
    requires s.rows.Keys == Ids(g) && Causal(g, s.rows)
    ensures Causal(g, Apply(g, s, op).rows) <==> Admitted(g, s.rows, op)
  {
    hide Causal, TryAll, Fork, Dedupe, Admits;
    match op
    case View =>
    case ClaimNode(n) =>
      if Claim(s, n).1.Done? { WriteKeepsCausal(g, s.rows, n, s.rows[n].(status := RUNNING)); }
    case CompleteNode(n, path) =>
      if Complete(g, s, n, path).1.Done? { CompletionCausal(g, s.rows, n, CompletedRow(s.rows[n], path)); }
    case HandlerReports(n, r) => if n in s.rows { ReportKeepsCausal(g, s, n, r); }
    case AttachFile(n, slot, f) =>
      if n in s.rows { WriteKeepsCausal(g, s.rows, n, AddOutput(s.rows[n], slot, f)); }
    case RepairIteration(order) => RepairCausal(g, s, order);
    case ForkFrom(n) => if Fork(g, s, n).Some? { ForkCausal(g, s, n); }
  }

  /**
   On any graph, after any sequence of calls, whatever handlers report: a ready node is IDLE
   only if a predecessor finished silently since the node was last tried.
   */
  lemma {:induction false} EveryHistoryRemembers(g: Graph, ops: seq<Op>)
    ensures Remembers(g, Run(g, ops).rows, Missed(g, ops))
    decreases |ops|
  {
    hide Remembers, Apply, Tried, Silenced;
    if ops == [] {
      CreateRemembers(g);
    } else {
      var before := ops[..|ops| - 1];
      EveryHistoryRemembers(g, before);
      CallRemembers(g, Run(g, before), ops[|ops| - 1], Missed(g, before));
      MissedMore(g, ops);
    }
  }

  lemma RowsOfNodes(g: Graph, ops: seq<Op>)
    ensures Run(g, ops).rows.Keys == Ids(g)
  {
    EveryHistoryRemembers(g, ops);
  }

  /** Every report of the history is admitted by the rows it finds. */
  ghost predicate Admissible(g: Graph, ops: seq<Op>) {
    ops != [] ==>
      Admissible(g, ops[..|ops| - 1]) && Admitted(g, Run(g, ops[..|ops| - 1]).rows, ops[|ops| - 1])
  }

  /** At every moment of the history every status is accounted for. */
  ghost predicate CausalThroughout(g: Graph, ops: seq<Op>) {
    forall i | 0 <= i <= |ops| :: Causal(g, Run(g, ops[..i]).rows)
  }

  lemma CausalThroughoutMore(g: Graph, ops: seq<Op>)
    requires ops != []
    ensures CausalThroughout(g, ops) <==> CausalThroughout(g, ops[..|ops| - 1]) && Causal(g, Run(g, ops).rows)
  {
    hide Causal, Run;
    var before := ops[..|ops| - 1];
    assert ops[..|ops|] == ops;
    forall i | 0 <= i <= |before| ensures before[..i] == ops[..i] {}
    if CausalThroughout(g, ops) {
      forall i | 0 <= i <= |before| ensures Causal(g, Run(g, before[..i]).rows) {
        assert Causal(g, Run(g, ops[..i]).rows);
      }
    }
    if CausalThroughout(g, before) && Causal(g, Run(g, ops).rows) {
      forall i | 0 <= i <= |ops| ensures Causal(g, Run(g, ops[..i]).rows) {
        if i < |ops| { assert Causal(g, Run(g, before[..i]).rows); }
      }
    }
  }

  /**
   On any graph: every status is accounted for throughout the history if and only if every report
   is admitted.  Claims, completions, uploads, repairs and forks never disturb it.
   */
  lemma {:induction false} EveryHistoryIsCausal(g: Graph, ops: seq<Op>)
    ensures CausalThroughout(g, ops) <==> Admissible(g, ops)
    ensures Admissible(g, ops) ==> Causal(g, Run(g, ops).rows)
    decreases |ops|
  {
    hide Causal, Apply, Admitted;
    if ops == [] {
      CreateCausal(g);
      assert Run(g, ops) == Create(g);
      assert forall i | 0 <= i <= |ops| :: ops[..i] == [];
    } else {
      var before := ops[..|ops| - 1];
      EveryHistoryIsCausal(g, before);
      CausalThroughoutMore(g, ops);
      RowsOfNodes(g, before);
      assert before[..|before|] == before;
      if Causal(g, Run(g, before).rows) { CallCausal(g, Run(g, before), ops[|ops| - 1]); }
      CausalNow(g, before);
    }
  }

  lemma CausalNow(g: Graph, ops: seq<Op>)
    ensures CausalThroughout(g, ops) ==> Causal(g, Run(g, ops).rows)
  {
    assert ops[..|ops|] == ops;
  }

  /** Reports on nodes that are PENDING or RUNNING, or that repeat the node's status, are admitted in every history. */
  lemma {:induction false} GentleIsAdmissible(g: Graph, ops: seq<Op>)
    requires forall i | 0 <= i < |ops| :: Gentle(Run(g, ops[..i]).rows, ops[i])
    ensures Admissible(g, ops)
    decreases |ops|
  {
    hide Run, Gentle, Admitted, Causal;
    if ops != [] {
      var before := ops[..|ops| - 1];
      forall i | 0 <= i < |before| ensures Gentle(Run(g, before[..i]).rows, before[i]) {
        assert before[..i] == ops[..i] && Gentle(Run(g, ops[..i]).rows, ops[i]);
      }
      GentleIsAdmissible(g, before);
      EveryHistoryIsCausal(g, before);
      GentleIsAdmitted(g, Run(g, before).rows, ops[|ops| - 1]);
    }
  }

  lemma NothingMissed(g: Graph, ops: seq<Op>)
    requires forall op | op in ops :: Silenced(g, op) == {}
    ensures Missed(g, ops) == {}
  {
    hide Silenced, Tried;
    forall e | e in Record(g, ops) ensures e.lost == {} {
      var i :| 0 <= i < |ops| && Record(g, ops)[i] == e;
      RecordAt(g, ops, i);
    }
    NothingLost(Record(g, ops));
  }

  /** While no handler finishes, no ready node is ever left IDLE. */
  lemma ManualHistoriesLoseNothing(g: Graph, ops: seq<Op>)
    requires forall op | op in ops && op.HandlerReports? :: !op.r.Finished?
    ensures NoLostWakeup(g, Run(g, ops).rows)
  {
    EveryHistoryRemembers(g, ops);
    NothingMissed(g, ops);
    var rows := Run(g, ops).rows;
    forall n | n in rows && rows[n].status == IDLE ensures Held(g, rows, n) {
      assert !Overlooked(g, rows, n);
    }
  }
}
