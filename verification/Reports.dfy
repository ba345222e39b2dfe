/**
 What a handler's report asks of the rows it is written into.  A report may find its node in
 any status; exactly when every status stays accounted for is said here of the node's own
 predecessors and of its direct successors, on the rows as they are before the report.
 */
module Reports {
  import opened Wrappers
  import opened Flow
  import opened Runtime
  import opened Lifecycle
  import opened Runs

  /** The status of `p` once `n` reads `s`. */
  function StatusWith(rows: Rows, n: NodeId, s: Status, p: NodeId): Status {
    if p == n then s else StatusOf(rows, p)
  }

  ghost predicate ClearedWith(g: Graph, rows: Rows, n: NodeId, s: Status, t: NodeId) {
    forall p | p in Prereqs(g, t) :: Cleared(StatusWith(rows, n, s, p))
  }

  ghost predicate TerminalWith(g: Graph, rows: Rows, n: NodeId, s: Status, t: NodeId) {
    forall p | p in Prereqs(g, t) :: !Open(StatusWith(rows, n, s, p))
  }

  /** The answer of an evaluated gateway: from what it recorded, or from the statuses. */
  predicate SaysWith(g: Graph, rows: Rows, n: NodeId, s: Status, node: Node, passed: bool)
    requires node.id in rows
  {
    if HasFileInputs(node)
    then FileGate(node, rows[node.id].inputs) == passed
    else EvaluateGateway(node.logic, map p | p in Prereqs(g, node.id) :: StatusWith(rows, n, s, p)) == passed
  }

  /** A SKIPPED gateway, other than `n`, that blocks. */
  ghost predicate BlockedWith(g: Graph, rows: Rows, n: NodeId, s: Status, t: NodeId)
    requires t in rows
  {
    TerminalWith(g, rows, n, s, t)
    && var node := Find(g.nodes, t);
       node.Some? && node.value.kind == GATEWAY && SaysWith(g, rows, n, s, node.value, false)
  }

  /** `t` lies `k` SKIPPED steps behind a gateway that blocks, and `n` is not on the way. */
  ghost predicate TracesWith(g: Graph, rows: Rows, n: NodeId, s: Status, t: NodeId, k: nat)
    decreases k
  {
    && t != n && t in rows && rows[t].status == SKIPPED
    && if k == 0 then BlockedWith(g, rows, n, s, t)
       else exists p | p in Prereqs(g, t) :: TracesWith(g, rows, n, s, p, k - 1)
  }

  /** What the status `st` of a node asks of its predecessors, once `n` reads `s`. */
  ghost predicate Asks(g: Graph, rows: Rows, n: NodeId, s: Status, node: Node, st: Status)
    requires node.id in rows
  {
    match st
    case IDLE => true
    case SKIPPED => exists k: nat :: TracesWith(g, rows, n, s, node.id, k)
    case COMPLETED =>
      if node.kind == GATEWAY
      then TerminalWith(g, rows, n, s, node.id) && (HasInEdge(g, node.id) ==> SaysWith(g, rows, n, s, node, true))
      else ClearedWith(g, rows, n, s, node.id)
    case _ =>
      if node.kind == GATEWAY then !HasInEdge(g, node.id) else ClearedWith(g, rows, n, s, node.id)
  }

  /** The node's predecessors bear its new status, and each direct successor's status bears the new one of `n`. */
  ghost predicate Admits(g: Graph, rows: Rows, n: NodeId, s: Status)
    requires n in rows
  {
    && Find(g.nodes, n).Some? && Asks(g, rows, n, s, Find(g.nodes, n).value, s)
    && forall m | Edge(n, m) in g.edges && m in rows && m != n ::
         Find(g.nodes, m).Some? && Asks(g, rows, n, s, Find(g.nodes, m).value, rows[m].status)
  }

  // ------------------------------------------------------------ the same on the rows afterwards

  /** The row a report leaves: nothing but the status and the path changes. */
  ghost predicate Relabelled(rows: Rows, n: NodeId, s: Status, rows': Rows) {
    && n in rows && n in rows' && s != IDLE && s != SKIPPED
    && rows' == rows[n := rows'[n]] && rows'[n].status == s && rows'[n].inputs == rows[n].inputs
  }

  lemma StatusesWith(g: Graph, rows: Rows, n: NodeId, s: Status, rows': Rows, t: NodeId)
    requires Relabelled(rows, n, s, rows')
    ensures forall p :: StatusOf(rows', p) == StatusWith(rows, n, s, p)
    ensures TerminalWith(g, rows, n, s, t) <==> PrereqsTerminal(g, rows', t)
    ensures PrereqStatuses(g, rows', t) == map p | p in Prereqs(g, t) :: StatusWith(rows, n, s, p)
  {
    assert forall p :: StatusOf(rows', p) == StatusWith(rows, n, s, p);
  }

  lemma {:induction false} TracesAfter(g: Graph, rows: Rows, n: NodeId, s: Status, rows': Rows, t: NodeId, k: nat)
    requires Relabelled(rows, n, s, rows')
    ensures TracesWith(g, rows, n, s, t, k) <==> TracesToGate(g, rows', t, k)
    decreases k
  {
    StatusesWith(g, rows, n, s, rows', t);
    if k > 0 {
      forall p | p in Prereqs(g, t) ensures TracesWith(g, rows, n, s, p, k - 1) <==> TracesToGate(g, rows', p, k - 1) {
        TracesAfter(g, rows, n, s, rows', p, k - 1);
      }
    }
  }

  lemma AsksAfter(g: Graph, rows: Rows, n: NodeId, s: Status, rows': Rows, node: Node)
    requires Relabelled(rows, n, s, rows') && node.id in rows
    ensures CausalAt(g, rows', node) <==> Asks(g, rows, n, s, node, StatusWith(rows, n, s, node.id))
  {
    StatusesWith(g, rows, n, s, rows', node.id);
    forall k: nat ensures TracesWith(g, rows, n, s, node.id, k) <==> TracesToGate(g, rows', node.id, k) {
      TracesAfter(g, rows, n, s, rows', node.id, k);
    }
  }

  // ------------------------------------------------------------ from the successors to everyone

  /** Every direct successor of `n` that is SKIPPED keeps a trace. */
  ghost predicate SuccessorsTrace(g: Graph, rows: Rows, n: NodeId, s: Status) {
    forall m | Edge(n, m) in g.edges && m in rows && m != n && rows[m].status == SKIPPED ::
      exists k: nat :: TracesWith(g, rows, n, s, m, k)
  }

  /** Then so does every other SKIPPED node: a trace through `n` enters a successor first. */
  lemma {:induction false} TraceSurvives(g: Graph, rows: Rows, n: NodeId, s: Status, t: NodeId, k: nat)
    requires SuccessorsTrace(g, rows, n, s) && t != n && TracesToGate(g, rows, t, k)
    ensures exists j: nat :: TracesWith(g, rows, n, s, t, j)
    decreases k
  {
    if Edge(n, t) !in g.edges {
      assert n !in Prereqs(g, t);
      if k == 0 {
        UntouchedBlocks(g, rows, n, s, t);
        assert TracesWith(g, rows, n, s, t, 0);
      } else {
        var p :| p in Prereqs(g, t) && TracesToGate(g, rows, p, k - 1);
        TraceSurvives(g, rows, n, s, p, k - 1);
        var j: nat :| TracesWith(g, rows, n, s, p, j);
        assert TracesWith(g, rows, n, s, t, j + 1);
      }
    }
  }

  lemma UntouchedBlocks(g: Graph, rows: Rows, n: NodeId, s: Status, t: NodeId)
    requires n !in Prereqs(g, t) && BlockedGate(g, rows, t)
    ensures BlockedWith(g, rows, n, s, t)
  {
    assert PrereqStatuses(g, rows, t) == map p | p in Prereqs(g, t) :: StatusWith(rows, n, s, p);
  }

  /** A node that `n` does not precede is asked what it was asked before. */
  lemma UntouchedAsks(g: Graph, rows: Rows, n: NodeId, s: Status, node: Node)
    requires node.id in rows && node.id != n && n !in Prereqs(g, node.id)
    requires CausalAt(g, rows, node) && SuccessorsTrace(g, rows, n, s)
    ensures Asks(g, rows, n, s, node, rows[node.id].status)
  {
    if rows[node.id].status == SKIPPED {
      var k: nat :| TracesToGate(g, rows, node.id, k);
      TraceSurvives(g, rows, n, s, node.id, k);
    } else {
      assert forall p | p in Prereqs(g, node.id) :: StatusWith(rows, n, s, p) == StatusOf(rows, p);
      assert PrereqStatuses(g, rows, node.id) == map p | p in Prereqs(g, node.id) :: StatusWith(rows, n, s, p);
    }
  }

  lemma AdmittedTrace(g: Graph, rows: Rows, n: NodeId, s: Status)
    requires n in rows && Admits(g, rows, n, s)
    ensures SuccessorsTrace(g, rows, n, s)
  {
  }

  lemma RelabelledCausal(g: Graph, rows: Rows, n: NodeId, s: Status, rows': Rows)
    requires Causal(g, rows) && Relabelled(rows, n, s, rows')
    ensures Causal(g, rows') <==> Admits(g, rows, n, s)
  {
    forall m | m in rows
      ensures Find(g.nodes, m).Some?
      ensures var node := Find(g.nodes, m).value;
        CausalAt(g, rows', node) <==> Asks(g, rows, n, s, node, StatusWith(rows, n, s, m))
    {
      AsksAfter(g, rows, n, s, rows', Find(g.nodes, m).value);
    }
    assert rows'.Keys == rows.Keys;
    if Admits(g, rows, n, s) {
      AdmittedTrace(g, rows, n, s);
      forall m | m in rows ensures CausalAt(g, rows', Find(g.nodes, m).value) {
        if m != n && Edge(n, m) !in g.edges {
          assert n !in Prereqs(g, m);
          UntouchedAsks(g, rows, n, s, Find(g.nodes, m).value);
        }
      }
    }
    hide CausalAt, Asks;
  }

  /** A report keeps every status accounted for if and only if the rows admit it. */
  lemma ReportKeepsCausal(g: Graph, s: State, n: NodeId, r: Report)
    requires Causal(g, s.rows) && n in s.rows
    ensures Causal(g, Handle(s, n, r).rows) <==> Admits(g, s.rows, n, Written(r))
  {
    hide Causal, Admits;
    RelabelledCausal(g, s.rows, n, Written(r), Handle(s, n, r).rows);
  }

  // ------------------------------------------------------------ reports that are always admitted

  /** On a node that is waiting to be claimed or is running, any report is admitted. */
  lemma ActiveAdmits(g: Graph, rows: Rows, n: NodeId, s: Status)
    requires Causal(g, rows) && n in rows && (rows[n].status == PENDING || rows[n].status == RUNNING)
    requires s == RUNNING || s == COMPLETED || s == ERROR
    ensures Admits(g, rows, n, s)
  {
    ActiveBears(g, rows, n, s);
    forall m | Edge(n, m) in g.edges && m in rows && m != n
      ensures Find(g.nodes, m).Some? && Asks(g, rows, n, s, Find(g.nodes, m).value, rows[m].status)
    {
      BehindActive(g, rows, n, s, m);
    }
    hide Asks, Causal;
  }

  lemma ActiveBears(g: Graph, rows: Rows, n: NodeId, s: Status)
    requires Causal(g, rows) && n in rows && (rows[n].status == PENDING || rows[n].status == RUNNING)
    requires s == RUNNING || s == COMPLETED || s == ERROR
    ensures Find(g.nodes, n).Some? && Asks(g, rows, n, s, Find(g.nodes, n).value, s)
  {
    var node := Find(g.nodes, n).value;
    assert CausalAt(g, rows, node);
    if node.kind == GATEWAY {
      assert forall p | p in Prereqs(g, n) :: Edge(p, n) in g.edges;
      assert Prereqs(g, n) == {};
    } else {
      assert n !in Prereqs(g, n);
    }
  }

  /** Behind an open node nothing but IDLE and SKIPPED stands, and no trace passes through it. */
  lemma BehindActive(g: Graph, rows: Rows, n: NodeId, s: Status, m: NodeId)
    requires Causal(g, rows) && n in rows && (rows[n].status == PENDING || rows[n].status == RUNNING)
    requires Edge(n, m) in g.edges && m in rows && m != n
    ensures Find(g.nodes, m).Some? && Asks(g, rows, n, s, Find(g.nodes, m).value, rows[m].status)
  {
    var node := Find(g.nodes, m).value;
    assert CausalAt(g, rows, node) && n in Prereqs(g, m) && HasInEdge(g, m);
    if rows[m].status == SKIPPED {
      var k: nat :| TracesToGate(g, rows, m, k);
      TraceAvoids(g, rows, n, s, m, k);
    }
  }

  lemma {:induction false} TraceAvoids(g: Graph, rows: Rows, n: NodeId, s: Status, t: NodeId, k: nat)
    requires n in rows && Open(rows[n].status) && TracesToGate(g, rows, t, k)
    ensures TracesWith(g, rows, n, s, t, k)
    decreases k
  {
    if k == 0 {
      assert n !in Prereqs(g, t);
      UntouchedBlocks(g, rows, n, s, t);
    } else {
      var p :| p in Prereqs(g, t) && TracesToGate(g, rows, p, k - 1);
      TraceAvoids(g, rows, n, s, p, k - 1);
    }
  }

  /** Reporting the status that the node has is admitted. */
  lemma RepeatAdmits(g: Graph, rows: Rows, n: NodeId, s: Status)
    requires Causal(g, rows) && n in rows && rows[n].status == s && s != IDLE && s != SKIPPED
    ensures Admits(g, rows, n, s)
  {
    assert rows[n := rows[n]] == rows;
    RelabelledCausal(g, rows, n, s, rows);
  }

  /** The report finds its node PENDING or RUNNING, or in the status it writes. */
  predicate Gentle(rows: Rows, op: Op) {
    op.HandlerReports? && op.n in rows ==>
      var status := rows[op.n].status; status == PENDING || status == RUNNING || status == Written(op.r)
  }

  /** The call is no report that the rows do not admit. */
  ghost predicate Admitted(g: Graph, rows: Rows, op: Op) {
    op.HandlerReports? && op.n in rows ==> Admits(g, rows, op.n, Written(op.r))
  }

  lemma GentleIsAdmitted(g: Graph, rows: Rows, op: Op)
    requires Causal(g, rows) && Gentle(rows, op)
    ensures Admitted(g, rows, op)
  {
    if op.HandlerReports? && op.n in rows {
      if rows[op.n].status == Written(op.r) {
        RepeatAdmits(g, rows, op.n, Written(op.r));
      } else {
        ActiveAdmits(g, rows, op.n, Written(op.r));
      }
    }
  }
}
