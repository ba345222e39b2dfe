/**
 No reachable state is a dead end: on an acyclic graph whose edges join nodes, every
 history, silent completions and forks included, can be continued by hand until the
 iteration is COMPLETED, exactly if no node has failed.
 */
module Finishing {
  import opened Wrappers
  import opened Flow
  import opened Runtime
  import opened Activation
  import opened Lifecycle
  import opened Runs
  import opened Histories
  import opened Progress
  import opened Repairs

  ghost function OpenSet(rows: Rows): set<NodeId> {
    set n | n in rows && Open(rows[n].status)
  }

  ghost function PendingSet(rows: Rows): set<NodeId> {
    set n | n in rows && rows[n].status == PENDING
  }

  /** Views, claims, completions, uploads and repairs: no handler reports, and the run is not forked. */
  predicate ByHand(ops: seq<Op>) {
    forall op | op in ops :: !op.HandlerReports? && !op.ForkFrom?
  }

  /** Nothing is overlooked. */
  ghost predicate Awake(g: Graph, ops: seq<Op>) {
    Remembers(g, Run(g, ops).rows, {})
  }

  lemma StaysAwake(g: Graph, ops: seq<Op>, op: Op)
    requires Awake(g, ops) && Silenced(g, op) == {}
    ensures Awake(g, ops + [op])
  {
    RunMore(g, ops, op);
    CallRemembers(g, Run(g, ops), op, {});
    assert {} - Tried(g, Run(g, ops), op) + {} == {};
  }

  // ------------------------------------------------------------ uploading what is required

  ghost predicate Filled(row: Row, outs: seq<Output>) {
    forall o | o in outs :: o.id in row.outputs && row.outputs[o.id] != []
  }

  /** `b` is `a` with more files in the outputs of `n`. */
  ghost predicate OnlyUploads(a: State, b: State, n: NodeId) {
    && n in a.rows && b.verdict == a.verdict
    && b.rows.Keys == a.rows.Keys
    && (forall m | m in a.rows && m != n :: b.rows[m] == a.rows[m])
    && b.rows[n] == a.rows[n].(outputs := b.rows[n].outputs)
    && forall k | k in a.rows[n].outputs && a.rows[n].outputs[k] != [] ::
      k in b.rows[n].outputs && b.rows[n].outputs[k] != []
  }

  lemma AttachOne(g: Graph, ops: seq<Op>, n: NodeId, o: Output)
    requires n in Run(g, ops).rows
    ensures var s' := Run(g, ops + [AttachFile(n, o.id, 0)]);
      OnlyUploads(Run(g, ops), s', n) && Filled(s'.rows[n], [o])
  {
    RunMore(g, ops, AttachFile(n, o.id, 0));
    var s := Run(g, ops);
    var current := if o.id in s.rows[n].outputs then s.rows[n].outputs[o.id] else [];
    assert 0 in current + [0];
    assert 0 in Dedupe(current + [0]);
  }

  lemma {:induction false} AttachAll(g: Graph, ops: seq<Op>, n: NodeId, outs: seq<Output>) returns (more: seq<Op>)
    requires n in Run(g, ops).rows
    ensures OnlyUploads(Run(g, ops), Run(g, ops + more), n) && Filled(Run(g, ops + more).rows[n], outs)
    ensures ByHand(more)
    ensures Awake(g, ops) ==> Awake(g, ops + more)
    decreases |outs|
  {
    if outs == [] {
      more := [];
      assert ops + more == ops;
    } else {
      var before := AttachAll(g, ops, n, outs[1..]);
      AttachOne(g, ops + before, n, outs[0]);
      if Awake(g, ops) { StaysAwake(g, ops + before, AttachFile(n, outs[0].id, 0)); }
      more := before + [AttachFile(n, outs[0].id, 0)];
      assert ops + more == ops + before + [AttachFile(n, outs[0].id, 0)];
      assert forall o :: o in outs <==> o == outs[0] || o in outs[1..];
      assert outs[0] in [outs[0]];
    }
  }

  // ------------------------------------------------------------ one step closer

  lemma ClaimCloser(g: Graph, ops: seq<Op>, n: NodeId)
    requires ErrorFree(Run(g, ops).rows)
    requires n in Run(g, ops).rows && Run(g, ops).rows[n].status == PENDING
    ensures var rows, rows' := Run(g, ops).rows, Run(g, ops + [ClaimNode(n)]).rows;
      ErrorFree(rows') && OpenSet(rows') == OpenSet(rows) && PendingSet(rows') < PendingSet(rows)
  {
    RunMore(g, ops, ClaimNode(n));
    hide Run;
    var rows, rows' := Run(g, ops).rows, Run(g, ops + [ClaimNode(n)]).rows;
    assert rows' == rows[n := rows[n].(status := RUNNING)];
    hide Apply;
    assert n in PendingSet(rows) && n !in PendingSet(rows');
  }

  lemma CompleteCloser(g: Graph, s: State, n: NodeId)
    requires ErrorFree(s.rows) && n in s.rows && s.rows[n].status == RUNNING
    requires !OutputsMissing(g, s.rows[n], n, None)
    ensures var rows' := Complete(g, s, n, None).0.rows;
      ErrorFree(rows') && OpenSet(rows') < OpenSet(s.rows)
  {
    var written := s.rows[n := CompletedRow(s.rows[n], None)];
    var rows' := Complete(g, s, n, None).0.rows;
    assert rows' == TryAll(g, written, Targets(g.edges, n));
    forall m | m in written ensures Onward(written[m].status, rows'[m].status) {
      TryAllOnward(g, written, Targets(g.edges, n), m);
    }
    assert n in OpenSet(s.rows) && n !in OpenSet(rows');
  }

  lemma FinishRunning(g: Graph, ops: seq<Op>, n: NodeId) returns (more: seq<Op>)
    requires ErrorFree(Run(g, ops).rows)
    requires n in Run(g, ops).rows && Run(g, ops).rows[n].status == RUNNING
    ensures ByHand(more) && (Awake(g, ops) ==> Awake(g, ops + more))
    ensures ErrorFree(Run(g, ops + more).rows) && OpenSet(Run(g, ops + more).rows) < OpenSet(Run(g, ops).rows)
  {
    hide Run, Complete, Awake;
    var outs := if Find(g.nodes, n).Some? then Find(g.nodes, n).value.outputs else [];
    var uploads := AttachAll(g, ops, n, outs);
    var s, s' := Run(g, ops), Run(g, ops + uploads);
    assert OpenSet(s'.rows) == OpenSet(s.rows);
    CompleteCloser(g, s', n);
    RunMore(g, ops + uploads, CompleteNode(n, None));
    if Awake(g, ops) { StaysAwake(g, ops + uploads, CompleteNode(n, None)); }
    more := uploads + [CompleteNode(n, None)];
    assert ops + more == ops + uploads + [CompleteNode(n, None)];
  }

  /** Somebody can act: one more claim, or one more completion with its uploads. */
  lemma OneStepCloser(g: Graph, ops: seq<Op>) returns (step: seq<Op>)
    requires ErrorFree(Run(g, ops).rows) && !Quiet(Run(g, ops).rows)
    ensures ByHand(step) && (Awake(g, ops) ==> Awake(g, ops + step))
    ensures var rows, rows' := Run(g, ops).rows, Run(g, ops + step).rows;
      && ErrorFree(rows')
      && (OpenSet(rows') < OpenSet(rows) || (OpenSet(rows') == OpenSet(rows) && PendingSet(rows') < PendingSet(rows)))
  {
    hide Run, OpenSet, PendingSet, Awake;
    var rows := Run(g, ops).rows;
    var n :| n in rows && (rows[n].status == PENDING || rows[n].status == RUNNING);
    if rows[n].status == PENDING {
      ClaimCloser(g, ops, n);
      if Awake(g, ops) { StaysAwake(g, ops, ClaimNode(n)); }
      step := [ClaimNode(n)];
    } else {
      step := FinishRunning(g, ops, n);
    }
  }

  // ------------------------------------------------------------ the theorem

  ghost predicate Finished(g: Graph, s: State) {
    (forall n | n in s.rows :: Cleared(s.rows[n].status)) && s.verdict == Completed
  }

  /** When nothing is overlooked and nobody can act, one more read finds the iteration finished. */
  lemma QuietIsFinished(g: Graph, rank: NodeId -> nat, ops: seq<Op>)
    requires Ranked(g, rank) && EdgesJoinNodes(g) && g.nodes != []
    requires Awake(g, ops) && ErrorFree(Run(g, ops).rows) && Quiet(Run(g, ops).rows)
    ensures Finished(g, Run(g, ops + [View]))
  {
    var rows := Run(g, ops).rows;
    RunMore(g, ops, View);
    forall n | n in Ids(g) ensures rows[n].status != IDLE {
      if rows[n].status == IDLE {
        IdleHasRoot(g, rank, rows, n);
        var a :| Reaches(g, a, n) && Root(g, rows, a);
        ReachedFromNode(g, a, n);
        assert false;
      }
    }
    AllLeftIdle(g, rows);
    RowsOfNodes(g, ops);
  }

  lemma {:induction false} CanFinishAwake(g: Graph, rank: NodeId -> nat, ops: seq<Op>)
    requires Ranked(g, rank) && EdgesJoinNodes(g) && g.nodes != []
    requires Awake(g, ops) && ErrorFree(Run(g, ops).rows)
    ensures exists more :: ByHand(more) && Finished(g, Run(g, ops + more))
    decreases OpenSet(Run(g, ops).rows), PendingSet(Run(g, ops).rows)
  {
    hide Run, OpenSet, PendingSet, ErrorFree, Quiet, Ranked, Awake, Finished;
    if Quiet(Run(g, ops).rows) {
      QuietIsFinished(g, rank, ops);
      assert ByHand([View]);
    } else {
      var step := OneStepCloser(g, ops);
      CanFinishAwake(g, rank, ops + step);
      var more :| ByHand(more) && Finished(g, Run(g, ops + step + more));
      assert ByHand(step + more);
      assert ops + (step + more) == ops + step + more;
    }
  }

  /** All node ids, in the order of the definition. */
  function InOrderOfNodes(g: Graph): (order: seq<NodeId>)
    ensures forall n :: n in order <==> n in Ids(g)
  {
    var order := seq(|g.nodes|, i requires 0 <= i < |g.nodes| => g.nodes[i].id);
    assert forall i | 0 <= i < |g.nodes| :: order[i] == g.nodes[i].id;
    order
  }

  lemma RepairBreaksNothing(g: Graph, rows: Rows, order: seq<NodeId>)
    requires ErrorFree(rows)
    ensures ErrorFree(Repaired(g, rows, order))
  {
    var ts := RepairList(g, rows, order);
    forall n | n in rows ensures Onward(rows[n].status, Repaired(g, rows, order)[n].status) {
      TryAllOnward(g, rows, ts, n);
    }
  }

  lemma NothingOverlooked(g: Graph, rows: Rows)
    requires rows.Keys == Ids(g) && NoLostWakeup(g, rows)
    ensures Remembers(g, rows, {})
  {
  }

  lemma AllCovered(g: Graph, rows: Rows)
    requires rows.Keys == Ids(g)
    ensures Covers(InOrderOfNodes(g), rows)
  {
  }

  lemma RepairWakes(g: Graph, ops: seq<Op>)
    requires ErrorFree(Run(g, ops).rows)
    ensures var more := [RepairIteration(InOrderOfNodes(g))]; Awake(g, ops + more) && ErrorFree(Run(g, ops + more).rows)
  {
    hide NoLostWakeup, Remembers, ErrorFree, Covers, Run, TryAll, InOrderOfNodes, Reconcile;
    var order := InOrderOfNodes(g);
    RowsOfNodes(g, ops);
    AllCovered(g, Run(g, ops).rows);
    RepairHealsSilentCompletions(g, ops, order);
    RunMore(g, ops, RepairIteration(order));
    RepairBreaksNothing(g, Run(g, ops).rows, order);
    RowsOfNodes(g, ops + [RepairIteration(order)]);
    NothingOverlooked(g, Run(g, ops + [RepairIteration(order)]).rows);
  }

  /** A repair, then claims, uploads and completions, and a last read. */
  lemma FinishByHand(g: Graph, rank: NodeId -> nat, ops: seq<Op>)
    requires Ranked(g, rank) && EdgesJoinNodes(g) && g.nodes != []
    requires ErrorFree(Run(g, ops).rows)
    ensures exists more :: ByHand(more) && Finished(g, Run(g, ops + more))
  {
    hide Run, ErrorFree, Ranked, Awake, Finished;
    var repair := [RepairIteration(InOrderOfNodes(g))];
    RepairWakes(g, ops);
    CanFinishAwake(g, rank, ops + repair);
    var more :| ByHand(more) && Finished(g, Run(g, ops + repair + more));
    assert ByHand(repair + more);
    assert ops + (repair + more) == ops + repair + more;
  }

  /** By hand a failure is never undone. */
  lemma {:induction false} ErrorsStay(g: Graph, ops: seq<Op>, more: seq<Op>, n: NodeId)
    requires ByHand(more) && n in Run(g, ops).rows && Run(g, ops).rows[n].status == ERROR
    ensures n in Run(g, ops + more).rows && Run(g, ops + more).rows[n].status == ERROR
    decreases |more|
  {
    hide Apply, Onward;
    if more == [] {
      assert ops + more == ops;
    } else {
      var short, op := more[..|more| - 1], more[|more| - 1];
      ErrorsStay(g, ops, short, n);
      assert ops + more == ops + short + [op];
      RunMore(g, ops + short, op);
      CallMovesForward(g, Run(g, ops + short), op, n);
      FailedIsFinal();
    }
  }

  lemma FailedIsFinal()
    ensures forall s :: Onward(ERROR, s) ==> s == ERROR
  {
  }

  /** Going on by hand the iteration can be brought to COMPLETED if and only if no node has failed. */
  lemma CanFinish(g: Graph, rank: NodeId -> nat, ops: seq<Op>)
    requires Ranked(g, rank) && EdgesJoinNodes(g) && g.nodes != []
    ensures (exists more :: ByHand(more) && Finished(g, Run(g, ops + more))) <==> ErrorFree(Run(g, ops).rows)
  {
    if ErrorFree(Run(g, ops).rows) {
      FinishByHand(g, rank, ops);
    } else {
      var n :| n in Run(g, ops).rows && Run(g, ops).rows[n].status == ERROR;
      forall more | ByHand(more) ensures !Finished(g, Run(g, ops + more)) {
        ErrorsStay(g, ops, more, n);
      }
    }
  }
}
