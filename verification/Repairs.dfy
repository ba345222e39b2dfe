/**
 Repair after an interrupted advancement.  The rows it starts from are arbitrary, so they
 include whatever an interruption can leave behind.
 */
module Repairs {
  import opened Wrappers
  import opened Flow
  import opened Runtime
  import opened Activation
  import opened Settling
  import opened Lifecycle
  import opened Runs
  import opened Histories

  /** `order` lists every COMPLETED row, as the database returns them in some order. */
  ghost predicate Covers(order: seq<NodeId>, rows: Rows) {
    forall n | n in rows && rows[n].status == COMPLETED :: n in order
  }

  ghost function Repaired(g: Graph, rows: Rows, order: seq<NodeId>): (r: Rows)
    ensures Evolves(rows, r)
    ensures forall verdict :: Repair(g, State(rows, verdict), order).rows == r
  {
    TryAll(g, rows, RepairList(g, rows, order))
  }

  /** After repair no successor of a COMPLETED node would still fire. */
  lemma RepairLeavesNothingToFire(g: Graph, rows: Rows, order: seq<NodeId>, p: NodeId, n: NodeId)
    requires Covers(order, rows)
    requires Edge(p, n) in g.edges && StatusOf(Repaired(g, rows, order), p) == COMPLETED
    ensures Decide(g, Repaired(g, rows, order), n).None?
  {
    var ts := RepairList(g, rows, order);
    var rows' := Repaired(g, rows, order);
    TryAllIsSettled(g, rows, ts);
    if n in rows' && rows'[n].status == IDLE {
      if rows[p].status == COMPLETED {
        assert n in Targets(g.edges, p) && StatusOf(rows, n) == IDLE;
        assert NeedsRepair(g, rows, p);
        assert n in ts;
      } else {
        assert p in Prereqs(g, n) && Turned(rows, rows', p, COMPLETED);
      }
      assert Attempted(g, Elements(ts), rows, rows', n);
    }
  }

  lemma {:induction false} NothingFires(g: Graph, rows: Rows, ts: seq<NodeId>)
    requires forall t | t in ts :: Decide(g, rows, t).None?
    ensures TryAll(g, rows, ts) == rows
    decreases |ts|
  {
    if ts != [] {
      assert ts[0] in ts;
      NothingFires(g, rows, ts[1..]);
    }
  }

  /** A second repair, in any order of rows, changes nothing at all. */
  lemma RepairIsIdempotent(g: Graph, s: State, order: seq<NodeId>, order': seq<NodeId>)
    requires Covers(order, s.rows)
    ensures var once := Repair(g, s, order); Repair(g, once, order') == once
  {
    var once := Repair(g, s, order);
    assert once.rows == Repaired(g, s.rows, order);
    var ts := RepairList(g, once.rows, order');
    forall t | t in ts ensures Decide(g, once.rows, t).None? {
      var p :| p in order' && NeedsRepair(g, once.rows, p) && Edge(p, t) in g.edges;
      RepairLeavesNothingToFire(g, s.rows, order, p, t);
    }
    NothingFires(g, once.rows, ts);
  }

  /** Ready, known, and still IDLE. */
  ghost predicate Forgotten(g: Graph, rows: Rows, n: NodeId) {
    Overlooked(g, rows, n) && n in Ids(g) && HasInEdge(g, n)
  }

  /** IDLE although every predecessor is SKIPPED: what an interrupted skip cascade leaves. */
  ghost predicate Stranded(g: Graph, rows: Rows, n: NodeId) {
    && n in rows && rows[n].status == IDLE && n in Ids(g) && HasInEdge(g, n)
    && forall p | p in Prereqs(g, n) :: StatusOf(rows, p) == SKIPPED
  }

  /**
   The exact reach of repair: a node is forgotten afterwards if and only if it was already
   stranded before, because repair restarts from COMPLETED nodes only.
   */
  lemma RepairMissesExactlyTheStranded(g: Graph, rows: Rows, order: seq<NodeId>, n: NodeId)
    requires Covers(order, rows)
    ensures Forgotten(g, Repaired(g, rows, order), n) <==> Stranded(g, rows, n)
  {
    var rows' := Repaired(g, rows, order);
    if Forgotten(g, rows', n) { ForgottenWasStranded(g, rows, order, n); }
    if Stranded(g, rows, n) { StrandedIsForgotten(g, rows, order, n); }
  }

  lemma ForgottenWasStranded(g: Graph, rows: Rows, order: seq<NodeId>, n: NodeId)
    requires Covers(order, rows) && Forgotten(g, Repaired(g, rows, order), n)
    ensures Stranded(g, rows, n)
  {
    var rows' := Repaired(g, rows, order);
    TryAllIsSettled(g, rows, RepairList(g, rows, order));
    assert !PredSkipped(g, rows, rows', n);
    forall p | p in Prereqs(g, n) ensures StatusOf(rows, p) == SKIPPED {
      assert Cleared(StatusOf(rows', p));
      if StatusOf(rows', p) == COMPLETED {
        RepairLeavesNothingToFire(g, rows, order, p, n);
        UnfiredIsHeld(g, rows', n);
      }
      assert !Turned(rows, rows', p, SKIPPED);
    }
  }

  lemma StrandedIsForgotten(g: Graph, rows: Rows, order: seq<NodeId>, n: NodeId)
    requires Covers(order, rows) && Stranded(g, rows, n)
    ensures Forgotten(g, Repaired(g, rows, order), n)
  {
    var ts := RepairList(g, rows, order);
    var rows' := Repaired(g, rows, order);
    TryAllIsSettled(g, rows, ts);
    forall p | p in Prereqs(g, n) ensures StatusOf(rows', p) == SKIPPED && !Turned(rows, rows', p, SKIPPED) {
      assert StatusOf(rows, p) == SKIPPED;
    }
    forall q | Edge(q, n) in g.edges ensures !NeedsRepair(g, rows, q) {
      assert q in Prereqs(g, n);
    }
    assert !Attempted(g, Elements(ts), rows, rows', n) && !PredSkipped(g, rows, rows', n);
    if SkippedByCascade(g, rows, rows', n) {
      var k: nat :| k > 0 && SkipTraced(g, rows, rows', n, k);
      var p :| p in Prereqs(g, n) && SkipTraced(g, rows, rows', p, k - 1);
    }
    assert !Left(rows, rows', n);
  }

  /** Whole-iteration form: repair restores the run's invariant unless something was stranded. */
  lemma RepairRestores(g: Graph, rows: Rows, order: seq<NodeId>)
    requires Covers(order, rows) && rows.Keys == Ids(g)
    requires forall n | n in rows && rows[n].status == IDLE :: HasInEdge(g, n)
    ensures NoLostWakeup(g, Repaired(g, rows, order)) <==> forall n | n in rows :: !Stranded(g, rows, n)
  {
    var rows' := Repaired(g, rows, order);
    forall n ensures Forgotten(g, rows', n) <==> Stranded(g, rows, n) {
      RepairMissesExactlyTheStranded(g, rows, order, n);
    }
    if n :| n in rows && Stranded(g, rows, n) {
      assert Forgotten(g, rows', n);
    }
  }

  // ------------------------------------------------------------ completions without an advancement

  /**
   An automatic handler stores COMPLETED without advancing the workflow.  A wakeup is lost
   exactly when some IDLE successor was waiting for that node alone.
   */
  lemma SilentCompletion(g: Graph, rows: Rows, n: NodeId, row: Row)
    requires NoLostWakeup(g, rows) && n in rows && rows[n].status == RUNNING && row.status == COMPLETED
    ensures NoLostWakeup(g, rows[n := row]) <==>
      forall t | t in rows && rows[t].status == IDLE && Edge(n, t) in g.edges ::
        exists p | p in Prereqs(g, t) :: p != n && !Cleared(StatusOf(rows, p))
  {
    var rows' := rows[n := row];
    forall t | t in rows && rows[t].status == IDLE
      ensures Held(g, rows', t) <==> exists p | p in Prereqs(g, t) :: p != n && !Cleared(StatusOf(rows, p))
    {
      forall p | p in Prereqs(g, t) ensures Cleared(StatusOf(rows', p)) <==> p == n || Cleared(StatusOf(rows, p)) {}
      assert (exists p | p in Prereqs(g, t) :: p != n && !Cleared(StatusOf(rows, p))) ==> Held(g, rows', t);
    }
    forall t | t in rows && rows[t].status == IDLE && Edge(n, t) !in g.edges ensures Held(g, rows', t) {
      var p :| p in Prereqs(g, t) && !Cleared(StatusOf(rows, p));
      assert p != n;
    }
  }

  /** Repair takes up whatever a silent completion left untried: nothing it can have overlooked is stranded. */
  lemma RepairClears(g: Graph, rows: Rows, order: seq<NodeId>, missed: set<NodeId>)
    requires Remembers(g, rows, missed) && Covers(order, rows)
    ensures NoLostWakeup(g, Repaired(g, rows, order))
  {
    forall t | t in rows && rows[t].status == IDLE ensures HasInEdge(g, t) && !Stranded(g, rows, t) {
      assert Held(g, rows, t) || Fed(g, rows, t);
      var p :| p in Prereqs(g, t) && StatusOf(rows, p) != SKIPPED;
      assert Edge(p, t) in g.edges;
    }
    RepairRestores(g, rows, order);
  }

  /**
   Over every history, with any number of silent completions and whatever handlers report: after
   a repair that covers the completed rows no ready node is IDLE.
   */
  lemma RepairHealsSilentCompletions(g: Graph, ops: seq<Op>, order: seq<NodeId>)
    requires Covers(order, Run(g, ops).rows)
    ensures NoLostWakeup(g, Run(g, ops + [RepairIteration(order)]).rows)
  {
    RunMore(g, ops, RepairIteration(order));
    EveryHistoryRemembers(g, ops);
    RepairClears(g, Run(g, ops).rows, order, Missed(g, ops));
  }
}
