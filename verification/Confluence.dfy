/**
 Confluence: on an acyclic graph whose file bindings follow its edges, advancing the
 workflow computes a declarative rank-by-rank evaluation.  The order in which edges are
 listed, and how often they are repeated, cannot matter.
 */
module Confluence {
  import opened Wrappers
  import opened Flow
  import opened Runtime
  import opened Activation
  import opened Settling

  /**
   The row `n` should end with, given where its predecessors (`env`) ended: SKIPPED behind a
   newly skipped predecessor; otherwise, if it is tried at all, what one attempt decides.
   */
  ghost function Expected(g: Graph, seeds: set<NodeId>, rows0: Rows, env: Rows, n: NodeId): Row
    requires n in rows0
  {
    if rows0[n].status != IDLE then rows0[n]
    else if PredSkipped(g, rows0, env, n) then rows0[n].(status := SKIPPED)
    else if !Attempted(g, seeds, rows0, env, n) then rows0[n]
    else match Decide(g, env[n := rows0[n]], n)
      case Some(row) => row
      case None => rows0[n]
  }

  /** The rank-by-rank evaluation. */
  ghost function Evaluate(g: Graph, rank: NodeId -> nat, seeds: set<NodeId>, rows0: Rows, n: NodeId): Row
    requires Ranked(g, rank) && n in rows0
    decreases rank(n)
  {
    Expected(g, seeds, rows0, Evaluated(g, rank, seeds, rows0, n), n)
  }

  /** The evaluated rows of the predecessors of `n`. */
  ghost function Evaluated(g: Graph, rank: NodeId -> nat, seeds: set<NodeId>, rows0: Rows, n: NodeId): Rows
    requires Ranked(g, rank)
    decreases rank(n), 0
  {
    map p | p in Prereqs(g, n) * rows0.Keys :: RankBelow(g, rank, p, n); Evaluate(g, rank, seeds, rows0, p)
  }

  lemma RankBelow(g: Graph, rank: NodeId -> nat, p: NodeId, n: NodeId)
    requires Ranked(g, rank) && p in Prereqs(g, n)
    ensures rank(p) < rank(n)
  {
    assert Edge(p, n) in g.edges;
  }

  // ------------------------------------------------------------ decisions read predecessors only

  ghost predicate AgreeOn(a: Rows, b: Rows, ps: set<NodeId>) {
    forall p | p in ps :: (p in a <==> p in b) && (p in a ==> a[p] == b[p])
  }

  lemma {:induction false} ResolveAllAgrees(a: Rows, b: Rows, inputs: seq<Input>)
    requires forall i | i in inputs && Bound(i) ::
      AgreeOn(a, b, {i.source.nodeId.value})
    ensures ResolveAll(a, inputs) == ResolveAll(b, inputs)
  {
    if inputs != [] {
      ResolveAllAgrees(a, b, inputs[..|inputs| - 1]);
      var last := inputs[|inputs| - 1];
      if last.source.PREDECESSOR? && Bound(last) {
        assert last in inputs;
        var p := last.source.nodeId.value;
        assert p in {p};
        assert ResolveOne(a, last.source) == ResolveOne(b, last.source);
      }
    }
  }

  lemma ResolveInputsAgrees(g: Graph, a: Rows, b: Rows, node: Node)
    requires BindingsFollowEdges(g) && node in g.nodes
    requires AgreeOn(a, b, Prereqs(g, node.id))
    ensures ResolveInputs(a, node) == ResolveInputs(b, node)
  {
    ResolveAllAgrees(a, b, node.inputs);
  }

  lemma DecideAgrees(g: Graph, a: Rows, b: Rows, n: NodeId)
    requires BindingsFollowEdges(g)
    requires AgreeOn(a, b, Prereqs(g, n) + {n})
    ensures Decide(g, a, n) == Decide(g, b, n)
  {
    assert n in Prereqs(g, n) + {n};
    assert AgreeOn(a, b, Prereqs(g, n));
    if Find(g.nodes, n).Some? && n in a {
      var node := Find(g.nodes, n).value;
      ResolveInputsAgrees(g, a, b, node);
      assert PrereqStatuses(g, a, n) == PrereqStatuses(g, b, n);
    }
  }

  // ------------------------------------------------------------ settled rows are the expected ones

  lemma FiredIsDecided(g: Graph, rows0: Rows, rows: Rows, n: NodeId)
    requires BindingsFollowEdges(g) && Fired(g, rows0, rows, n)
    ensures n in rows0 && Decide(g, rows[n := rows0[n]], n) == Some(rows[n])
  {
    var snap :| FiredAt(g, rows0, snap, rows, n);
    DecideFacts(g, snap, n);
    hide Decide, BindingsFollowEdges;
    assert AgreeOn(snap, rows[n := rows0[n]], Prereqs(g, n) + {n});
    DecideAgrees(g, snap, rows[n := rows0[n]], n);
  }

  lemma CascadeHasSkippedPred(g: Graph, rows0: Rows, rows: Rows, n: NodeId)
    requires SkippedByCascade(g, rows0, rows, n)
    ensures n in rows0 && n in rows && rows[n] == rows0[n].(status := SKIPPED) && PredSkipped(g, rows0, rows, n)
  {
    var k: nat :| k > 0 && SkipTraced(g, rows0, rows, n, k);
    var p :| p in Prereqs(g, n) && SkipTraced(g, rows0, rows, p, k - 1);
  }

  lemma SettledIsExpected(g: Graph, seeds: set<NodeId>, rows0: Rows, rows: Rows, n: NodeId)
    requires BindingsFollowEdges(g)
    requires Settled(g, seeds, rows0, rows) && n in rows0
    ensures rows[n] == Expected(g, seeds, rows0, rows, n)
  {
    if Left(rows0, rows, n) {
      assert Explained(g, seeds, rows0, rows, n);
      if SkippedByCascade(g, rows0, rows, n) {
        CascadeHasSkippedPred(g, rows0, rows, n);
      } else {
        FiredIsDecided(g, rows0, rows, n);
      }
    } else if rows0[n].status == IDLE {
      assert rows[n := rows0[n]] == rows;
    }
  }

  lemma ExpectedAgrees(g: Graph, seeds: set<NodeId>, rows0: Rows, a: Rows, b: Rows, n: NodeId)
    requires BindingsFollowEdges(g) && n in rows0
    requires AgreeOn(a, b, Prereqs(g, n))
    ensures Expected(g, seeds, rows0, a, n) == Expected(g, seeds, rows0, b, n)
  {
    DecideAgrees(g, a[n := rows0[n]], b[n := rows0[n]], n);
  }

  /** Every row is what its predecessors' rows lead to expect. */
  ghost predicate Consistent(g: Graph, seeds: set<NodeId>, rows0: Rows, rows: Rows) {
    rows.Keys == rows0.Keys && forall n | n in rows0 :: rows[n] == Expected(g, seeds, rows0, rows, n)
  }

  lemma SettledIsConsistent(g: Graph, seeds: set<NodeId>, rows0: Rows, rows: Rows)
    requires BindingsFollowEdges(g) && Settled(g, seeds, rows0, rows)
    ensures Consistent(g, seeds, rows0, rows)
  {
    forall n | n in rows0 ensures rows[n] == Expected(g, seeds, rows0, rows, n) {
      SettledIsExpected(g, seeds, rows0, rows, n);
    }
  }

  /** On an acyclic graph only one outcome is consistent. */
  lemma {:induction false} ConsistentIsEvaluated(g: Graph, rank: NodeId -> nat, seeds: set<NodeId>, rows0: Rows,
                                                 rows: Rows, n: NodeId)
    requires Ranked(g, rank) && BindingsFollowEdges(g)
    requires Consistent(g, seeds, rows0, rows) && n in rows0
    ensures rows[n] == Evaluate(g, rank, seeds, rows0, n)
    decreases rank(n)
  {
    var env := Evaluated(g, rank, seeds, rows0, n);
    forall p | p in Prereqs(g, n) && p in rows0 ensures rows[p] == env[p] {
      RankBelow(g, rank, p, n);
      ConsistentIsEvaluated(g, rank, seeds, rows0, rows, p);
    }
    ExpectedAgrees(g, seeds, rows0, rows, env, n);
  }

  lemma ConsistentAgree(g: Graph, rank: NodeId -> nat, seeds: set<NodeId>, rows0: Rows, a: Rows, b: Rows)
    requires Ranked(g, rank) && BindingsFollowEdges(g)
    requires Consistent(g, seeds, rows0, a) && Consistent(g, seeds, rows0, b)
    ensures a == b
  {
    assert a.Keys == rows0.Keys && b.Keys == rows0.Keys;
    hide Consistent, Evaluate;
    forall n | n in rows0 ensures a[n] == b[n] {
      ConsistentIsEvaluated(g, rank, seeds, rows0, a, n);
      ConsistentIsEvaluated(g, rank, seeds, rows0, b, n);
    }
  }

  // ------------------------------------------------------------ the theorems

  /** What advanceWorkflow leaves is the declarative evaluation, row by row. */
  lemma AdvanceIsEvaluation(g: Graph, rank: NodeId -> nat, rows: Rows, completed: NodeId)
    requires Ranked(g, rank) && BindingsFollowEdges(g)
    ensures Advance(g, rows, completed) ==
      map n | n in rows :: Evaluate(g, rank, Elements(Targets(g.edges, completed)), rows, n)
  {
    var ts := Targets(g.edges, completed);
    TryAllIsSettled(g, rows, ts);
    var rows' := Advance(g, rows, completed);
    SettledIsConsistent(g, Elements(ts), rows, rows');
    forall n | n in rows ensures rows'[n] == Evaluate(g, rank, Elements(ts), rows, n) {
      ConsistentIsEvaluated(g, rank, Elements(ts), rows, rows', n);
    }
  }

  lemma {:induction false} EvaluateReadsEdgeSets(
      a: Graph, b: Graph, rank: NodeId -> nat, seeds: set<NodeId>, rows0: Rows, n: NodeId)
    requires a.nodes == b.nodes && (forall e :: e in a.edges <==> e in b.edges)
    requires Ranked(a, rank) && Ranked(b, rank) && n in rows0
    ensures Evaluate(a, rank, seeds, rows0, n) == Evaluate(b, rank, seeds, rows0, n)
    decreases rank(n)
  {
    assert Prereqs(a, n) == Prereqs(b, n);
    forall p | p in Prereqs(a, n) && p in rows0
      ensures Evaluate(a, rank, seeds, rows0, p) == Evaluate(b, rank, seeds, rows0, p)
    {
      RankBelow(a, rank, p, n);
      EvaluateReadsEdgeSets(a, b, rank, seeds, rows0, p);
    }
    var env := Evaluated(a, rank, seeds, rows0, n);
    assert env == Evaluated(b, rank, seeds, rows0, n);
    assert PrereqStatuses(a, env[n := rows0[n]], n) == PrereqStatuses(b, env[n := rows0[n]], n);
    assert Decide(a, env[n := rows0[n]], n) == Decide(b, env[n := rows0[n]], n);
  }

  /** Listing the same edges in another order, or repeating them, changes nothing. */
  lemma EdgeOrderIrrelevant(a: Graph, b: Graph, rank: NodeId -> nat, rows: Rows, completed: NodeId)
    requires a.nodes == b.nodes && (forall e :: e in a.edges <==> e in b.edges)
    requires Ranked(a, rank) && BindingsFollowEdges(a)
    ensures Advance(a, rows, completed) == Advance(b, rows, completed)
  {
    AdvanceIsEvaluation(a, rank, rows, completed);
    AdvanceIsEvaluation(b, rank, rows, completed);
    var sa, sb := Elements(Targets(a.edges, completed)), Elements(Targets(b.edges, completed));
    assert sa == sb;
    forall n | n in rows
      ensures Evaluate(a, rank, sa, rows, n) == Evaluate(b, rank, sb, rows, n)
    {
      EvaluateReadsEdgeSets(a, b, rank, sa, rows, n);
    }
  }

  /** A task that an advancement wakes shows, for every bound input, the files its slot holds afterwards. */
  lemma WokenTaskSeesFiles(g: Graph, rows: Rows, completed: NodeId, n: NodeId)
    requires BindingsFollowEdges(g) && n in rows && rows[n].status == IDLE
    requires Advance(g, rows, completed)[n].status == PENDING
    ensures var rows' := Advance(g, rows, completed); var node := Find(g.nodes, n);
      node.Some? && rows'[n] == rows[n].(status := PENDING, inputs := rows[n].inputs + ResolveInputs(rows', node.value))
  {
    var ts := Targets(g.edges, completed);
    TryAllIsSettled(g, rows, ts);
    var rows' := Advance(g, rows, completed);
    SettledIsExpected(g, Elements(ts), rows, rows', n);
    assert Explained(g, Elements(ts), rows, rows', n);
    if SkippedByCascade(g, rows, rows', n) { CascadeHasSkippedPred(g, rows, rows', n); }
    FiredFacts(g, rows, rows', n);
    FiredIsDecided(g, rows, rows', n);
    WakesWithInputs(g, rows', rows[n], n);
  }

  lemma WakesWithInputs(g: Graph, rows: Rows, row: Row, n: NodeId)
    requires BindingsFollowEdges(g) && n in rows && rows[n].status == PENDING
    requires Decide(g, rows[n := row], n) == Some(rows[n])
    requires n !in Prereqs(g, n)
    ensures Find(g.nodes, n).Some?
      && rows[n] == row.(status := PENDING, inputs := row.inputs + ResolveInputs(rows, Find(g.nodes, n).value))
  {
    var node := Find(g.nodes, n).value;
    assert AgreeOn(rows[n := row], rows, Prereqs(g, node.id));
    ResolveInputsAgrees(g, rows[n := row], rows, node);
  }
}
