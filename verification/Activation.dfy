/**
 What one advancement of the workflow does to the rows, as a function: the recursive
 activation through gateways and the skip cascade.  The methods of Iterations.Iteration
 are proved to compute exactly these functions.
 */
module Activation {
  import opened Wrappers
  import opened Flow
  import opened Runtime

  ghost function IdleSet(rows: Rows): set<NodeId> {
    set n | n in rows && rows[n].status == IDLE
  }

  /** Only IDLE rows change, and what is still IDLE has not changed at all. */
  ghost predicate Evolves(a: Rows, b: Rows) {
    && a.Keys == b.Keys
    && forall n | n in a :: (a[n].status != IDLE || b[n].status == IDLE) ==> b[n] == a[n]
  }

  /** A non-empty path of IDLE rows that starts right behind `from`. */
  ghost predicate SkipPath(g: Graph, rows: Rows, from: NodeId, path: seq<NodeId>) {
    && Walk(g, path)
    && Edge(from, path[0]) in g.edges
    && forall n | n in path :: n in rows && rows[n].status == IDLE
  }

  ghost predicate Skippable(g: Graph, rows: Rows, from: NodeId, n: NodeId) {
    exists path :: SkipPath(g, rows, from, path) && path[|path| - 1] == n
  }

  /** Every IDLE node that `from` reaches through IDLE nodes only becomes SKIPPED; nothing else changes. */
  ghost function CascadeSkip(g: Graph, rows: Rows, from: NodeId): (r: Rows)
    ensures Evolves(rows, r)
  {
    var r := map n | n in rows :: if Skippable(g, rows, from, n) then rows[n].(status := SKIPPED) else rows[n];
    assert Evolves(rows, r) by {
      forall n | n in rows && rows[n].status != IDLE ensures !Skippable(g, rows, from, n) {}
    }
    r
  }

  ghost function TryActivate(g: Graph, rows: Rows, t: NodeId): (r: Rows)
    ensures Evolves(rows, r)
    decreases IdleSet(rows), 0
  {
    match Decide(g, rows, t)
    case None => rows
    case Some(row) =>
      var rows' := rows[t := row];
      assert t in IdleSet(rows) && t !in IdleSet(rows') && IdleSet(rows') <= IdleSet(rows);
      match row.status
      case COMPLETED => TryAll(g, rows', Targets(g.edges, t))
      case SKIPPED => CascadeSkip(g, rows', t)
      case _ => rows'
  }

  ghost function TryAll(g: Graph, rows: Rows, ts: seq<NodeId>): (r: Rows)
    ensures Evolves(rows, r)
    decreases IdleSet(rows), |ts|
  {
    if ts == [] then rows
    else
      var rows' := TryActivate(g, rows, ts[0]);
      assert IdleSet(rows') <= IdleSet(rows);
      TryAll(g, rows', ts[1..])
  }

  /** `advanceWorkflow` on the rows: try every successor of the completed node. */
  ghost function Advance(g: Graph, rows: Rows, completed: NodeId): (r: Rows)
    ensures Evolves(rows, r)
  {
    TryAll(g, rows, Targets(g.edges, completed))
  }

  lemma TryNone(g: Graph, rows: Rows)
    ensures TryAll(g, rows, []) == rows
  {
  }

  lemma {:induction false} TryAllAppend(g: Graph, rows: Rows, a: seq<NodeId>, b: seq<NodeId>)
    ensures TryAll(g, rows, a + b) == TryAll(g, TryAll(g, rows, a), b)
    decreases |a|
  {
    if a == [] {
      assert a + b == b;
    } else {
      assert (a + b)[1..] == a[1..] + b && (a + b)[0] == a[0];
      TryAllAppend(g, TryActivate(g, rows, a[0]), a[1..], b);
    }
  }

  // ------------------------------------------------------------ skip cascade

  lemma SkippableStep(g: Graph, rows: Rows, from: NodeId, n: NodeId, m: NodeId)
    requires n == from || Skippable(g, rows, from, n)
    requires Edge(n, m) in g.edges && m in rows && rows[m].status == IDLE
    ensures Skippable(g, rows, from, m)
  {
    if Skippable(g, rows, from, n) {
      var path :| SkipPath(g, rows, from, path) && path[|path| - 1] == n;
      assert SkipPath(g, rows, from, path + [m]);
    } else {
      assert SkipPath(g, rows, from, [m]);
    }
  }

  /** A set that is closed under IDLE steps from `from` holds every skippable node. */
  lemma {:induction false} ClosedHoldsSkippable(g: Graph, rows: Rows, from: NodeId, s: set<NodeId>, path: seq<NodeId>)
    requires SkipPath(g, rows, from, path)
    requires forall n, m | (n == from || n in s) && Edge(n, m) in g.edges && m in rows && rows[m].status == IDLE ::
      m in s
    ensures path[|path| - 1] in s
  {
    if |path| > 1 {
      ClosedHoldsSkippable(g, rows, from, s, path[..|path| - 1]);
    } else {
      assert path[0] in path;
    }
  }
}
