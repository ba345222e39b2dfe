/**
 Forking: which rows the new iteration inherits, that it inherits them for good, and what
 its restart node becomes.
 */
module Forks {
  import opened Wrappers
  import opened Flow
  import opened Runtime
  import opened Activation
  import opened Settling
  import opened Confluence
  import opened Lifecycle
  import opened Runs
  import opened Histories
  import opened Progress

  ghost predicate Kept(g: Graph, from: NodeId, n: NodeId) {
    !Reaches(g, from, n)
  }

  // ------------------------------------------------------------ what activation cannot touch

  /** The kept nodes have the same rows on both sides. */
  ghost predicate SameKept(g: Graph, from: NodeId, a: Rows, b: Rows) {
    forall n | Kept(g, from, n) :: (n in a <==> n in b) && (n in a ==> a[n] == b[n])
  }

  lemma SameFires(g: Graph, from: NodeId, a: Rows, b: Rows, n: NodeId)
    requires SameKept(g, from, a, b) && Kept(g, from, n)
    ensures Decide(g, a, n).Some? == Decide(g, b, n).Some?
  {
    forall p | p in Prereqs(g, n) ensures StatusOf(a, p) == StatusOf(b, p) {
      KeptIsClosed(g, from, p, n);
    }
    if n in a { FiresAlike(g, a, b, n); }
  }

  lemma {:induction false} SkipPathAvoids(g: Graph, rows: Rows, from: NodeId, t: NodeId, path: seq<NodeId>)
    requires !Kept(g, from, t) && SkipPath(g, rows, t, path)
    ensures !Kept(g, from, path[|path| - 1])
  {
    if |path| > 1 {
      var short := path[..|path| - 1];
      SkipPathAvoids(g, rows, from, t, short);
      ReachesStep(g, from, short[|short| - 1], path[|path| - 1]);
    } else {
      ReachesStep(g, from, t, path[0]);
    }
  }

  lemma CascadeAvoids(g: Graph, rows: Rows, from: NodeId, t: NodeId)
    requires !Kept(g, from, t)
    ensures SameKept(g, from, rows, CascadeSkip(g, rows, t))
  {
    forall n | Skippable(g, rows, t, n) ensures !Kept(g, from, n) {
      var path :| SkipPath(g, rows, t, path) && path[|path| - 1] == n;
      SkipPathAvoids(g, rows, from, t, path);
    }
  }

  lemma {:induction false} TryActivateAvoids(g: Graph, rows: Rows, from: NodeId, t: NodeId)
    requires Kept(g, from, t) ==> Decide(g, rows, t).None?
    ensures SameKept(g, from, rows, TryActivate(g, rows, t))
    decreases IdleSet(rows), 0
  {
    match Decide(g, rows, t)
    case None =>
    case Some(row) =>
      var rows' := rows[t := row];
      assert t in IdleSet(rows) && t !in IdleSet(rows') && IdleSet(rows') <= IdleSet(rows);
      assert SameKept(g, from, rows, rows');
      if row.status == SKIPPED {
        CascadeAvoids(g, rows', from, t);
      } else if row.status == COMPLETED {
        forall n | n in Targets(g.edges, t) ensures !Kept(g, from, n) { ReachesStep(g, from, t, n); }
        TryAllAvoids(g, rows', from, Targets(g.edges, t));
      }
  }

  /** Nodes that `from` does not reach stay as they are, unless a listed one of them fires. */
  lemma {:induction false} TryAllAvoids(g: Graph, rows: Rows, from: NodeId, ts: seq<NodeId>)
    requires forall t | t in ts && Kept(g, from, t) :: Decide(g, rows, t).None?
    ensures SameKept(g, from, rows, TryAll(g, rows, ts))
    decreases IdleSet(rows), |ts|
  {
    if ts != [] {
      assert ts[0] in ts;
      TryActivateAvoids(g, rows, from, ts[0]);
      var rows' := TryActivate(g, rows, ts[0]);
      assert IdleSet(rows') <= IdleSet(rows);
      forall t | t in ts[1..] && Kept(g, from, t) ensures Decide(g, rows', t).None? {
        SameFires(g, from, rows, rows', t);
      }
      TryAllAvoids(g, rows', from, ts[1..]);
    }
  }

  /** Conversely a listed node that would fire does leave IDLE. */
  lemma FireableLeaves(g: Graph, rows: Rows, ts: seq<NodeId>, t: NodeId)
    requires t in ts && Decide(g, rows, t).Some?
    ensures t in rows && TryAll(g, rows, ts)[t] != rows[t]
  {
    DecideFacts(g, rows, t);
    TryAllIsSettled(g, rows, ts);
    var rows' := TryAll(g, rows, ts);
    if rows'[t] == rows[t] {
      assert Attempted(g, Elements(ts), rows, rows', t);
      FiresAlike(g, rows, rows', t);
    }
  }

  // ------------------------------------------------------------ what a fork keeps

  /** A kept node that the fork's first activation would try, and that would fire. */
  ghost predicate Disturbs(g: Graph, rows: Rows, from: NodeId, n: NodeId) {
    && Kept(g, from, n)
    && (exists e | e in g.edges && e.target == n :: Some(e.source) == FirstPrereq(g.edges, from))
    && Decide(g, rows, n).Some?
  }

  lemma InheritedFires(g: Graph, rows: Rows, from: NodeId, n: NodeId)
    requires rows.Keys == Ids(g) && Kept(g, from, n)
    ensures Decide(g, ForkRows(g, rows, from), n).Some? == Decide(g, rows, n).Some?
  {
    InheritedStatuses(g, rows, from, n);
    if n in rows { FiresAlike(g, rows, ForkRows(g, rows, from), n); }
  }

  lemma DisturbedChanges(g: Graph, s: State, from: NodeId, n: NodeId)
    requires s.rows.Keys == Ids(g) && Fork(g, s, from).Some? && Disturbs(g, s.rows, from, n)
    ensures n in s.rows && Fork(g, s, from).value.rows[n] != s.rows[n]
  {
    var p := FirstPrereq(g.edges, from).value;
    var e :| e in g.edges && e.target == n && Some(e.source) == FirstPrereq(g.edges, from);
    assert e == Edge(p, n) && n in Targets(g.edges, p);
    InheritedFires(g, s.rows, from, n);
    FireableLeaves(g, ForkRows(g, s.rows, from), Targets(g.edges, p), n);
  }

  lemma UndisturbedKeeps(g: Graph, s: State, from: NodeId)
    requires s.rows.Keys == Ids(g) && Fork(g, s, from).Some?
    requires forall n | n in s.rows :: !Disturbs(g, s.rows, from, n)
    ensures forall n | n in s.rows && Kept(g, from, n) :: Fork(g, s, from).value.rows[n] == s.rows[n]
  {
    var inherited := ForkRows(g, s.rows, from);
    ReachesItself(g, from);
    match FirstPrereq(g.edges, from)
    case None =>
    case Some(p) =>
      forall t | t in Targets(g.edges, p) && Kept(g, from, t) ensures Decide(g, inherited, t).None? {
        InheritedFires(g, s.rows, from, t);
        assert Edge(p, t) in g.edges && Edge(p, t).target == t;
        if t in s.rows { assert !Disturbs(g, s.rows, from, t); }
      }
      TryAllAvoids(g, inherited, from, Targets(g.edges, p));
  }

  /**
   The kept nodes end with exactly the source's rows if and only if no kept node that the
   first activation tries would have fired in the source.
   */
  lemma ForkKeepsExactly(g: Graph, s: State, from: NodeId)
    requires s.rows.Keys == Ids(g) && Fork(g, s, from).Some?
    ensures (forall n | n in s.rows && Kept(g, from, n) :: Fork(g, s, from).value.rows[n] == s.rows[n])
      <==> (forall n | n in s.rows :: !Disturbs(g, s.rows, from, n))
  {
    if forall n | n in s.rows :: !Disturbs(g, s.rows, from, n) {
      UndisturbedKeeps(g, s, from);
    } else {
      var n :| n in s.rows && Disturbs(g, s.rows, from, n);
      DisturbedChanges(g, s, from, n);
    }
  }

  /** In particular a source without errors or untried nodes passes on every kept row, on any graph. */
  lemma ForkPreservesRun(g: Graph, ops: seq<Op>, from: NodeId, n: NodeId)
    requires ErrorFree(Run(g, ops).rows) && NoneLeft(g, ops)
    requires from in Ids(g) && n in Ids(g) && Kept(g, from, n)
    ensures var s := Run(g, ops);
      Fork(g, s, from).Some? && n in s.rows && Fork(g, s, from).value.rows[n] == s.rows[n]
  {
    EveryHistoryRemembers(g, ops);
    var s := Run(g, ops);
    forall m | m in s.rows ensures !Disturbs(g, s.rows, from, m) {
      if s.rows[m].status == IDLE {
        assert !Overlooked(g, s.rows, m);
        var p :| p in Prereqs(g, m) && !Cleared(StatusOf(s.rows, p));
        WaitsForOpen(g, s.rows, p, m);
      }
    }
    UndisturbedKeeps(g, s, from);
  }

  // ------------------------------------------------------------ the restart node

  lemma NoCycleThrough(g: Graph, rank: NodeId -> nat, from: NodeId, p: NodeId)
    requires Ranked(g, rank) && Edge(p, from) in g.edges
    ensures Kept(g, from, p)
  {
    if Reaches(g, from, p) {
      var path :| Walk(g, path) && path[0] == from && path[|path| - 1] == p;
      RankGrows(g, rank, path);
    }
  }

  /** The bound inputs of the restart node resolve to the same files as in the source. */
  lemma RestartInputsResolveAlike(g: Graph, rank: NodeId -> nat, s: State, from: NodeId)
    requires Ranked(g, rank) && BindingsFollowEdges(g)
    requires s.rows.Keys == Ids(g) && Fork(g, s, from).Some?
    requires forall n | n in s.rows :: !Disturbs(g, s.rows, from, n)
    ensures var node := Find(g.nodes, from).value;
      ResolveInputs(Fork(g, s, from).value.rows, node) == ResolveInputs(s.rows, node)
  {
    UndisturbedKeeps(g, s, from);
    var rows := Fork(g, s, from).value.rows;
    forall p | p in Prereqs(g, from) ensures (p in rows <==> p in s.rows) && (p in rows ==> rows[p] == s.rows[p]) {
      NoCycleThrough(g, rank, from, p);
    }
    ResolveInputsAgrees(g, rows, s.rows, Find(g.nodes, from).value);
  }

  /** What trying a fresh task decides. */
  lemma DecideRestart(g: Graph, rows: Rows, from: NodeId, node: Node)
    requires BindingsFollowEdges(g) && Edge(from, from) !in g.edges
    requires Find(g.nodes, from) == Some(node) && node.kind != GATEWAY && from in rows
    ensures Decide(g, rows[from := FRESH_ROW], from) ==
      if forall p | p in Prereqs(g, from) :: Cleared(StatusOf(rows, p))
      then Some(FRESH_ROW.(status := PENDING, inputs := ResolveInputs(rows, node)))
      else None
  {
    var rows' := rows[from := FRESH_ROW];
    forall p | p in Prereqs(g, from) ensures p != from && StatusOf(rows', p) == StatusOf(rows, p) {
      assert Edge(p, from) in g.edges;
    }
    assert AgreeOn(rows', rows, Prereqs(g, node.id));
    ResolveInputsAgrees(g, rows', rows, node);
    assert map[] + ResolveInputs(rows, node) == ResolveInputs(rows, node);
  }

  /** A restarted task becomes PENDING, with those files, exactly when the source cleared its predecessors. */
  lemma RestartedTask(g: Graph, rank: NodeId -> nat, s: State, from: NodeId, fork: State, node: Node)
    requires Ranked(g, rank) && BindingsFollowEdges(g)
    requires s.rows.Keys == Ids(g) && Fork(g, s, from) == Some(fork)
    requires Find(g.nodes, from) == Some(node) && node.kind != GATEWAY && HasInEdge(g, from)
    requires forall n | n in s.rows :: !Disturbs(g, s.rows, from, n)
    ensures from in fork.rows && fork.rows[from] ==
      if forall p | p in Prereqs(g, from) :: Cleared(StatusOf(s.rows, p))
      then FRESH_ROW.(status := PENDING, inputs := ResolveInputs(s.rows, node))
      else FRESH_ROW
  {
    assert fork.rows.Keys == s.rows.Keys && from in fork.rows;
    hide *;
    RestartExpected(g, rank, s, from);
    UndisturbedKeeps(g, s, from);
    RestartInputsResolveAlike(g, rank, s, from);
    RestartOutcome(g, rank, s.rows, fork.rows, from, node);
  }

  lemma RestartOutcome(g: Graph, rank: NodeId -> nat, source: Rows, rows: Rows, from: NodeId, node: Node)
    requires Ranked(g, rank) && BindingsFollowEdges(g)
    requires Find(g.nodes, from) == Some(node) && node.kind != GATEWAY && from in rows
    requires source.Keys == rows.Keys && forall n | n in source && Kept(g, from, n) :: rows[n] == source[n]
    requires ResolveInputs(rows, node) == ResolveInputs(source, node)
    requires rows[from] == match Decide(g, rows[from := FRESH_ROW], from) case Some(row) => row case None => FRESH_ROW
    ensures rows[from] ==
      if forall p | p in Prereqs(g, from) :: Cleared(StatusOf(source, p))
      then FRESH_ROW.(status := PENDING, inputs := ResolveInputs(source, node))
      else FRESH_ROW
  {
    PrereqsInherited(g, rank, source, rows, from);
    DecideRestart(g, rows, from, node);
  }

  /** The predecessors of the restart node are all kept. */
  lemma PrereqsInherited(g: Graph, rank: NodeId -> nat, a: Rows, b: Rows, from: NodeId)
    requires Ranked(g, rank) && a.Keys == b.Keys
    requires forall n | n in a && Kept(g, from, n) :: b[n] == a[n]
    ensures Edge(from, from) !in g.edges
    ensures (forall p | p in Prereqs(g, from) :: Cleared(StatusOf(a, p)))
      <==> (forall p | p in Prereqs(g, from) :: Cleared(StatusOf(b, p)))
  {
    forall q | q in Prereqs(g, from) ensures q != from && StatusOf(a, q) == StatusOf(b, q) {
      NoCycleThrough(g, rank, from, q);
      ReachesItself(g, from);
    }
    assert Edge(from, from) in g.edges ==> from in Prereqs(g, from);
  }

  /** The restart node ends as one attempt in the final rows decides. */
  lemma RestartExpected(g: Graph, rank: NodeId -> nat, s: State, from: NodeId)
    requires Ranked(g, rank) && BindingsFollowEdges(g)
    requires s.rows.Keys == Ids(g) && Fork(g, s, from).Some? && HasInEdge(g, from)
    requires forall n | n in s.rows :: !Disturbs(g, s.rows, from, n)
    ensures var rows := Fork(g, s, from).value.rows;
      rows[from] == match Decide(g, rows[from := FRESH_ROW], from) case Some(row) => row case None => FRESH_ROW
  {
    var p := FirstPrereq(g.edges, from).value;
    var inherited, ts := ForkRows(g, s.rows, from), Targets(g.edges, p);
    var rows := Advance(g, inherited, p);
    ReachesItself(g, from);
    assert inherited[from] == FRESH_ROW && from in ts;
    TryAllIsSettled(g, inherited, ts);
    SettledIsExpected(g, Elements(ts), inherited, rows, from);
    UndisturbedKeeps(g, s, from);
    forall q | q in Prereqs(g, from) ensures !Turned(inherited, rows, q, SKIPPED) {
      NoCycleThrough(g, rank, from, q);
      assert q in s.rows ==> rows[q] == inherited[q];
    }
    assert !PredSkipped(g, inherited, rows, from);
  }
}
