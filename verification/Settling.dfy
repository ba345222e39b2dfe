/**
 The master invariant of activation.  A set of nodes is still owed an attempt; every
 node that has left IDLE can be explained, and every node the run should have
 activated has been activated or is still owed.  When nothing is owed the rows are
 settled.  No assumption is made on the graph.
 */
module Settling {
  import opened Wrappers
  import opened Flow
  import opened Runtime
  import opened Activation

  /** `n` left IDLE and is now in status `s`. */
  ghost predicate Turned(rows0: Rows, rows: Rows, n: NodeId, s: Status) {
    n in rows0 && n in rows && rows0[n].status == IDLE && rows[n].status == s && s != IDLE
  }

  ghost predicate Left(rows0: Rows, rows: Rows, n: NodeId) {
    n in rows0 && n in rows && rows0[n].status == IDLE && rows[n].status != IDLE
  }

  /** The run has a reason to try `n`: it is a seed, or a predecessor newly passed. */
  ghost predicate Attempted(g: Graph, seeds: set<NodeId>, rows0: Rows, rows: Rows, n: NodeId) {
    n in seeds || exists p | p in Prereqs(g, n) :: Turned(rows0, rows, p, COMPLETED)
  }

  ghost predicate FiredAt(g: Graph, rows0: Rows, snap: Rows, rows: Rows, n: NodeId) {
    && Evolves(rows0, snap) && Evolves(snap, rows)
    && n in rows
    && Decide(g, snap, n) == Some(rows[n])
  }

  /** `n` holds the row that was decided from some earlier snapshot of this run. */
  ghost predicate Fired(g: Graph, rows0: Rows, rows: Rows, n: NodeId) {
    exists snap :: FiredAt(g, rows0, snap, rows, n)
  }

  /** `n` was newly skipped, `k` steps behind a node that was evaluated in this run. */
  ghost predicate SkipTraced(g: Graph, rows0: Rows, rows: Rows, n: NodeId, k: nat)
    decreases k
  {
    && Turned(rows0, rows, n, SKIPPED)
    && if k == 0 then Fired(g, rows0, rows, n)
       else rows[n] == rows0[n].(status := SKIPPED) && exists p | p in Prereqs(g, n) ::
         SkipTraced(g, rows0, rows, p, k - 1)
  }

  ghost predicate SkippedByCascade(g: Graph, rows0: Rows, rows: Rows, n: NodeId) {
    exists k: nat | k > 0 :: SkipTraced(g, rows0, rows, n, k)
  }

  ghost predicate PredSkipped(g: Graph, rows0: Rows, rows: Rows, n: NodeId) {
    exists p | p in Prereqs(g, n) :: Turned(rows0, rows, p, SKIPPED)
  }

  /** Why `n` left IDLE. */
  ghost predicate Explained(g: Graph, seeds: set<NodeId>, rows0: Rows, rows: Rows, n: NodeId) {
    || (Attempted(g, seeds, rows0, rows, n) && Fired(g, rows0, rows, n) && !PredSkipped(g, rows0, rows, n))
    || SkippedByCascade(g, rows0, rows, n)
  }

  ghost predicate Owing(g: Graph, seeds: set<NodeId>, rows0: Rows, rows: Rows, owed: set<NodeId>) {
    && Evolves(rows0, rows)
    && (forall n | Left(rows0, rows, n) :: Explained(g, seeds, rows0, rows, n))
    && (forall n | n in rows && rows[n].status == IDLE :: !PredSkipped(g, rows0, rows, n))
    && (forall n | n in rows && Decide(g, rows, n).Some? && Attempted(g, seeds, rows0, rows, n) :: n in owed)
    && (forall n | n in owed :: Attempted(g, seeds, rows0, rows, n))
  }

  ghost predicate Settled(g: Graph, seeds: set<NodeId>, rows0: Rows, rows: Rows) {
    Owing(g, seeds, rows0, rows, {})
  }

  // ------------------------------------------------------------ what a decision says

  /** A node fires only once every predecessor is terminal. */
  lemma DecideFacts(g: Graph, rows: Rows, n: NodeId)
    requires Decide(g, rows, n).Some?
    ensures n in rows && rows[n].status == IDLE && n in Ids(g)
    ensures forall p | p in Prereqs(g, n) :: p in rows && !Open(rows[p].status)
    ensures var r := Decide(g, rows, n).value; r.status == PENDING || r.status == COMPLETED || r.status == SKIPPED
  {
  }

  /** Firing is stable: terminal predecessors never change again. */
  lemma FiredFacts(g: Graph, rows0: Rows, rows: Rows, n: NodeId)
    requires Fired(g, rows0, rows, n)
    ensures Left(rows0, rows, n)
    ensures forall p | p in Prereqs(g, n) :: p in rows && !Open(rows[p].status)
  {
    var snap :| FiredAt(g, rows0, snap, rows, n);
    DecideFacts(g, snap, n);
  }

  lemma FiredStable(g: Graph, rows0: Rows, rows: Rows, rows': Rows, n: NodeId)
    requires Fired(g, rows0, rows, n) && Evolves(rows, rows')
    ensures Fired(g, rows0, rows', n)
  {
    var snap :| FiredAt(g, rows0, snap, rows, n);
    FiredFacts(g, rows0, rows, n);
    assert FiredAt(g, rows0, snap, rows', n);
  }

  lemma {:induction false} SkipTraceStable(g: Graph, rows0: Rows, rows: Rows, rows': Rows, n: NodeId, k: nat)
    requires SkipTraced(g, rows0, rows, n, k) && Evolves(rows, rows')
    ensures SkipTraced(g, rows0, rows', n, k)
    decreases k
  {
    if k == 0 {
      FiredStable(g, rows0, rows, rows', n);
    } else {
      var p :| p in Prereqs(g, n) && SkipTraced(g, rows0, rows, p, k - 1);
      SkipTraceStable(g, rows0, rows, rows', p, k - 1);
    }
  }

  lemma ExplainedStable(g: Graph, seeds: set<NodeId>, rows0: Rows, rows: Rows, rows': Rows, n: NodeId)
    requires Evolves(rows0, rows) && Evolves(rows, rows')
    requires Explained(g, seeds, rows0, rows, n)
    ensures Explained(g, seeds, rows0, rows', n)
  {
    if SkippedByCascade(g, rows0, rows, n) {
      var k: nat :| k > 0 && SkipTraced(g, rows0, rows, n, k);
      SkipTraceStable(g, rows0, rows, rows', n, k);
    } else {
      FiredFacts(g, rows0, rows, n);
      FiredStable(g, rows0, rows, rows', n);
    }
  }

  // ------------------------------------------------------------ one step at a time

  /** Whether a node would fire depends on its own row and on its predecessors' statuses only. */
  lemma FiresAlike(g: Graph, a: Rows, b: Rows, n: NodeId)
    requires n in a && n in b && a[n].status == b[n].status
    requires forall p | p in Prereqs(g, n) :: StatusOf(a, p) == StatusOf(b, p)
    ensures Decide(g, a, n).Some? == Decide(g, b, n).Some?
  {
  }

  /** A node does not fire while a predecessor is open. */
  lemma WaitsForOpen(g: Graph, rows: Rows, p: NodeId, n: NodeId)
    requires p in Prereqs(g, n) && Open(StatusOf(rows, p))
    ensures Decide(g, rows, n).None?
  {
  }

  lemma FiredNow(g: Graph, rows0: Rows, rows: Rows, rows': Rows, n: NodeId)
    requires Evolves(rows0, rows) && Evolves(rows, rows')
    requires n in rows' && Decide(g, rows, n) == Some(rows'[n])
    ensures Fired(g, rows0, rows', n)
  {
    assert FiredAt(g, rows0, rows, rows', n);
  }

  /** The node that fires is explained, from the moment it is written. */
  lemma FiredExplained(g: Graph, seeds: set<NodeId>, rows0: Rows, rows: Rows, rows': Rows, t: NodeId, owed: set<NodeId>)
    requires Owing(g, seeds, rows0, rows, owed) && t in owed
    requires Evolves(rows, rows')
    requires t in rows' && Decide(g, rows, t) == Some(rows'[t])
    ensures Explained(g, seeds, rows0, rows', t)
  {
    DecideFacts(g, rows, t);
    FiredNow(g, rows0, rows, rows', t);
    assert Attempted(g, seeds, rows0, rows', t);
    assert !PredSkipped(g, rows0, rows, t);
    forall p | p in Prereqs(g, t) ensures !Turned(rows0, rows', p, SKIPPED) {
      assert rows'[p] == rows[p];
    }
  }

  /** All the nodes that left IDLE stay explained when `t` is the only one that fires now. */
  lemma StillExplained(g: Graph, seeds: set<NodeId>, rows0: Rows, rows: Rows, rows': Rows, n: NodeId, owed: set<NodeId>)
    requires Owing(g, seeds, rows0, rows, owed) && Evolves(rows, rows')
    requires Left(rows0, rows, n)
    ensures Explained(g, seeds, rows0, rows', n)
  {
    ExplainedStable(g, seeds, rows0, rows, rows', n);
  }

  /** A write other than SKIPPED enables nothing but successors of a completed gateway. */
  lemma WriteEnables(g: Graph, seeds: set<NodeId>, rows0: Rows, rows: Rows, t: NodeId, row: Row, n: NodeId)
    requires t in rows && rows[t].status == IDLE && (row.status == PENDING || row.status == COMPLETED)
    requires n in rows && n != t
    requires Decide(g, rows[t := row], n).Some? && Attempted(g, seeds, rows0, rows[t := row], n)
    ensures (Edge(t, n) in g.edges && row.status == COMPLETED)
      || (Decide(g, rows, n).Some? && Attempted(g, seeds, rows0, rows, n))
  {
    var rows' := rows[t := row];
    if t in Prereqs(g, n) {
      assert StatusOf(rows', t) == row.status;
      if row.status == PENDING { WaitsForOpen(g, rows', t, n); }
    } else {
      FiresAlike(g, rows, rows', n);
    }
  }

  /** The node became PENDING or a passing gateway: its successors take its place among the owed. */
  lemma WriteSettles(g: Graph, seeds: set<NodeId>, rows0: Rows, rows: Rows, t: NodeId, row: Row, owed: set<NodeId>)
    requires Owing(g, seeds, rows0, rows, owed + {t})
    requires Decide(g, rows, t) == Some(row) && row.status != SKIPPED
    ensures Owing(g, seeds, rows0, rows[t := row],
              owed + if row.status == COMPLETED then Elements(Targets(g.edges, t)) else {})
  {
    DecideFacts(g, rows, t);
    var rows' := rows[t := row];
    var next := if row.status == COMPLETED then Elements(Targets(g.edges, t)) else {};
    assert Evolves(rows, rows');
    forall n | Left(rows0, rows', n) ensures Explained(g, seeds, rows0, rows', n) {
      if n == t {
        FiredExplained(g, seeds, rows0, rows, rows', t, owed + {t});
      } else {
        StillExplained(g, seeds, rows0, rows, rows', n, owed + {t});
      }
    }
    forall n | n in rows' && Decide(g, rows', n).Some? && Attempted(g, seeds, rows0, rows', n)
      ensures n in owed + next
    {
      DecideFacts(g, rows', n);
      WriteEnables(g, seeds, rows0, rows, t, row, n);
    }
    forall n | n in rows' && rows'[n].status == IDLE ensures !PredSkipped(g, rows0, rows', n) {
      assert !PredSkipped(g, rows0, rows, n);
    }
    forall n | n in owed + next ensures Attempted(g, seeds, rows0, rows', n) {
      if n in owed {
        assert Attempted(g, seeds, rows0, rows, n);
      } else {
        assert t in Prereqs(g, n) && Turned(rows0, rows', t, COMPLETED);
      }
    }
  }

  /** After the cascade an IDLE node has exactly the predecessors' statuses it had before the gate. */
  lemma CascadeLeavesIdle(g: Graph, rows: Rows, t: NodeId, row: Row, n: NodeId, p: NodeId)
    requires t in rows && rows[t].status == IDLE && row.status == SKIPPED
    requires n in rows && CascadeSkip(g, rows[t := row], t)[n].status == IDLE
    requires Edge(p, n) in g.edges
    ensures p != t && StatusOf(CascadeSkip(g, rows[t := row], t), p) == StatusOf(rows, p)
  {
    var blocked := rows[t := row];
    if p == t || Skippable(g, blocked, t, p) { SkippableStep(g, blocked, t, p, n); }
  }

  lemma NotSkippableItself(g: Graph, rows: Rows, t: NodeId)
    requires t in rows && rows[t].status != IDLE
    ensures CascadeSkip(g, rows, t)[t] == rows[t]
  {
  }

  /** The node at the end of a skip path is as many steps behind the blocked gateway as the path is long. */
  lemma {:induction false} CascadeTraces(g: Graph, rows0: Rows, rows: Rows, blocked: Rows, t: NodeId, path: seq<NodeId>)
    requires Evolves(rows0, rows) && Evolves(rows, blocked)
    requires SkipTraced(g, rows0, CascadeSkip(g, blocked, t), t, 0)
    requires SkipPath(g, blocked, t, path)
    ensures SkipTraced(g, rows0, CascadeSkip(g, blocked, t), path[|path| - 1], |path|)
  {
    var n := path[|path| - 1];
    assert n in path;
    assert Skippable(g, blocked, t, n);
    if |path| == 1 {
      assert t in Prereqs(g, n);
    } else {
      var short := path[..|path| - 1];
      hide Fired;
      CascadeTraces(g, rows0, rows, blocked, t, short);
      assert short[|short| - 1] in Prereqs(g, n);
    }
  }

  /** What is still IDLE after the cascade has no newly skipped predecessor and is enabled only if it was. */
  lemma BlockSpares(g: Graph, seeds: set<NodeId>, rows0: Rows, rows: Rows, t: NodeId, row: Row, owed: set<NodeId>,
                    n: NodeId)
    requires Owing(g, seeds, rows0, rows, owed)
    requires t in rows && rows[t].status == IDLE && row.status == SKIPPED
    requires n in rows && CascadeSkip(g, rows[t := row], t)[n].status == IDLE
    ensures var rows' := CascadeSkip(g, rows[t := row], t);
      && !PredSkipped(g, rows0, rows', n)
      && (Decide(g, rows', n).Some? && Attempted(g, seeds, rows0, rows', n) ==> n in owed)
  {
    var rows' := CascadeSkip(g, rows[t := row], t);
    forall p | p in Prereqs(g, n)
      ensures StatusOf(rows', p) == StatusOf(rows, p)
    {
      CascadeLeavesIdle(g, rows, t, row, n, p);
    }
    FiresAlike(g, rows, rows', n);
    assert !PredSkipped(g, rows0, rows, n);
  }

  lemma BlockExplains(g: Graph, seeds: set<NodeId>, rows0: Rows, rows: Rows, t: NodeId, row: Row, owed: set<NodeId>,
                      n: NodeId)
    requires Owing(g, seeds, rows0, rows, owed) && t in owed
    requires Decide(g, rows, t) == Some(row) && row.status == SKIPPED
    requires Left(rows0, CascadeSkip(g, rows[t := row], t), n)
    ensures Explained(g, seeds, rows0, CascadeSkip(g, rows[t := row], t), n)
  {
    DecideFacts(g, rows, t);
    var blocked := rows[t := row];
    var rows' := CascadeSkip(g, blocked, t);
    assert Evolves(rows, blocked);
    NotSkippableItself(g, blocked, t);
    FiredNow(g, rows0, rows, rows', t);
    if n == t {
      FiredExplained(g, seeds, rows0, rows, rows', t, owed);
    } else if Left(rows0, rows, n) {
      StillExplained(g, seeds, rows0, rows, rows', n, owed);
    } else {
      var path :| SkipPath(g, blocked, t, path) && path[|path| - 1] == n;
      CascadeTraces(g, rows0, rows, blocked, t, path);
    }
  }

  /** The gateway was blocked: the cascade leaves no IDLE node behind a skipped one. */
  lemma BlockSettles(g: Graph, seeds: set<NodeId>, rows0: Rows, rows: Rows, t: NodeId, row: Row, owed: set<NodeId>)
    requires Owing(g, seeds, rows0, rows, owed + {t})
    requires Decide(g, rows, t) == Some(row) && row.status == SKIPPED
    ensures Owing(g, seeds, rows0, CascadeSkip(g, rows[t := row], t), owed)
  {
    DecideFacts(g, rows, t);
    var rows' := CascadeSkip(g, rows[t := row], t);
    assert Evolves(rows, rows[t := row]);
    NotSkippableItself(g, rows[t := row], t);
    hide Decide, Attempted, CascadeSkip, Explained, PredSkipped;
    forall n | Left(rows0, rows', n) ensures Explained(g, seeds, rows0, rows', n) {
      BlockExplains(g, seeds, rows0, rows, t, row, owed + {t}, n);
    }
    forall n | n in rows' && rows'[n].status == IDLE
      ensures !PredSkipped(g, rows0, rows', n)
      ensures Decide(g, rows', n).Some? && Attempted(g, seeds, rows0, rows', n) ==> n in owed
    {
      BlockSpares(g, seeds, rows0, rows, t, row, owed + {t}, n);
    }
    forall n | n in rows' && Decide(g, rows', n).Some? ensures rows'[n].status == IDLE {
      DecideFacts(g, rows', n);
    }
  }

  // ------------------------------------------------------------ the whole recursion

  /** A node that does not fire is owed nothing. */
  lemma NothingToTry(g: Graph, seeds: set<NodeId>, rows0: Rows, rows: Rows, t: NodeId, owed: set<NodeId>)
    requires Owing(g, seeds, rows0, rows, owed + {t}) && Decide(g, rows, t).None?
    ensures Owing(g, seeds, rows0, rows, owed)
  {
  }

  lemma {:induction false} TryActivateSettles(g: Graph, seeds: set<NodeId>, rows0: Rows, rows: Rows, t: NodeId,
                                              owed: set<NodeId>)
    requires Owing(g, seeds, rows0, rows, owed + {t})
    ensures Owing(g, seeds, rows0, TryActivate(g, rows, t), owed)
    decreases IdleSet(rows), 0
  {
    hide Decide, Owing;
    match Decide(g, rows, t)
    case None =>
      NothingToTry(g, seeds, rows0, rows, t, owed);
    case Some(row) =>
      var rows' := rows[t := row];
      DecideFacts(g, rows, t);
      assert t in IdleSet(rows) && t !in IdleSet(rows') && IdleSet(rows') <= IdleSet(rows);
      if row.status == SKIPPED {
        BlockSettles(g, seeds, rows0, rows, t, row, owed);
      } else if row.status == COMPLETED {
        WriteSettles(g, seeds, rows0, rows, t, row, owed);
        TryAllSettles(g, seeds, rows0, rows', Targets(g.edges, t), owed);
      } else {
        WriteSettles(g, seeds, rows0, rows, t, row, owed);
        assert owed + {} == owed;
      }
  }

  lemma {:induction false} TryAllSettles(g: Graph, seeds: set<NodeId>, rows0: Rows, rows: Rows, ts: seq<NodeId>,
                                         owed: set<NodeId>)
    requires Owing(g, seeds, rows0, rows, owed + Elements(ts))
    ensures Owing(g, seeds, rows0, TryAll(g, rows, ts), owed)
    decreases IdleSet(rows), |ts|
  {
    if ts == [] {
      assert owed + Elements(ts) == owed;
    } else {
      var later := owed + Elements(ts[1..]);
      assert owed + Elements(ts) == later + {ts[0]};
      TryActivateSettles(g, seeds, rows0, rows, ts[0], later);
      var rows' := TryActivate(g, rows, ts[0]);
      assert IdleSet(rows') <= IdleSet(rows);
      TryAllSettles(g, seeds, rows0, rows', ts[1..], owed);
    }
  }

  /**
   Whatever the rows and the list, trying every node of the list leaves the rows settled:
   every activation is explained and no attempted node is left behind.
   */
  lemma TryAllIsSettled(g: Graph, rows: Rows, ts: seq<NodeId>)
    ensures Settled(g, Elements(ts), rows, TryAll(g, rows, ts))
  {
    var seeds := Elements(ts);
    assert Owing(g, seeds, rows, rows, {} + seeds);
    TryAllSettles(g, seeds, rows, rows, ts, {});
  }
}
