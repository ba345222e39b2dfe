/**
 What a blocked gateway costs.  Apart from nodes that a fork has reset or a handler has
 reported on, everything behind a SKIPPED node is SKIPPED: no task ever runs, and no OR or
 XOR gate ever passes, with a SKIPPED predecessor.
 */
module Branches {
  import opened Wrappers
  import opened Flow
  import opened Runtime
  import opened Activation
  import opened Settling
  import opened Lifecycle
  import opened Runs
  import opened Histories

  /** Outside `loose`, only SKIPPED stands behind SKIPPED, and only IDLE or SKIPPED behind IDLE. */
  ghost predicate SkipClosed(g: Graph, rows: Rows, loose: set<NodeId>) {
    forall p, n | Edge(p, n) in g.edges && n in rows && n !in loose ::
      && (StatusOf(rows, p) == SKIPPED ==> rows[n].status == SKIPPED)
      && (StatusOf(rows, p) == IDLE ==> rows[n].status == IDLE || rows[n].status == SKIPPED)
  }

  lemma TryAllKeepsSkipClosed(g: Graph, rows: Rows, ts: seq<NodeId>, loose: set<NodeId>)
    requires SkipClosed(g, rows, loose)
    ensures SkipClosed(g, TryAll(g, rows, ts), loose)
  {
    var rows' := TryAll(g, rows, ts);
    TryAllIsSettled(g, rows, ts);
    forall p, n | Edge(p, n) in g.edges && n in rows' && n !in loose
      ensures StatusOf(rows', p) == SKIPPED ==> rows'[n].status == SKIPPED
      ensures StatusOf(rows', p) == IDLE ==> rows'[n].status == IDLE || rows'[n].status == SKIPPED
    {
      if Left(rows, rows', n) {
        StaysBehind(g, Elements(ts), rows, rows', p, n);
      } else if StatusOf(rows', p) == SKIPPED && StatusOf(rows, p) != SKIPPED {
        assert Turned(rows, rows', p, SKIPPED) && PredSkipped(g, rows, rows', n);
      }
    }
  }

  /**
   A node that activation moves from IDLE has no IDLE predecessor, and only moves to SKIPPED behind
   a new SKIPPED one.
   */
  lemma StaysBehind(g: Graph, seeds: set<NodeId>, rows: Rows, rows': Rows, p: NodeId, n: NodeId)
    requires Settled(g, seeds, rows, rows') && Left(rows, rows', n) && Edge(p, n) in g.edges
    requires StatusOf(rows, p) != SKIPPED
    ensures StatusOf(rows', p) == SKIPPED || StatusOf(rows', p) == IDLE ==> rows'[n].status == SKIPPED
  {
    assert Explained(g, seeds, rows, rows', n) && p in Prereqs(g, n);
    if !SkippedByCascade(g, rows, rows', n) {
      FiredFacts(g, rows, rows', n);
      assert StatusOf(rows', p) == SKIPPED ==> Turned(rows, rows', p, SKIPPED);
    }
  }

  /** Writing a status other than IDLE and SKIPPED onto a node that has one, or is loose, opens nothing. */
  lemma WriteKeepsSkipClosed(g: Graph, rows: Rows, n: NodeId, row: Row, loose: set<NodeId>)
    requires SkipClosed(g, rows, loose) && n in rows
    requires row.status == rows[n].status || (row.status != IDLE && row.status != SKIPPED)
    requires n in loose || row.status == rows[n].status || (rows[n].status != IDLE && rows[n].status != SKIPPED)
    ensures SkipClosed(g, rows[n := row], loose)
  {
  }

  lemma ForkKeepsSkipClosed(g: Graph, rows: Rows, from: NodeId, loose: set<NodeId>)
    requires rows.Keys == Ids(g) && SkipClosed(g, rows, loose) && ResetSet(g, from) <= loose
    ensures SkipClosed(g, ForkRows(g, rows, from), loose)
  {
    var inherited := ForkRows(g, rows, from);
    forall p, n | Edge(p, n) in g.edges && n in inherited && n !in loose
      ensures inherited[n] == rows[n] && StatusOf(inherited, p) == StatusOf(rows, p)
    {
      assert !Reaches(g, from, n);
      InheritedStatuses(g, rows, from, n);
      assert p in Prereqs(g, n);
    }
  }

  /** The nodes that a call may move away from behind a SKIPPED one: a fork resets, a report overwrites. */
  ghost function Loosens(g: Graph, op: Op): set<NodeId> {
    match op
    case ForkFrom(from) => ResetSet(g, from)
    case HandlerReports(n, _) => {n}
    case _ => {}
  }

  lemma MoreLoose(g: Graph, rows: Rows, loose: set<NodeId>, more: set<NodeId>)
    requires SkipClosed(g, rows, loose)
    ensures SkipClosed(g, rows, loose + more)
  {
  }

  lemma ForkedSkipClosed(g: Graph, s: State, from: NodeId, loose: set<NodeId>)
    requires s.rows.Keys == Ids(g) && SkipClosed(g, s.rows, loose) && ResetSet(g, from) <= loose
    requires Fork(g, s, from).Some?
    ensures SkipClosed(g, Fork(g, s, from).value.rows, loose)
  {
    var inherited := ForkRows(g, s.rows, from);
    ForkKeepsSkipClosed(g, s.rows, from, loose);
    ReachesItself(g, from);
    assert from in ResetSet(g, from);
    hide SkipClosed, TryAll;
    match FirstPrereq(g.edges, from)
    case None => WriteKeepsSkipClosed(g, inherited, from, inherited[from].(status := PENDING), loose);
    case Some(p) => TryAllKeepsSkipClosed(g, inherited, Targets(g.edges, p), loose);
  }

  lemma CompletionKeepsSkipClosed(g: Graph, s: State, n: NodeId, path: Option<FilePath>, loose: set<NodeId>)
    requires SkipClosed(g, s.rows, loose)
    ensures SkipClosed(g, Complete(g, s, n, path).0.rows, loose)
  {
    hide SkipClosed, TryAll;
    if Complete(g, s, n, path).1.Done? {
      var row := CompletedRow(s.rows[n], path);
      WriteKeepsSkipClosed(g, s.rows, n, row, loose);
      TryAllKeepsSkipClosed(g, s.rows[n := row], Targets(g.edges, n), loose);
    }
  }

  lemma ApplyKeepsSkipClosed(g: Graph, s: State, op: Op, loose: set<NodeId>)
    requires s.rows.Keys == Ids(g) && SkipClosed(g, s.rows, loose)
    ensures SkipClosed(g, Apply(g, s, op).rows, loose + Loosens(g, op))
  {
    MoreLoose(g, s.rows, loose, Loosens(g, op));
    hide SkipClosed, TryAll, Fork, Complete, ResetSet;
    var loose := loose + Loosens(g, op);
    match op
    case View =>
    case ClaimNode(n) =>
      if Claim(s, n).1.Done? { WriteKeepsSkipClosed(g, s.rows, n, s.rows[n].(status := RUNNING), loose); }
    case CompleteNode(n, path) => CompletionKeepsSkipClosed(g, s, n, path, loose);
    case HandlerReports(n, r) =>
      if n in s.rows { WriteKeepsSkipClosed(g, s.rows, n, Handle(s, n, r).rows[n], loose); }
    case AttachFile(n, slot, f) =>
      if n in s.rows { WriteKeepsSkipClosed(g, s.rows, n, AddOutput(s.rows[n], slot, f), loose); }
    case RepairIteration(order) => TryAllKeepsSkipClosed(g, s.rows, RepairList(g, s.rows, order), loose);
    case ForkFrom(n) => if Fork(g, s, n).Some? { ForkedSkipClosed(g, s, n, loose); }
  }

  ghost function EverLoosened(g: Graph, ops: seq<Op>): (loose: set<NodeId>)
    ensures forall n :: n in loose <==> exists op | op in ops :: n in Loosens(g, op)
  {
    if ops == [] then {}
    else
      var before, last := ops[..|ops| - 1], ops[|ops| - 1];
      assert forall op :: op in ops <==> op in before || op == last;
      EverLoosened(g, before) + Loosens(g, last)
  }

  lemma StartsSkipClosed(g: Graph)
    ensures SkipClosed(g, Create(g).rows, {})
  {
    forall p, n | Edge(p, n) in g.edges ensures HasInEdge(g, n) {
      assert Edge(p, n).target == n;
    }
  }

  /**
   After every history, forks and reports included: an edge from a SKIPPED node leads to a SKIPPED
   node, or to one that some fork reset or some handler reported on.
   */
  lemma {:induction false} SkipsSpread(g: Graph, ops: seq<Op>)
    ensures SkipClosed(g, Run(g, ops).rows, EverLoosened(g, ops))
    decreases |ops|
  {
    hide SkipClosed, Apply, Loosens;
    if ops == [] {
      StartsSkipClosed(g);
    } else {
      var before := ops[..|ops| - 1];
      RowsOfNodes(g, before);
      SkipsSpread(g, before);
      ApplyKeepsSkipClosed(g, Run(g, before), ops[|ops| - 1], EverLoosened(g, before));
    }
  }

  /**
   So while reports are admitted, a task that was activated, and not reset or reported on, has only
   COMPLETED predecessors, and a gateway that passed only COMPLETED or failed ones: no gate ever
   chose between branches.
   */
  lemma OnlyCompletedFeeds(g: Graph, ops: seq<Op>, p: NodeId, n: NodeId)
    requires Admissible(g, ops) && n !in EverLoosened(g, ops)
    requires Edge(p, n) in g.edges && n in Ids(g)
    requires var s := StatusOf(Run(g, ops).rows, n); s != IDLE && s != SKIPPED
    ensures StatusOf(Run(g, ops).rows, p) == COMPLETED
      || (StatusOf(Run(g, ops).rows, p) == ERROR && Find(g.nodes, n).value.kind == GATEWAY)
  {
    RowsOfNodes(g, ops);
    EveryHistoryIsCausal(g, ops);
    SkipsSpread(g, ops);
    hide Run, EverLoosened;
    FeedsActive(g, Run(g, ops).rows, EverLoosened(g, ops), p, n);
  }

  lemma FeedsActive(g: Graph, rows: Rows, loose: set<NodeId>, p: NodeId, n: NodeId)
    requires Causal(g, rows) && SkipClosed(g, rows, loose) && n !in loose && n in rows && Edge(p, n) in g.edges
    requires rows[n].status != IDLE && rows[n].status != SKIPPED
    ensures StatusOf(rows, p) == COMPLETED || (StatusOf(rows, p) == ERROR && Find(g.nodes, n).value.kind == GATEWAY)
  {
    assert p in Prereqs(g, n) && HasInEdge(g, n);
    assert CausalAt(g, rows, Find(g.nodes, n).value);
  }

  /** While reports are admitted, a task behind a failed predecessor is IDLE, or SKIPPED by a cascade. */
  lemma ErrorHoldsTasks(g: Graph, ops: seq<Op>, p: NodeId, n: NodeId)
    requires Admissible(g, ops) && Edge(p, n) in g.edges && StatusOf(Run(g, ops).rows, p) == ERROR
    requires n in Ids(g) && Find(g.nodes, n).value.kind != GATEWAY
    ensures StatusOf(Run(g, ops).rows, n) == IDLE || StatusOf(Run(g, ops).rows, n) == SKIPPED
  {
    RowsOfNodes(g, ops);
    EveryHistoryIsCausal(g, ops);
    hide Run, Causal;
    TaskBehindError(g, Run(g, ops).rows, p, n);
  }

  lemma TaskBehindError(g: Graph, rows: Rows, p: NodeId, n: NodeId)
    requires Causal(g, rows) && n in rows && Find(g.nodes, n).value.kind != GATEWAY
    requires Edge(p, n) in g.edges && StatusOf(rows, p) == ERROR
    ensures rows[n].status == IDLE || rows[n].status == SKIPPED
  {
    assert CausalAt(g, rows, Find(g.nodes, n).value);
    assert p in Prereqs(g, n) && !Cleared(StatusOf(rows, p));
    hide Causal, TracesToGate;
  }
}
