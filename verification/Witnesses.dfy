/**
 Inputs on which the exceptions named elsewhere really arise.  Each pattern is stated for
 every graph that shows it, and one small graph shows them all.
 */
module Witnesses {
  import opened Wrappers
  import opened Flow
  import opened Runtime
  import opened Activation
  import opened Settling
  import opened Lifecycle
  import opened Runs
  import opened Histories
  import opened Progress
  import opened Repairs
  import opened Forks
  import opened Branches
  import opened Deliveries
  import opened Interleaving

  // ------------------------------------------------------------ a claimed start node

  /** A start node whose successors wait; it asks for no outputs. */
  ghost predicate StartNode(g: Graph, a: NodeId) {
    a in Ids(g) && !HasInEdge(g, a) && forall o | o in Find(g.nodes, a).value.outputs :: !o.required
  }

  /** The rows once the nodes of `running` have been claimed. */
  ghost function Claimed(g: Graph, running: set<NodeId>): Rows {
    map n | n in Ids(g) :: if n in running then FRESH_ROW.(status := RUNNING) else StartRows(g)[n]
  }

  lemma ClaimOne(g: Graph, a: NodeId)
    requires StartNode(g, a)
    ensures Run(g, [ClaimNode(a)]) == State(Claimed(g, {a}), Running)
  {
    ClaimAny(g, a);
  }

  lemma ClaimAny(g: Graph, a: NodeId)
    requires a in Ids(g) && !HasInEdge(g, a)
    ensures Run(g, [ClaimNode(a)]) == State(Claimed(g, {a}), Running)
  {
    assert [ClaimNode(a)][..0] == [];
    StartsAgreed(g);
    assert Run(g, []) == Created(g);
    assert Claimed(g, {a}) == StartRows(g)[a := FRESH_ROW.(status := RUNNING)];
  }

  lemma ClaimTwo(g: Graph, a: NodeId, b: NodeId)
    requires StartNode(g, a) && StartNode(g, b) && a != b
    ensures Run(g, [ClaimNode(a), ClaimNode(b)]) == State(Claimed(g, {a, b}), Running)
  {
    ClaimOne(g, a);
    RunMore(g, [ClaimNode(a)], ClaimNode(b));
    assert [ClaimNode(a)] + [ClaimNode(b)] == [ClaimNode(a), ClaimNode(b)];
    assert Claimed(g, {a, b}) == Claimed(g, {a})[b := FRESH_ROW.(status := RUNNING)];
  }

  // ------------------------------------------------------------ silent completions

  /** A handler that finishes silently leaves a successor that waited for it alone ready and IDLE. */
  lemma SilenceForgets(g: Graph, a: NodeId, b: NodeId)
    requires StartNode(g, a) && b in Ids(g) && Prereqs(g, b) == {a}
    ensures var ops := [ClaimNode(a), HandlerReports(a, Finished(None))];
      Overlooked(g, Run(g, ops).rows, b) && b in Missed(g, ops)
  {
    var ops := [ClaimNode(a)];
    ClaimOne(g, a);
    RunMore(g, ops, HandlerReports(a, Finished(None)));
    assert ops + [HandlerReports(a, Finished(None))] == [ClaimNode(a), HandlerReports(a, Finished(None))];
    assert Edge(a, b) in g.edges;
    assert HasInEdge(g, b);
    EveryHistoryRemembers(g, [ClaimNode(a), HandlerReports(a, Finished(None))]);
  }

  /** A handler that ends the only node, either way, leaves the stored status stale. */
  lemma EndGoesUnseen(g: Graph, a: NodeId, r: Report)
    requires StartNode(g, a) && Ids(g) == {a} && !r.Started?
    ensures var s := Run(g, [ClaimNode(a), HandlerReports(a, r)]);
      EndUnseen(g, s) && !Agrees(g, s)
  {
    var ops := [ClaimNode(a)];
    ClaimOne(g, a);
    RunMore(g, ops, HandlerReports(a, r));
    assert ops + [HandlerReports(a, r)] == [ClaimNode(a), HandlerReports(a, r)];
    var s := Run(g, [ClaimNode(a), HandlerReports(a, r)]);
    forall node | node in g.nodes ensures !Open(StatusOf(s.rows, node.id)) {
      assert node.id in Ids(g);
    }
  }

  /** A handler that is run on a waiting task activates it before its predecessors are cleared. */
  lemma HandlerOutOfOrder(g: Graph, a: NodeId, b: NodeId)
    requires StartNode(g, a) && b in Ids(g) && Edge(a, b) in g.edges && Find(g.nodes, b).value.kind != GATEWAY
    ensures !Admissible(g, [HandlerReports(b, Started)]) && !Causal(g, Run(g, [HandlerReports(b, Started)]).rows)
  {
    var ops := [HandlerReports(b, Started)];
    assert ops[..0] == [];
    StartsAgreed(g);
    assert Run(g, []) == Created(g);
    assert HasInEdge(g, b) && a in Prereqs(g, b);
    var rows := Run(g, ops).rows;
    assert rows[b].status == RUNNING && !Cleared(StatusOf(rows, a));
    assert !CausalAt(g, rows, Find(g.nodes, b).value);
    EveryHistoryIsCausal(g, ops);
  }

  // ------------------------------------------------------------ a fork that changes a kept row

  /** One of two predecessors completes while the other is still running, and then the other fails. */
  ghost function Failing(a: NodeId, b: NodeId): seq<Op> {
    [ClaimNode(a), ClaimNode(b)] + [CompleteNode(a, None)] + [HandlerReports(b, Broke)]
  }

  /** A node behind a predecessor that is still open is not activated. */
  lemma StillWaits(g: Graph, rows: Rows, ts: seq<NodeId>, b: NodeId, t: NodeId)
    requires t in rows && rows[t].status == IDLE && b in Prereqs(g, t) && b in rows && rows[b].status == RUNNING
    requires forall p | p in Prereqs(g, t) :: StatusOf(rows, p) != IDLE
    ensures TryAll(g, rows, ts)[t].status == IDLE
  {
    TryAllIsSettled(g, rows, ts);
    var rows' := TryAll(g, rows, ts);
    if Left(rows, rows', t) {
      assert Explained(g, Elements(ts), rows, rows', t);
      if Fired(g, rows, rows', t) { FiredFacts(g, rows, rows', t); }
      forall k: nat | k > 0 ensures !SkipTraced(g, rows, rows', t, k) {}
    }
  }

  /** After the first of the two completions the node behind both still waits. */
  lemma AfterOne(g: Graph, a: NodeId, b: NodeId, t: NodeId)
    requires StartNode(g, a) && StartNode(g, b) && a != b && t in Ids(g) && Prereqs(g, t) == {a, b}
    ensures var rows := Run(g, [ClaimNode(a), ClaimNode(b)] + [CompleteNode(a, None)]).rows;
      && a in rows && b in rows && t in rows
      && rows[a].status == COMPLETED && rows[b].status == RUNNING && rows[t].status == IDLE
  {
    var ops := [ClaimNode(a), ClaimNode(b)];
    ClaimTwo(g, a, b);
    RunMore(g, ops, CompleteNode(a, None));
    hide Run, TryAll, Lifecycle.Complete;
    assert Edge(a, t) in g.edges && Edge(b, t) in g.edges;
    assert HasInEdge(g, t);
    var rows := Claimed(g, {a, b});
    var written := rows[a := CompletedRow(rows[a], None)];
    CompleteStart(g, State(rows, Running), a);
    StillWaits(g, written, Targets(g.edges, a), b, t);
    assert Run(g, ops + [CompleteNode(a, None)]).rows == Advance(g, written, a);
  }

  lemma AfterFailing(g: Graph, a: NodeId, b: NodeId, t: NodeId)
    requires StartNode(g, a) && StartNode(g, b) && a != b && t in Ids(g) && Prereqs(g, t) == {a, b}
    ensures var rows := Run(g, Failing(a, b)).rows;
      && t in rows && rows[t].status == IDLE && StatusOf(rows, a) == COMPLETED && StatusOf(rows, b) == ERROR
  {
    AfterOne(g, a, b, t);
    RunMore(g, [ClaimNode(a), ClaimNode(b)] + [CompleteNode(a, None)], HandlerReports(b, Broke));
    hide Run, StartNode;
    assert HasInEdge(g, t) by { assert Edge(a, t) in g.edges; }
    assert t != b && t != a by { NotBehindItself(g, a, b, t); }
  }

  lemma NotBehindItself(g: Graph, a: NodeId, b: NodeId, t: NodeId)
    requires !HasInEdge(g, a) && !HasInEdge(g, b) && Prereqs(g, t) == {a, b}
    ensures t != a && t != b
  {
    assert Edge(a, t) in g.edges;
  }

  lemma CompleteStart(g: Graph, s: State, a: NodeId)
    requires StartNode(g, a) && a in s.rows && s.rows[a].status == RUNNING
    ensures Lifecycle.Complete(g, s, a, None).0.rows == Advance(g, s.rows[a := CompletedRow(s.rows[a], None)], a)
  {
    assert !OutputsMissing(g, s.rows[a], a, None);
  }

  /** A gateway behind a completed and a failed predecessor is kept by the fork and yet evaluated in it. */
  lemma ForkDisturbs(g: Graph, a: NodeId, b: NodeId, t: NodeId, from: NodeId)
    requires StartNode(g, a) && StartNode(g, b) && a != b && t in Ids(g) && Prereqs(g, t) == {a, b}
    requires Find(g.nodes, t).value.kind == GATEWAY
    requires from in Ids(g) && FirstPrereq(g.edges, from) == Some(a) && Kept(g, from, t)
    ensures var s := Run(g, Failing(a, b));
      && Disturbs(g, s.rows, from, t) && Fork(g, s, from).Some?
      && t in s.rows && Fork(g, s, from).value.rows[t] != s.rows[t]
  {
    var s := Run(g, Failing(a, b));
    AfterFailing(g, a, b, t);
    RowsOfNodes(g, Failing(a, b));
    hide Run;
    assert Edge(a, t) in g.edges && Edge(a, t).target == t;
    assert forall p | p in Prereqs(g, t) :: !Open(StatusOf(s.rows, p));
    assert Decide(g, s.rows, t).Some?;
    assert Disturbs(g, s.rows, from, t);
    DisturbedChanges(g, s, from, t);
  }

  // ------------------------------------------------------------ an interrupted cascade

  /** A start node, a gateway that wants a file from it, and a node behind the gateway. */
  ghost predicate BlockingLine(g: Graph, a: NodeId, t: NodeId, c: NodeId) {
    && StartNode(g, a) && a != t && a != c && t != c && t in Ids(g) && c in Ids(g)
    && Find(g.nodes, t) == Some(Node(t, GATEWAY, AND, [Input(0, PREDECESSOR(Some(a), Some(0)))], []))
    && Targets(g.edges, a) == [t] && Targets(g.edges, t) == [c] && Prereqs(g, t) == {a} && Prereqs(g, c) == {t}
  }

  lemma ExecuteMore(g: Graph, from: World, moves: seq<Move>, m: Move)
    ensures Execute(g, from, moves + [m]) == Step(g, Execute(g, from, moves), m)
  {
    assert (moves + [m])[..|moves + [m]| - 1] == moves;
  }

  /** The statuses along the line. */
  ghost predicate Shows(w: World, a: NodeId, t: NodeId, c: NodeId, sa: Status, st: Status, stage: Stage) {
    && a in w.status && t in w.status && c in w.status
    && w.status[a] == sa && w.status[t] == st && w.status[c] == IDLE
    && w.calls.Keys == {0} && w.calls[0] == stage
  }

  /** The completion begins and is written. */
  function Completion(a: NodeId): seq<Move> {
    [] + [Move.Complete(0, a)] + [Go(0, true)]
  }

  /** Then the gateway is found blocked, and stored as SKIPPED; its cascade is next. */
  function Blocking(a: NodeId): seq<Move> {
    Completion(a) + [Go(0, false)] + [Go(0, true)]
  }

  lemma LineCompletes(g: Graph, from: World, a: NodeId, t: NodeId, c: NodeId)
    requires BlockingLine(g, a, t, c) && from == Between(Claimed(g, {a}))
    ensures Shows(Execute(g, from, Completion(a)), a, t, c, COMPLETED, IDLE, Trying([t]))
  {
    assert Edge(a, t) in g.edges && Edge(t, c) in g.edges;
    assert HasInEdge(g, t) && HasInEdge(g, c);
    assert Execute(g, from, []) == from;
    assert from.calls == map[] && from.status[a] == RUNNING && from.status[t] == IDLE && from.status[c] == IDLE;
    hide Execute, Shows, HasInEdge, Prereqs, Claimed, Between, StartNode, Ids, Find;
    ExecuteMore(g, from, [], Move.Complete(0, a));
    ExecuteMore(g, from, [] + [Move.Complete(0, a)], Go(0, true));
    var w1 := World(from.status, map[0 := Completing(a)]);
    assert Step(g, from, Move.Complete(0, a)) == w1;
    StartIsWritten(g, w1, a, t, c);
  }

  lemma StartIsWritten(g: Graph, w: World, a: NodeId, t: NodeId, c: NodeId)
    requires Targets(g.edges, a) == [t] && a != t && a != c && w.calls == map[0 := Completing(a)]
    requires a in w.status && t in w.status && c in w.status && w.status[t] == IDLE && w.status[c] == IDLE
    ensures Shows(Step(g, w, Go(0, true)), a, t, c, COMPLETED, IDLE, Trying([t]))
  {
  }

  lemma LineBlocks(g: Graph, from: World, a: NodeId, t: NodeId, c: NodeId)
    requires BlockingLine(g, a, t, c)
    requires Shows(Execute(g, from, Completion(a)), a, t, c, COMPLETED, IDLE, Trying([t]))
    ensures Shows(Execute(g, from, Blocking(a)), a, t, c, COMPLETED, SKIPPED, Cascading({t}, [c], []))
  {
    hide Execute;
    var w0 := Execute(g, from, Completion(a));
    GatewayBlocks(g, w0.status, a, t);
    ExecuteMore(g, from, Completion(a), Go(0, false));
    ExecuteMore(g, from, Completion(a) + [Go(0, false)], Go(0, true));
    var w1 := w0.(calls := w0.calls[0 := Firing(t, SKIPPED, [])]);
    assert Step(g, w0, Go(0, false)) == w1 by {
      hide Decision, BlockingLine;
      assert [t][0] == t && [t][1..] == [];
    }
    hide Decision, Completion;
  }

  /** The completion of the start node finds the gateway blocked, stores that, and is about to cascade. */
  lemma Interrupted(g: Graph, a: NodeId, t: NodeId, c: NodeId)
    requires BlockingLine(g, a, t, c)
    ensures Shows(After(g, [ClaimNode(a)], Blocking(a)), a, t, c, COMPLETED, SKIPPED, Cascading({t}, [c], []))
  {
    ClaimOne(g, a);
    var from := Between(Claimed(g, {a}));
    LineCompletes(g, from, a, t, c);
    LineBlocks(g, from, a, t, c);
    hide Execute, BlockingLine;
  }

  lemma GatewayBlocks(g: Graph, s: Statuses, a: NodeId, t: NodeId)
    requires Prereqs(g, t) == {a} && t in s && s[t] == IDLE && Current(s, a) == COMPLETED
    requires Find(g.nodes, t) == Some(Node(t, GATEWAY, AND, [Input(0, PREDECESSOR(Some(a), Some(0)))], []))
    ensures Decision(g, s, t, false) == Some(SKIPPED)
  {
    var input := Input(0, PREDECESSOR(Some(a), Some(0)));
    assert input in [input] && Bound(input);
  }

  /** Nothing was uploaded, so that is how the files answer. */
  lemma NoFileNoPass(g: Graph, a: NodeId, t: NodeId, c: NodeId)
    requires BlockingLine(g, a, t, c)
    ensures var rows := Run(g, [ClaimNode(a)]).rows;
      a in rows && !GatePasses(g, rows[a := CompletedRow(rows[a], None)], Find(g.nodes, t).value)
  {
    ClaimOne(g, a);
    var rows := Claimed(g, {a})[a := CompletedRow(Claimed(g, {a})[a], None)];
    var node := Find(g.nodes, t).value;
    var input := node.inputs[0];
    assert input in node.inputs && Bound(input);
    assert node.inputs[..0] == [];
    assert ResolveAll(rows, node.inputs) == map[][input.id := ResolveOne(rows, input.source)];
    assert !Received(ResolveInputs(rows, node), input.id);
  }

  /** One completion, cut between the gateway and its cascade, leaves a node stranded, and a repair leaves it so. */
  lemma CascadeCutStrands(g: Graph, a: NodeId, t: NodeId, c: NodeId, order: seq<NodeId>)
    requires BlockingLine(g, a, t, c)
    ensures var w := After(g, [ClaimNode(a)], Blocking(a) + [Drop(0)]);
      && w.calls == map[] && LeftBehind(g, w.status, c) && Stranded(g, AsRows(w.status), c)
      && (Covers(order, AsRows(w.status)) ==> Forgotten(g, Repaired(g, AsRows(w.status), order), c))
  {
    Interrupted(g, a, t, c);
    var from := Between(Run(g, [ClaimNode(a)]).rows);
    ExecuteMore(g, from, Blocking(a), Drop(0));
    var cut := After(g, [ClaimNode(a)], Blocking(a) + [Drop(0)]);
    hide Execute, Run, Blocking;
    assert Edge(t, c) in g.edges && HasInEdge(g, c);
    assert Stranded(g, AsRows(cut.status), c);
    if Covers(order, AsRows(cut.status)) {
      RepairMissesExactlyTheStranded(g, AsRows(cut.status), order, c);
    }
  }

  // ------------------------------------------------------------ a fork behind a SKIPPED node

  /** The rows once the claimed start node is written COMPLETED. */
  ghost function LineWritten(g: Graph, a: NodeId): Rows
    requires a in Ids(g)
  {
    var rows := Claimed(g, {a});
    rows[a := CompletedRow(rows[a], None)]
  }

  lemma LineReady(g: Graph, a: NodeId, t: NodeId, c: NodeId)
    requires BlockingLine(g, a, t, c)
    ensures var rows := LineWritten(g, a);
      && t in rows && rows[t].status == IDLE && c in rows && rows[c].status == IDLE && StatusOf(rows, a) == COMPLETED
      && !GatePasses(g, rows, Find(g.nodes, t).value)
  {
    NoFileNoPass(g, a, t, c);
    ClaimOne(g, a);
    assert Edge(a, t) in g.edges && Edge(t, c) in g.edges;
    assert HasInEdge(g, t) && HasInEdge(g, c);
    hide Run, GatePasses, StartNode;
  }

  lemma LineAdvances(g: Graph, a: NodeId, t: NodeId, c: NodeId)
    requires BlockingLine(g, a, t, c)
    ensures Run(g, [ClaimNode(a)] + [CompleteNode(a, None)]).rows == TryAll(g, LineWritten(g, a), [t])
  {
    ClaimOne(g, a);
    RunMore(g, [ClaimNode(a)], CompleteNode(a, None));
    CompleteStart(g, State(Claimed(g, {a}), Running), a);
    assert a in Claimed(g, {a}) && Claimed(g, {a})[a].status == RUNNING;
    hide Run, TryAll, Lifecycle.Complete, Claimed, StartNode, Find;
  }

  /** Completed in one go, the start node leaves the gateway and the node behind it SKIPPED. */
  lemma LineSkips(g: Graph, a: NodeId, t: NodeId, c: NodeId)
    requires BlockingLine(g, a, t, c)
    ensures var rows := Run(g, [ClaimNode(a)] + [CompleteNode(a, None)]).rows;
      StatusOf(rows, t) == SKIPPED && StatusOf(rows, c) == SKIPPED && rows.Keys == Ids(g)
  {
    LineAdvances(g, a, t, c);
    RowsOfNodes(g, [ClaimNode(a)] + [CompleteNode(a, None)]);
    LineReady(g, a, t, c);
    assert Edge(t, c) in g.edges;
    hide Run, LineWritten, StartNode, Ids, TryAll, GatePasses;
    GateDecides(g, LineWritten(g, a), a, t);
    BlockedSkips(g, LineWritten(g, a), t, c);
  }

  lemma GateDecides(g: Graph, rows: Rows, a: NodeId, t: NodeId)
    requires Find(g.nodes, t).Some? && Find(g.nodes, t).value.kind == GATEWAY && Prereqs(g, t) == {a}
    requires t in rows && rows[t].status == IDLE && StatusOf(rows, a) == COMPLETED
    requires !GatePasses(g, rows, Find(g.nodes, t).value)
    ensures Decide(g, rows, t).Some? && Decide(g, rows, t).value.status == SKIPPED
  {
    hide GatePasses;
  }

  lemma BlockedSkips(g: Graph, rows: Rows, t: NodeId, c: NodeId)
    requires Decide(g, rows, t).Some? && Decide(g, rows, t).value.status == SKIPPED && t in rows
    requires Edge(t, c) in g.edges && c != t && c in rows && rows[c].status == IDLE
    ensures StatusOf(TryAll(g, rows, [t]), t) == SKIPPED && StatusOf(TryAll(g, rows, [t]), c) == SKIPPED
  {
    var row := Decide(g, rows, t).value;
    var blocked := rows[t := row];
    hide Decide;
    assert TryAll(g, rows, [t]) == CascadeSkip(g, blocked, t) by {
      assert [t][0] == t && [t][1..] == [];
      assert TryActivate(g, rows, t) == CascadeSkip(g, blocked, t);
      TryNone(g, CascadeSkip(g, blocked, t));
    }
    SkippableStep(g, blocked, t, t, c);
    NotSkippableItself(g, blocked, t);
  }

  /** A fork from the node behind the SKIPPED gateway wakes it: its only predecessor is SKIPPED, and it is PENDING. */
  lemma ForkRunsBehindSkipped(g: Graph, a: NodeId, t: NodeId, c: NodeId)
    requires BlockingLine(g, a, t, c) && Find(g.nodes, c).value.kind != GATEWAY && Kept(g, c, t)
    ensures var ops := [ClaimNode(a)] + [CompleteNode(a, None)] + [ForkFrom(c)]; var rows := Run(g, ops).rows;
      && StatusOf(rows, t) == SKIPPED && Edge(t, c) in g.edges && StatusOf(rows, c) == PENDING
      && c in EverLoosened(g, ops)
  {
    var ops := [ClaimNode(a)] + [CompleteNode(a, None)];
    LineSkips(g, a, t, c);
    RunMore(g, ops, ForkFrom(c));
    var s := Run(g, ops);
    hide Run, StartNode;
    assert Edge(t, c) in g.edges;
    ReachesItself(g, c);
    assert c in Loosens(g, ForkFrom(c)) && ForkFrom(c) in ops + [ForkFrom(c)];
    OnlyPrereq(g, t, c);
    var inherited := ForkRows(g, s.rows, c);
    assert StatusOf(inherited, t) == SKIPPED && inherited[c] == FRESH_ROW;
    hide ForkRows, EverLoosened, Reaches;
    BehindSkippedWakes(g, inherited, t, c);
    assert Fork(g, s, c).Some? && Fork(g, s, c).value.rows == TryAll(g, inherited, [c]);
  }

  lemma OnlyPrereq(g: Graph, t: NodeId, c: NodeId)
    requires Prereqs(g, c) == {t}
    ensures FirstPrereq(g.edges, c) == Some(t)
  {
    assert Edge(t, c) in g.edges && Edge(t, c).target == c;
    assert FirstPrereq(g.edges, c).Some? && FirstPrereq(g.edges, c).value in Prereqs(g, c);
  }

  lemma BehindSkippedWakes(g: Graph, rows: Rows, t: NodeId, c: NodeId)
    requires Find(g.nodes, c).Some? && Find(g.nodes, c).value.kind != GATEWAY && Prereqs(g, c) == {t} && t != c
    requires c in rows && rows[c] == FRESH_ROW && StatusOf(rows, t) == SKIPPED
    ensures var rows' := TryAll(g, rows, [c]); StatusOf(rows', c) == PENDING && StatusOf(rows', t) == SKIPPED
  {
    var decided := Decide(g, rows, c);
    assert decided.Some? && decided.value.status == PENDING;
    hide Decide;
    assert [c][0] == c && [c][1..] == [];
    TryNone(g, rows[c := decided.value]);
  }

  // ------------------------------------------------------------ reports on nodes that have ended

  /** The only node is completed, and the iteration with it. */
  lemma CompletedAlone(g: Graph, a: NodeId)
    requires StartNode(g, a) && Ids(g) == {a}
    ensures var s := Run(g, [ClaimNode(a)] + [CompleteNode(a, None)]);
      && s.verdict == Completed && s.rows.Keys == {a} && s.rows[a].status == COMPLETED && g.nodes != []
  {
    var rows := Claimed(g, {a});
    ClaimOne(g, a);
    RunMore(g, [ClaimNode(a)], CompleteNode(a, None));
    CompleteStart(g, State(rows, Running), a);
    RowsOfNodes(g, [ClaimNode(a)] + [CompleteNode(a, None)]);
    var s := Run(g, [ClaimNode(a)] + [CompleteNode(a, None)]);
    assert s == Lifecycle.Complete(g, State(rows, Running), a, None).0;
    assert s.rows == Advance(g, rows[a := CompletedRow(rows[a], None)], a) && rows.Keys == {a};
    hide Run, StartNode, Lifecycle.Complete;
    CompleteAgrees(g, State(rows, Running), a, None);
    hide TryAll, Claimed;
    assert s.rows[a].status == COMPLETED;
    AloneDerives(g, s.rows, a);
  }

  lemma AloneDerives(g: Graph, rows: Rows, a: NodeId)
    requires rows.Keys == {a} && Ids(g) == {a}
    ensures g.nodes != [] && Derived(g, rows) ==
      if Open(rows[a].status) then Running else if rows[a].status == ERROR then Failed else Completed
  {
    DerivedBy(g, rows, a);
    assert !OtherOpen(rows, a) && !OtherError(rows, a);
    hide AllTerminal, AnyError;
  }

  /** A report that reopens a COMPLETED node leaves the iteration stored as COMPLETED over an open node. */
  lemma ReopeningGoesUnseen(g: Graph, a: NodeId)
    requires StartNode(g, a) && Ids(g) == {a}
    ensures var s := Run(g, [ClaimNode(a)] + [CompleteNode(a, None)] + [HandlerReports(a, Started)]);
      s.verdict == Completed && StatusOf(s.rows, a) == RUNNING && !Agrees(g, s) && !EndUnseen(g, s)
  {
    var ops := [ClaimNode(a)] + [CompleteNode(a, None)];
    CompletedAlone(g, a);
    RunMore(g, ops, HandlerReports(a, Started));
    hide Run, StartNode;
    AloneDerives(g, Run(g, ops + [HandlerReports(a, Started)]).rows, a);
  }

  /** The rows once the start node is claimed hold no COMPLETED task. */
  lemma ClaimedDelivered(g: Graph, a: NodeId)
    ensures Delivered(g, Claimed(g, {a}), {})
  {
  }

  lemma NothingUploaded(g: Graph, a: NodeId, o: Output, path: Option<FilePath>)
    requires a in Ids(g) && o in Find(g.nodes, a).value.outputs && o.required && o.id != DEFAULT_SLOT
    ensures a in Claimed(g, {a}) && OutputsMissing(g, Claimed(g, {a})[a], a, path)
  {
    assert Missing(o, Claimed(g, {a})[a], path);
  }

  /** A handler completes a task without the output that it requires. */
  lemma FinishedWithoutOutput(g: Graph, a: NodeId, o: Output, path: Option<FilePath>)
    requires a in Ids(g) && !HasInEdge(g, a) && IsTask(g, a)
    requires o in Find(g.nodes, a).value.outputs && o.required && o.id != DEFAULT_SLOT
    ensures var ops := [ClaimNode(a)] + [HandlerReports(a, Finished(path))];
      !Delivered(g, Run(g, ops).rows, {}) && a in EverExcused(g, ops)
  {
    hide Claimed, Delivered, Missing, Run, Find, HasInEdge, IsTask, OutputsMissing, Ids;
    var ops := [ClaimNode(a)];
    ClaimAny(g, a);
    ClaimedDelivered(g, a);
    NothingUploaded(g, a, o, path);
    RunMore(g, ops, HandlerReports(a, Finished(path)));
    var s := State(Claimed(g, {a}), Running);
    ReportDelivers(g, s, a, Finished(path), {});
    var all := ops + [HandlerReports(a, Finished(path))];
    assert all[..|all| - 1] == ops;
    assert a in Excused(g, s, HandlerReports(a, Finished(path)));
  }

  // ------------------------------------------------------------ small graphs that show the patterns

  function Task(n: NodeId): Node {
    Node(n, TASK, AND, [], [])
  }

  const SINGLE := Graph([Task(0)], [])

  const LINE := Graph(
    [Task(0), Node(1, GATEWAY, AND, [Input(0, PREDECESSOR(Some(0), Some(0)))], []), Task(2)],
    [Edge(0, 1), Edge(1, 2)])

  const BRANCH := Graph([Task(0), Task(1), Node(2, GATEWAY, AND, [], []), Task(3)],
    [Edge(0, 3), Edge(0, 2), Edge(1, 2)])

  /** A task that requires an output. */
  const DEMANDING := Graph([Node(0, TASK, AND, [], [Output(1, true)])], [])

  lemma DemandingShows()
    ensures var g := DEMANDING;
      && 0 in Ids(g) && !HasInEdge(g, 0) && IsTask(g, 0) && Output(1, true) in Find(g.nodes, 0).value.outputs
  {
    assert DEMANDING.nodes[0].id == 0;
    assert [Output(1, true)][0] == Output(1, true);
  }

  lemma SingleShows()
    ensures StartNode(SINGLE, 0) && Ids(SINGLE) == {0}
  {
    assert SINGLE.nodes[0].id == 0;
  }

  lemma LineTargets(edges: seq<Edge>)
    requires edges == [Edge(0, 1), Edge(1, 2)]
    ensures Targets(edges, 0) == [1] && Targets(edges, 1) == [2]
  {
    var last := edges[1..];
    assert last[0] == Edge(1, 2) && last[1..] == [];
    assert Targets(last[1..], 0) == [] && Targets(last[1..], 1) == [];
  }

  lemma LineShows()
    ensures BlockingLine(LINE, 0, 1, 2)
  {
    var g := LINE;
    LineTargets(g.edges);
    assert g.nodes[0].id == 0 && g.nodes[1].id == 1 && g.nodes[2].id == 2;
    assert g.edges[0] == Edge(0, 1) && g.edges[1] == Edge(1, 2);
    assert g.nodes[1..][0] == g.nodes[1];
  }

  lemma DeadEnd(g: Graph, from: NodeId, n: NodeId)
    requires n != from && forall e | e in g.edges :: e.source != from
    ensures Kept(g, from, n)
  {
    if Reaches(g, from, n) {
      var path :| Walk(g, path) && path[0] == from && path[|path| - 1] == n;
      ClosedHoldsReached(g, {from}, path);
    }
  }

  lemma BranchFinds(nodes: seq<Node>)
    requires nodes == BRANCH.nodes
    ensures Find(nodes, 0) == Some(nodes[0]) && Find(nodes, 1) == Some(nodes[1])
    ensures Find(nodes, 2) == Some(nodes[2]) && Find(nodes, 3) == Some(nodes[3])
  {
    var rest := nodes[1..];
    assert rest[0].id == 1 && rest[1..][0] == nodes[2] && rest[1..][1..][0] == nodes[3];
  }

  lemma BranchEdges(g: Graph)
    requires g.edges == BRANCH.edges
    ensures Prereqs(g, 2) == {0, 1} && FirstPrereq(g.edges, 3) == Some(0) && Edge(0, 3) in g.edges
    ensures !HasInEdge(g, 0) && !HasInEdge(g, 1) && Kept(g, 3, 2)
  {
    assert g.edges[0] == Edge(0, 3) && g.edges[1] == Edge(0, 2) && g.edges[2] == Edge(1, 2);
    DeadEnd(g, 3, 2);
  }

  lemma BranchShows()
    ensures var g := BRANCH;
      && StartNode(g, 0) && StartNode(g, 1) && 2 in Ids(g) && 3 in Ids(g) && Prereqs(g, 2) == {0, 1}
      && Find(g.nodes, 2) == Some(g.nodes[2]) && FirstPrereq(g.edges, 3) == Some(0) && Kept(g, 3, 2)
      && Edge(0, 3) in g.edges && Find(g.nodes, 3) == Some(g.nodes[3])
  {
    hide Find, Prereqs, FirstPrereq, HasInEdge, Kept, StartNode, Ids;
    var g := BRANCH;
    BranchIds(g);
    BranchFinds(g.nodes);
    BranchEdges(g);
    PlainStart(g, 0);
    PlainStart(g, 1);
  }

  lemma BranchIds(g: Graph)
    requires g.nodes == BRANCH.nodes
    ensures Ids(g) == {0, 1, 2, 3}
  {
    assert g.nodes[0].id == 0 && g.nodes[1].id == 1 && g.nodes[2].id == 2 && g.nodes[3].id == 3;
  }

  lemma PlainStart(g: Graph, a: NodeId)
    requires a in Ids(g) && !HasInEdge(g, a) && Find(g.nodes, a) == Some(Task(a))
    ensures StartNode(g, a)
  {
  }

  /** The exceptions arise: one reachable state for each. */
  lemma ExceptionsArise()
    ensures var ops := [ClaimNode(0), HandlerReports(0, Finished(None))];
      Orderly(LINE, ops) && Overlooked(LINE, Run(LINE, ops).rows, 1)
    ensures var s := Run(SINGLE, [ClaimNode(0), HandlerReports(0, Broke)]); EndUnseen(SINGLE, s) && !Agrees(SINGLE, s)
    ensures !Causal(BRANCH, Run(BRANCH, [HandlerReports(3, Started)]).rows)
    ensures Disturbs(BRANCH, Run(BRANCH, Failing(0, 1)).rows, 3, 2)
    ensures var w := After(LINE, [ClaimNode(0)], Blocking(0) + [Drop(0)]);
      w.calls == map[] && Stranded(LINE, AsRows(w.status), 2)
  {
    SingleShows();
    LineShows();
    BranchShows();
    OrderlyFinish(LINE, 0);
    hide StartNode, Run, Disturbs, Stranded, Overlooked, Execute, Blocking;
    SilenceForgets(LINE, 0, 1);
    EndGoesUnseen(SINGLE, 0, Broke);
    HandlerOutOfOrder(BRANCH, 0, 3);
    ForkDisturbs(BRANCH, 0, 1, 2, 3);
    CascadeCutStrands(LINE, 0, 1, 2, []);
  }

  /** So do a restart behind a SKIPPED node, a reopened iteration, and a task without its output. */
  lemma LaterExceptionsArise()
    ensures var rows := Run(LINE, [ClaimNode(0)] + [CompleteNode(0, None)] + [ForkFrom(2)]).rows;
      StatusOf(rows, 1) == SKIPPED && StatusOf(rows, 2) == PENDING
    ensures var s := Run(SINGLE, [ClaimNode(0)] + [CompleteNode(0, None)] + [HandlerReports(0, Started)]);
      !Agrees(SINGLE, s) && !EndUnseen(SINGLE, s)
    ensures !Delivered(DEMANDING, Run(DEMANDING, [ClaimNode(0)] + [HandlerReports(0, Finished(None))]).rows, {})
  {
    SingleShows();
    LineShows();
    DemandingShows();
    LineEndsInTask();
    hide StartNode, Run, Delivered, Agrees, EndUnseen, BlockingLine, Find, Kept;
    ForkRunsBehindSkipped(LINE, 0, 1, 2);
    ReopeningGoesUnseen(SINGLE, 0);
    FinishedWithoutOutput(DEMANDING, 0, Output(1, true), None);
  }

  lemma LineEndsInTask()
    ensures Find(LINE.nodes, 2).Some? && Find(LINE.nodes, 2).value.kind == TASK && Kept(LINE, 2, 1)
  {
    DeadEnd(LINE, 2, 1);
    var rest := LINE.nodes[1..];
    assert LINE.nodes[0].id == 0 && rest[0].id == 1 && rest[1..][0].id == 2;
  }

  lemma OrderlyFinish(g: Graph, a: NodeId)
    requires StartNode(g, a)
    ensures Orderly(g, [ClaimNode(a), HandlerReports(a, Finished(None))])
  {
    ClaimOne(g, a);
    var ops := [ClaimNode(a), HandlerReports(a, Finished(None))];
    assert ops[..1] == [ClaimNode(a)] && ops[..1][..0] == [];
  }
}
