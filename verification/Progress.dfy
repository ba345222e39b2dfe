/**
 Deadlock freedom, the possibility of finishing, forward-only statuses, the stored
 iteration status, and what a skipped branch does to everything behind it.
 */
module Progress {
  import opened Wrappers
  import opened Flow
  import opened Runtime
  import opened Activation
  import opened Settling
  import opened Lifecycle
  import opened Runs
  import opened Histories

  // ------------------------------------------------------------ deadlock freedom

  /** Nobody can act: no node is waiting to be claimed or completed. */
  ghost predicate Quiet(rows: Rows) {
    forall n | n in rows :: rows[n].status != PENDING && rows[n].status != RUNNING
  }

  /** A node that can never clear by itself: it failed, or it does not exist. */
  ghost predicate Blocker(rows: Rows, n: NodeId) {
    n !in rows || rows[n].status == ERROR
  }

  /** Where a waiting chain ends: at a blocker, or at a node that was overlooked. */
  ghost predicate Root(g: Graph, rows: Rows, a: NodeId) {
    Blocker(rows, a) || Overlooked(g, rows, a)
  }

  lemma {:induction false} IdleHasRoot(g: Graph, rank: NodeId -> nat, rows: Rows, n: NodeId)
    requires Ranked(g, rank) && Quiet(rows)
    requires n in rows && rows[n].status == IDLE
    ensures exists a :: Reaches(g, a, n) && Root(g, rows, a)
    decreases rank(n)
  {
    ReachesItself(g, n);
    if !Overlooked(g, rows, n) {
      var p :| p in Prereqs(g, n) && !Cleared(StatusOf(rows, p));
      assert Edge(p, n) in g.edges;
      if Blocker(rows, p) {
        ReachesItself(g, p);
        ReachesStep(g, p, p, n);
      } else {
        IdleHasRoot(g, rank, rows, p);
        var a :| Reaches(g, a, p) && Root(g, rows, a);
        ReachesStep(g, a, p, n);
      }
    }
  }

  /**
   On an acyclic graph, when nobody can act every IDLE node has an ancestor that failed, that is
   missing, or that is ready and IDLE because a handler's silent completion left it untried.
   */
  lemma StuckNodesHaveBlockers(g: Graph, rank: NodeId -> nat, ops: seq<Op>, n: NodeId)
    requires Ranked(g, rank) && Quiet(Run(g, ops).rows)
    requires StatusOf(Run(g, ops).rows, n) == IDLE && n in Ids(g)
    ensures var rows := Run(g, ops).rows;
      exists a :: Reaches(g, a, n) && (Blocker(rows, a) || (Overlooked(g, rows, a) && a in Missed(g, ops)))
  {
    EveryHistoryRemembers(g, ops);
    IdleHasRoot(g, rank, Run(g, ops).rows, n);
    var a :| Reaches(g, a, n) && Root(g, Run(g, ops).rows, a);
    assert Overlooked(g, Run(g, ops).rows, a) ==> a in Missed(g, ops);
  }

  ghost predicate ErrorFree(rows: Rows) {
    forall n | n in rows :: rows[n].status != ERROR
  }

  lemma {:induction false} ReachedFromNode(g: Graph, a: NodeId, n: NodeId)
    requires EdgesJoinNodes(g) && Reaches(g, a, n) && n in Ids(g)
    ensures a in Ids(g)
  {
    var path :| Walk(g, path) && path[0] == a && path[|path| - 1] == n;
    if |path| > 1 {
      var i, j := 0, 1;
      assert Edge(path[i], path[j]) in g.edges;
    }
  }

  /** No node that a silent completion left untried is still IDLE. */
  ghost predicate NoneLeft(g: Graph, ops: seq<Op>) {
    forall n | n in Missed(g, ops) && n in Run(g, ops).rows :: Run(g, ops).rows[n].status != IDLE
  }

  /**
   Without an error, when nobody can act all nodes are terminal if and only if no node is left
   untried, and then the next read at the latest shows the iteration as COMPLETED.
   */
  lemma DeadlockFree(g: Graph, rank: NodeId -> nat, ops: seq<Op>)
    requires Ranked(g, rank) && EdgesJoinNodes(g) && g.nodes != []
    requires Quiet(Run(g, ops).rows) && ErrorFree(Run(g, ops).rows)
    ensures AllTerminal(g, Run(g, ops).rows) <==> NoneLeft(g, ops)
    ensures NoneLeft(g, ops) ==> Reconcile(g, Run(g, ops)).verdict == Completed
    ensures (forall op | op in ops :: !Ends(op)) ==> NoneLeft(g, ops)
    ensures NoneLeft(g, ops) && NoReportSince(ops, LastRead(g, ops)) ==> Run(g, ops).verdict == Completed
  {
    var s := Run(g, ops);
    RowsOfNodes(g, ops);
    if NoneLeft(g, ops) {
      forall n | n in Ids(g) ensures s.rows[n].status != IDLE {
        if s.rows[n].status == IDLE { StuckHasMissed(g, rank, ops, n); }
      }
      AllLeftIdle(g, s.rows);
    } else {
      var n :| n in Missed(g, ops) && n in s.rows && s.rows[n].status == IDLE;
      var node := Find(g.nodes, n).value;
      assert node in g.nodes && Open(StatusOf(s.rows, node.id));
    }
    if forall op | op in ops :: !Ends(op) {
      NothingMissed(g, ops);
    }
    if NoReportSince(ops, LastRead(g, ops)) {
      hide Run, ErrorFree, Quiet, AllTerminal, Derived;
      StoredStatus(g, ops);
    }
  }

  lemma AllLeftIdle(g: Graph, rows: Rows)
    requires rows.Keys == Ids(g) && Quiet(rows) && ErrorFree(rows)
    requires forall n | n in Ids(g) :: rows[n].status != IDLE
    ensures AllTerminal(g, rows) && !AnyError(g, rows)
  {
    forall node | node in g.nodes ensures !Open(StatusOf(rows, node.id)) && StatusOf(rows, node.id) != ERROR {
      assert node.id in Ids(g);
    }
  }

  /** In an error-free run whose edges join nodes nothing but an untried node holds anything back. */
  lemma StuckHasMissed(g: Graph, rank: NodeId -> nat, ops: seq<Op>, n: NodeId)
    requires Ranked(g, rank) && EdgesJoinNodes(g)
    requires Quiet(Run(g, ops).rows) && ErrorFree(Run(g, ops).rows)
    requires n in Ids(g) && StatusOf(Run(g, ops).rows, n) == IDLE
    ensures !NoneLeft(g, ops)
  {
    var rows := Run(g, ops).rows;
    EveryHistoryRemembers(g, ops);
    IdleHasRoot(g, rank, rows, n);
    var a :| Reaches(g, a, n) && Root(g, rows, a);
    ReachedFromNode(g, a, n);
    assert a in Missed(g, ops) && rows[a].status == IDLE;
  }

  // ------------------------------------------------------------ the stored iteration status

  ghost predicate Agrees(g: Graph, s: State) {
    g.nodes == [] || s.verdict == Derived(g, s.rows)
  }

  /** The one way to disagree: a handler's last report ended the last open node and nobody looked since. */
  ghost predicate EndUnseen(g: Graph, s: State) {
    s.verdict == Running && AllTerminal(g, s.rows)
  }

  /** A handler's report that ends its node. */
  predicate Ends(op: Op) {
    op.HandlerReports? && !op.r.Started?
  }

  /** Create and fork already store what reconciling would derive. */
  lemma StartsAgreed(g: Graph)
    ensures Create(g) == Created(g)
  {
    if g.nodes != [] {
      assert g.nodes[0] in g.nodes && g.nodes[0].id in Ids(g);
      assert Open(StatusOf(StartRows(g), g.nodes[0].id));
    }
  }

  lemma ForkAgreed(g: Graph, s: State, from: NodeId)
    requires s.rows.Keys == Ids(g) && Fork(g, s, from).Some?
    ensures Agrees(g, Fork(g, s, from).value)
    ensures FirstPrereq(g.edges, from).None? ==>
      Fork(g, s, from).value.verdict == Running
    ensures FirstPrereq(g.edges, from).Some? ==>
      Fork(g, s, from).value ==
      CheckComplete(g, State(Advance(g, ForkRows(g, s.rows, from), FirstPrereq(g.edges, from).value), Running))
  {
    var node := Find(g.nodes, from).value;
    assert node in g.nodes && StatusOf(Fork(g, s, from).value.rows, node.id) ==
      Fork(g, s, from).value.rows[from].status;
  }

  lemma CompleteAgrees(g: Graph, s: State, n: NodeId, path: Option<FilePath>)
    requires s.rows.Keys == Ids(g)
    ensures Agrees(g, Complete(g, s, n, path).0)
  {
    if Complete(g, s, n, path).1.Done? {
      assert n in Ids(g);
      var node := Find(g.nodes, n).value;
      assert Open(StatusOf(s.rows, node.id));
    }
  }

  /** A claim changes no node between open and terminal. */
  lemma ClaimAgrees(g: Graph, s: State, n: NodeId)
    ensures AllTerminal(g, Claim(s, n).0.rows) == AllTerminal(g, s.rows)
    ensures AnyError(g, Claim(s, n).0.rows) == AnyError(g, s.rows)
  {
    var s' := Claim(s, n).0;
    forall m ensures Open(StatusOf(s'.rows, m)) == Open(StatusOf(s.rows, m)) {}
    forall m ensures (StatusOf(s'.rows, m) == ERROR) == (StatusOf(s.rows, m) == ERROR) {}
  }

  /** Some node other than `n` has such a status. */
  predicate OtherOpen(rows: Rows, n: NodeId) {
    exists m | m in rows :: m != n && Open(rows[m].status)
  }

  predicate OtherError(rows: Rows, n: NodeId) {
    exists m | m in rows :: m != n && rows[m].status == ERROR
  }

  /** What the rows derive, by the node itself and the others. */
  lemma DerivedBy(g: Graph, rows: Rows, n: NodeId)
    requires rows.Keys == Ids(g) && n in rows
    ensures AllTerminal(g, rows) <==> !Open(rows[n].status) && !OtherOpen(rows, n)
    ensures AnyError(g, rows) <==> rows[n].status == ERROR || OtherError(rows, n)
  {
    forall m | m in rows ensures exists node :: node in g.nodes && node.id == m {
      var node :| node in g.nodes && node.id == m;
    }
    forall node | node in g.nodes ensures node.id in rows {
      assert node.id in Ids(g);
    }
  }

  /**
   A report, whatever the status it finds, leaves an agreed stored status agreed if and only if another
   node is open, or it leaves its node open, or terminal, as it was, and in the latter case either
   changes nothing about its having failed or another node has failed.
   */
  lemma HandlerAgrees(g: Graph, s: State, n: NodeId, r: Report)
    requires g.nodes != [] && s.rows.Keys == Ids(g) && n in s.rows && Agrees(g, s)
    ensures var old', new' := s.rows[n].status, Written(r);
      Agrees(g, Handle(s, n, r)) <==>
        || OtherOpen(s.rows, n)
        || (Open(old') && Open(new'))
        || (!Open(old') && !Open(new') && ((old' == ERROR <==> new' == ERROR) || OtherError(s.rows, n)))
  {
    var rows' := Handle(s, n, r).rows;
    DerivedBy(g, s.rows, n);
    DerivedBy(g, rows', n);
    assert OtherOpen(rows', n) <==> OtherOpen(s.rows, n) by {
      assert forall m | m in s.rows && m != n :: rows'[m] == s.rows[m];
    }
    assert OtherError(rows', n) <==> OtherError(s.rows, n) by {
      assert forall m | m in s.rows && m != n :: rows'[m] == s.rows[m];
    }
    hide OtherOpen, OtherError, AllTerminal, AnyError;
  }

  /** In order, a report that makes the stored status stale ended the last open node. */
  lemma OrderlyReport(g: Graph, s: State, n: NodeId, r: Report)
    requires g.nodes != [] && s.rows.Keys == Ids(g) && (Agrees(g, s) || EndUnseen(g, s))
    requires InOrder(s.rows, HandlerReports(n, r))
    ensures Agrees(g, Handle(s, n, r)) || EndUnseen(g, Handle(s, n, r))
  {
    if n in s.rows {
      DerivedBy(g, s.rows, n);
      DerivedBy(g, Handle(s, n, r).rows, n);
      if Agrees(g, s) { HandlerAgrees(g, s, n, r); }
      assert OtherOpen(Handle(s, n, r).rows, n) <==> OtherOpen(s.rows, n) by {
        assert forall m | m in s.rows && m != n :: Handle(s, n, r).rows[m] == s.rows[m];
      }
      hide OtherOpen, OtherError, AllTerminal, AnyError;
    }
  }

  lemma AttachAgrees(g: Graph, s: State, n: NodeId, slot: SlotId, f: FileId)
    ensures AllTerminal(g, Attach(s, n, slot, f).0.rows) == AllTerminal(g, s.rows)
    ensures AnyError(g, Attach(s, n, slot, f).0.rows) == AnyError(g, s.rows)
  {
    var s' := Attach(s, n, slot, f).0;
    forall m ensures StatusOf(s'.rows, m) == StatusOf(s.rows, m) {}
  }

  // ------------------------------------------------------------ the last read

  /** The call reads the iteration, and so reconciles it first: everything but claims, uploads and reports. */
  predicate Reads(g: Graph, op: Op) {
    op.View? || op.CompleteNode? || op.RepairIteration? || (op.ForkFrom? && op.n in Ids(g))
  }

  /** How many calls there were up to the last read; 0 stands for the creation. */
  function LastRead(g: Graph, ops: seq<Op>): (k: nat)
    ensures k <= |ops| && (k > 0 ==> Reads(g, ops[k - 1])) && forall i | k <= i < |ops| :: !Reads(g, ops[i])
  {
    if ops == [] then 0
    else if Reads(g, ops[|ops| - 1]) then |ops|
    else
      var k := LastRead(g, ops[..|ops| - 1]);
      assert forall i | k <= i < |ops| - 1 :: ops[..|ops| - 1][i] == ops[i];
      k
  }

  predicate NoReportSince(ops: seq<Op>, k: nat) {
    forall i | k <= i < |ops| :: !ops[i].HandlerReports?
  }

  lemma ReadAgrees(g: Graph, s: State, op: Op)
    requires g.nodes != [] && s.rows.Keys == Ids(g) && Reads(g, op)
    ensures Apply(g, s, op).verdict == Derived(g, Apply(g, s, op).rows)
  {
    hide Complete, Fork, Derived, TryAll;
    match op
    case View =>
    case CompleteNode(n, path) => CompleteAgrees(g, s, n, path);
    case RepairIteration(order) =>
    case ForkFrom(n) =>
      ForkExists(g, s, n);
      ForkAgreed(g, s, n);
  }

  lemma ForkExists(g: Graph, s: State, n: NodeId)
    requires n in Ids(g)
    ensures Fork(g, s, n).Some?
  {
  }

  lemma OthersKeepVerdict(g: Graph, s: State, op: Op)
    requires !Reads(g, op)
    ensures Apply(g, s, op).verdict == s.verdict
    ensures !op.HandlerReports? ==> Derived(g, Apply(g, s, op).rows) == Derived(g, s.rows)
  {
    match op
    case ClaimNode(n) => ClaimAgrees(g, s, n);
    case AttachFile(n, slot, f) => AttachAgrees(g, s, n, slot, f);
    case _ =>
  }

  /**
   After every history, whatever handlers report, the stored status is the one that the rows derived
   after the last read.  If no handler reported since, that is what they derive now.
   */
  lemma {:induction false} StoredStatus(g: Graph, ops: seq<Op>)
    requires g.nodes != []
    ensures Run(g, ops).verdict == Derived(g, Run(g, ops[..LastRead(g, ops)]).rows)
    ensures NoReportSince(ops, LastRead(g, ops)) ==> Agrees(g, Run(g, ops))
    decreases |ops|
  {
    hide Derived, Apply, Reads;
    var k := LastRead(g, ops);
    if ops == [] {
      CreateAgrees(g);
      assert ops[..k] == [];
    } else {
      var before, op := ops[..|ops| - 1], ops[|ops| - 1];
      StoredStatus(g, before);
      RowsOfNodes(g, before);
      if Reads(g, op) {
        ReadAgrees(g, Run(g, before), op);
        assert ops[..k] == ops;
      } else {
        OthersKeepVerdict(g, Run(g, before), op);
        assert before[..k] == ops[..k];
        if NoReportSince(ops, k) {
          assert forall i | k <= i < |before| :: before[i] == ops[i];
        }
      }
    }
  }

  lemma CreateAgrees(g: Graph)
    ensures Agrees(g, Create(g))
  {
  }

  lemma CallAgrees(g: Graph, s: State, op: Op)
    requires g.nodes != [] && s.rows.Keys == Ids(g) && (Agrees(g, s) || EndUnseen(g, s)) && InOrder(s.rows, op)
    ensures Agrees(g, Apply(g, s, op)) || EndUnseen(g, Apply(g, s, op))
  {
    if op.HandlerReports? {
      OrderlyReport(g, s, op.n, op.r);
    } else if Reads(g, op) {
      ReadAgrees(g, s, op);
    } else {
      hide Apply, AllTerminal, AnyError;
      OthersKeepVerdict(g, s, op);
      OpenStays(g, s, op);
    }
  }

  lemma OpenStays(g: Graph, s: State, op: Op)
    requires !Reads(g, op) && !op.HandlerReports?
    ensures AllTerminal(g, Apply(g, s, op).rows) == AllTerminal(g, s.rows)
  {
    match op
    case ClaimNode(n) => ClaimAgrees(g, s, n);
    case AttachFile(n, slot, f) => AttachAgrees(g, s, n, slot, f);
    case _ =>
  }

  /** While handlers report in order, the stored status is stale only because the last open node has ended unseen. */
  lemma {:induction false} OrderlyStatus(g: Graph, ops: seq<Op>)
    requires g.nodes != [] && Orderly(g, ops)
    ensures Agrees(g, Run(g, ops)) || EndUnseen(g, Run(g, ops))
    decreases |ops|
  {
    hide Agrees, EndUnseen, Apply, InOrder;
    if ops == [] {
      CreateAgrees(g);
    } else {
      var before := ops[..|ops| - 1];
      OrderlyStatus(g, before);
      RowsOfNodes(g, before);
      CallAgrees(g, Run(g, before), ops[|ops| - 1]);
    }
  }

  /** Reconciling stores what the rows say, from any state, and doing it again changes nothing. */
  lemma ReconcileMeaning(g: Graph, s: State)
    requires s.rows.Keys == Ids(g)
    ensures Reconcile(g, s).rows == s.rows && (g.nodes == [] ==> Reconcile(g, s).verdict == s.verdict)
    ensures g.nodes != [] ==> var v := Reconcile(g, s).verdict;
      && (v == Running <==> exists n | n in s.rows :: Open(s.rows[n].status))
      && (v == Failed <==> (forall n | n in s.rows :: !Open(s.rows[n].status)) && exists n | n in s.rows ::
        s.rows[n].status == ERROR)
      && (v == Completed <==> forall n | n in s.rows :: Cleared(s.rows[n].status))
    ensures Reconcile(g, Reconcile(g, s)) == Reconcile(g, s)
  {
    forall n | n in s.rows ensures exists node :: node in g.nodes && node.id == n {
      var node :| node in g.nodes && node.id == n;
    }
    forall node | node in g.nodes ensures node.id in s.rows {
      assert node.id in Ids(g);
    }
  }

  // ------------------------------------------------------------ statuses only move forward

  predicate Onward(a: Status, b: Status) {
    || a == b
    || (a == IDLE && (b == PENDING || b == COMPLETED || b == SKIPPED))
    || (a == PENDING && b == RUNNING)
    || (a == RUNNING && (b == COMPLETED || b == ERROR))
  }

  lemma TryAllOnward(g: Graph, rows: Rows, ts: seq<NodeId>, n: NodeId)
    requires n in rows
    ensures Onward(rows[n].status, TryAll(g, rows, ts)[n].status)
  {
    TryAllIsSettled(g, rows, ts);
    var rows' := TryAll(g, rows, ts);
    if Left(rows, rows', n) {
      assert Explained(g, Elements(ts), rows, rows', n);
      if Fired(g, rows, rows', n) {
        var snap :| FiredAt(g, rows, snap, rows', n);
        DecideFacts(g, snap, n);
      }
    }
  }

  /** What a handler may report on which status without moving the node backwards. */
  predicate ReportsForward(rows: Rows, op: Op) {
    InOrder(rows, op) || (op.HandlerReports? && op.r.Finished? && op.n in rows && rows[op.n].status == IDLE)
  }

  lemma ReportMoves(g: Graph, s: State, n: NodeId, r: Report)
    ensures (forall m | m in s.rows :: Onward(s.rows[m].status, Handle(s, n, r).rows[m].status))
      <==> ReportsForward(s.rows, HandlerReports(n, r))
  {
  }

  lemma CallMovesForward(g: Graph, s: State, op: Op, n: NodeId)
    requires n in s.rows && !op.ForkFrom? && !op.HandlerReports?
    ensures n in Apply(g, s, op).rows && Onward(s.rows[n].status, Apply(g, s, op).rows[n].status)
  {
    match op
    case CompleteNode(c, path) =>
      if Complete(g, s, c, path).1.Done? {
        TryAllOnward(g, s.rows[c := CompletedRow(s.rows[c], path)], Targets(g.edges, c), n);
      }
    case RepairIteration(order) => TryAllOnward(g, s.rows, RepairList(g, s.rows, order), n);
    case _ =>
  }

  /**
   Within one iteration a call moves every node at most one legal step, unless it is a handler's
   report on a node of the wrong status; COMPLETED, SKIPPED and ERROR are final.
   */
  lemma StatusesMoveForward(g: Graph, s: State, op: Op)
    requires !op.ForkFrom?
    ensures s.rows.Keys <= Apply(g, s, op).rows.Keys
    ensures (forall n | n in s.rows :: Onward(s.rows[n].status, Apply(g, s, op).rows[n].status)) <==>
      ReportsForward(s.rows, op)
  {
    hide Onward;
    if op.HandlerReports? {
      ReportMoves(g, s, op.n, op.r);
    } else {
      hide Apply;
      forall n | n in s.rows
        ensures n in Apply(g, s, op).rows && Onward(s.rows[n].status, Apply(g, s, op).rows[n].status)
      {
        CallMovesForward(g, s, op, n);
      }
    }
  }
}
