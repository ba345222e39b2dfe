/**
 The service calls on one iteration, as functions from state to state: create, claim,
 complete, repair, fork, upload, and the reports of automatic handlers.  A run is any
 sequence of such calls; a call that the service refuses leaves what it leaves.
 */
module Lifecycle {
  import opened Wrappers
  import opened Flow
  import opened Runtime
  import opened Activation

  /** `Iteration.status`. */
  datatype Verdict = Running | Completed | Failed

  datatype State = State(rows: Rows, verdict: Verdict)

  // ------------------------------------------------------------ iteration status

  predicate AllTerminal(g: Graph, rows: Rows) {
    forall n | n in g.nodes :: !Open(StatusOf(rows, n.id))
  }

  predicate AnyError(g: Graph, rows: Rows) {
    exists n | n in g.nodes :: StatusOf(rows, n.id) == ERROR
  }

  function Final(g: Graph, rows: Rows): Verdict {
    if AnyError(g, rows) then Failed else Completed
  }

  function Derived(g: Graph, rows: Rows): Verdict {
    if AllTerminal(g, rows) then Final(g, rows) else Running
  }

  /** `reconcileIterationStatus`, which every read of the iteration runs first. */
  function Reconcile(g: Graph, s: State): State {
    if g.nodes == [] then s else s.(verdict := Derived(g, s.rows))
  }

  /** `checkIterationComplete`. */
  function CheckComplete(g: Graph, s: State): State {
    if AllTerminal(g, s.rows) then s.(verdict := Final(g, s.rows)) else s
  }

  // ------------------------------------------------------------ create, claim, complete

  predicate HasInEdge(g: Graph, n: NodeId) {
    exists e | e in g.edges :: e.target == n
  }

  function StartRows(g: Graph): Rows {
    map n | n in Ids(g) :: if HasInEdge(g, n) then FRESH_ROW else FRESH_ROW.(status := PENDING)
  }

  function Created(g: Graph): State {
    State(StartRows(g), Running)
  }

  function Create(g: Graph): State {
    Reconcile(g, Created(g))
  }

  function Claim(s: State, n: NodeId): (State, Reply) {
    if n !in s.rows then (s, NotFound)
    else if s.rows[n].status != PENDING then (s, BadRequest)
    else (s.(rows := s.rows[n := s.rows[n].(status := RUNNING)]), Done)
  }

  /** A required output without a file; a legacy path stands in for the default slot. */
  predicate Missing(o: Output, row: Row, path: Option<FilePath>) {
    && o.required
    && (o.id !in row.outputs || row.outputs[o.id] == [])
    && !(o.id == DEFAULT_SLOT && (path.Some? || row.path.Some?))
  }

  predicate OutputsMissing(g: Graph, row: Row, n: NodeId, path: Option<FilePath>) {
    match Find(g.nodes, n)
    case None => false
    case Some(node) => exists o | o in node.outputs :: Missing(o, row, path)
  }

  function CompletedRow(row: Row, path: Option<FilePath>): Row {
    row.(status := COMPLETED, path := if path.Some? then path else row.path)
  }

  ghost function Complete(g: Graph, s: State, n: NodeId, path: Option<FilePath>): (State, Reply) {
    var s := Reconcile(g, s);
    if n !in s.rows then (s, NotFound)
    else if s.rows[n].status != RUNNING then (s, BadRequest)
    else if OutputsMissing(g, s.rows[n], n, path) then (s, BadRequest)
    else
      var written := s.rows[n := CompletedRow(s.rows[n], path)];
      (CheckComplete(g, s.(rows := Advance(g, written, n))), Done)
  }

  /** What an automatic handler reports while it runs: that it started (or progressed), finished, or broke. */
  datatype Report = Started | Finished(path: Option<FilePath>) | Broke

  function Written(r: Report): Status {
    match r case Started => RUNNING case Finished(_) => COMPLETED case Broke => ERROR
  }

  /** The report is written onto the node whatever its status, and the workflow is not advanced. */
  function Handle(s: State, n: NodeId, r: Report): State {
    if n !in s.rows then s
    else
      var row := s.rows[n].(status := Written(r));
      s.(rows := s.rows[n := if r.Finished? && r.path.Some? then row.(path := r.path) else row])
  }

  /** An upload or a link: both append the file to one slot of the node. */
  function Attach(s: State, n: NodeId, slot: SlotId, f: FileId): (State, Reply) {
    if n !in s.rows then (s, NotFound)
    else (s.(rows := s.rows[n := AddOutput(s.rows[n], slot, f)]), Done)
  }

  /** Linking refuses a file that does not exist; an upload has just stored it. */
  function Link(s: State, files: set<FileId>, n: NodeId, slot: SlotId, f: FileId): (State, Reply) {
    if f !in files then (s, NotFound) else Attach(s, n, slot, f)
  }

  // ------------------------------------------------------------ repair

  /** In the snapshot taken at the start, the node is COMPLETED and has an IDLE successor. */
  predicate NeedsRepair(g: Graph, snap: Rows, n: NodeId) {
    StatusOf(snap, n) == COMPLETED && exists t | t in Targets(g.edges, n) :: StatusOf(snap, t) == IDLE
  }

  /** The nodes repair tries, in the order in which it meets the rows. */
  function RepairList(g: Graph, snap: Rows, order: seq<NodeId>): (ts: seq<NodeId>)
    ensures forall t :: t in ts <==> exists n | n in order :: NeedsRepair(g, snap, n) && Edge(n, t) in g.edges
  {
    if order == [] then []
    else
      var rest := RepairList(g, snap, order[1..]);
      assert forall n :: n in order <==> n == order[0] || n in order[1..];
      if NeedsRepair(g, snap, order[0]) then Targets(g.edges, order[0]) + rest else rest
  }

  ghost function Repair(g: Graph, s: State, order: seq<NodeId>): State {
    var s := Reconcile(g, s);
    Reconcile(g, s.(rows := TryAll(g, s.rows, RepairList(g, s.rows, order))))
  }

  // ------------------------------------------------------------ fork

  /** Rows of a fork before its restart node is activated. */
  ghost function ForkRows(g: Graph, rows: Rows, from: NodeId): Rows {
    map n | n in Ids(g) :: if n in rows && !Reaches(g, from, n) then rows[n] else FRESH_ROW
  }

  /** The source of the first edge entering `n`. */
  function FirstPrereq(edges: seq<Edge>, n: NodeId): (p: Option<NodeId>)
    ensures p.None? <==> forall e | e in edges :: e.target != n
    ensures p.Some? ==> Edge(p.value, n) in edges
  {
    if edges == [] then None
    else if edges[0].target == n then Some(edges[0].source)
    else FirstPrereq(edges[1..], n)
  }

  /** A start node is set PENDING directly; any other is tried as a successor of its first predecessor. */
  ghost function WakeRestart(g: Graph, s: State, from: NodeId): State
    requires from in s.rows
  {
    match FirstPrereq(g.edges, from)
    case None => Reconcile(g, s.(rows := s.rows[from := s.rows[from].(status := PENDING)]))
    case Some(p) => Reconcile(g, CheckComplete(g, s.(rows := Advance(g, s.rows, p))))
  }

  /** The new iteration; the source's own state is not part of the result. */
  ghost function Fork(g: Graph, s: State, from: NodeId): (fork: Option<State>) {
    if Find(g.nodes, from).None? then None
    else Some(WakeRestart(g, State(ForkRows(g, s.rows, from), Running), from))
  }

  // ------------------------------------------------------------ runs

  datatype Op =
    | View
    | ClaimNode(n: NodeId)
    | CompleteNode(n: NodeId, path: Option<FilePath>)
    | HandlerReports(n: NodeId, r: Report)
    | AttachFile(n: NodeId, slot: SlotId, f: FileId)
    | RepairIteration(order: seq<NodeId>)
    | ForkFrom(n: NodeId)

  /** One call; after a fork the run goes on in the fork. */
  ghost function Apply(g: Graph, s: State, op: Op): State {
    match op
    case View => Reconcile(g, s)
    case ClaimNode(n) => Claim(s, n).0
    case CompleteNode(n, path) => Complete(g, s, n, path).0
    case HandlerReports(n, r) => Handle(s, n, r)
    case AttachFile(n, slot, f) => Attach(s, n, slot, f).0
    case RepairIteration(order) => Repair(g, s, order)
    case ForkFrom(n) => var fork := Fork(g, s, n); if fork.Some? then fork.value else s
  }

  ghost function Run(g: Graph, ops: seq<Op>): State {
    if ops == [] then Create(g) else Apply(g, Run(g, ops[..|ops| - 1]), ops[|ops| - 1])
  }

  lemma RunMore(g: Graph, ops: seq<Op>, op: Op)
    ensures Run(g, ops + [op]) == Apply(g, Run(g, ops), op)
  {
    assert (ops + [op])[..|ops + [op]| - 1] == ops;
  }

  // ------------------------------------------------------------ handlers that keep to their node

  /**
   A handler starts on a node that is PENDING or RUNNING, and ends on one that is RUNNING; repeating
   a report is harmless.
   */
  predicate InOrder(rows: Rows, op: Op) {
    op.HandlerReports? && op.n in rows ==>
      var status := rows[op.n].status;
      match op.r
      case Started => status == PENDING || status == RUNNING
      case Finished(_) => status == RUNNING || status == COMPLETED
      case Broke => status == RUNNING || status == ERROR
  }

  ghost predicate Orderly(g: Graph, ops: seq<Op>) {
    ops != [] ==> Orderly(g, ops[..|ops| - 1]) && InOrder(Run(g, ops[..|ops| - 1]).rows, ops[|ops| - 1])
  }
}
