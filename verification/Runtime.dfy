/**
 The runtime rows of one iteration and every decision the engine takes by reading
 them: gate logic, file resolution and what to do with a node it tries to activate.
 */
module Runtime {
  import opened Wrappers
  import opened Flow

  datatype Status = IDLE | PENDING | RUNNING | COMPLETED | ERROR | SKIPPED

  predicate Open(s: Status) {
    s == IDLE || s == PENDING || s == RUNNING
  }

  datatype InputStatus = InputStatus(provided: bool, fileIds: seq<FileId>, filePath: Option<FilePath>)

  datatype Row = Row(
    status: Status,
    inputs: map<SlotId, InputStatus>,
    outputs: map<SlotId, seq<FileId>>,
    path: Option<FilePath>)

  type Rows = map<NodeId, Row>

  const FRESH_ROW := Row(IDLE, map[], map[], None)

  /** A node without a row counts as IDLE. */
  function StatusOf(rows: Rows, n: NodeId): Status {
    if n in rows then rows[n].status else IDLE
  }

  /** The files recorded in one output slot; no row or no entry means none. */
  function Slot(rows: Rows, n: NodeId, o: SlotId): seq<FileId> {
    if n in rows && o in rows[n].outputs then rows[n].outputs[o] else []
  }

  // ---------------------------------------------------------------- files

  function ResolveOne(rows: Rows, source: Source): InputStatus
    requires source.PREDECESSOR?
  {
    match (source.nodeId, source.outputId)
    case (Some(p), Some(o)) =>
      var files := Slot(rows, p, o);
      if files == [] && o == DEFAULT_SLOT && p in rows && rows[p].path.Some?
      then InputStatus(true, [], rows[p].path)
      else InputStatus(files != [], files, None)
    case _ => InputStatus(false, [], None)
  }

  /** One entry per input id bound to a predecessor; among inputs that share an id the last wins. */
  function ResolveAll(rows: Rows, inputs: seq<Input>): map<SlotId, InputStatus> {
    if inputs == [] then map[]
    else
      var before := ResolveAll(rows, inputs[..|inputs| - 1]);
      var last := inputs[|inputs| - 1];
      if last.source.PREDECESSOR? then before[last.id := ResolveOne(rows, last.source)] else before
  }

  predicate HasFileInputs(node: Node) {
    exists i | i in node.inputs :: Bound(i)
  }

  /** When no binding names a node, the code returns before it records anything. */
  function ResolveInputs(rows: Rows, node: Node): map<SlotId, InputStatus> {
    if HasFileInputs(node) then ResolveAll(rows, node.inputs) else map[]
  }

  /** The non-empty resolved inputs, which a passing gateway re-publishes as outputs. */
  function Forwarded(resolved: map<SlotId, InputStatus>): map<SlotId, seq<FileId>> {
    map k | k in resolved && resolved[k].fileIds != [] :: resolved[k].fileIds
  }

  // ---------------------------------------------------------------- gates

  function CompletedIn(statuses: map<NodeId, Status>): set<NodeId> {
    set p | p in statuses && statuses[p] == COMPLETED
  }

  function EvaluateGateway(logic: Logic, statuses: map<NodeId, Status>): bool {
    match logic
    case OR => CompletedIn(statuses) != {}
    case XOR => |CompletedIn(statuses)| == 1
    case _ => forall p | p in statuses :: statuses[p] == COMPLETED
  }

  function PrereqStatuses(g: Graph, rows: Rows, t: NodeId): map<NodeId, Status> {
    map p | p in Prereqs(g, t) :: StatusOf(rows, p)
  }

  predicate Received(resolved: map<SlotId, InputStatus>, id: SlotId) {
    id in resolved && resolved[id].provided
  }

  /** The gate of a node with file inputs: OR wants one input, everything else wants all of them. */
  predicate FileGate(node: Node, resolved: map<SlotId, InputStatus>) {
    if node.logic == OR
    then exists i | i in node.inputs :: Received(resolved, i.id)
    else forall i | i in node.inputs :: Received(resolved, i.id)
  }

  predicate GatePasses(g: Graph, rows: Rows, node: Node) {
    if HasFileInputs(node)
    then FileGate(node, ResolveInputs(rows, node))
    else EvaluateGateway(node.logic, PrereqStatuses(g, rows, node.id))
  }

  /** The row a gateway ends up with once it is evaluated. */
  function GateRow(g: Graph, rows: Rows, node: Node): (r: Row)
    requires node.id in rows
  {
    var row := rows[node.id];
    var resolved := ResolveInputs(rows, node);
    var seen := if HasFileInputs(node) then row.(inputs := resolved) else row;
    if GatePasses(g, rows, node) then
      var files := Forwarded(resolved);
      seen.(status := COMPLETED, outputs := if files == map[] then row.outputs else files)
    else
      seen.(status := SKIPPED)
  }

  /** What one attempt to activate `t` writes into its row; None when it leaves the node alone. */
  function Decide(g: Graph, rows: Rows, t: NodeId): Option<Row> {
    match Find(g.nodes, t)
    case None => None
    case Some(node) =>
      if t !in rows || rows[t].status != IDLE then None
      else if exists p | p in Prereqs(g, t) :: Open(StatusOf(rows, p)) then None
      else if node.kind == GATEWAY then Some(GateRow(g, rows, node))
      else if exists p | p in Prereqs(g, t) :: StatusOf(rows, p) == ERROR then None
      else
        Some(rows[t].(status := PENDING, inputs := rows[t].inputs + ResolveInputs(rows, node)))
  }

  // ---------------------------------------------------------------- uploads

  /** `Array.from(new Set(s))`: first occurrences, in order. */
  function Dedupe(s: seq<FileId>): (r: seq<FileId>)
    ensures forall f :: f in r <==> f in s
    ensures forall i, j | 0 <= i < j < |r| :: r[i] != r[j]
  {
    if s == [] then []
    else
      var before := Dedupe(s[..|s| - 1]);
      assert s == s[..|s| - 1] + [s[|s| - 1]];
      if s[|s| - 1] in before then before else before + [s[|s| - 1]]
  }

  /** Upload or link a file: append it to one slot of one row. */
  function AddOutput(row: Row, slot: SlotId, f: FileId): Row {
    var current := if slot in row.outputs then row.outputs[slot] else [];
    row.(outputs := row.outputs[slot := Dedupe(current + [f])])
  }
}
