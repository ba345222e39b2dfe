/**
 What a gateway's answer and its forwarded files mean, stated on the predecessors' rows
 themselves: once for gates on statuses, once for gates on files.
 */
module Gates {
  import opened Wrappers
  import opened Flow
  import opened Runtime

  // ------------------------------------------------------------ gates on statuses

  lemma ExactlyOne(s: set<NodeId>)
    ensures |s| == 1 <==> exists p | p in s :: forall q | q in s :: q == p
  {
    if |s| == 1 {
      var p :| p in s;
      assert |s - {p}| == 0;
      assert forall q | q in s :: q == p;
    }
    if p :| p in s && forall q | q in s :: q == p {
      assert s == {p};
    }
  }

  /** AND and unknown names want all predecessors completed, OR wants one, XOR wants one and no other. */
  lemma StatusGateMeaning(g: Graph, rows: Rows, node: Node)
    requires !HasFileInputs(node)
    ensures GatePasses(g, rows, node) <==>
      match node.logic
      case OR => exists p | Edge(p, node.id) in g.edges :: StatusOf(rows, p) == COMPLETED
      case XOR => exists p | Edge(p, node.id) in g.edges && StatusOf(rows, p) == COMPLETED ::
        forall q | Edge(q, node.id) in g.edges && StatusOf(rows, q) == COMPLETED :: q == p
      case _ => forall p | Edge(p, node.id) in g.edges :: StatusOf(rows, p) == COMPLETED
  {
    var statuses := PrereqStatuses(g, rows, node.id);
    var completed := CompletedIn(statuses);
    assert forall p :: p in completed <==> Edge(p, node.id) in g.edges && StatusOf(rows, p) == COMPLETED;
    ExactlyOne(completed);
    assert completed != {} <==> exists p :: p in completed;
  }

  // ------------------------------------------------------------ gates on files

  /** The slot an input is bound to holds a file, or a legacy path stands in for its default slot. */
  predicate Supplied(rows: Rows, i: Input) {
    match i.source
    case PREDECESSOR(Some(p), Some(o)) =>
      Slot(rows, p, o) != [] || (o == DEFAULT_SLOT && p in rows && rows[p].path.Some?)
    case _ => false
  }

  // Several inputs may share an id; among those bound to a predecessor the last one counts.

  predicate Resolvable(i: Input) {
    i.source.PREDECESSOR?
  }

  /** Input `k` is the last one with its id that is bound to a predecessor. */
  predicate Counts(inputs: seq<Input>, k: nat) {
    && k < |inputs| && Resolvable(inputs[k])
    && forall j | k < j < |inputs| :: Resolvable(inputs[j]) ==> inputs[j].id != inputs[k].id
  }

  /** Some input counts for this id and is supplied. */
  ghost predicate SuppliedAs(rows: Rows, inputs: seq<Input>, id: SlotId) {
    exists k | 0 <= k < |inputs| :: Counts(inputs, k) && inputs[k].id == id && Supplied(rows, inputs[k])
  }

  lemma CountsMore(inputs: seq<Input>, k: nat)
    requires k < |inputs| - 1
    ensures var last := inputs[|inputs| - 1];
      Counts(inputs, k) <==> Counts(inputs[..|inputs| - 1], k) && (Resolvable(last) ==> last.id != inputs[k].id)
  {
    var before := inputs[..|inputs| - 1];
    if Counts(inputs, k) {
      forall j | k < j < |before| ensures Resolvable(before[j]) ==> before[j].id != before[k].id {
        assert before[j] == inputs[j];
      }
    }
    if Counts(before, k) {
      forall j | k < j < |before| ensures Resolvable(inputs[j]) ==> inputs[j].id != inputs[k].id {
        assert before[j] == inputs[j];
      }
    }
  }

  lemma {:induction false} CountedIsResolved(rows: Rows, inputs: seq<Input>, k: nat)
    requires Counts(inputs, k)
    ensures inputs[k].id in ResolveAll(rows, inputs)
      && ResolveAll(rows, inputs)[inputs[k].id] == ResolveOne(rows, inputs[k].source)
    decreases |inputs|
  {
    hide ResolveOne;
    if k < |inputs| - 1 {
      CountsMore(inputs, k);
      CountedIsResolved(rows, inputs[..|inputs| - 1], k);
    }
  }

  lemma {:induction false} ResolvedIsCounted(rows: Rows, inputs: seq<Input>, id: SlotId) returns (k: nat)
    requires id in ResolveAll(rows, inputs)
    ensures Counts(inputs, k) && inputs[k].id == id
    decreases |inputs|
  {
    hide ResolveOne;
    var last := inputs[|inputs| - 1];
    if Resolvable(last) && last.id == id {
      k := |inputs| - 1;
    } else {
      k := ResolvedIsCounted(rows, inputs[..|inputs| - 1], id);
      CountsMore(inputs, k);
    }
  }

  /** An id is resolved exactly if an input counts for it, and as that input is. */
  lemma ResolvedByLast(rows: Rows, inputs: seq<Input>)
    ensures forall k | 0 <= k < |inputs| && Counts(inputs, k) ::
      inputs[k].id in ResolveAll(rows, inputs)
        && ResolveAll(rows, inputs)[inputs[k].id] == ResolveOne(rows, inputs[k].source)
    ensures forall id | id in ResolveAll(rows, inputs) :: exists k | 0 <= k < |inputs| ::
      Counts(inputs, k) && inputs[k].id == id
  {
    hide ResolveAll, ResolveOne;
    forall k | 0 <= k < |inputs| && Counts(inputs, k)
      ensures inputs[k].id in ResolveAll(rows, inputs)
      ensures ResolveAll(rows, inputs)[inputs[k].id] == ResolveOne(rows, inputs[k].source)
    {
      CountedIsResolved(rows, inputs, k);
    }
    forall id | id in ResolveAll(rows, inputs)
      ensures exists k | 0 <= k < |inputs| :: Counts(inputs, k) && inputs[k].id == id
    {
      var k := ResolvedIsCounted(rows, inputs, id);
    }
  }

  lemma ReceivedIsSupplied(rows: Rows, node: Node, id: SlotId)
    requires HasFileInputs(node)
    ensures Received(ResolveInputs(rows, node), id) <==> SuppliedAs(rows, node.inputs, id)
  {
    ResolvedByLast(rows, node.inputs);
    var resolved := ResolveAll(rows, node.inputs);
    hide Counts;
    if id in resolved {
      var k :| 0 <= k < |node.inputs| && Counts(node.inputs, k) && node.inputs[k].id == id;
      OneCounts(node.inputs, k);
      assert resolved[id] == ResolveOne(rows, node.inputs[k].source);
    }
  }

  /** At most one input counts for an id. */
  lemma OneCounts(inputs: seq<Input>, k: nat)
    requires Counts(inputs, k)
    ensures Resolvable(inputs[k]) && forall j | 0 <= j < |inputs| && Counts(inputs, j)
      && inputs[j].id == inputs[k].id :: j == k
  {
  }

  /** A gate with file inputs: OR wants one supplied input, every other logic (XOR included) wants them all. */
  lemma FileGateMeaning(g: Graph, rows: Rows, node: Node)
    requires HasFileInputs(node)
    ensures GatePasses(g, rows, node) <==>
      if node.logic == OR then exists i | i in node.inputs :: SuppliedAs(rows, node.inputs, i.id)
      else forall i | i in node.inputs :: SuppliedAs(rows, node.inputs, i.id)
  {
    hide SuppliedAs, Received;
    forall i | i in node.inputs
      ensures Received(ResolveInputs(rows, node), i.id) <==> SuppliedAs(rows, node.inputs, i.id)
    {
      ReceivedIsSupplied(rows, node, i.id);
    }
  }

  /** With distinct ids every input counts for itself. */
  lemma DistinctCount(rows: Rows, inputs: seq<Input>, k: nat)
    requires k < |inputs| && forall i, j | 0 <= i < j < |inputs| :: inputs[i].id != inputs[j].id
    ensures SuppliedAs(rows, inputs, inputs[k].id) <==> Supplied(rows, inputs[k])
  {
    if Supplied(rows, inputs[k]) { assert Counts(inputs, k); }
  }

  /** The files behind one input. */
  function FilesBehind(rows: Rows, i: Input): seq<FileId> {
    match i.source
    case PREDECESSOR(Some(p), Some(o)) => Slot(rows, p, o)
    case _ => []
  }

  /** Some input that counts has a file to forward. */
  ghost predicate Forwards(rows: Rows, inputs: seq<Input>) {
    exists k | 0 <= k < |inputs| :: Counts(inputs, k) && FilesBehind(rows, inputs[k]) != []
  }

  /**
   A passing gate publishes, under the id of each input that counts, exactly the files that input is
   bound to, and nothing else; when there is nothing to forward its outputs stay as they are.
   */
  lemma GateForwardsExactly(g: Graph, rows: Rows, node: Node)
    requires HasFileInputs(node) && node.id in rows && GatePasses(g, rows, node)
    ensures var outputs := GateRow(g, rows, node).outputs;
      if !Forwards(rows, node.inputs) then outputs == rows[node.id].outputs
      else
        && (forall k | 0 <= k < |node.inputs| && Counts(node.inputs, k) ::
              if FilesBehind(rows, node.inputs[k]) != []
              then node.inputs[k].id in outputs && outputs[node.inputs[k].id] == FilesBehind(rows, node.inputs[k])
              else node.inputs[k].id !in outputs)
        && forall id | id in outputs :: exists k | 0 <= k < |node.inputs| ::
          Counts(node.inputs, k) && node.inputs[k].id == id
  {
    var resolved := ResolveInputs(rows, node);
    ResolvedByLast(rows, node.inputs);
    assert GateRow(g, rows, node).outputs == if Forwarded(resolved) == map[] then rows[node.id].outputs
      else Forwarded(resolved);
    CountedFiles(rows, node.inputs);
    hide GatePasses, Counts, GateRow, HasFileInputs;
    if Forwards(rows, node.inputs) {
      var k :| 0 <= k < |node.inputs| && Counts(node.inputs, k) && FilesBehind(rows, node.inputs[k]) != [];
      assert node.inputs[k].id in Forwarded(resolved);
    } else {
      assert Forwarded(resolved) == map[] by {
        forall id | id in resolved ensures resolved[id].fileIds == [] {
          var k :| 0 <= k < |node.inputs| && Counts(node.inputs, k) && node.inputs[k].id == id;
          assert FilesBehind(rows, node.inputs[k]) == [];
        }
      }
    }
  }

  lemma CountedFiles(rows: Rows, inputs: seq<Input>)
    ensures forall k | 0 <= k < |inputs| && Counts(inputs, k) ::
      inputs[k].id in ResolveAll(rows, inputs)
        && ResolveAll(rows, inputs)[inputs[k].id].fileIds == FilesBehind(rows, inputs[k])
  {
    ResolvedByLast(rows, inputs);
    forall k | 0 <= k < |inputs| && Counts(inputs, k)
      ensures ResolveOne(rows, inputs[k].source).fileIds == FilesBehind(rows, inputs[k])
    {
    }
  }

  /**
   What the status recorded for an id says: the files of the slot that counts, or the legacy path in
   their absence.
   */
  lemma RecordedInputMeaning(rows: Rows, node: Node, k: nat)
    requires HasFileInputs(node) && Counts(node.inputs, k)
    ensures var i := node.inputs[k]; var resolved := ResolveInputs(rows, node);
      && i.id in resolved && resolved[i.id].fileIds == FilesBehind(rows, i)
      && (resolved[i.id].provided <==> Supplied(rows, i))
      && (resolved[i.id].filePath.Some? <==> resolved[i.id].provided && resolved[i.id].fileIds == [])
      && (resolved[i.id].filePath.Some? ==>
            && i.source.outputId == Some(DEFAULT_SLOT) && i.source.nodeId.Some? && i.source.nodeId.value in rows
            && resolved[i.id].filePath == rows[i.source.nodeId.value].path)
  {
    ResolvedByLast(rows, node.inputs);
  }
}
