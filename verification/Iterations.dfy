/**
 One iteration as the services see it: mutable rows and a stored status, updated step by
 step by the engine's loops and recursion.  Every method is proved to leave exactly the
 state that the functions of Activation and Lifecycle describe.
 */
module Iterations {
  import opened Wrappers
  import opened Flow
  import opened Runtime
  import opened Activation
  import opened Lifecycle

  class Iteration {
    const flow: Graph
    var rows: Rows
    var verdict: Verdict

    ghost predicate Valid()
      reads this
    {
      rows.Keys == Ids(flow)
    }

    ghost function Abstract(): State
      reads this
    {
      State(rows, verdict)
    }

    // ---------------------------------------------------------- create

    /** Starts an iteration of `g`: fresh rows, then PENDING for every node without predecessors. */
    constructor (g: Graph)
      ensures flow == g && Valid()
      ensures Abstract() == Create(g)
    {
      flow := g;
      rows := map[];
      verdict := Running;
      new;
      InitNodeStates();
      var i := 0;
      while i < |flow.nodes|
        invariant 0 <= i <= |flow.nodes|
        invariant rows.Keys == Ids(flow) && verdict == Running
        invariant forall n | n in rows :: rows[n] == FRESH_ROW.(status := rows[n].status)
        invariant forall n | n in rows :: rows[n].status == IDLE || (rows[n].status == PENDING && !HasInEdge(flow, n))
        invariant forall k | 0 <= k < i && !HasInEdge(flow, flow.nodes[k].id) ::
          rows[flow.nodes[k].id].status == PENDING
      {
        var n := flow.nodes[i].id;
        assert flow.nodes[i] in flow.nodes;
        if !HasInEdge(flow, n) {
          UpdateNodeStatus(n, PENDING);
        }
        i := i + 1;
      }
      assert rows == StartRows(flow) by {
        forall n | n in rows && !HasInEdge(flow, n) ensures rows[n].status == PENDING {
          var node :| node in flow.nodes && node.id == n;
          var k :| 0 <= k < i && flow.nodes[k] == node;
        }
      }
      ReconcileStatus();
    }

    /** Upserts a fresh row for every node; existing rows are left as they are. */
    method InitNodeStates()
      modifies this`rows
      ensures rows == map n | n in old(rows).Keys + Ids(flow) :: if n in old(rows) then old(rows)[n] else FRESH_ROW
    {
      var i := 0;
      while i < |flow.nodes|
        invariant 0 <= i <= |flow.nodes|
        invariant rows.Keys == old(rows).Keys + set k | 0 <= k < i :: flow.nodes[k].id
        invariant forall n | n in rows :: rows[n] == if n in old(rows) then old(rows)[n] else FRESH_ROW
      {
        var n := flow.nodes[i].id;
        if n !in rows {
          rows := rows[n := FRESH_ROW];
        }
        i := i + 1;
      }
      assert (set k | 0 <= k < i :: flow.nodes[k].id) == Ids(flow) by {
        forall n | n in Ids(flow) ensures n in set k | 0 <= k < i :: flow.nodes[k].id {
          var node :| node in flow.nodes && node.id == n;
          var k :| 0 <= k < i && flow.nodes[k] == node;
        }
      }
    }

    /** A path is stored only when one is given. */
    method UpdateNodeStatus(n: NodeId, status: Status, path: Option<FilePath> := None)
      requires n in rows
      modifies this`rows
      ensures rows == old(rows)[n := old(rows)[n].(status := status, path := if path.Some? then path
        else old(rows)[n].path)]
    {
      var row := rows[n].(status := status);
      if path.Some? { row := row.(path := path); }
      rows := rows[n := row];
    }

    // ---------------------------------------------------------- iteration status

    method ReconcileStatus()
      modifies this`verdict
      ensures Abstract() == Reconcile(flow, old(Abstract()))
    {
      if flow.nodes == [] { return; }
      var allTerminal, anyError := ScanStatuses();
      var derived := if allTerminal then (if anyError then Failed else Completed) else Running;
      if verdict != derived {
        verdict := derived;
      }
    }

    method CheckIterationComplete()
      modifies this`verdict
      ensures Abstract() == CheckComplete(flow, old(Abstract()))
    {
      var allTerminal, anyError := ScanStatuses();
      if allTerminal {
        verdict := if anyError then Failed else Completed;
      }
    }

    method ScanStatuses() returns (allTerminal: bool, anyError: bool)
      ensures allTerminal == AllTerminal(flow, rows)
      ensures anyError == AnyError(flow, rows)
    {
      allTerminal, anyError := true, false;
      var i := 0;
      while i < |flow.nodes|
        invariant 0 <= i <= |flow.nodes|
        invariant allTerminal == forall k | 0 <= k < i :: !Open(StatusOf(rows, flow.nodes[k].id))
        invariant anyError == exists k | 0 <= k < i :: StatusOf(rows, flow.nodes[k].id) == ERROR
      {
        var s := StatusOf(rows, flow.nodes[i].id);
        allTerminal := allTerminal && !Open(s);
        anyError := anyError || s == ERROR;
        i := i + 1;
      }
    }

    // ---------------------------------------------------------- the engine

    /** The loop over the declared inputs; later inputs overwrite earlier ones with the same id. */
    method ResolvePredecessorInputs(node: Node) returns (statuses: map<SlotId, InputStatus>)
      ensures statuses == ResolveInputs(rows, node)
    {
      statuses := map[];
      if !HasFileInputs(node) { return; }
      var i := 0;
      while i < |node.inputs|
        invariant 0 <= i <= |node.inputs|
        invariant statuses == ResolveAll(rows, node.inputs[..i])
      {
        assert node.inputs[..i + 1][..i] == node.inputs[..i];
        var input := node.inputs[i];
        if input.source.PREDECESSOR? {
          statuses := statuses[input.id := ResolveOne(rows, input.source)];
        }
        i := i + 1;
      }
      assert node.inputs[..i] == node.inputs;
    }

    method AdvanceWorkflow(completed: NodeId)
      modifies this
      ensures Abstract() == CheckComplete(flow, State(Advance(flow, old(rows), completed), old(verdict)))
    {
      TryEach(Targets(flow.edges, completed));
      CheckIterationComplete();
    }

    method TryEach(ts: seq<NodeId>)
      modifies this`rows
      ensures rows == TryAll(flow, old(rows), ts)
      decreases IdleSet(rows), |ts| + 1
    {
      var i := 0;
      while i < |ts|
        invariant 0 <= i <= |ts|
        invariant Evolves(old(rows), rows)
        invariant TryAll(flow, rows, ts[i..]) == TryAll(flow, old(rows), ts)
      {
        assert ts[i..][0] == ts[i] && ts[i..][1..] == ts[i + 1..];
        assert IdleSet(rows) <= IdleSet(old(rows));
        TryActivate(ts[i]);
        i := i + 1;
      }
    }

    /** Recursive activation: a passing gateway tries its own successors at once. */
    method TryActivate(t: NodeId)
      modifies this`rows
      ensures rows == Activation.TryActivate(flow, old(rows), t)
      decreases IdleSet(rows), 0
    {
      hide TryAll, CascadeSkip, GateRow;
      var target := Find(flow.nodes, t);
      if target.None? { return; }
      var node := target.value;
      if t !in rows || rows[t].status != IDLE { return; }
      var prereqs := Prereqs(flow, t);
      if exists p | p in prereqs :: Open(StatusOf(rows, p)) { return; }
      ghost var before := rows;

      if node.kind == GATEWAY {
        assert Decide(flow, before, t) == Some(GateRow(flow, before, node));
        var passes := EvaluateGate(t, node);
        if passes {
          assert t in IdleSet(before) && t !in IdleSet(rows) && IdleSet(rows) <= IdleSet(before);
          TryEach(Targets(flow.edges, t));
        } else {
          SkipBehind(t);
        }
        return;
      }

      if exists p | p in prereqs :: StatusOf(rows, p) == ERROR { return; }
      ghost var decided := Decide(flow, rows, t);
      var resolved := ResolvePredecessorInputs(node);
      if resolved != map[] {
        rows := rows[t := rows[t].(inputs := rows[t].inputs + resolved)];
      } else {
        assert rows[t].inputs + resolved == rows[t].inputs;
      }
      UpdateNodeStatus(t, PENDING);
      assert rows == before[t := decided.value];
    }

    /** Evaluates one gateway and stores what it saw, what it forwards and its status. */
    method EvaluateGate(t: NodeId, node: Node) returns (passes: bool)
      requires t in rows && node.id == t
      modifies this`rows
      ensures rows == old(rows)[t := GateRow(flow, old(rows), node)]
      ensures rows[t].status == if passes then COMPLETED else SKIPPED
    {
      var forwarded: map<SlotId, seq<FileId>> := map[];
      if HasFileInputs(node) {
        var resolved := ResolvePredecessorInputs(node);
        passes := FileGate(node, resolved);
        if passes { forwarded := Forwarded(resolved); }
        rows := rows[t := rows[t].(inputs := resolved)];
      } else {
        passes := EvaluateGateway(node.logic, PrereqStatuses(flow, rows, t));
        assert Forwarded(ResolveInputs(rows, node)) == map[];
      }
      if passes {
        if forwarded != map[] {
          rows := rows[t := rows[t].(outputs := forwarded)];
        }
        UpdateNodeStatus(t, COMPLETED);
      } else {
        UpdateNodeStatus(t, SKIPPED);
      }
    }

    /** The work list of the skip cascade. */
    method SkipBehind(from: NodeId)
      requires from in rows && rows[from].status != IDLE
      modifies this`rows
      ensures rows == CascadeSkip(flow, old(rows), from)
    {
      ghost var start := rows;
      ghost var skipped: set<NodeId> := {};
      var visited := {from};
      var queue := Targets(flow.edges, from);
      while queue != []
        invariant CascadeState(flow, start, rows, from, skipped, visited, queue)
        decreases IdleSet(rows), |queue|
      {
        var id := queue[0];
        if id in visited || id !in rows || rows[id].status != IDLE {
          CascadePasses(flow, start, rows, from, skipped, visited, queue);
          visited := visited + {id};
          queue := queue[1..];
        } else {
          CascadeSkips(flow, start, rows, from, skipped, visited, queue);
          visited := visited + {id};
          skipped := skipped + {id};
          UpdateNodeStatus(id, SKIPPED);
          queue := queue[1..] + Targets(flow.edges, id);
        }
      }
      CascadeEnds(flow, start, rows, from, skipped, visited);
    }

    // ---------------------------------------------------------- claim, complete, attach

    method ClaimNode(n: NodeId) returns (reply: Reply)
      modifies this`rows
      ensures (Abstract(), reply) == Claim(old(Abstract()), n)
    {
      if n !in rows { return NotFound; }
      if rows[n].status != PENDING { return BadRequest; }
      UpdateNodeStatus(n, RUNNING);
      return Done;
    }

    method CompleteNode(n: NodeId, path: Option<FilePath>) returns (reply: Reply)
      modifies this
      ensures (Abstract(), reply) == Complete(flow, old(Abstract()), n, path)
    {
      ReconcileStatus();
      if n !in rows { return NotFound; }
      if rows[n].status != RUNNING { return BadRequest; }
      if OutputsMissing(flow, rows[n], n, path) { return BadRequest; }
      UpdateNodeStatus(n, COMPLETED, path);
      assert rows == old(rows)[n := CompletedRow(old(rows)[n], path)];
      AdvanceWorkflow(n);
      return Done;
    }

    /** Links an existing file to an output slot. */
    method AttachOutput(files: set<FileId>, n: NodeId, slot: SlotId, f: FileId) returns (reply: Reply)
      modifies this`rows
      ensures (Abstract(), reply) == Link(old(Abstract()), files, n, slot, f)
    {
      if f !in files { return NotFound; }
      if n !in rows { return NotFound; }
      SaveUpload(n, slot, f);
      return Done;
    }

    /** Records a stored file in an output slot; without a row there is nothing to record it in. */
    method SaveUpload(n: NodeId, slot: SlotId, f: FileId)
      modifies this`rows
      ensures Abstract() == Attach(old(Abstract()), n, slot, f).0
    {
      if n !in rows { return; }
      var current := if slot in rows[n].outputs then rows[n].outputs[slot] else [];
      rows := rows[n := rows[n].(outputs := rows[n].outputs[slot := Dedupe(current + [f])])];
    }

    /** A handler's report; a node without a row refuses it. */
    method RecordReport(n: NodeId, r: Report)
      modifies this`rows
      ensures Abstract() == Handle(old(Abstract()), n, r)
    {
      if n !in rows { return; }
      match r
      case Started => UpdateNodeStatus(n, RUNNING);
      case Finished(path) => UpdateNodeStatus(n, COMPLETED, path);
      case Broke => UpdateNodeStatus(n, ERROR);
    }

    // ---------------------------------------------------------- repair

    /** `order` is the order in which the database returns the rows. */
    method RepairRun(order: seq<NodeId>) returns (advanced: nat)
      requires Valid()
      modifies this
      ensures Valid() && Abstract() == Repair(flow, old(Abstract()), order)
      ensures advanced == |Unadvanced(flow, old(rows), order)|
    {
      hide TryAll, Derived, Unadvanced;
      ReconcileStatus();
      advanced := AdvanceAll(rows, order);
      ReconcileStatus();
    }

    /** Advances behind every listed node that the snapshot shows to need it. */
    method AdvanceAll(snapshot: Rows, order: seq<NodeId>) returns (advanced: nat)
      requires Valid() && rows == snapshot
      modifies this
      ensures Valid() && rows == TryAll(flow, snapshot, RepairList(flow, snapshot, order))
      ensures flow.nodes == [] ==> verdict == old(verdict)
      ensures advanced == |Unadvanced(flow, snapshot, order)|
    {
      hide TryAll, Derived, Unadvanced;
      advanced := 0;
      var i := 0;
      NoneYet(flow, snapshot, order);
      while i < |order|
        invariant 0 <= i <= |order| && Valid()
        invariant TryAll(flow, rows, RepairList(flow, snapshot, order[i..])) ==
          TryAll(flow, snapshot, RepairList(flow, snapshot, order))
        invariant advanced == |Unadvanced(flow, snapshot, order[..i])|
        invariant flow.nodes == [] ==> verdict == old(verdict)
      {
        assert order[i..][0] == order[i] && order[i..][1..] == order[i + 1..];
        OneMore(flow, snapshot, order, i);
        if NeedsRepair(flow, snapshot, order[i]) {
          var ts := Targets(flow.edges, order[i]);
          TryAllAppend(flow, rows, ts, RepairList(flow, snapshot, order[i + 1..]));
          AdvanceWorkflow(order[i]);
          advanced := advanced + 1;
        }
        i := i + 1;
      }
      TryNone(flow, rows);
      assert order[..i] == order;
    }

    // ---------------------------------------------------------- fork

    /** The work list of `collectSuccessors`: everything reachable, each node once. */
    static method CollectSuccessors(g: Graph, from: NodeId) returns (visited: seq<NodeId>)
      ensures forall n :: n in visited <==> Reaches(g, from, n)
      ensures forall i, j | 0 <= i < j < |visited| :: visited[i] != visited[j]
    {
      visited := [];
      var queue := [from];
      ghost var all := {from} + set e | e in g.edges :: e.target;
      ReachesItself(g, from);
      while queue != []
        invariant forall n | n in visited :: Reaches(g, from, n) && n in all
        invariant forall n | n in queue :: Reaches(g, from, n) && n in all
        invariant from in visited || from in queue
        invariant forall n, m | n in visited && Edge(n, m) in g.edges :: m in visited || m in queue
        invariant forall i, j | 0 <= i < j < |visited| :: visited[i] != visited[j]
        decreases all - Elements(visited), |queue|
      {
        var current := queue[0];
        ghost var waiting := queue;
        assert forall m :: m in waiting <==> m == current || m in waiting[1..];
        queue := queue[1..];
        if current !in visited {
          ghost var was := visited;
          visited := visited + [current];
          assert current in all - Elements(was) && current in Elements(visited);
          var nexts := Targets(g.edges, current);
          forall n | n in nexts ensures Reaches(g, from, n) && n in all {
            ReachesStep(g, from, current, n);
            assert Edge(current, n).target in all;
          }
          queue := queue + nexts;
        }
      }
      forall n | Reaches(g, from, n) ensures n in visited {
        var path :| Walk(g, path) && path[0] == from && path[|path| - 1] == n;
        ClosedHoldsReached(g, Elements(visited), path);
      }
    }

    /** An iteration whose rows are given; used for the fork only. */
    constructor Inherit(g: Graph, inherited: Rows)
      ensures flow == g && Abstract() == State(inherited, Running)
    {
      flow := g;
      rows := inherited;
      verdict := Running;
    }

    /** Rows of a fork: kept nodes inherit the source's row, reset nodes start afresh. */
    method InheritRows(from: NodeId) returns (inherited: Rows)
      ensures inherited == ForkRows(flow, rows, from)
    {
      var resetSet := CollectSuccessors(flow, from);
      inherited := map[];
      var i := 0;
      while i < |flow.nodes|
        invariant 0 <= i <= |flow.nodes|
        invariant forall k | 0 <= k < i :: flow.nodes[k].id in inherited
        invariant forall n | n in inherited :: n in Ids(flow) && inherited[n] == ForkRows(flow, rows, from)[n]
      {
        var n := flow.nodes[i].id;
        assert flow.nodes[i] in flow.nodes;
        if n !in resetSet && n in rows {
          inherited := inherited[n := rows[n]];
        } else {
          inherited := inherited[n := FRESH_ROW];
        }
        i := i + 1;
      }
      assert Ids(flow) <= inherited.Keys by {
        forall n | n in Ids(flow) ensures n in inherited {
          var node :| node in flow.nodes && node.id == n;
          var k :| 0 <= k < i && flow.nodes[k] == node;
        }
      }
      assert inherited == ForkRows(flow, rows, from);
    }

    /** Forks a new iteration at `from`; this one is not modified. */
    method Restart(from: NodeId) returns (fork: Option<Iteration>)
      requires Valid()
      ensures fork.None? <==> Fork(flow, Abstract(), from).None?
      ensures fork.Some? ==>
        && fresh(fork.value) && fork.value.flow == flow && fork.value.Valid()
        && Some(fork.value.Abstract()) == Fork(flow, Abstract(), from)
    {
      var found := Find(flow.nodes, from);
      if found.None? { return None; }
      var inherited := InheritRows(from);
      var it := new Iteration.Inherit(flow, inherited);
      it.WakeRestartNode(from);
      return Some(it);
    }

    method WakeRestartNode(from: NodeId)
      requires Valid() && from in rows
      modifies this
      ensures Valid() && Abstract() == WakeRestart(flow, old(Abstract()), from)
    {
      var first := FirstPrereq(flow.edges, from);
      if first.None? {
        UpdateNodeStatus(from, PENDING);
      } else {
        AdvanceWorkflow(first.value);
      }
      ReconcileStatus();
    }
  }

  // ------------------------------------------------------------ the skip cascade's loop

  ghost predicate CascadeState(g: Graph, start: Rows, rows: Rows, from: NodeId,
                               skipped: set<NodeId>, visited: set<NodeId>, queue: seq<NodeId>)
  {
    && rows == (map n | n in start :: if n in skipped then start[n].(status := SKIPPED) else start[n])
    && from in visited && skipped <= visited && from in start && start[from].status != IDLE
    && (forall n | n in skipped :: Skippable(g, start, from, n))
    && (forall n | n in queue :: Behind(g, from, skipped, n))
    && (forall n | Behind(g, from, skipped, n) :: n in visited || n in queue)
    && (forall n | n in visited && n in start && start[n].status == IDLE :: n in skipped)
  }

  /** A successor of `from` or of a node already skipped. */
  ghost predicate Behind(g: Graph, from: NodeId, skipped: set<NodeId>, n: NodeId) {
    exists m | m in skipped + {from} :: Edge(m, n) in g.edges
  }

  lemma QueueHead(queue: seq<NodeId>)
    requires queue != []
    ensures forall n :: n in queue <==> n == queue[0] || n in queue[1..]
  {
  }

  lemma CascadePasses(g: Graph, start: Rows, rows: Rows, from: NodeId,
                      skipped: set<NodeId>, visited: set<NodeId>, queue: seq<NodeId>)
    requires CascadeState(g, start, rows, from, skipped, visited, queue) && queue != []
    requires queue[0] in visited || queue[0] !in rows || rows[queue[0]].status != IDLE
    ensures CascadeState(g, start, rows, from, skipped, visited + {queue[0]}, queue[1..])
  {
    QueueHead(queue);
  }

  lemma CascadeSkips(g: Graph, start: Rows, rows: Rows, from: NodeId,
                     skipped: set<NodeId>, visited: set<NodeId>, queue: seq<NodeId>)
    requires CascadeState(g, start, rows, from, skipped, visited, queue) && queue != []
    requires var id := queue[0]; id !in visited && id in rows && rows[id].status == IDLE
    ensures var id := queue[0]; var rows' := rows[id := rows[id].(status := SKIPPED)];
      && CascadeState(g, start, rows', from, skipped + {id}, visited + {id}, queue[1..] + Targets(g.edges, id))
      && IdleSet(rows') < IdleSet(rows)
  {
    QueueHead(queue);
    var id := queue[0];
    var rows' := rows[id := rows[id].(status := SKIPPED)];
    var m :| m in skipped + {from} && Edge(m, id) in g.edges;
    SkippableStep(g, start, from, m, id);
    var queue' := queue[1..] + Targets(g.edges, id);
    assert forall n :: n in queue' <==> n in queue[1..] || n in Targets(g.edges, id);
    forall n ensures Behind(g, from, skipped + {id}, n) <==> Behind(g, from, skipped, n) || Edge(id, n) in g.edges {}
    assert id in IdleSet(rows) && id !in IdleSet(rows');
    assert rows' == map n | n in start :: if n in skipped + {id} then start[n].(status := SKIPPED) else start[n];
  }

  /** The nodes skipped so far are closed under IDLE steps. */
  lemma CascadeClosed(g: Graph, start: Rows, rows: Rows, from: NodeId, skipped: set<NodeId>, visited: set<NodeId>)
    requires CascadeState(g, start, rows, from, skipped, visited, [])
    ensures forall n | Skippable(g, start, from, n) :: n in skipped
  {
    forall n, m | (n == from || n in skipped) && Edge(n, m) in g.edges && m in start && start[m].status == IDLE
      ensures m in skipped
    {
      assert n in skipped + {from} && Behind(g, from, skipped, m);
    }
    hide Behind, CascadeState;
    forall n | Skippable(g, start, from, n) ensures n in skipped {
      var path :| SkipPath(g, start, from, path) && path[|path| - 1] == n;
      ClosedHoldsSkippable(g, start, from, skipped, path);
    }
  }

  lemma CascadeEnds(g: Graph, start: Rows, rows: Rows, from: NodeId, skipped: set<NodeId>, visited: set<NodeId>)
    requires CascadeState(g, start, rows, from, skipped, visited, [])
    ensures rows == CascadeSkip(g, start, from)
  {
    CascadeClosed(g, start, rows, from, skipped, visited);
    assert forall n | n in skipped :: Skippable(g, start, from, n);
    hide Behind, Skippable;
  }

  /** The places of `order` whose node is COMPLETED in the snapshot and has an IDLE successor there. */
  ghost function Unadvanced(g: Graph, snap: Rows, order: seq<NodeId>): set<nat> {
    set i | 0 <= i < |order| && StatusOf(snap, order[i]) == COMPLETED && HasIdleSuccessor(g, snap, order[i])
  }

  ghost predicate HasIdleSuccessor(g: Graph, snap: Rows, n: NodeId) {
    exists e | e in g.edges :: e.source == n && StatusOf(snap, e.target) == IDLE
  }

  lemma NoneYet(g: Graph, snap: Rows, order: seq<NodeId>)
    ensures Unadvanced(g, snap, order[..0]) == {}
  {
  }

  lemma OneMore(g: Graph, snap: Rows, order: seq<NodeId>, i: nat)
    requires i < |order|
    ensures |Unadvanced(g, snap, order[..i + 1])| ==
      |Unadvanced(g, snap, order[..i])| + if NeedsRepair(g, snap, order[i]) then 1 else 0
  {
    assert NeedsRepair(g, snap, order[i]) <==>
      StatusOf(snap, order[i]) == COMPLETED && HasIdleSuccessor(g, snap, order[i]) by {
      if t :| t in Targets(g.edges, order[i]) && StatusOf(snap, t) == IDLE { assert Edge(order[i], t) in g.edges; }
      if e :| e in g.edges && e.source == order[i] && StatusOf(snap, e.target) == IDLE {
        assert e == Edge(order[i], e.target) && e.target in Targets(g.edges, order[i]);
      }
    }
    assert Unadvanced(g, snap, order[..i + 1]) ==
      Unadvanced(g, snap, order[..i]) + if NeedsRepair(g, snap, order[i]) then {i} else {};
  }
}
