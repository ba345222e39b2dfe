/**
 Required outputs: in every history, a task that is COMPLETED has a file in each output
 slot its definition requires, or a legacy path in place of the default one, unless a
 handler completed it without them: handlers are not asked for outputs.
 */
module Deliveries {
  import opened Wrappers
  import opened Flow
  import opened Runtime
  import opened Activation
  import opened Settling
  import opened Lifecycle
  import opened Runs
  import opened Histories

  ghost predicate IsTask(g: Graph, n: NodeId) {
    Find(g.nodes, n).Some? && Find(g.nodes, n).value.kind != GATEWAY
  }

  /** Every COMPLETED task that is not excused has what its definition requires of it. */
  ghost predicate Delivered(g: Graph, rows: Rows, excused: set<NodeId>) {
    forall n | n in rows && rows[n].status == COMPLETED && IsTask(g, n) && n !in excused ::
      forall o | o in Find(g.nodes, n).value.outputs && o.required ::
        Slot(rows, n, o.id) != [] || (o.id == DEFAULT_SLOT && rows[n].path.Some?)
  }

  /** Only gateways complete by activation. */
  lemma OnlyGatesComplete(g: Graph, seeds: set<NodeId>, rows: Rows, rows': Rows, n: NodeId)
    requires Settled(g, seeds, rows, rows') && Turned(rows, rows', n, COMPLETED)
    ensures !IsTask(g, n)
  {
    assert Explained(g, seeds, rows, rows', n);
    var snap :| FiredAt(g, rows, snap, rows', n);
  }

  lemma TryAllDelivers(g: Graph, rows: Rows, ts: seq<NodeId>, excused: set<NodeId>)
    requires Delivered(g, rows, excused)
    ensures Delivered(g, TryAll(g, rows, ts), excused)
  {
    TryAllIsSettled(g, rows, ts);
    var rows' := TryAll(g, rows, ts);
    forall n | Turned(rows, rows', n, COMPLETED) ensures !IsTask(g, n) {
      OnlyGatesComplete(g, Elements(ts), rows, rows', n);
    }
    hide TryAll, Settled, IsTask;
    forall n | n in rows' && rows'[n].status == COMPLETED && IsTask(g, n) ensures n in rows && rows'[n] == rows[n] {
      assert !Turned(rows, rows', n, COMPLETED);
    }
  }

  lemma CompletionDelivers(g: Graph, rows: Rows, n: NodeId, path: Option<FilePath>, excused: set<NodeId>)
    requires Delivered(g, rows, excused) && n in rows && !OutputsMissing(g, rows[n], n, path)
    ensures Delivered(g, rows[n := CompletedRow(rows[n], path)], excused)
  {
    var rows' := rows[n := CompletedRow(rows[n], path)];
    if IsTask(g, n) {
      forall o | o in Find(g.nodes, n).value.outputs && o.required
        ensures Slot(rows', n, o.id) != [] || (o.id == DEFAULT_SLOT && rows'[n].path.Some?)
      {
        assert !Missing(o, rows[n], path);
      }
    }
    forall m | m in rows && m != n ensures rows'[m] == rows[m] {}
  }

  /** Appending a file empties no slot. */
  lemma AttachDelivers(g: Graph, rows: Rows, n: NodeId, slot: SlotId, f: FileId, excused: set<NodeId>)
    requires Delivered(g, rows, excused) && n in rows
    ensures Delivered(g, rows[n := AddOutput(rows[n], slot, f)], excused)
  {
    var rows' := rows[n := AddOutput(rows[n], slot, f)];
    var current := if slot in rows[n].outputs then rows[n].outputs[slot] else [];
    assert f in current + [f] && Slot(rows', n, slot) == Dedupe(current + [f]);
    hide Dedupe;
    forall m, o | Slot(rows, m, o) != [] ensures Slot(rows', m, o) != [] {}
  }

  /** Changing no output and no path, or excusing the node, harms nothing. */
  lemma WriteDelivers(g: Graph, rows: Rows, n: NodeId, row: Row, excused: set<NodeId>)
    requires Delivered(g, rows, excused) && n in rows
    requires row.outputs == rows[n].outputs
    requires n in excused || (row.status != COMPLETED) || (row.status == rows[n].status && row.path == rows[n].path)
    ensures Delivered(g, rows[n := row], excused)
  {
    assert forall m, o :: Slot(rows[n := row], m, o) == Slot(rows, m, o);
  }

  /** The node that a handler completes although required outputs are missing. */
  function Excused(g: Graph, s: State, op: Op): set<NodeId> {
    if op.HandlerReports? && op.r.Finished? && op.n in s.rows && OutputsMissing(g, s.rows[op.n], op.n, op.r.path)
    then {op.n} else {}
  }

  /**
   A report leaves a task delivered if and only if it does not finish it, or the task's required
   outputs are there.
   */
  lemma ReportDelivers(g: Graph, s: State, n: NodeId, r: Report, excused: set<NodeId>)
    requires Delivered(g, s.rows, excused) && n in s.rows && IsTask(g, n) && n !in excused
    ensures Delivered(g, Handle(s, n, r).rows, excused) <==>
      (r.Finished? ==> !OutputsMissing(g, s.rows[n], n, r.path))
  {
    var rows' := Handle(s, n, r).rows;
    if r.Finished? {
      assert rows' == s.rows[n := CompletedRow(s.rows[n], r.path)];
      if OutputsMissing(g, s.rows[n], n, r.path) {
        var o :| o in Find(g.nodes, n).value.outputs && Missing(o, s.rows[n], r.path);
        assert Slot(rows', n, o.id) == [];
      } else {
        CompletionDelivers(g, s.rows, n, r.path, excused);
      }
    } else {
      WriteDelivers(g, s.rows, n, rows'[n], excused);
    }
  }

  lemma HandleDelivers(g: Graph, s: State, n: NodeId, r: Report, excused: set<NodeId>)
    requires Delivered(g, s.rows, excused) && Excused(g, s, HandlerReports(n, r)) <= excused
    ensures Delivered(g, Handle(s, n, r).rows, excused)
  {
    if n in s.rows {
      if r.Finished? && n !in excused {
        CompletionDelivers(g, s.rows, n, r.path, excused);
        assert Handle(s, n, r).rows == s.rows[n := CompletedRow(s.rows[n], r.path)];
      } else {
        WriteDelivers(g, s.rows, n, Handle(s, n, r).rows[n], excused);
      }
    }
  }

  lemma ForkDelivers(g: Graph, s: State, from: NodeId, excused: set<NodeId>)
    requires Delivered(g, s.rows, excused) && Fork(g, s, from).Some?
    ensures Delivered(g, Fork(g, s, from).value.rows, excused)
  {
    var inherited := ForkRows(g, s.rows, from);
    assert Delivered(g, inherited, excused) by {
      hide Reaches;
      forall n | n in inherited && inherited[n].status == COMPLETED ensures n in s.rows && inherited[n] == s.rows[n] {}
    }
    hide Delivered;
    match FirstPrereq(g.edges, from)
    case None => WriteDelivers(g, inherited, from, inherited[from].(status := PENDING), excused);
    case Some(p) => TryAllDelivers(g, inherited, Targets(g.edges, p), excused);
  }

  lemma CompleteDelivers(g: Graph, s: State, n: NodeId, path: Option<FilePath>, excused: set<NodeId>)
    requires Delivered(g, s.rows, excused)
    ensures Delivered(g, Complete(g, s, n, path).0.rows, excused)
  {
    hide Delivered, TryAll, OutputsMissing;
    if Complete(g, s, n, path).1.Done? {
      CompletionDelivers(g, s.rows, n, path, excused);
      TryAllDelivers(g, s.rows[n := CompletedRow(s.rows[n], path)], Targets(g.edges, n), excused);
    }
  }

  lemma ClaimDelivers(g: Graph, s: State, n: NodeId, excused: set<NodeId>)
    requires Delivered(g, s.rows, excused)
    ensures Delivered(g, Claim(s, n).0.rows, excused)
  {
    hide Delivered;
    if Claim(s, n).1.Done? { WriteDelivers(g, s.rows, n, s.rows[n].(status := RUNNING), excused); }
  }

  lemma RepairDelivers(g: Graph, s: State, order: seq<NodeId>, excused: set<NodeId>)
    requires Delivered(g, s.rows, excused)
    ensures Delivered(g, Repair(g, s, order).rows, excused)
  {
    hide Delivered, TryAll, RepairList, Derived;
    TryAllDelivers(g, s.rows, RepairList(g, s.rows, order), excused);
  }

  lemma UploadDelivers(g: Graph, s: State, n: NodeId, slot: SlotId, f: FileId, excused: set<NodeId>)
    requires Delivered(g, s.rows, excused)
    ensures Delivered(g, Attach(s, n, slot, f).0.rows, excused)
  {
    hide Delivered, AddOutput;
    if n in s.rows { AttachDelivers(g, s.rows, n, slot, f, excused); }
  }

  lemma MoreExcused(g: Graph, rows: Rows, excused: set<NodeId>, more: set<NodeId>)
    requires Delivered(g, rows, excused)
    ensures Delivered(g, rows, excused + more)
  {
  }

  lemma ApplyDelivers(g: Graph, s: State, op: Op, excused: set<NodeId>)
    requires Delivered(g, s.rows, excused)
    ensures Delivered(g, Apply(g, s, op).rows, excused + Excused(g, s, op))
  {
    MoreExcused(g, s.rows, excused, Excused(g, s, op));
    hide Excused, Delivered, Fork, Complete, Claim, Attach, Handle, Repair;
    var excused := excused + Excused(g, s, op);
    match op
    case View =>
    case ClaimNode(n) => ClaimDelivers(g, s, n, excused);
    case CompleteNode(n, path) => CompleteDelivers(g, s, n, path, excused);
    case HandlerReports(n, r) =>
      HandleDelivers(g, s, n, r, excused);
    case AttachFile(n, slot, f) => UploadDelivers(g, s, n, slot, f, excused);
    case RepairIteration(order) => RepairDelivers(g, s, order, excused);
    case ForkFrom(n) => if Fork(g, s, n).Some? { ForkDelivers(g, s, n, excused); }
  }

  /** The nodes for which, at some moment, a handler reported that it finished while required outputs were missing. */
  ghost function EverExcused(g: Graph, ops: seq<Op>): set<NodeId> {
    if ops == [] then {}
    else EverExcused(g, ops[..|ops| - 1]) + Excused(g, Run(g, ops[..|ops| - 1]), ops[|ops| - 1])
  }

  lemma {:induction false} ExcusedMeaning(g: Graph, ops: seq<Op>, n: NodeId)
    ensures n in EverExcused(g, ops) <==> exists i | 0 <= i < |ops| :: n in Excused(g, Run(g, ops[..i]), ops[i])
    decreases |ops|
  {
    hide Excused, Run;
    if ops != [] {
      var before := ops[..|ops| - 1];
      ExcusedMeaning(g, before, n);
      forall i | 0 <= i < |before| ensures before[..i] == ops[..i] && before[i] == ops[i] {}
      if i :| 0 <= i < |before| && n in Excused(g, Run(g, before[..i]), before[i]) {
        assert n in Excused(g, Run(g, ops[..i]), ops[i]);
      }
      if i :| 0 <= i < |before| && n in Excused(g, Run(g, ops[..i]), ops[i]) {
        assert n in Excused(g, Run(g, before[..i]), before[i]);
      }
    }
  }

  /**
   After any sequence of calls, on any graph, no task is COMPLETED without its required outputs,
   except those for which a handler reported that it finished while some were missing.
   */
  lemma {:induction false} RequiredOutputsArePresent(g: Graph, ops: seq<Op>)
    ensures Delivered(g, Run(g, ops).rows, EverExcused(g, ops))
    decreases |ops|
  {
    hide Delivered, Apply, Excused;
    if ops == [] {
      CreateDelivers(g);
    } else {
      var before := ops[..|ops| - 1];
      RequiredOutputsArePresent(g, before);
      ApplyDelivers(g, Run(g, before), ops[|ops| - 1], EverExcused(g, before));
    }
  }

  lemma CreateDelivers(g: Graph)
    ensures Delivered(g, Create(g).rows, {})
  {
  }
}
