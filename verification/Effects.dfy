/**
 What one call answers and what it leaves in the rows, stated on the rows before and after
 it, node by node and field by field.
 */
module Effects {
  import opened Wrappers
  import opened Flow
  import opened Runtime
  import opened Activation
  import opened Settling
  import opened Lifecycle
  import opened Runs
  import opened Histories
  import opened Forks
  import opened Progress
  import opened Gates
  import opened Confluence

  /** Nothing but the row of `n` differs. */
  predicate OnlyRow(a: Rows, b: Rows, n: NodeId) {
    a.Keys == b.Keys && forall m | m in a && m != n :: b[m] == a[m]
  }

  predicate NoDuplicates<T(==)>(s: seq<T>) {
    forall i, j | 0 <= i < j < |s| :: s[i] != s[j]
  }

  // ------------------------------------------------------------ create, claim

  /** A new iteration has a bare row for every node, PENDING without an edge into the node and IDLE with one. */
  lemma CreateEffect(g: Graph)
    ensures var s := Create(g);
      && s.verdict == Running
      && (forall n :: n in s.rows <==> exists node | node in g.nodes :: node.id == n)
      && forall n | n in s.rows ::
           && s.rows[n].inputs == map[] && s.rows[n].outputs == map[] && s.rows[n].path == None
           && s.rows[n].status == if exists p :: Edge(p, n) in g.edges then IDLE else PENDING
  {
    StartsAgreed(g);
    forall n ensures HasInEdge(g, n) <==> exists p :: Edge(p, n) in g.edges {
      if e :| e in g.edges && e.target == n { assert Edge(e.source, n) == e; }
      if p :| Edge(p, n) in g.edges { assert Edge(p, n).target == n; }
    }
  }

  /**
   A claim is granted on a PENDING node only, sets it RUNNING and touches nothing else; refused, it
   changes nothing.
   */
  lemma ClaimEffect(s: State, n: NodeId)
    ensures var (s', reply) := Claim(s, n);
      && (reply == Done <==> n in s.rows && s.rows[n].status == PENDING)
      && (reply == NotFound <==> n !in s.rows)
      && (reply == BadRequest <==> n in s.rows && s.rows[n].status != PENDING)
      && s'.verdict == s.verdict && (reply != Done ==> s' == s)
      && (reply == Done ==>
           && OnlyRow(s.rows, s'.rows, n)
           && s'.rows[n].status == RUNNING && s'.rows[n].inputs == s.rows[n].inputs
           && s'.rows[n].outputs == s.rows[n].outputs && s'.rows[n].path == s.rows[n].path)
  {
  }

  // ------------------------------------------------------------ complete, report

  /**
   Each required output of the node's definition has a file; for the default slot a path, stored or
   given, will do.
   */
  ghost predicate OutputsThere(g: Graph, rows: Rows, n: NodeId, path: Option<FilePath>)
    requires n in rows
  {
    forall node, o | Find(g.nodes, n) == Some(node) && o in node.outputs && o.required ::
      Slot(rows, n, o.id) != [] || (o.id == DEFAULT_SLOT && (path.Some? || rows[n].path.Some?))
  }

  lemma OutputsAreThere(g: Graph, rows: Rows, n: NodeId, path: Option<FilePath>)
    requires n in rows
    ensures OutputsMissing(g, rows[n], n, path) <==> !OutputsThere(g, rows, n, path)
  {
    if OutputsMissing(g, rows[n], n, path) {
      var node := Find(g.nodes, n).value;
      var o :| o in node.outputs && Missing(o, rows[n], path);
      assert Slot(rows, n, o.id) == [];
    } else {
      forall node, o | Find(g.nodes, n) == Some(node) && o in node.outputs && o.required
        ensures Slot(rows, n, o.id) != [] || (o.id == DEFAULT_SLOT && (path.Some? || rows[n].path.Some?))
      {
        assert !Missing(o, rows[n], path);
      }
    }
  }

  /**
   A completion is accepted exactly for a RUNNING node with its required outputs.  It stores COMPLETED
   and the given path, or keeps the old one, and no other row that had left IDLE changes.  Refused, it
   leaves the rows alone, and the status as any read does.
   */
  lemma CompleteEffect(g: Graph, s: State, n: NodeId, path: Option<FilePath>)
    ensures var (s', reply) := Complete(g, s, n, path);
      && (reply == Done <==> n in s.rows && s.rows[n].status == RUNNING && OutputsThere(g, s.rows, n, path))
      && (reply == NotFound <==> n !in s.rows)
      && (reply == Done || reply == NotFound || reply == BadRequest)
      && (reply != Done ==> s'.rows == s.rows && s' == Reconcile(g, s))
      && (reply == Done ==>
           && s'.rows.Keys == s.rows.Keys
           && s'.rows[n].status == COMPLETED && s'.rows[n].path == (if path.Some? then path else s.rows[n].path)
           && s'.rows[n].inputs == s.rows[n].inputs && s'.rows[n].outputs == s.rows[n].outputs
           && forall m | m in s.rows && m != n && s.rows[m].status != IDLE :: s'.rows[m] == s.rows[m])
  {
    if n in s.rows { OutputsAreThere(g, s.rows, n, path); }
    hide OutputsThere, OutputsMissing, AllTerminal, AnyError, Advance;
  }

  /** A report stores its status, and a finishing one its path if it gives one; nothing else changes. */
  lemma ReportEffect(s: State, n: NodeId, r: Report)
    ensures var s' := Handle(s, n, r);
      && s'.verdict == s.verdict && (n !in s.rows ==> s' == s)
      && (n in s.rows ==>
           && OnlyRow(s.rows, s'.rows, n)
           && s'.rows[n].status == (match r case Started => RUNNING case Finished(_) => COMPLETED case Broke => ERROR)
           && s'.rows[n].path == (if r.Finished? && r.path.Some? then r.path else s.rows[n].path)
           && s'.rows[n].inputs == s.rows[n].inputs && s'.rows[n].outputs == s.rows[n].outputs)
  {
  }

  /**
   The path a completion leaves on its node is the path that the tasks it wakes see on inputs bound to
   the default slot, as long as that slot has no files.
   */
  lemma PathIsSeen(g: Graph, s: State, n: NodeId, path: Option<FilePath>, t: NodeId, k: nat)
    requires BindingsFollowEdges(g) && Complete(g, s, n, path).1 == Done
    requires t in s.rows && s.rows[t].status == IDLE && Complete(g, s, n, path).0.rows[t].status == PENDING
    requires Find(g.nodes, t).Some? && Counts(Find(g.nodes, t).value.inputs, k)
    requires Find(g.nodes, t).value.inputs[k].source == PREDECESSOR(Some(n), Some(DEFAULT_SLOT))
    requires Slot(s.rows, n, DEFAULT_SLOT) == []
    ensures var node, seen := Find(g.nodes, t).value, Complete(g, s, n, path).0.rows[t].inputs;
      node.inputs[k].id in seen
      && seen[node.inputs[k].id].filePath == if path.Some? then path else s.rows[n].path
  {
    var node, rows := Find(g.nodes, t).value, s.rows[n := CompletedRow(s.rows[n], path)];
    var rows' := Complete(g, s, n, path).0.rows;
    CompletedRows(g, s, n, path);
    CompleteEffect(g, s, n, path);
    hide Complete, Advance, ResolveInputs, BindingsFollowEdges, Counts;
    assert t != n && Slot(rows', n, DEFAULT_SLOT) == [];
    WokenTaskSeesFiles(g, rows, n, t);
    assert Bound(node.inputs[k]);
    RecordedInputMeaning(rows', node, k);
  }

  lemma CompletedRows(g: Graph, s: State, n: NodeId, path: Option<FilePath>)
    requires Complete(g, s, n, path).1 == Done
    ensures n in s.rows && Complete(g, s, n, path).0.rows == Advance(g, s.rows[n := CompletedRow(s.rows[n], path)], n)
  {
    hide Advance, OutputsMissing;
  }

  // ------------------------------------------------------------ uploads and links

  /** `b` is `a` with `f` at the end, if it was not there. */
  predicate Joined(a: seq<FileId>, f: FileId, b: seq<FileId>) {
    b == if f in a then a else a + [f]
  }

  lemma {:induction false} DedupeDistinct(s: seq<FileId>)
    requires NoDuplicates(s)
    ensures Dedupe(s) == s
    decreases |s|
  {
    if s != [] {
      var before := s[..|s| - 1];
      DedupeDistinct(before);
      assert s[|s| - 1] !in before;
      assert s == before + [s[|s| - 1]];
    }
  }

  lemma DedupeJoins(s: seq<FileId>, f: FileId)
    requires NoDuplicates(s)
    ensures Joined(s, f, Dedupe(s + [f]))
  {
    DedupeDistinct(s);
    assert (s + [f])[..|s|] == s;
  }

  /** No slot lists a file twice. */
  ghost predicate SlotsDistinct(rows: Rows) {
    forall n, o :: NoDuplicates(Slot(rows, n, o))
  }

  /**
   Only the outputs of `n` differ, and of these only the slot, which has `f` behind the files it had,
   unless it had `f` already.
   */
  ghost predicate SlotGains(a: Rows, b: Rows, n: NodeId, slot: SlotId, f: FileId)
    requires n in a
  {
    && OnlyRow(a, b, n)
    && b[n].status == a[n].status && b[n].inputs == a[n].inputs && b[n].path == a[n].path
    && b[n].outputs.Keys == a[n].outputs.Keys + {slot}
    && (forall o | o != slot && o in a[n].outputs :: b[n].outputs[o] == a[n].outputs[o])
    && (forall h :: h in b[n].outputs[slot] <==> h in Slot(a, n, slot) || h == f)
    && NoDuplicates(b[n].outputs[slot])
    && (NoDuplicates(Slot(a, n, slot)) ==> Joined(Slot(a, n, slot), f, b[n].outputs[slot]))
  }

  /**
   An upload appends its file to the one slot it names, after the files already there, unless it is
   there already.  Every other slot, status, recorded input and path stays.
   */
  lemma AttachEffect(s: State, n: NodeId, slot: SlotId, f: FileId)
    ensures var (s', reply) := Attach(s, n, slot, f);
      && (reply == Done <==> n in s.rows) && (reply == NotFound <==> n !in s.rows) && (reply != Done ==> s' == s)
      && s'.verdict == s.verdict
      && (reply == Done ==> SlotGains(s.rows, s'.rows, n, slot, f))
  {
    if n in s.rows {
      var current := Slot(s.rows, n, slot);
      if NoDuplicates(current) { DedupeJoins(current, f); }
      DedupeMembers(current, f);
      AddedTo(s.rows, n, slot, f);
      hide Dedupe, NoDuplicates, Joined, AddOutput, SlotGains;
      SlotWritten(s.rows, n, slot, f, Dedupe(current + [f]));
    }
  }

  lemma SlotWritten(rows: Rows, n: NodeId, slot: SlotId, f: FileId, files: seq<FileId>)
    requires n in rows && NoDuplicates(files) && forall h :: h in files <==> h in Slot(rows, n, slot) || h == f
    requires NoDuplicates(Slot(rows, n, slot)) ==> Joined(Slot(rows, n, slot), f, files)
    ensures SlotGains(rows, rows[n := rows[n].(outputs := rows[n].outputs[slot := files])], n, slot, f)
  {
    hide NoDuplicates, Joined;
  }

  lemma AddedTo(rows: Rows, n: NodeId, slot: SlotId, f: FileId)
    requires n in rows
    ensures AddOutput(rows[n], slot, f)
      == rows[n].(outputs := rows[n].outputs[slot := Dedupe(Slot(rows, n, slot) + [f])])
  {
  }

  lemma DedupeMembers(s: seq<FileId>, f: FileId)
    ensures NoDuplicates(Dedupe(s + [f])) && forall h :: h in Dedupe(s + [f]) <==> h in s || h == f
  {
    hide Dedupe;
    assert (s + [f])[|s|] == f;
  }

  /** A link needs an existing file and a row, and then does to the named slot what an upload does. */
  lemma LinkEffect(s: State, files: set<FileId>, n: NodeId, slot: SlotId, f: FileId)
    ensures var (s', reply) := Link(s, files, n, slot, f);
      && (reply == Done <==> f in files && n in s.rows)
      && (reply == NotFound <==> f !in files || n !in s.rows)
      && s'.verdict == s.verdict && (reply != Done ==> s' == s)
      && (reply == Done ==> SlotGains(s.rows, s'.rows, n, slot, f))
  {
    AttachEffect(s, n, slot, f);
    hide Attach, SlotGains;
  }

  // ------------------------------------------------------------ slots never list a file twice

  lemma DecideKeepsDistinct(g: Graph, rows: Rows, t: NodeId)
    requires SlotsDistinct(rows) && Decide(g, rows, t).Some?
    ensures SlotsDistinct(rows[t := Decide(g, rows, t).value])
  {
    DecideFacts(g, rows, t);
    var node, row := Find(g.nodes, t).value, Decide(g, rows, t).value;
    var rows' := rows[t := row];
    if row.outputs != rows[t].outputs {
      ForwardedDistinct(rows, node);
      assert row.outputs == Forwarded(ResolveInputs(rows, node));
    }
    hide Decide, NoDuplicates;
    forall n, o ensures NoDuplicates(Slot(rows', n, o)) {
      if n == t && row.outputs != rows[t].outputs {
        NothingTwice();
      } else {
        assert Slot(rows', n, o) == Slot(rows, n, o);
      }
    }
  }

  lemma NothingTwice()
    ensures NoDuplicates<FileId>([])
  {
  }

  lemma {:induction false} ResolvedDistinct(rows: Rows, inputs: seq<Input>)
    requires SlotsDistinct(rows)
    ensures forall k | k in ResolveAll(rows, inputs) :: NoDuplicates(ResolveAll(rows, inputs)[k].fileIds)
    decreases |inputs|
  {
    NothingTwice();
    hide NoDuplicates;
    if inputs != [] {
      ResolvedDistinct(rows, inputs[..|inputs| - 1]);
      var last := inputs[|inputs| - 1];
      if last.source.PREDECESSOR? { OneDistinct(rows, last.source); }
    }
  }

  lemma OneDistinct(rows: Rows, source: Source)
    requires SlotsDistinct(rows) && source.PREDECESSOR?
    ensures NoDuplicates(ResolveOne(rows, source).fileIds)
  {
    NothingTwice();
    if source.nodeId.Some? && source.outputId.Some? {
      assert NoDuplicates(Slot(rows, source.nodeId.value, source.outputId.value));
    }
  }

  lemma ForwardedDistinct(rows: Rows, node: Node)
    requires SlotsDistinct(rows)
    ensures var files := Forwarded(ResolveInputs(rows, node)); forall k | k in files :: NoDuplicates(files[k])
  {
    ResolvedDistinct(rows, node.inputs);
  }

  lemma {:induction false} TryActivateKeepsDistinct(g: Graph, rows: Rows, t: NodeId)
    requires SlotsDistinct(rows)
    ensures SlotsDistinct(TryActivate(g, rows, t))
    decreases IdleSet(rows), 0
  {
    hide Decide, SlotsDistinct;
    match Decide(g, rows, t)
    case None =>
    case Some(row) =>
      var rows' := rows[t := row];
      DecideFacts(g, rows, t);
      DecideKeepsDistinct(g, rows, t);
      assert t in IdleSet(rows) && t !in IdleSet(rows') && IdleSet(rows') <= IdleSet(rows);
      if row.status == COMPLETED {
        TryAllKeepsDistinct(g, rows', Targets(g.edges, t));
      } else if row.status == SKIPPED {
        CascadeKeepsDistinct(g, rows', t);
      }
  }

  lemma CascadeKeepsDistinct(g: Graph, rows: Rows, t: NodeId)
    requires SlotsDistinct(rows)
    ensures SlotsDistinct(CascadeSkip(g, rows, t))
  {
    var rows' := CascadeSkip(g, rows, t);
    hide NoDuplicates, Skippable;
    forall n, o ensures NoDuplicates(Slot(rows', n, o)) {
      assert Slot(rows', n, o) == Slot(rows, n, o);
    }
  }

  lemma {:induction false} TryAllKeepsDistinct(g: Graph, rows: Rows, ts: seq<NodeId>)
    requires SlotsDistinct(rows)
    ensures SlotsDistinct(TryAll(g, rows, ts))
    decreases IdleSet(rows), |ts|
  {
    hide SlotsDistinct;
    if ts != [] {
      TryActivateKeepsDistinct(g, rows, ts[0]);
      var rows' := TryActivate(g, rows, ts[0]);
      assert IdleSet(rows') <= IdleSet(rows);
      TryAllKeepsDistinct(g, rows', ts[1..]);
    }
  }

  /** Writing a row with the same outputs, or with one more distinct slot. */
  lemma RowKeepsDistinct(rows: Rows, n: NodeId, row: Row)
    requires SlotsDistinct(rows)
    requires forall o | o in row.outputs :: NoDuplicates(row.outputs[o])
    ensures SlotsDistinct(rows[n := row])
  {
    NothingTwice();
    hide NoDuplicates;
    var rows' := rows[n := row];
    forall m, o ensures NoDuplicates(Slot(rows', m, o)) {
      assert m != n ==> Slot(rows', m, o) == Slot(rows, m, o);
    }
  }

  lemma OldOutputsDistinct(rows: Rows, n: NodeId)
    requires SlotsDistinct(rows) && n in rows
    ensures forall o | o in rows[n].outputs :: NoDuplicates(rows[n].outputs[o])
  {
    forall o | o in rows[n].outputs ensures NoDuplicates(rows[n].outputs[o]) {
      assert NoDuplicates(Slot(rows, n, o));
    }
  }

  lemma ForkKeepsDistinct(g: Graph, s: State, from: NodeId)
    requires SlotsDistinct(s.rows) && Fork(g, s, from).Some?
    ensures SlotsDistinct(Fork(g, s, from).value.rows)
  {
    var inherited := ForkRows(g, s.rows, from);
    NothingTwice();
    assert SlotsDistinct(inherited) by {
      hide NoDuplicates, Reaches;
      forall n, o ensures NoDuplicates(Slot(inherited, n, o)) {
        assert NoDuplicates(Slot(s.rows, n, o));
        assert Slot(inherited, n, o) == Slot(s.rows, n, o) || Slot(inherited, n, o) == [];
      }
    }
    hide SlotsDistinct, ForkRows;
    match FirstPrereq(g.edges, from)
    case None =>
      OldOutputsDistinct(inherited, from);
      RowKeepsDistinct(inherited, from, inherited[from].(status := PENDING));
    case Some(p) => TryAllKeepsDistinct(g, inherited, Targets(g.edges, p));
  }

  lemma CompletionKeepsDistinct(g: Graph, s: State, n: NodeId, path: Option<FilePath>)
    requires SlotsDistinct(s.rows)
    ensures SlotsDistinct(Complete(g, s, n, path).0.rows)
  {
    hide SlotsDistinct, TryAll, OutputsMissing;
    if Complete(g, s, n, path).1.Done? {
      var row := CompletedRow(s.rows[n], path);
      OldOutputsDistinct(s.rows, n);
      RowKeepsDistinct(s.rows, n, row);
      TryAllKeepsDistinct(g, s.rows[n := row], Targets(g.edges, n));
    }
  }

  lemma CallKeepsDistinct(g: Graph, s: State, op: Op)
    requires SlotsDistinct(s.rows)
    ensures SlotsDistinct(Apply(g, s, op).rows)
  {
    hide SlotsDistinct, TryAll, Fork, Complete, Dedupe;
    match op
    case View =>
    case ClaimNode(n) =>
      if n in s.rows {
        OldOutputsDistinct(s.rows, n);
        RowKeepsDistinct(s.rows, n, s.rows[n].(status := RUNNING));
      }
    case CompleteNode(n, path) => CompletionKeepsDistinct(g, s, n, path);
    case HandlerReports(n, r) =>
      if n in s.rows {
        OldOutputsDistinct(s.rows, n);
        RowKeepsDistinct(s.rows, n, Handle(s, n, r).rows[n]);
      }
    case AttachFile(n, slot, f) =>
      if n in s.rows {
        OldOutputsDistinct(s.rows, n);
        RowKeepsDistinct(s.rows, n, AddOutput(s.rows[n], slot, f));
      }
    case RepairIteration(order) => TryAllKeepsDistinct(g, s.rows, RepairList(g, s.rows, order));
    case ForkFrom(n) => if Fork(g, s, n).Some? { ForkKeepsDistinct(g, s, n); }
  }

  /** After every history no slot lists a file twice, so every upload appends exactly its file, or nothing. */
  lemma {:induction false} SlotsStayDistinct(g: Graph, ops: seq<Op>)
    ensures SlotsDistinct(Run(g, ops).rows)
    decreases |ops|
  {
    hide SlotsDistinct, Apply;
    if ops == [] {
      StartsDistinct(g);
    } else {
      SlotsStayDistinct(g, ops[..|ops| - 1]);
      CallKeepsDistinct(g, Run(g, ops[..|ops| - 1]), ops[|ops| - 1]);
    }
  }

  lemma StartsDistinct(g: Graph)
    ensures SlotsDistinct(Create(g).rows)
  {
  }

  /**
   In every history an upload leaves in its slot exactly the old files in their order, then its file
   if it was absent.
   */
  lemma UploadAppends(g: Graph, ops: seq<Op>, n: NodeId, slot: SlotId, f: FileId)
    requires n in Run(g, ops).rows
    ensures var rows, rows' := Run(g, ops).rows, Run(g, ops + [AttachFile(n, slot, f)]).rows;
      && Joined(Slot(rows, n, slot), f, Slot(rows', n, slot))
      && forall m, o | m != n || o != slot :: Slot(rows', m, o) == Slot(rows, m, o)
  {
    RunMore(g, ops, AttachFile(n, slot, f));
    SlotsStayDistinct(g, ops);
    AttachEffect(Run(g, ops), n, slot, f);
    hide Run, Attach, NoDuplicates;
    assert NoDuplicates(Slot(Run(g, ops).rows, n, slot));
  }

  // ------------------------------------------------------------ attempts

  /**
   What one attempt writes into an IDLE node whose predecessors are all terminal: a gateway becomes
   COMPLETED or SKIPPED and keeps its path, its outputs change only if it passes with files; a task
   becomes PENDING, unless a predecessor failed, and keeps its outputs and its path.
   */
  lemma AttemptEffect(g: Graph, rows: Rows, t: NodeId)
    ensures var decided := Decide(g, rows, t);
      && (decided.Some? <==>
           exists node :: Find(g.nodes, t) == Some(node)
             && t in rows && rows[t].status == IDLE
             && (forall p | Edge(p, t) in g.edges :: p in rows && !Open(rows[p].status))
             && (node.kind == GATEWAY || forall p | Edge(p, t) in g.edges :: StatusOf(rows, p) != ERROR))
      && (decided.Some? ==>
           var node, row := Find(g.nodes, t).value, decided.value;
           && row.path == rows[t].path
           && row.status == (if node.kind != GATEWAY then PENDING
                             else if GatePasses(g, rows, node) then COMPLETED else SKIPPED)
           && (row.outputs != rows[t].outputs ==> row.status == COMPLETED && HasFileInputs(node))
           && (node.kind == GATEWAY ==>
                 row.inputs == if HasFileInputs(node) then ResolveInputs(rows, node) else rows[t].inputs)
           && (node.kind != GATEWAY ==> forall k :: k in row.inputs <==>
             k in rows[t].inputs || k in ResolveInputs(rows, node))
           && (node.kind != GATEWAY ==> forall k | k in row.inputs ::
                 row.inputs[k] == if k in ResolveInputs(rows, node) then ResolveInputs(rows, node)[k]
                   else rows[t].inputs[k]))
  {
    assert forall p :: p in Prereqs(g, t) <==> Edge(p, t) in g.edges;
    hide GatePasses, ResolveAll, HasFileInputs;
    assert Find(g.nodes, t).Some? ==> Find(g.nodes, t) == Some(Find(g.nodes, t).value);
  }

  // ------------------------------------------------------------ order

  /** Successors are tried in the order of the edges, once for each edge. */
  lemma {:induction false} TargetsInOrder(edges: seq<Edge>, e: Edge, n: NodeId)
    ensures Targets(edges + [e], n) == Targets(edges, n) + if e.source == n then [e.target] else []
  {
    if edges == [] {
      assert edges + [e] == [e];
      assert [e][1..] == [];
    } else {
      assert (edges + [e])[1..] == edges[1..] + [e];
      TargetsInOrder(edges[1..], e, n);
    }
  }

  /** Repair tries the successors of the rows in the order in which it meets the rows. */
  lemma {:induction false} RepairsInOrder(g: Graph, snap: Rows, order: seq<NodeId>, n: NodeId)
    ensures RepairList(g, snap, order + [n]) == RepairList(g, snap, order) +
      if StatusOf(snap, n) == COMPLETED && exists t | Edge(n, t) in g.edges :: StatusOf(snap, t) == IDLE
      then Targets(g.edges, n) else []
  {
    if order == [] {
      assert order + [n] == [n];
      assert [n][1..] == [];
    } else {
      assert (order + [n])[1..] == order[1..] + [n];
      RepairsInOrder(g, snap, order[1..], n);
    }
  }

  // ------------------------------------------------------------ first of several

  /** Among nodes that share an id the first is the definition; among edges into a node the first is its predecessor. */
  lemma {:induction false} FindIsFirst(nodes: seq<Node>, id: NodeId, i: nat)
    requires i < |nodes| && nodes[i].id == id && forall j | 0 <= j < i :: nodes[j].id != id
    ensures Find(nodes, id) == Some(nodes[i])
  {
    if i > 0 {
      assert forall j | 0 <= j < i - 1 :: nodes[1..][j] == nodes[j + 1];
      FindIsFirst(nodes[1..], id, i - 1);
    }
  }

  lemma {:induction false} PrereqIsFirst(edges: seq<Edge>, n: NodeId, i: nat)
    requires i < |edges| && edges[i].target == n && forall j | 0 <= j < i :: edges[j].target != n
    ensures FirstPrereq(edges, n) == Some(edges[i].source)
  {
    if i > 0 {
      assert forall j | 0 <= j < i - 1 :: edges[1..][j] == edges[j + 1];
      PrereqIsFirst(edges[1..], n, i - 1);
    }
  }

  // ------------------------------------------------------------ fork

  /**
   What activation may have written into a row that was fresh: nothing, SKIPPED by a cascade, or
   what one attempt decides.
   */
  ghost predicate WrittenFresh(g: Graph, n: NodeId, row: Row) {
    || row == Row(IDLE, map[], map[], None)
    || row == Row(SKIPPED, map[], map[], None)
    || exists snap: Rows :: n in snap && snap[n] == Row(IDLE, map[], map[], None) && Decide(g, snap, n) == Some(row)
  }

  lemma ActivationOnFresh(g: Graph, seeds: set<NodeId>, rows: Rows, rows': Rows, n: NodeId)
    requires Settled(g, seeds, rows, rows') && n in rows && rows[n] == FRESH_ROW
    ensures n in rows' && WrittenFresh(g, n, rows'[n])
  {
    if Left(rows, rows', n) {
      assert Explained(g, seeds, rows, rows', n);
      if Fired(g, rows, rows', n) {
        var snap :| FiredAt(g, rows, snap, rows', n);
        DecideFacts(g, snap, n);
      } else {
        var k: nat :| k > 0 && SkipTraced(g, rows, rows', n, k);
      }
    }
  }

  lemma FreshHasNoFiles(g: Graph, n: NodeId, row: Row)
    requires WrittenFresh(g, n, row)
    ensures row.path == None
    ensures Find(g.nodes, n).Some? && Find(g.nodes, n).value.kind != GATEWAY ==> row.outputs == map[]
    ensures row.status == IDLE ==> row == FRESH_ROW
  {
    if snap: Rows :| n in snap && snap[n] == Row(IDLE, map[], map[], None) && Decide(g, snap, n) == Some(row) {
      AttemptEffect(g, snap, n);
      hide Decide;
    }
  }

  /**
   A fork exists for known nodes only and starts with all nodes.  Every node that the restart node
   reaches has lost its path and, if it is no gateway, its outputs; it is IDLE and bare, or holds what
   activation wrote into a bare row.  A restart node without predecessors is PENDING.  Every other
   node that had left IDLE in the source has its source row.
   */
  lemma ForkEffect(g: Graph, s: State, from: NodeId)
    requires s.rows.Keys == Ids(g)
    ensures Fork(g, s, from).Some? <==> exists node | node in g.nodes :: node.id == from
    ensures Fork(g, s, from).Some? ==> var rows := Fork(g, s, from).value.rows;
      && rows.Keys == s.rows.Keys
      && (forall n | n in rows && Reaches(g, from, n) :: ResetTo(g, from, n, rows[n]))
      && (forall n | n in rows && !Reaches(g, from, n) && s.rows[n].status != IDLE :: rows[n] == s.rows[n])
  {
    assert Fork(g, s, from).Some? ==> Find(g.nodes, from).value in g.nodes;
    if Fork(g, s, from).Some? {
      ForkResets(g, s, from);
      ForkInherits(g, s, from);
    }
  }

  /** The row of a node that a fork has reset. */
  ghost predicate ResetTo(g: Graph, from: NodeId, n: NodeId, row: Row) {
    && row.path == None
    && (Find(g.nodes, n).Some? && Find(g.nodes, n).value.kind != GATEWAY ==> row.outputs == map[])
    && (row.status == IDLE ==> row.inputs == map[] && row.outputs == map[])
    && (n == from && (forall p :: Edge(p, from) !in g.edges) ==> row == Row(PENDING, map[], map[], None))
    && (n != from || (exists p :: Edge(p, from) in g.edges) ==> WrittenFresh(g, n, row))
  }

  lemma ForkResets(g: Graph, s: State, from: NodeId)
    requires s.rows.Keys == Ids(g) && Fork(g, s, from).Some?
    ensures var rows := Fork(g, s, from).value.rows;
      rows.Keys == s.rows.Keys && forall n | n in rows && Reaches(g, from, n) :: ResetTo(g, from, n, rows[n])
  {
    var inherited := ForkRows(g, s.rows, from);
    ReachesItself(g, from);
    AllFresh(g, s.rows, from);
    hide Reaches, ForkRows, ResetTo;
    WokenRows(g, s, from);
    WakeResets(g, inherited, from, Fork(g, s, from).value.rows);
  }

  lemma AllFresh(g: Graph, rows: Rows, from: NodeId)
    requires rows.Keys == Ids(g) && Find(g.nodes, from).Some?
    ensures var inherited := ForkRows(g, rows, from);
      && inherited.Keys == rows.Keys && from in inherited
      && forall n | n in inherited && Reaches(g, from, n) :: inherited[n] == FRESH_ROW
  {
    hide Reaches;
  }

  lemma WakeResets(g: Graph, inherited: Rows, from: NodeId, rows: Rows)
    requires from in inherited && Reaches(g, from, from)
    requires forall n | n in inherited && Reaches(g, from, n) :: inherited[n] == FRESH_ROW
    requires rows == match FirstPrereq(g.edges, from)
      case None => inherited[from := inherited[from].(status := PENDING)]
      case Some(p) => TryAll(g, inherited, Targets(g.edges, p))
    ensures rows.Keys == inherited.Keys
    ensures forall n | n in rows && Reaches(g, from, n) :: ResetTo(g, from, n, rows[n])
  {
    hide Reaches, ResetTo, TryAll, FirstPrereq;
    match FirstPrereq(g.edges, from)
    case None =>
      forall n | n in rows && Reaches(g, from, n) ensures ResetTo(g, from, n, rows[n]) {
        if n == from { RootReset(g, from); } else { FreshReset(g, from, n); }
      }
    case Some(p) =>
      forall n | n in rows && Reaches(g, from, n) ensures ResetTo(g, from, n, rows[n]) {
        WrittenReset(g, inherited, from, p, n);
      }
  }

  lemma WokenRows(g: Graph, s: State, from: NodeId)
    requires Fork(g, s, from).Some? && from in ForkRows(g, s.rows, from)
    ensures var inherited := ForkRows(g, s.rows, from);
      Fork(g, s, from).value.rows == match FirstPrereq(g.edges, from)
        case None => inherited[from := inherited[from].(status := PENDING)]
        case Some(p) => TryAll(g, inherited, Targets(g.edges, p))
  {
    hide ForkRows, TryAll;
  }

  lemma RootReset(g: Graph, from: NodeId)
    requires FirstPrereq(g.edges, from) == None
    ensures ResetTo(g, from, from, Row(PENDING, map[], map[], None))
  {
    assert forall p :: Edge(p, from) in g.edges ==> Edge(p, from).target == from;
  }

  lemma FreshReset(g: Graph, from: NodeId, n: NodeId)
    requires n != from
    ensures ResetTo(g, from, n, FRESH_ROW)
  {
  }

  lemma WrittenReset(g: Graph, inherited: Rows, from: NodeId, p: NodeId, n: NodeId)
    requires n in inherited && inherited[n] == FRESH_ROW && FirstPrereq(g.edges, from) == Some(p)
    ensures var rows := TryAll(g, inherited, Targets(g.edges, p)); n in rows && ResetTo(g, from, n, rows[n])
  {
    var rows := TryAll(g, inherited, Targets(g.edges, p));
    assert Edge(p, from) in g.edges;
    TryAllIsSettled(g, inherited, Targets(g.edges, p));
    hide TryAll, Settled, Decide, WrittenFresh;
    ActivationOnFresh(g, Elements(Targets(g.edges, p)), inherited, rows, n);
    FreshHasNoFiles(g, n, rows[n]);
  }

  lemma ForkInherits(g: Graph, s: State, from: NodeId)
    requires s.rows.Keys == Ids(g) && Fork(g, s, from).Some?
    ensures var rows := Fork(g, s, from).value.rows;
      rows.Keys == s.rows.Keys
      && forall n | n in rows && !Reaches(g, from, n) && s.rows[n].status != IDLE :: rows[n] == s.rows[n]
  {
    var inherited := ForkRows(g, s.rows, from);
    assert forall n | n in inherited && !Reaches(g, from, n) :: inherited[n] == s.rows[n];
    ReachesItself(g, from);
    hide Reaches, ForkRows;
  }
}
