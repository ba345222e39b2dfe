/**
 What interleaving does cost: two completions that finish together may both decide to wake
 the same node, and the later write can land after that node has been claimed.
 */
module Stale {
  import opened Wrappers
  import opened Flow
  import opened Runtime
  import opened Lifecycle
  import opened Histories
  import opened Progress
  import opened Interleaving
  import Solo

  /** A status write that a call is about to perform, with the status it read before it decided. */
  datatype Write = Write(n: NodeId, read: Status, to: Status)

  function Pending(stage: Stage): Option<Write> {
    match stage
    case Claiming(n) => Some(Write(n, PENDING, RUNNING))
    case Completing(n) => Some(Write(n, RUNNING, COMPLETED))
    case Firing(t, to, _) => Some(Write(t, IDLE, to))
    case Skipping(n, _, _, _) => Some(Write(n, IDLE, SKIPPED))
    case _ => None
  }

  /** The write finds the status that was read, or the one it writes, or RUNNING where it writes COMPLETED. */
  predicate Lands(s: Statuses, write: Write) {
    write.n in s ==>
      || s[write.n] == write.read || s[write.n] == write.to
      || (s[write.n] == RUNNING && write.to == COMPLETED)
  }

  /**
   After any history and in every schedule: the next step of a call moves every status at most one
   legal step forward if and only if its write, if it is one, lands.
   */
  lemma StepsForwardExactly(g: Graph, ops: seq<Op>, moves: seq<Move>, call: CallId, passes: bool)
    requires call in After(g, ops, moves).calls
    ensures var w := After(g, ops, moves);
      (forall n :: Onward(Current(w.status, n), Current(Step(g, w, Go(call, passes)).status, n)))
      <==> (var write := Pending(w.calls[call]); write.Some? ==> Lands(w.status, write.value))
  {
    HistoryIsSafe(g, ops);
    EveryScheduleIsSafe(g, Between(Run(g, ops).rows), Missed(g, ops), moves);
    var w := After(g, ops, moves);
    hide After, Run, Missed;
    assert StageOk(w.status, w.calls[call]);
    WriteForward(g, w, call, passes);
  }

  lemma WriteForward(g: Graph, w: World, call: CallId, passes: bool)
    requires call in w.calls && StageOk(w.status, w.calls[call])
    ensures (forall n :: Onward(Current(w.status, n), Current(Step(g, w, Go(call, passes)).status, n)))
      <==> (var write := Pending(w.calls[call]); write.Some? ==> Lands(w.status, write.value))
  {
    var w' := Step(g, w, Go(call, passes));
    match Pending(w.calls[call])
    case None => assert w'.status == w.status;
    case Some(write) =>
      assert w'.status == if write.n in w.status then w.status[write.n := write.to] else w.status;
      assert Onward(Current(w.status, write.n), Current(w'.status, write.n)) <==> Lands(w.status, write);
  }

  // ------------------------------------------------------------ why a write can fail to land

  /** The move is a step of this call, its first one included. */
  predicate StepOf(w: World, m: Move, call: CallId) {
    match m
    case Claim(c, _) => c == call && c !in w.calls
    case Complete(c, _) => c == call && c !in w.calls
    case Retry(c, _) => c == call && c !in w.calls
    case Go(c, _) => c == call
    case Drop(c) => c == call
    case Handler(_, _) => false
  }

  /** The move writes the status of this node: a handler's report, or the pending write of a call. */
  predicate WritesTo(w: World, m: Move, n: NodeId) {
    match m
    case Handler(h, _) => h == n
    case Go(c, _) => c in w.calls && Pending(w.calls[c]).Some? && Pending(w.calls[c]).value.n == n
    case _ => false
  }

  /** Right after a step of its call a pending write finds what was read. */
  lemma JustRead(g: Graph, w: World, m: Move, call: CallId)
    requires StepOf(w, m, call) && call in Step(g, w, m).calls && Pending(Step(g, w, m).calls[call]).Some?
    ensures Lands(Step(g, w, m).status, Pending(Step(g, w, m).calls[call]).value)
  {
  }

  /** Other moves leave the call where it stands, and change no status that they do not write. */
  lemma OthersPass(g: Graph, w: World, m: Move, call: CallId, n: NodeId)
    requires !StepOf(w, m, call)
    ensures call in Step(g, w, m).calls <==> call in w.calls
    ensures call in w.calls ==> Step(g, w, m).calls[call] == w.calls[call]
    ensures !WritesTo(w, m, n) ==> Current(Step(g, w, m).status, n) == Current(w.status, n)
    ensures n in Step(g, w, m).status <==> n in w.status
  {
  }

  /** Move `i` writes the node, and no move from there on is a step of the call. */
  ghost predicate OverwrittenAt(g: Graph, from: World, moves: seq<Move>, i: nat, call: CallId, n: NodeId) {
    && i < |moves| && WritesTo(Execute(g, from, moves[..i]), moves[i], n)
    && forall j | i <= j < |moves| :: !StepOf(Execute(g, from, moves[..j]), moves[j], call)
  }

  lemma OverwrittenMore(g: Graph, from: World, moves: seq<Move>, i: nat, call: CallId, n: NodeId)
    requires moves != [] && OverwrittenAt(g, from, moves[..|moves| - 1], i, call, n)
    requires !StepOf(Execute(g, from, moves[..|moves| - 1]), moves[|moves| - 1], call)
    ensures OverwrittenAt(g, from, moves, i, call, n)
  {
    hide Step, StepOf, WritesTo;
    var before := moves[..|moves| - 1];
    forall j | 0 <= j < |before| ensures before[..j] == moves[..j] && before[j] == moves[j] {}
    forall j | i <= j < |moves| ensures !StepOf(Execute(g, from, moves[..j]), moves[j], call) {
      if j < |before| { assert !StepOf(Execute(g, from, before[..j]), before[j], call); }
    }
  }

  /**
   In every schedule: a pending write fails to land only if, since the last step of its own call,
   which read the status, another call or a handler wrote the same node.
   */
  lemma {:induction false} OnlyOverwritesMiss(g: Graph, from: World, moves: seq<Move>, call: CallId)
    requires from.calls == map[] && call in Execute(g, from, moves).calls
    requires var w := Execute(g, from, moves);
      Pending(w.calls[call]).Some? && !Lands(w.status, Pending(w.calls[call]).value)
    ensures exists i: nat :: OverwrittenAt(g, from, moves, i, call,
      Pending(Execute(g, from, moves).calls[call]).value.n)
    decreases |moves|
  {
    hide Step, StepOf, WritesTo, Pending, Lands, OverwrittenAt;
    var before, m := moves[..|moves| - 1], moves[|moves| - 1];
    var w, w' := Execute(g, from, before), Execute(g, from, moves);
    if StepOf(w, m, call) { JustRead(g, w, m, call); }
    var write := Pending(w'.calls[call]).value;
    OthersPass(g, w, m, call, write.n);
    if WritesTo(w, m, write.n) {
      OverwrittenNow(g, from, moves, call, write.n);
    } else {
      SameFinding(w.status, w'.status, write);
      OnlyOverwritesMiss(g, from, before, call);
      var i: nat :| OverwrittenAt(g, from, before, i, call, write.n);
      OverwrittenMore(g, from, moves, i, call, write.n);
    }
  }

  lemma OverwrittenNow(g: Graph, from: World, moves: seq<Move>, call: CallId, n: NodeId)
    requires moves != []
    requires var w, m := Execute(g, from, moves[..|moves| - 1]), moves[|moves| - 1];
      WritesTo(w, m, n) && !StepOf(w, m, call)
    ensures OverwrittenAt(g, from, moves, |moves| - 1, call, n)
  {
    hide Step, StepOf, WritesTo, Execute;
  }

  lemma SameFinding(a: Statuses, b: Statuses, write: Write)
    requires Current(a, write.n) == Current(b, write.n) && (write.n in a <==> write.n in b)
    ensures Lands(a, write) <==> Lands(b, write)
  {
  }

  // ------------------------------------------------------------ a race for one task

  /** Nothing but claims and completions: no handler, no repair, and no call is abandoned. */
  predicate ByCalls(m: Move) {
    m.Claim? || m.Complete? || m.Go?
  }

  lemma Claims(g: Graph, from: World, w: World, call: CallId, n: NodeId)
    requires Solo.Schedulable(g, from, w, ByCalls) && call !in w.calls && n in w.status && w.status[n] == PENDING
    ensures Solo.Schedulable(g, from, World(w.status[n := RUNNING], w.calls), ByCalls)
  {
    hide Solo.Schedulable;
    Solo.MoveSchedulable(g, from, w, ByCalls, Claim(call, n));
    Solo.MoveSchedulable(g, from, Step(g, w, Claim(call, n)), ByCalls, Go(call, true));
    assert w.calls[call := Claiming(n)] - {call} == w.calls;
  }

  lemma Completes(g: Graph, from: World, w: World, call: CallId, n: NodeId)
    requires Solo.Schedulable(g, from, w, ByCalls) && call !in w.calls && n in w.status && w.status[n] == RUNNING
    ensures Solo.Schedulable(g, from, World(w.status[n := COMPLETED], w.calls[call := Trying(Targets(g.edges, n))]),
      ByCalls)
  {
    hide Solo.Schedulable;
    Solo.MoveSchedulable(g, from, w, ByCalls, Complete(call, n));
    var w' := Step(g, w, Complete(call, n));
    Solo.MoveSchedulable(g, from, w', ByCalls, Go(call, true));
    assert w'.calls[call := Trying(Targets(g.edges, n))] == w.calls[call := Trying(Targets(g.edges, n))];
  }

  lemma Decides(g: Graph, from: World, w: World, call: CallId, t: NodeId)
    requires Solo.Schedulable(g, from, w, ByCalls) && call in w.calls && w.calls[call] == Trying([t])
    requires Decision(g, w.status, t, true) == Some(PENDING)
    ensures Solo.Schedulable(g, from, w.(calls := w.calls[call := Firing(t, PENDING, [])]), ByCalls)
  {
    hide Solo.Schedulable, Decision;
    assert [t][1..] == [];
    Solo.MoveSchedulable(g, from, w, ByCalls, Go(call, true));
  }

  lemma Wakes(g: Graph, from: World, w: World, call: CallId, t: NodeId)
    requires Solo.Schedulable(g, from, w, ByCalls) && call in w.calls && t in w.status
      && w.calls[call] == Firing(t, PENDING, [])
    ensures Solo.Schedulable(g, from, World(w.status[t := PENDING], w.calls[call := Trying([])]), ByCalls)
  {
    hide Solo.Schedulable;
    Solo.MoveSchedulable(g, from, w, ByCalls, Go(call, true));
  }

  /** Two start tasks, and one task behind both. */
  const JOIN := Graph([Node(0, TASK, AND, [], []), Node(1, TASK, AND, [], []), Node(2, TASK, AND, [], [])],
    [Edge(0, 2), Edge(1, 2)])

  const JOIN_START: Statuses := map[0 := PENDING, 1 := PENDING, 2 := IDLE]

  /** All that the schedule below needs to know about it. */
  ghost predicate Joins(g: Graph) {
    && Between(Create(g).rows) == World(JOIN_START, map[])
    && Targets(g.edges, 0) == [2] && Targets(g.edges, 1) == [2]
    && Prereqs(g, 2) == {0, 1}
    && Find(g.nodes, 2).Some? && Find(g.nodes, 2).value.kind == TASK
  }

  lemma JoinTargets(edges: seq<Edge>, from: NodeId)
    requires edges == [Edge(0, 2), Edge(1, 2)] && (from == 0 || from == 1)
    ensures Targets(edges, from) == [2]
  {
    var last := edges[1..];
    assert last[0] == Edge(1, 2) && last[1..] == [];
    assert Targets(last, from) == if from == 1 then [2] else [];
  }

  lemma JoinEdges(g: Graph)
    requires g.edges == [Edge(0, 2), Edge(1, 2)]
    ensures Prereqs(g, 2) == {0, 1} && HasInEdge(g, 2) && !HasInEdge(g, 0) && !HasInEdge(g, 1)
  {
    assert g.edges[0] == Edge(0, 2) && g.edges[1] == Edge(1, 2);
  }

  lemma JoinNodes(g: Graph)
    requires g.nodes == JOIN.nodes
    ensures Ids(g) == {0, 1, 2} && Find(g.nodes, 2) == Some(g.nodes[2])
  {
    assert g.nodes[0].id == 0 && g.nodes[1].id == 1 && g.nodes[2].id == 2;
    var rest := g.nodes[1..];
    assert rest[0].id == 1 && rest[1..][0] == g.nodes[2];
  }

  lemma JoinStarts(g: Graph)
    requires Ids(g) == {0, 1, 2} && HasInEdge(g, 2) && !HasInEdge(g, 0) && !HasInEdge(g, 1)
    ensures Between(Create(g).rows) == World(JOIN_START, map[])
  {
    hide HasInEdge, Ids;
    assert StatusesOf(StartRows(g)) == JOIN_START;
  }

  lemma JoinJoins()
    ensures Joins(JOIN)
  {
    JoinTargets(JOIN.edges, 0);
    JoinTargets(JOIN.edges, 1);
    JoinEdges(JOIN);
    JoinNodes(JOIN);
    JoinStarts(JOIN);
    hide HasInEdge, Targets, Find, Prereqs, Ids, Create;
    assert Joins(JOIN);
  }

  lemma ReadyTaskWakes(g: Graph, s: Statuses)
    requires Joins(g) && 2 in s && s[2] == IDLE && Current(s, 0) == COMPLETED && Current(s, 1) == COMPLETED
    ensures Decision(g, s, 2, true) == Some(PENDING)
  {
  }

  /**
   Both completions are written, both read task 2 as ready, one wakes it, it is claimed, and then
   the other writes.
   */
  lemma RaceIsPossible(g: Graph) returns (w: World)
    requires Joins(g)
    ensures Solo.Schedulable(g, Between(Create(g).rows), w, ByCalls) && Current(w.status, 2) == RUNNING
    ensures 1 in w.calls && w.calls[1] == Firing(2, PENDING, [])
  {
    var from := World(JOIN_START, map[]);
    assert Execute(g, from, []) == from;
    assert Solo.Schedulable(g, from, World(JOIN_START, map[]), ByCalls);
    hide Solo.Schedulable, Decision;
    var s1 := JOIN_START[0 := RUNNING][1 := RUNNING];
    Claims(g, from, World(JOIN_START, map[]), 0, 0);
    Claims(g, from, World(JOIN_START[0 := RUNNING], map[]), 0, 1);
    var s2 := s1[0 := COMPLETED][1 := COMPLETED];
    var c2: map<CallId, Stage> := map[][0 := Trying([2])];
    Completes(g, from, World(s1, map[]), 0, 0);
    Completes(g, from, World(s1[0 := COMPLETED], c2), 1, 1);
    var c3 := c2[1 := Trying([2])];
    ReadyTaskWakes(g, s2);
    Decides(g, from, World(s2, c3), 0, 2);
    var c4 := c3[0 := Firing(2, PENDING, [])];
    Decides(g, from, World(s2, c4), 1, 2);
    var c5 := c4[1 := Firing(2, PENDING, [])];
    Wakes(g, from, World(s2, c5), 0, 2);
    var c6 := c5[0 := Trying([])];
    Claims(g, from, World(s2[2 := PENDING], c6), 2, 2);
    w := World(s2[2 := PENDING][2 := RUNNING], c6);
  }

  /** With claims and completions only, the second wakeup takes the claimed node back from RUNNING to PENDING. */
  lemma StaleWakeupTurnsBack()
    ensures exists moves :: (forall m | m in moves :: ByCalls(m)) && var w := After(JOIN, [], moves);
      Current(w.status, 2) == RUNNING && 1 in w.calls && Current(Step(JOIN, w, Go(1, true)).status, 2) == PENDING
  {
    JoinJoins();
    hide Joins, Step, Create;
    var w := RaceIsPossible(JOIN);
    var moves :| Execute(JOIN, Between(Create(JOIN).rows), moves) == w && forall m | m in moves :: ByCalls(m);
    assert After(JOIN, [], moves) == w;
    WriteLands(JOIN, w, 2);
  }

  lemma WriteLands(g: Graph, w: World, t: NodeId)
    requires 1 in w.calls && w.calls[1] == Firing(t, PENDING, []) && t in w.status
    ensures Current(Step(g, w, Go(1, true)).status, t) == PENDING
  {
  }
}
