/**
 The interleaved calls of Interleaving and the uninterrupted calls of Lifecycle agree: a
 completion or a repair whose steps run back to back leaves exactly the statuses of the
 sequential model, so every sequential history is one of the schedules.
 */
module Solo {
  import opened Wrappers
  import opened Flow
  import opened Runtime
  import opened Activation
  import Settling
  import Lifecycle
  import Iterations
  import opened Interleaving

  /** One call performs its steps back to back; `answers` are the answers of the file gates it reads. */
  function Alone(g: Graph, w: World, call: CallId, answers: seq<bool>): World
    decreases |answers|
  {
    if answers == [] then w else Alone(g, Step(g, w, Go(call, answers[0])), call, answers[1..])
  }

  lemma {:induction false} AloneAppend(g: Graph, w: World, call: CallId, a: seq<bool>, b: seq<bool>)
    ensures Alone(g, w, call, a + b) == Alone(g, Alone(g, w, call, a), call, b)
    decreases |a|
  {
    if a == [] {
      assert a + b == b;
    } else {
      assert (a + b)[0] == a[0] && (a + b)[1..] == a[1..] + b;
      AloneAppend(g, Step(g, w, Go(call, a[0])), call, a[1..], b);
    }
  }

  /** Some way of running the call alone leads from `w` to `w'`. */
  ghost predicate Leads(g: Graph, w: World, call: CallId, w': World) {
    exists answers :: Alone(g, w, call, answers) == w'
  }

  lemma LeadsTransitive(g: Graph, a: World, b: World, c: World, call: CallId)
    requires Leads(g, a, call, b) && Leads(g, b, call, c)
    ensures Leads(g, a, call, c)
  {
    var first :| Alone(g, a, call, first) == b;
    var second :| Alone(g, b, call, second) == c;
    AloneAppend(g, a, call, first, second);
  }

  lemma LeadsStep(g: Graph, w: World, call: CallId, passes: bool)
    ensures Leads(g, w, call, Step(g, w, Go(call, passes)))
  {
    var w' := Step(g, w, Go(call, passes));
    assert Alone(g, w', call, []) == w';
    assert Alone(g, w, call, [passes]) == w' by { assert [passes][1..] == []; }
  }

  lemma LeadsNowhere(g: Graph, w: World, call: CallId)
    ensures Leads(g, w, call, w)
  {
    assert Alone(g, w, call, []) == w;
  }

  /** The world in which `call` stands at `stage` and the statuses are those of `rows`. */
  function At(calls: map<CallId, Stage>, rows: Rows, call: CallId, stage: Stage): World {
    World(StatusesOf(rows), calls[call := stage])
  }

  // ------------------------------------------------------------ the cascade

  /** The cascade ends, or drops the head of its work list. */
  lemma CascadeDrops(g: Graph, calls: map<CallId, Stage>, call: CallId, rows: Rows,
                     visited: set<NodeId>, queue: seq<NodeId>, todo: seq<NodeId>)
    requires queue != [] ==> queue[0] in visited || queue[0] !in rows || rows[queue[0]].status != IDLE
    ensures Leads(g, At(calls, rows, call, Cascading(visited, queue, todo)), call,
                  At(calls, rows, call, if queue == [] then Trying(todo)
                    else Cascading(visited + {queue[0]}, queue[1..], todo)))
  {
    hide Leads;
    var w := At(calls, rows, call, Cascading(visited, queue, todo));
    LeadsStep(g, w, call, true);
    assert queue != [] && queue[0] in visited ==> visited + {queue[0]} == visited;
    assert Step(g, w, Go(call, true)) ==
      At(calls, rows, call, if queue == [] then Trying(todo) else Cascading(visited + {queue[0]}, queue[1..], todo));
  }

  /** The cascade reads the head of its work list as IDLE, then writes it SKIPPED. */
  lemma CascadeWrites(g: Graph, calls: map<CallId, Stage>, call: CallId, rows: Rows,
                      visited: set<NodeId>, queue: seq<NodeId>, todo: seq<NodeId>)
    requires queue != [] && queue[0] !in visited && queue[0] in rows && rows[queue[0]].status == IDLE
    ensures var id := queue[0];
      Leads(g, At(calls, rows, call, Cascading(visited, queue, todo)), call,
               At(calls, rows[id := rows[id].(status := SKIPPED)], call,
                  Cascading(visited + {id}, queue[1..] + Targets(g.edges, id), todo)))
  {
    hide Leads;
    var id := queue[0];
    var w := At(calls, rows, call, Cascading(visited, queue, todo));
    var w1 := At(calls, rows, call, Skipping(id, visited + {id}, queue[1..], todo));
    var w2 := At(calls, rows[id := rows[id].(status := SKIPPED)], call,
                 Cascading(visited + {id}, queue[1..] + Targets(g.edges, id), todo));
    LeadsStep(g, w, call, true);
    assert Step(g, w, Go(call, true)) == w1;
    LeadsStep(g, w1, call, true);
    assert Step(g, w1, Go(call, true)) == w2;
    LeadsTransitive(g, w, w1, w2, call);
  }

  lemma {:induction false} CascadeAlone(
      g: Graph, calls: map<CallId, Stage>, call: CallId, start: Rows, rows: Rows, from: NodeId,
      skipped: set<NodeId>, visited: set<NodeId>, queue: seq<NodeId>, todo: seq<NodeId>)
    requires Iterations.CascadeState(g, start, rows, from, skipped, visited, queue)
    ensures Leads(g, At(calls, rows, call, Cascading(visited, queue, todo)), call,
                  At(calls, CascadeSkip(g, start, from), call, Trying(todo)))
    decreases IdleSet(rows), |queue|
  {
    hide Leads, Iterations.CascadeState, CascadeSkip, At;
    var w := At(calls, rows, call, Cascading(visited, queue, todo));
    var end := At(calls, CascadeSkip(g, start, from), call, Trying(todo));
    if queue == [] {
      Iterations.CascadeEnds(g, start, rows, from, skipped, visited);
      CascadeDrops(g, calls, call, rows, visited, queue, todo);
    } else {
      var id, rest := queue[0], queue[1..];
      if id in visited || id !in rows || rows[id].status != IDLE {
        Iterations.CascadePasses(g, start, rows, from, skipped, visited, queue);
        CascadeDrops(g, calls, call, rows, visited, queue, todo);
        CascadeAlone(g, calls, call, start, rows, from, skipped, visited + {id}, rest, todo);
        LeadsTransitive(g, w, At(calls, rows, call, Cascading(visited + {id}, rest, todo)), end, call);
      } else {
        var rows' := rows[id := rows[id].(status := SKIPPED)];
        var queue' := rest + Targets(g.edges, id);
        Iterations.CascadeSkips(g, start, rows, from, skipped, visited, queue);
        CascadeWrites(g, calls, call, rows, visited, queue, todo);
        CascadeAlone(g, calls, call, start, rows', from, skipped + {id}, visited + {id}, queue', todo);
        LeadsTransitive(g, w, At(calls, rows', call, Cascading(visited + {id}, queue', todo)), end, call);
      }
    }
  }

  /** Right behind a blocked gateway the cascade's work list is the gateway's successors. */
  lemma CascadeBegins(g: Graph, rows: Rows, t: NodeId)
    requires t in rows && rows[t].status != IDLE
    ensures Iterations.CascadeState(g, rows, rows, t, {}, {t}, Targets(g.edges, t))
  {
    assert rows == map n | n in rows :: rows[n];
    assert {} + {t} == {t};
  }

  // ------------------------------------------------------------ activation

  /** The gate answers of the schedule are the ones the files give. */
  function Answer(g: Graph, rows: Rows, t: NodeId): bool {
    var node := Find(g.nodes, t);
    node.Some? && GatePasses(g, rows, node.value)
  }

  /** One reading of the states takes the decision that the rows dictate. */
  lemma AttemptDecides(g: Graph, calls: map<CallId, Stage>, call: CallId, rows: Rows, t: NodeId, todo: seq<NodeId>)
    ensures Leads(g, At(calls, rows, call, Trying([t] + todo)), call,
      At(calls, rows, call, match Decide(g, rows, t) case None => Trying(todo) case Some(row) => Firing(t, row.status,
        todo)))
  {
    hide Leads, Decide, Decision;
    var w := At(calls, rows, call, Trying([t] + todo));
    var passes := Answer(g, rows, t);
    DecisionIsDecide(g, rows, t, passes);
    assert ([t] + todo)[0] == t && ([t] + todo)[1..] == todo;
    LeadsStep(g, w, call, passes);
    assert Step(g, w, Go(call, passes)) ==
      At(calls, rows, call, match Decide(g, rows, t) case None => Trying(todo) case Some(row) => Firing(t, row.status,
        todo));
  }

  lemma {:induction false} TryActivateAlone(g: Graph, calls: map<CallId, Stage>, call: CallId, rows: Rows, t: NodeId,
                                            todo: seq<NodeId>)
    ensures Leads(g, At(calls, rows, call, Trying([t] + todo)), call,
      At(calls, TryActivate(g, rows, t), call, Trying(todo)))
    decreases IdleSet(rows), 1
  {
    hide Leads, Decide, CascadeSkip, TryAll, At;
    AttemptDecides(g, calls, call, rows, t, todo);
    match Decide(g, rows, t)
    case None =>
    case Some(row) =>
      FiringAlone(g, calls, call, rows, t, row, todo);
      LeadsTransitive(g, At(calls, rows, call, Trying([t] + todo)), At(calls, rows, call, Firing(t, row.status, todo)),
                      At(calls, TryActivate(g, rows, t), call, Trying(todo)), call);
  }

  /** What the call does next, once it has written what it decided. */
  function Next(g: Graph, t: NodeId, to: Status, todo: seq<NodeId>): Stage {
    match to
    case COMPLETED => Trying(Targets(g.edges, t) + todo)
    case SKIPPED => Cascading({t}, Targets(g.edges, t), todo)
    case _ => Trying(todo)
  }

  lemma DecisionWritten(g: Graph, calls: map<CallId, Stage>, call: CallId, rows: Rows, t: NodeId, row: Row,
                        todo: seq<NodeId>)
    requires t in rows
    ensures Leads(g, At(calls, rows, call, Firing(t, row.status, todo)), call,
                     At(calls, rows[t := row], call, Next(g, t, row.status, todo)))
  {
    hide Leads;
    var w := At(calls, rows, call, Firing(t, row.status, todo));
    LeadsStep(g, w, call, true);
    assert Step(g, w, Go(call, true)) == At(calls, rows[t := row], call, Next(g, t, row.status, todo));
  }

  lemma {:induction false} FiringAlone(g: Graph, calls: map<CallId, Stage>, call: CallId, rows: Rows, t: NodeId,
                                       row: Row, todo: seq<NodeId>)
    requires Decide(g, rows, t) == Some(row)
    ensures Leads(g, At(calls, rows, call, Firing(t, row.status, todo)), call,
      At(calls, TryActivate(g, rows, t), call, Trying(todo)))
    decreases IdleSet(rows), 0
  {
    Settling.DecideFacts(g, rows, t);
    hide Leads, Decide, CascadeSkip, TryAll, At;
    var rows' := rows[t := row];
    var w := At(calls, rows, call, Firing(t, row.status, todo));
    var end := At(calls, TryActivate(g, rows, t), call, Trying(todo));
    DecisionWritten(g, calls, call, rows, t, row, todo);
    assert t in IdleSet(rows) && t !in IdleSet(rows') && IdleSet(rows') <= IdleSet(rows);
    if row.status == COMPLETED {
      TryAllAlone(g, calls, call, rows', Targets(g.edges, t), todo);
      LeadsTransitive(g, w, At(calls, rows', call, Next(g, t, row.status, todo)), end, call);
    } else if row.status == SKIPPED {
      CascadeBegins(g, rows', t);
      CascadeAlone(g, calls, call, rows', rows', t, {}, {t}, Targets(g.edges, t), todo);
      LeadsTransitive(g, w, At(calls, rows', call, Next(g, t, row.status, todo)), end, call);
    }
  }

  lemma {:induction false} TryAllAlone(g: Graph, calls: map<CallId, Stage>, call: CallId, rows: Rows, ts: seq<NodeId>,
                                       todo: seq<NodeId>)
    ensures Leads(g, At(calls, rows, call, Trying(ts + todo)), call, At(calls, TryAll(g, rows, ts), call, Trying(todo)))
    decreases IdleSet(rows), |ts| + 2
  {
    hide Leads, TryActivate;
    if ts == [] {
      assert ts + todo == todo;
      LeadsNowhere(g, At(calls, rows, call, Trying(todo)), call);
    } else {
      var rows' := TryActivate(g, rows, ts[0]);
      assert IdleSet(rows') <= IdleSet(rows);
      assert ts + todo == [ts[0]] + (ts[1..] + todo);
      TryActivateAlone(g, calls, call, rows, ts[0], ts[1..] + todo);
      TryAllAlone(g, calls, call, rows', ts[1..], todo);
      LeadsTransitive(g, At(calls, rows, call, Trying(ts + todo)), At(calls, rows', call, Trying(ts[1..] + todo)),
                      At(calls, TryAll(g, rows, ts), call, Trying(todo)), call);
    }
  }

  // ------------------------------------------------------------ the theorems

  /** A completion that nobody interrupts ends with the statuses of the sequential model, and with no call left over. */
  lemma CompletionAlone(g: Graph, calls: map<CallId, Stage>, call: CallId, rows: Rows, n: NodeId,
                        path: Option<FilePath>)
    requires call !in calls && n in rows && rows[n].status == RUNNING
    ensures var rows' := Advance(g, rows[n := Lifecycle.CompletedRow(rows[n], path)], n);
      Leads(g, Step(g, World(StatusesOf(rows), calls), Move.Complete(call, n)), call, World(StatusesOf(rows'), calls))
  {
    hide Leads, TryAll;
    var written, ts := rows[n := Lifecycle.CompletedRow(rows[n], path)], Targets(g.edges, n);
    var w := At(calls, rows, call, Completing(n));
    assert Step(g, World(StatusesOf(rows), calls), Move.Complete(call, n)) == w;
    var w1 := At(calls, written, call, Trying(ts));
    LeadsStep(g, w, call, true);
    assert Step(g, w, Go(call, true)) == w1;
    TryingAlone(g, calls, call, written, ts);
    LeadsTransitive(g, w, w1, World(StatusesOf(TryAll(g, written, ts)), calls), call);
  }

  lemma TryingAlone(g: Graph, calls: map<CallId, Stage>, call: CallId, rows: Rows, ts: seq<NodeId>)
    requires call !in calls
    ensures Leads(g, At(calls, rows, call, Trying(ts)), call, World(StatusesOf(TryAll(g, rows, ts)), calls))
  {
    hide Leads, TryAll;
    TryAllAlone(g, calls, call, rows, ts, []);
    assert ts + [] == ts;
    var last := At(calls, TryAll(g, rows, ts), call, Trying([]));
    LeadsStep(g, last, call, true);
    assert calls[call := Trying([])] - {call} == calls;
    LeadsTransitive(g, At(calls, rows, call, Trying(ts)), last, World(StatusesOf(TryAll(g, rows, ts)), calls), call);
  }

  /** Likewise a repair. */
  lemma RepairAlone(g: Graph, calls: map<CallId, Stage>, call: CallId, s: Lifecycle.State, order: seq<NodeId>)
    requires call !in calls
    ensures Leads(g, Step(g, World(StatusesOf(s.rows), calls), Retry(call, Lifecycle.RepairList(g, s.rows, order))),
      call,
                  World(StatusesOf(Lifecycle.Repair(g, s, order).rows), calls))
  {
    TryingAlone(g, calls, call, s.rows, Lifecycle.RepairList(g, s.rows, order));
  }

  /** Some schedule of permitted moves leads from the world `from` to this one. */
  ghost predicate Schedulable(g: Graph, from: World, w: World, may: Move -> bool) {
    exists moves :: Execute(g, from, moves) == w && forall m | m in moves :: may(m)
  }

  lemma MoveSchedulable(g: Graph, from: World, w: World, may: Move -> bool, m: Move)
    requires Schedulable(g, from, w, may) && may(m)
    ensures Schedulable(g, from, Step(g, w, m), may)
  {
    var moves :| Execute(g, from, moves) == w && forall m | m in moves :: may(m);
    assert (moves + [m])[..|moves|] == moves;
    assert Execute(g, from, moves + [m]) == Step(g, w, m);
  }

  lemma NothingScheduled(g: Graph, from: World, may: Move -> bool)
    ensures Schedulable(g, from, from, may)
  {
    assert Execute(g, from, []) == from;
  }

  lemma {:induction false} AloneSchedulable(
      g: Graph, from: World, w: World, may: Move -> bool, call: CallId, answers: seq<bool>)
    requires Schedulable(g, from, w, may) && forall passes :: may(Go(call, passes))
    ensures Schedulable(g, from, Alone(g, w, call, answers), may)
    decreases |answers|
  {
    hide Schedulable;
    if answers != [] {
      MoveSchedulable(g, from, w, may, Go(call, answers[0]));
      AloneSchedulable(g, from, Step(g, w, Go(call, answers[0])), may, call, answers[1..]);
    }
  }

  lemma LeadsSchedulable(g: Graph, from: World, w: World, may: Move -> bool, call: CallId, w': World)
    requires Schedulable(g, from, w, may) && Leads(g, w, call, w') && forall passes :: may(Go(call, passes))
    ensures Schedulable(g, from, w', may)
  {
    var answers :| Alone(g, w, call, answers) == w';
    AloneSchedulable(g, from, w, may, call, answers);
  }

  /** The move begins or continues a call of the history, or is one of its handlers' reports. */
  predicate MoveOf(ops: seq<Lifecycle.Op>, m: Move) {
    match m
    case Claim(_, n) => Lifecycle.ClaimNode(n) in ops
    case Complete(_, n) => exists op | op in ops :: op.CompleteNode? && op.n == n
    case Retry(_, _) => exists op | op in ops :: op.RepairIteration?
    case Handler(n, r) => Lifecycle.HandlerReports(n, r) in ops
    case Go(_, _) => true
    case Drop(_) => false
  }

  lemma ClaimSchedulable(g: Graph, from: World, s: Lifecycle.State, may: Move -> bool, n: NodeId)
    requires Schedulable(g, from, Between(s.rows), may) && may(Move.Claim(0, n)) && may(Go(0, true))
    ensures Schedulable(g, from, Between(Lifecycle.Claim(s, n).0.rows), may)
  {
    hide Schedulable;
    if Lifecycle.Claim(s, n).1.Done? {
      var w := Between(s.rows);
      var w1 := Step(g, w, Move.Claim(0, n));
      assert w1 == At(map[], s.rows, 0, Claiming(n));
      MoveSchedulable(g, from, w, may, Move.Claim(0, n));
      MoveSchedulable(g, from, w1, may, Go(0, true));
      assert Step(g, w1, Go(0, true)) == Between(Lifecycle.Claim(s, n).0.rows);
    }
  }

  lemma HandlerSchedulable(g: Graph, from: World, s: Lifecycle.State, may: Move -> bool, n: NodeId, r: Lifecycle.Report)
    requires Schedulable(g, from, Between(s.rows), may) && may(Handler(n, r))
    ensures Schedulable(g, from, Between(Lifecycle.Handle(s, n, r).rows), may)
  {
    hide Schedulable;
    MoveSchedulable(g, from, Between(s.rows), may, Handler(n, r));
    assert Step(g, Between(s.rows), Handler(n, r)) == Between(Lifecycle.Handle(s, n, r).rows);
  }

  lemma CompletionSchedulable(g: Graph, from: World, s: Lifecycle.State, may: Move -> bool, n: NodeId,
                              path: Option<FilePath>)
    requires Schedulable(g, from, Between(s.rows), may) && may(Move.Complete(0, n)) && forall b :: may(Go(0, b))
    ensures Schedulable(g, from, Between(Lifecycle.Complete(g, s, n, path).0.rows), may)
  {
    hide Schedulable, Leads, TryAll, Lifecycle.OutputsMissing;
    if Lifecycle.Complete(g, s, n, path).1.Done? {
      var m := Move.Complete(0, n);
      MoveSchedulable(g, from, Between(s.rows), may, m);
      CompletionAlone(g, map[], 0, s.rows, n, path);
      LeadsSchedulable(g, from, Step(g, Between(s.rows), m), may, 0, Between(Lifecycle.Complete(g, s, n, path).0.rows));
    }
  }

  lemma RepairSchedulable(g: Graph, from: World, s: Lifecycle.State, may: Move -> bool, order: seq<NodeId>)
    requires Schedulable(g, from, Between(s.rows), may)
    requires (forall todo :: may(Retry(0, todo))) && forall b :: may(Go(0, b))
    ensures Schedulable(g, from, Between(Lifecycle.Repair(g, s, order).rows), may)
  {
    hide Schedulable, Leads, TryAll, Lifecycle.Repair, Step;
    var m := Retry(0, Lifecycle.RepairList(g, s.rows, order));
    MoveSchedulable(g, from, Between(s.rows), may, m);
    RepairAlone(g, map[], 0, s, order);
    LeadsSchedulable(g, from, Step(g, Between(s.rows), m), may, 0, Between(Lifecycle.Repair(g, s, order).rows));
  }

  /** Reading the iteration and uploading to it are no moves. */
  lemma SameStatuses(g: Graph, s: Lifecycle.State, n: NodeId, slot: SlotId, f: FileId)
    ensures Between(Lifecycle.Reconcile(g, s).rows) == Between(s.rows)
    ensures Between(Lifecycle.Attach(s, n, slot, f).0.rows) == Between(s.rows)
  {
    hide Lifecycle.Derived;
    assert StatusesOf(Lifecycle.Attach(s, n, slot, f).0.rows) == StatusesOf(s.rows);
  }

  lemma CallSchedulable(g: Graph, from: World, s: Lifecycle.State, ops: seq<Lifecycle.Op>, op: Lifecycle.Op)
    requires !op.ForkFrom? && op in ops && Schedulable(g, from, Between(s.rows), m => MoveOf(ops, m))
    ensures Schedulable(g, from, Between(Lifecycle.Apply(g, s, op).rows), m => MoveOf(ops, m))
  {
    hide Schedulable, Lifecycle.Complete, Lifecycle.Repair, Lifecycle.Handle, Lifecycle.Claim, Lifecycle.Attach,
      Between;
    hide Lifecycle.Reconcile;
    var may := m => MoveOf(ops, m);
    match op
    case View => SameStatuses(g, s, 0, 0, 0);
    case ClaimNode(n) => ClaimSchedulable(g, from, s, may, n);
    case CompleteNode(n, path) => CompletionSchedulable(g, from, s, may, n, path);
    case HandlerReports(n, r) => HandlerSchedulable(g, from, s, may, n, r);
    case AttachFile(n, slot, f) => SameStatuses(g, s, n, slot, f);
    case RepairIteration(order) => RepairSchedulable(g, from, s, may, order);
  }

  lemma {:induction false} HistorySchedulable(
      g: Graph, ops: seq<Lifecycle.Op>, more: seq<Lifecycle.Op>, all: seq<Lifecycle.Op>)
    requires forall op | op in more :: !op.ForkFrom? && op in all
    ensures Schedulable(g, Between(Lifecycle.Run(g, ops).rows), Between(Lifecycle.Run(g, ops + more).rows),
                        m => MoveOf(all, m))
    decreases |more|
  {
    var from := Between(Lifecycle.Run(g, ops).rows);
    hide Schedulable, Lifecycle.Apply, Lifecycle.Run, MoveOf;
    if more == [] {
      assert ops + more == ops;
      NothingScheduled(g, from, m => MoveOf(all, m));
    } else {
      var short, op := more[..|more| - 1], more[|more| - 1];
      HistorySchedulable(g, ops, short, all);
      assert ops + more == ops + short + [op];
      Lifecycle.RunMore(g, ops + short, op);
      CallSchedulable(g, from, Lifecycle.Run(g, ops + short), all, op);
    }
  }

  /** Whatever the history so far, going on without a fork is one of the schedules of those very calls. */
  lemma HistoriesAreSchedules(g: Graph, ops: seq<Lifecycle.Op>, more: seq<Lifecycle.Op>)
    requires forall op | op in more :: !op.ForkFrom?
    ensures exists moves ::
      && Execute(g, Between(Lifecycle.Run(g, ops).rows), moves) == Between(Lifecycle.Run(g, ops + more).rows)
      && forall m | m in moves :: MoveOf(more, m)
  {
    HistorySchedulable(g, ops, more, more);
    hide Lifecycle.Run, MoveOf;
    var from, w := Between(Lifecycle.Run(g, ops).rows), Between(Lifecycle.Run(g, ops + more).rows);
    var may := m => MoveOf(more, m);
    assert Schedulable(g, from, w, may);
    var moves :| Execute(g, from, moves) == w && forall m | m in moves :: may(m);
  }
}
