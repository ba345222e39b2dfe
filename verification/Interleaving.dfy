/**
 Any number of service calls in flight on one iteration, each cut into the steps between
 its database accesses, interleaved at will and abandoned anywhere.  Handlers report
 whenever they like.  Reads go stale, so a write may land on a status that has changed
 since; still no wakeup is lost but those an abandoned call or a silent completion owes.

 Only statuses are shared here.  How a gateway with file inputs answers depends on uploads
 that may arrive at any moment, so its answer is left to the schedule.
 */
module Interleaving {
  import opened Wrappers
  import opened Flow
  import opened Runtime
  import opened Activation
  import opened Lifecycle
  import opened Runs
  import opened Progress
  import opened Histories
  import opened Ledgers

  type Statuses = map<NodeId, Status>
  type CallId = nat

  /** Where a call stands between two database accesses. */
  datatype Stage =
    | Claiming(n: NodeId)             // claimNode has read PENDING
    | Completing(n: NodeId)           // completeNode has read RUNNING
    | Trying(todo: seq<NodeId>)       // tryActivate is about to read the states for todo[0]
    | Firing(t: NodeId, to: Status, todo: seq<NodeId>)  // it has decided from that snapshot
    | Cascading(visited: set<NodeId>, queue: seq<NodeId>, todo: seq<NodeId>)
    | Skipping(n: NodeId, visited: set<NodeId>, queue: seq<NodeId>, todo: seq<NodeId>)  // the cascade has read IDLE

  datatype World = World(status: Statuses, calls: map<CallId, Stage>)

  datatype Move =
    | Claim(call: CallId, n: NodeId)
    | Complete(call: CallId, n: NodeId)
    | Retry(call: CallId, todo: seq<NodeId>)      // repair
    | Handler(n: NodeId, r: Report)               // an automatic handler reports, and advances nothing
    | Drop(call: CallId)                          // the call is abandoned where it stands
    | Go(call: CallId, fileGatePasses: bool)      // one call performs its next database access

  function Current(s: Statuses, n: NodeId): Status {
    if n in s then s[n] else IDLE
  }

  /** What tryActivate decides from one reading of all statuses. */
  function Decision(g: Graph, s: Statuses, t: NodeId, fileGatePasses: bool): Option<Status> {
    match Find(g.nodes, t)
    case None => None
    case Some(node) =>
      if t !in s || s[t] != IDLE then None
      else if exists p | p in Prereqs(g, t) :: Open(Current(s, p)) then None
      else if node.kind == GATEWAY then
        var passes := if HasFileInputs(node) then fileGatePasses
                      else EvaluateGateway(node.logic, map p | p in Prereqs(g, t) :: Current(s, p));
        Some(if passes then COMPLETED else SKIPPED)
      else if exists p | p in Prereqs(g, t) :: Current(s, p) == ERROR then None
      else Some(PENDING)
  }

  function Advanced(g: Graph, w: World, call: CallId, fileGatePasses: bool): World
    requires call in w.calls
  {
    match w.calls[call]
    case Claiming(n) => World(if n in w.status then w.status[n := RUNNING] else w.status, w.calls - {call})
    case Completing(n) =>
      World(if n in w.status then w.status[n := COMPLETED] else w.status, w.calls[call := Trying(Targets(g.edges, n))])
    case Trying(todo) =>
      if todo == [] then w.(calls := w.calls - {call})
      else (
        match Decision(g, w.status, todo[0], fileGatePasses)
        case None => w.(calls := w.calls[call := Trying(todo[1..])])
        case Some(to) => w.(calls := w.calls[call := Firing(todo[0], to, todo[1..])]))
    case Firing(t, to, todo) =>
      var status := if t in w.status then w.status[t := to] else w.status;
      var next := match to
        case COMPLETED => Trying(Targets(g.edges, t) + todo)
        case SKIPPED => Cascading({t}, Targets(g.edges, t), todo)
        case _ => Trying(todo);
      World(status, w.calls[call := next])
    case Cascading(visited, queue, todo) =>
      var next :=
        if queue == [] then Trying(todo)
        else if queue[0] in visited then Cascading(visited, queue[1..], todo)
        else if queue[0] in w.status && w.status[queue[0]] == IDLE
        then Skipping(queue[0], visited + {queue[0]}, queue[1..], todo)
        else Cascading(visited + {queue[0]}, queue[1..], todo);
      w.(calls := w.calls[call := next])
    case Skipping(n, visited, queue, todo) =>
      World(if n in w.status then w.status[n := SKIPPED] else w.status,
            w.calls[call := Cascading(visited, queue + Targets(g.edges, n), todo)])
  }

  /** One move; a move that is not possible changes nothing. */
  function Step(g: Graph, w: World, m: Move): World {
    match m
    case Claim(call, n) =>
      if call !in w.calls && Current(w.status, n) == PENDING then w.(calls := w.calls[call := Claiming(n)]) else w
    case Complete(call, n) =>
      if call !in w.calls && Current(w.status, n) == RUNNING then w.(calls := w.calls[call := Completing(n)]) else w
    case Retry(call, todo) =>
      if call !in w.calls then w.(calls := w.calls[call := Trying(todo)]) else w
    case Handler(n, r) =>
      if n in w.status then w.(status := w.status[n := Written(r)]) else w
    case Drop(call) =>
      w.(calls := w.calls - {call})
    case Go(call, passes) =>
      if call in w.calls then Advanced(g, w, call, passes) else w
  }

  /** The moves in turn, from the world `w`. */
  function Execute(g: Graph, w: World, moves: seq<Move>): World {
    if moves == [] then w else Step(g, Execute(g, w, moves[..|moves| - 1]), moves[|moves| - 1])
  }

  function StatusesOf(rows: Rows): Statuses {
    map n | n in rows :: rows[n].status
  }

  /** The world between two calls of a sequential history. */
  function Between(rows: Rows): World {
    World(StatusesOf(rows), map[])
  }

  /** The micro-step decision is the engine's decision, whenever the schedule answers file gates as the files do. */
  lemma DecisionIsDecide(g: Graph, rows: Rows, t: NodeId, passes: bool)
    requires Find(g.nodes, t).Some? && HasFileInputs(Find(g.nodes, t).value) ==>
      passes == GatePasses(g, rows, Find(g.nodes, t).value)
    ensures Decision(g, StatusesOf(rows), t, passes) ==
      match Decide(g, rows, t) case None => None case Some(row) => Some(row.status)
  {
    var s := StatusesOf(rows);
    assert forall p :: Current(s, p) == StatusOf(rows, p);
    assert (map p | p in Prereqs(g, t) :: Current(s, p)) == PrereqStatuses(g, rows, t);
  }

  // ------------------------------------------------------------ the invariant

  ghost predicate HeldBack(g: Graph, s: Statuses, n: NodeId) {
    exists p | p in Prereqs(g, n) :: !Cleared(Current(s, p))
  }

  /** The call is going to look at `n`, or to write it, before it ends. */
  ghost predicate Owes(stage: Stage, n: NodeId) {
    match stage
    case Trying(todo) => n in todo
    case Firing(t, _, todo) => n == t || n in todo
    case Cascading(_, queue, todo) => n in queue || n in todo
    case Skipping(m, _, queue, todo) => n == m || n in queue || n in todo
    case _ => false
  }

  /**
   What a call is about to complete is no longer IDLE; what a cascade has visited is no longer IDLE,
   or is what it is about to write.
   */
  ghost predicate StageOk(s: Statuses, stage: Stage) {
    match stage
    case Completing(n) => n in s && s[n] != IDLE
    case Firing(_, to, _) => to == PENDING || to == COMPLETED || to == SKIPPED
    case Cascading(visited, _, _) => forall v | v in visited && v in s :: s[v] != IDLE
    case Skipping(n, visited, _, _) => forall v | v in visited && v in s && v != n :: s[v] != IDLE
    case _ => true
  }

  ghost predicate Owed(w: World, n: NodeId) {
    exists call | call in w.calls :: Owes(w.calls[call], n)
  }

  /** Every IDLE node is held back, owed an attempt by a call in flight, or known to be neglected. */
  ghost predicate SafeWorld(g: Graph, w: World, neglected: set<NodeId>) {
    && w.status.Keys == Ids(g)
    && (forall call | call in w.calls :: StageOk(w.status, w.calls[call]))
    && (forall n | n in w.status && w.status[n] == IDLE && n !in neglected :: HeldBack(g, w.status, n) || Owed(w, n))
  }

  /** Statuses never return to IDLE, and an obligation ends only when the node is held back, left IDLE or neglected. */
  lemma StepByOthers(g: Graph, w: World, w': World, call: CallId, before: set<NodeId>, after: set<NodeId>)
    requires SafeWorld(g, w, before)
    requires w'.status.Keys == w.status.Keys
    requires forall n | n in w.status && w.status[n] != IDLE :: w'.status[n] != IDLE
    requires forall c | c in w.calls && c != call :: c in w'.calls && w'.calls[c] == w.calls[c]
    requires forall c | c in w'.calls && c != call :: c in w.calls
    requires call in w'.calls ==> StageOk(w'.status, w'.calls[call])
    requires forall n | n in w'.status && w'.status[n] == IDLE && n !in after
        && (HeldBack(g, w.status, n) || (call in w.calls && Owes(w.calls[call], n)) || n in before) ::
      HeldBack(g, w'.status, n) || (call in w'.calls && Owes(w'.calls[call], n))
    ensures SafeWorld(g, w', after)
  {
    forall n | n in w'.status && w'.status[n] == IDLE && n !in after ensures HeldBack(g, w'.status, n) || Owed(w', n) {
      if !HeldBack(g, w.status, n) && n !in before {
        var c :| c in w.calls && Owes(w.calls[c], n);
        assert c in w'.calls && c != call ==> Owes(w'.calls[c], n);
      }
    }
  }

  /** Writing one status wakes nobody but successors, and those only if it clears. */
  lemma WriteHolds(g: Graph, s: Statuses, n: NodeId, to: Status, m: NodeId)
    requires n in s && HeldBack(g, s, m)
    ensures HeldBack(g, s[n := to], m) || (Cleared(to) && m in Targets(g.edges, n))
  {
    var p :| p in Prereqs(g, m) && !Cleared(Current(s, p));
    assert p != n ==> !Cleared(Current(s[n := to], p));
    assert n in Prereqs(g, m) ==> Edge(n, m) in g.edges;
  }

  /** A status read as a reason not to fire holds the node back. */
  lemma NoDecisionHolds(g: Graph, s: Statuses, t: NodeId, passes: bool)
    requires t in Ids(g) && t in s && s[t] == IDLE && Decision(g, s, t, passes).None?
    ensures HeldBack(g, s, t)
  {
    var p :| p in Prereqs(g, t) && (Open(Current(s, p)) || Current(s, p) == ERROR);
  }

  lemma WriteIsSafe(g: Graph, w: World, call: CallId, n: NodeId, to: Status, next: Stage, neglected: set<NodeId>)
    requires SafeWorld(g, w, neglected) && call in w.calls && n in w.status && to != IDLE
    requires StageOk(w.status[n := to], next)
    requires forall m | Owes(w.calls[call], m) && m != n :: Owes(next, m)
    requires Cleared(to) ==> forall m | m in Targets(g.edges, n) :: Owes(next, m)
    ensures SafeWorld(g, World(w.status[n := to], w.calls[call := next]), neglected)
  {
    var w' := World(w.status[n := to], w.calls[call := next]);
    forall m | m in w'.status && w'.status[m] == IDLE && HeldBack(g, w.status, m)
      ensures HeldBack(g, w'.status, m) || Owes(next, m)
    {
      WriteHolds(g, w.status, n, to, m);
    }
    StepByOthers(g, w, w', call, neglected, neglected);
  }

  lemma ReadIsSafe(g: Graph, w: World, call: CallId, next: Stage, before: set<NodeId>, after: set<NodeId>)
    requires SafeWorld(g, w, before) && call in w.calls
    requires StageOk(w.status, next)
    requires forall m | m in w.status && w.status[m] == IDLE && m !in after
      && (Owes(w.calls[call], m) || m in before) ::
      Owes(next, m) || HeldBack(g, w.status, m)
    ensures SafeWorld(g, w.(calls := w.calls[call := next]), after)
  {
    StepByOthers(g, w, w.(calls := w.calls[call := next]), call, before, after);
  }

  /** A call ends or is abandoned: what it owed is neglected. */
  lemma EndIsSafe(g: Graph, w: World, call: CallId, neglected: set<NodeId>)
    requires SafeWorld(g, w, neglected) && call in w.calls
    ensures SafeWorld(g, w.(calls := w.calls - {call}), neglected + OwedBy(w, call))
  {
    StepByOthers(g, w, w.(calls := w.calls - {call}), call, neglected, neglected + OwedBy(w, call));
  }

  ghost function OwedBy(w: World, call: CallId): set<NodeId>
    requires call in w.calls
  {
    set n | n in w.status && Owes(w.calls[call], n)
  }

  lemma ClaimIsSafe(g: Graph, w: World, call: CallId, n: NodeId, neglected: set<NodeId>)
    requires SafeWorld(g, w, neglected) && call in w.calls && w.calls[call] == Claiming(n)
    ensures SafeWorld(g, World(if n in w.status then w.status[n := RUNNING] else w.status, w.calls - {call}), neglected)
  {
    if n in w.status {
      WriteIsSafe(g, w, call, n, RUNNING, Trying([]), neglected);
      var w1 := World(w.status[n := RUNNING], w.calls[call := Trying([])]);
      EndIsSafe(g, w1, call, neglected);
      assert w1.calls - {call} == w.calls - {call} && neglected + OwedBy(w1, call) == neglected;
    } else {
      EndIsSafe(g, w, call, neglected);
      assert neglected + OwedBy(w, call) == neglected;
    }
  }

  lemma GoIsSafe(g: Graph, w: World, call: CallId, passes: bool, neglected: set<NodeId>)
    requires SafeWorld(g, w, neglected) && call in w.calls
    ensures SafeWorld(g, Advanced(g, w, call, passes), neglected - Looked(w, call))
  {
    match w.calls[call]
    case Claiming(n) => ClaimIsSafe(g, w, call, n, neglected);
    case Completing(n) =>
      WriteIsSafe(g, w, call, n, COMPLETED, Trying(Targets(g.edges, n)), neglected);
    case Trying(todo) => TryIsSafe(g, w, call, todo, passes, neglected);
    case Firing(t, to, todo) =>
      var w' := Advanced(g, w, call, passes);
      if t in w.status {
        WriteIsSafe(g, w, call, t, to, w'.calls[call], neglected);
      } else {
        ReadIsSafe(g, w, call, w'.calls[call], neglected, neglected);
      }
    case Cascading(visited, queue, todo) =>
      ReadIsSafe(g, w, call, Advanced(g, w, call, passes).calls[call], neglected, neglected);
    case Skipping(n, visited, queue, todo) =>
      var next := Cascading(visited, queue + Targets(g.edges, n), todo);
      if n in w.status {
        WriteIsSafe(g, w, call, n, SKIPPED, next, neglected);
      } else {
        ReadIsSafe(g, w, call, next, neglected, neglected);
      }
  }

  /** The node whose activation the call attempts with its next reading of the states. */
  function Looked(w: World, call: CallId): set<NodeId> {
    if call in w.calls && w.calls[call].Trying? && w.calls[call].todo != [] then {w.calls[call].todo[0]} else {}
  }

  lemma TryIsSafe(g: Graph, w: World, call: CallId, todo: seq<NodeId>, passes: bool, neglected: set<NodeId>)
    requires SafeWorld(g, w, neglected) && call in w.calls && w.calls[call] == Trying(todo)
    ensures SafeWorld(g, Advanced(g, w, call, passes), neglected - Looked(w, call))
  {
    if todo == [] {
      EndIsSafe(g, w, call, neglected);
      assert neglected + OwedBy(w, call) == neglected - Looked(w, call);
    } else {
      if Decision(g, w.status, todo[0], passes).None? && todo[0] in w.status && w.status[todo[0]] == IDLE {
        NoDecisionHolds(g, w.status, todo[0], passes);
      }
      WaitingMore(g, w, call, neglected);
      ReadIsSafe(g, w, call, Advanced(g, w, call, passes).calls[call], neglected, neglected - Looked(w, call));
    }
  }

  /** Taking a node off the list of neglected ones is harmless while a call owes it. */
  lemma WaitingMore(g: Graph, w: World, call: CallId, neglected: set<NodeId>)
    requires SafeWorld(g, w, neglected) && call in w.calls
    ensures SafeWorld(g, w, neglected - OwedBy(w, call))
  {
  }

  lemma HandlerIsSafe(g: Graph, w: World, n: NodeId, r: Report, neglected: set<NodeId>)
    requires SafeWorld(g, w, neglected)
    ensures SafeWorld(g, Step(g, w, Handler(n, r)), neglected + if r.Finished? then Elements(Targets(g.edges, n))
      else {})
  {
    if n in w.status {
      var w' := Step(g, w, Handler(n, r));
      forall k | HeldBack(g, w.status, k)
        ensures HeldBack(g, w'.status, k) || (r.Finished? && k in Targets(g.edges, n))
      {
        WriteHolds(g, w.status, n, Written(r), k);
      }
      assert w'.calls == w.calls;
      forall k ensures Owed(w, k) <==> Owed(w', k) { hide Owes, HeldBack; }
      hide Owed, HeldBack;
    }
  }

  // ------------------------------------------------------------ what is neglected

  /**
   The nodes whose last cause for an attempt was lost: a predecessor completed silently, or a call
   was abandoned that owed them one.  An attempt, or a repair that lists the node, takes it up again.
   */
  ghost function Forgets(g: Graph, w: World, m: Move): set<NodeId> {
    match m
    case Handler(n, r) => if r.Finished? then Elements(Targets(g.edges, n)) else {}
    case Drop(call) => if call in w.calls then OwedBy(w, call) else {}
    case _ => {}
  }

  ghost function TakesUp(w: World, m: Move): set<NodeId> {
    match m
    case Go(call, _) => Looked(w, call)
    case Retry(call, todo) => if call in w.calls then {} else Elements(todo)
    case _ => {}
  }

  /** What each move took up and what it forgot. */
  ghost function Entries(g: Graph, w: World, moves: seq<Move>): (es: seq<Entry>)
    ensures |es| == |moves|
  {
    if moves == [] then []
    else
      var before, m := moves[..|moves| - 1], moves[|moves| - 1];
      var w' := Execute(g, w, before);
      Entries(g, w, before) + [Entry(TakesUp(w', m), Forgets(g, w', m))]
  }

  ghost function Neglected(g: Graph, w: World, neglected: set<NodeId>, moves: seq<Move>): set<NodeId> {
    Balance(neglected, Entries(g, w, moves))
  }

  lemma NeglectedMore(g: Graph, w: World, neglected: set<NodeId>, moves: seq<Move>)
    requires moves != []
    ensures var before, m := moves[..|moves| - 1], moves[|moves| - 1];
      var w' := Execute(g, w, before);
      Neglected(g, w, neglected, moves) == Neglected(g, w, neglected, before) - TakesUp(w', m) + Forgets(g, w', m)
  {
    assert Entries(g, w, moves)[..|moves| - 1] == Entries(g, w, moves[..|moves| - 1]);
  }

  lemma {:induction false} EntryAt(g: Graph, w: World, moves: seq<Move>, i: nat)
    requires i < |moves|
    ensures var w' := Execute(g, w, moves[..i]);
      Entries(g, w, moves)[i] == Entry(TakesUp(w', moves[i]), Forgets(g, w', moves[i]))
    decreases |moves|
  {
    hide TakesUp, Forgets;
    if i < |moves| - 1 {
      EntryAt(g, w, moves[..|moves| - 1], i);
      assert moves[..|moves| - 1][..i] == moves[..i];
    }
  }

  /** A node is neglected exactly if a move forgot it, or the history before did, and no later move took it up. */
  lemma NeglectedMeaning(g: Graph, w: World, neglected: set<NodeId>, moves: seq<Move>, n: NodeId)
    ensures n in Neglected(g, w, neglected, moves) <==>
      || (n in neglected && Untried(Entries(g, w, moves), 0, n))
      || (exists i | 0 <= i < |moves| ::
            n in Forgets(g, Execute(g, w, moves[..i]), moves[i]) && Untried(Entries(g, w, moves), i + 1, n))
  {
    hide TakesUp, Forgets;
    BalanceMeaning(neglected, Entries(g, w, moves), n);
    forall i | 0 <= i < |moves|
      ensures Entries(g, w, moves)[i].lost == Forgets(g, Execute(g, w, moves[..i]), moves[i])
    {
      EntryAt(g, w, moves, i);
    }
  }

  lemma StepIsSafe(g: Graph, w: World, m: Move, neglected: set<NodeId>)
    requires SafeWorld(g, w, neglected)
    ensures SafeWorld(g, Step(g, w, m), neglected - TakesUp(w, m) + Forgets(g, w, m))
  {
    hide SafeWorld, Looked, Owes;
    assert neglected - {} + {} == neglected;
    match m
    case Claim(call, n) => CallBegins(g, w, m, call, neglected);
    case Complete(call, n) => CallBegins(g, w, m, call, neglected);
    case Retry(call, todo) =>
      CallBegins(g, w, m, call, neglected);
      assert call !in w.calls ==> neglected - Elements(todo) + {} == neglected - Elements(todo);
    case Handler(n, r) =>
      HandlerIsSafe(g, w, n, r, neglected);
      assert neglected - {} + Forgets(g, w, m) == neglected + Forgets(g, w, m);
    case Drop(call) =>
      if call in w.calls {
        EndIsSafe(g, w, call, neglected);
        assert neglected - {} + OwedBy(w, call) == neglected + OwedBy(w, call);
      } else {
        assert w.calls - {call} == w.calls;
      }
    case Go(call, passes) =>
      if call in w.calls {
        GoIsSafe(g, w, call, passes, neglected);
        assert neglected - Looked(w, call) + {} == neglected - Looked(w, call);
      } else {
        NotLooked(w, call);
      }
  }

  lemma NotLooked(w: World, call: CallId)
    requires call !in w.calls
    ensures Looked(w, call) == {}
  {
  }

  /** A call that begins owes what it lists. */
  lemma CallBegins(g: Graph, w: World, m: Move, call: CallId, neglected: set<NodeId>)
    requires SafeWorld(g, w, neglected)
    requires m.Claim? || m.Complete? || m.Retry?
    requires m.call == call
    ensures SafeWorld(g, Step(g, w, m), if m.Retry? && call !in w.calls then neglected - Elements(m.todo)
      else neglected)
  {
    if Step(g, w, m) != w {
      var after := if m.Retry? then neglected - Elements(m.todo) else neglected;
      StepByOthers(g, w, Step(g, w, m), call, neglected, after);
    }
  }

  lemma {:induction false} EveryScheduleIsSafe(g: Graph, w: World, neglected: set<NodeId>, moves: seq<Move>)
    requires SafeWorld(g, w, neglected)
    ensures SafeWorld(g, Execute(g, w, moves), Neglected(g, w, neglected, moves))
    decreases |moves|
  {
    hide SafeWorld, Step, TakesUp, Forgets;
    if moves != [] {
      var before := moves[..|moves| - 1];
      EveryScheduleIsSafe(g, w, neglected, before);
      StepIsSafe(g, Execute(g, w, before), moves[|moves| - 1], Neglected(g, w, neglected, before));
      NeglectedMore(g, w, neglected, moves);
    }
  }

  /** Any sequential history, forks included, leaves a safe world to go on from. */
  lemma HistoryIsSafe(g: Graph, ops: seq<Op>)
    ensures SafeWorld(g, Between(Run(g, ops).rows), Missed(g, ops))
  {
    EveryHistoryRemembers(g, ops);
    var rows := Run(g, ops).rows;
    AlikeHeld(g, rows);
    forall n | n in rows && rows[n].status == IDLE && n !in Missed(g, ops) ensures Held(g, rows, n) {
      assert !Overlooked(g, rows, n);
    }
  }

  lemma AlikeHeld(g: Graph, rows: Rows)
    ensures forall p :: Current(StatusesOf(rows), p) == StatusOf(rows, p)
    ensures forall n :: HeldBack(g, StatusesOf(rows), n) <==> Held(g, rows, n)
  {
    assert forall p :: Current(StatusesOf(rows), p) == StatusOf(rows, p);
    forall n ensures HeldBack(g, StatusesOf(rows), n) <==> Held(g, rows, n) {
      if HeldBack(g, StatusesOf(rows), n) {
        var p :| p in Prereqs(g, n) && !Cleared(Current(StatusesOf(rows), p));
        assert !Cleared(StatusOf(rows, p));
      }
      if Held(g, rows, n) {
        var p :| p in Prereqs(g, n) && !Cleared(StatusOf(rows, p));
        assert !Cleared(Current(StatusesOf(rows), p));
      }
    }
  }

  // ------------------------------------------------------------ the theorems

  /** The world after a sequential history and a schedule of moves. */
  ghost function After(g: Graph, ops: seq<Op>, moves: seq<Move>): World {
    Execute(g, Between(Run(g, ops).rows), moves)
  }

  ghost function NeglectedAfter(g: Graph, ops: seq<Op>, moves: seq<Move>): set<NodeId> {
    Neglected(g, Between(Run(g, ops).rows), Missed(g, ops), moves)
  }

  /**
   Whatever the history before and the schedule since: once no call is in flight, a ready node is
   IDLE only if it is neglected.
   */
  lemma NoWakeupLost(g: Graph, ops: seq<Op>, moves: seq<Move>, n: NodeId)
    requires After(g, ops, moves).calls == map[]
    requires n in Ids(g) && Current(After(g, ops, moves).status, n) == IDLE && n !in NeglectedAfter(g, ops, moves)
    ensures HeldBack(g, After(g, ops, moves).status, n)
  {
    HistoryIsSafe(g, ops);
    EveryScheduleIsSafe(g, Between(Run(g, ops).rows), Missed(g, ops), moves);
  }

  /** Without silent completions and abandoned calls nothing is ever neglected. */
  lemma NothingNeglected(g: Graph, w: World, moves: seq<Move>)
    requires forall m | m in moves :: !m.Drop? && (m.Handler? ==> !m.r.Finished?)
    ensures Neglected(g, w, {}, moves) == {}
  {
    forall e | e in Entries(g, w, moves) ensures e.lost == {} {
      var i :| 0 <= i < |moves| && Entries(g, w, moves)[i] == e;
      EntryAt(g, w, moves, i);
      assert moves[i] in moves;
    }
    NothingLost(Entries(g, w, moves));
  }

  /** IDLE although every predecessor is SKIPPED. */
  ghost predicate LeftBehind(g: Graph, s: Statuses, n: NodeId) {
    n in s && s[n] == IDLE && forall p | p in Prereqs(g, n) :: Current(s, p) == SKIPPED
  }

  /**
   A repair that lists every IDLE node with a COMPLETED predecessor takes up all that was neglected,
   except what is left behind skipped nodes only.
   */
  lemma RepairTakesUp(g: Graph, w: World, call: CallId, todo: seq<NodeId>, neglected: set<NodeId>)
    requires SafeWorld(g, w, neglected) && call !in w.calls
    requires forall p, n | Edge(p, n) in g.edges && Current(w.status, p) == COMPLETED
      && Current(w.status, n) == IDLE :: n in todo
    ensures SafeWorld(g, Step(g, w, Retry(call, todo)), set n | n in w.status && LeftBehind(g, w.status, n))
  {
    var left := set n | n in w.status && LeftBehind(g, w.status, n);
    var w' := Step(g, w, Retry(call, todo));
    forall n | n in w'.status && w'.status[n] == IDLE && n !in left ensures HeldBack(g, w'.status, n) || Owed(w', n) {
      var p :| p in Prereqs(g, n) && Current(w.status, p) != SKIPPED;
      if !HeldBack(g, w'.status, n) {
        assert Cleared(Current(w.status, p)) && Edge(p, n) in g.edges;
        assert Owes(w'.calls[call], n);
      }
    }
  }

  /** The rows of a world, with empty files. */
  function AsRows(s: Statuses): Rows {
    map n | n in s :: FRESH_ROW.(status := s[n])
  }

  /**
   Deadlock freedom under interleaving: if no call is in flight, nobody can act and nothing failed,
   then everything is finished if and only if no neglected node is IDLE.
   */
  lemma InterleavedDeadlockFree(g: Graph, rank: NodeId -> nat, ops: seq<Op>, moves: seq<Move>)
    requires Ranked(g, rank) && EdgesJoinNodes(g)
    requires var w := After(g, ops, moves);
      && w.calls == map[]
      && forall m | m in w.status :: w.status[m] != PENDING && w.status[m] != RUNNING && w.status[m] != ERROR
    ensures var s := After(g, ops, moves).status;
      (forall n | n in Ids(g) :: Cleared(Current(s, n)))
      <==> (forall n | n in NeglectedAfter(g, ops, moves) && n in Ids(g) :: Current(s, n) != IDLE)
  {
    HistoryIsSafe(g, ops);
    EveryScheduleIsSafe(g, Between(Run(g, ops).rows), Missed(g, ops), moves);
    hide SafeWorld, Run, Execute;
    QuietIsDone(g, rank, After(g, ops, moves), NeglectedAfter(g, ops, moves));
  }

  lemma QuietIsDone(g: Graph, rank: NodeId -> nat, w: World, neglected: set<NodeId>)
    requires Ranked(g, rank) && EdgesJoinNodes(g) && SafeWorld(g, w, neglected) && w.calls == map[]
    requires forall m | m in w.status :: w.status[m] != PENDING && w.status[m] != RUNNING && w.status[m] != ERROR
    ensures (forall n | n in Ids(g) :: Cleared(Current(w.status, n)))
      <==> (forall n | n in neglected && n in Ids(g) :: Current(w.status, n) != IDLE)
  {
    var s := w.status;
    if n :| n in Ids(g) && s[n] == IDLE {
      QuietNeglects(g, rank, s, n);
      var a :| a in Ids(g) && s[a] == IDLE && !HeldBack(g, s, a);
      assert a in neglected;
    }
  }

  /** Behind every waiting node of a quiet error-free world there is one that nothing holds back. */
  lemma QuietNeglects(g: Graph, rank: NodeId -> nat, s: Statuses, n: NodeId)
    requires Ranked(g, rank) && EdgesJoinNodes(g) && s.Keys == Ids(g)
    requires forall m | m in s :: s[m] != PENDING && s[m] != RUNNING && s[m] != ERROR
    requires n in s && s[n] == IDLE
    ensures exists a :: a in Ids(g) && s[a] == IDLE && !HeldBack(g, s, a)
  {
    var rows := AsRows(s);
    assert StatusesOf(rows) == s;
    AlikeHeld(g, rows);
    IdleHasRoot(g, rank, rows, n);
    var a :| Reaches(g, a, n) && Root(g, rows, a);
    ReachedFromNode(g, a, n);
  }
}
