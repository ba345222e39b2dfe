/**
 What holds after every sequence of calls on an iteration, on any graph: no node is
 overlooked but behind a handler's silent completion, and, as long as handlers keep to
 their nodes, every status is accounted for: causality, justified gates, traceable skips.
 */
module Runs {
  import opened Wrappers
  import opened Flow
  import opened Runtime
  import opened Activation
  import opened Settling
  import opened Lifecycle

  /** COMPLETED or SKIPPED: what a task demands of its predecessors. */
  predicate Cleared(s: Status) {
    s == COMPLETED || s == SKIPPED
  }

  // ------------------------------------------------------------ the invariants

  /** Some predecessor (possibly one that is not a node) still holds `n` back. */
  ghost predicate Held(g: Graph, rows: Rows, n: NodeId) {
    exists p | p in Prereqs(g, n) :: !Cleared(StatusOf(rows, p))
  }

  /** Every IDLE node is waiting for a predecessor: no ready node was forgotten. */
  ghost predicate NoLostWakeup(g: Graph, rows: Rows) {
    forall n | n in rows && rows[n].status == IDLE :: Held(g, rows, n)
  }

  /** Ready and yet IDLE. */
  ghost predicate Overlooked(g: Graph, rows: Rows, n: NodeId) {
    n in rows && rows[n].status == IDLE && !Held(g, rows, n)
  }

  /** Only listed nodes are overlooked, and each of them has a COMPLETED predecessor. */
  ghost predicate Remembers(g: Graph, rows: Rows, missed: set<NodeId>) {
    && rows.Keys == Ids(g)
    && forall n | Overlooked(g, rows, n) :: n in missed && Fed(g, rows, n)
  }

  ghost predicate Fed(g: Graph, rows: Rows, n: NodeId) {
    exists p | p in Prereqs(g, n) :: StatusOf(rows, p) == COMPLETED
  }

  /** The evidence an evaluated gateway recorded, or the statuses it saw, yield this answer. */
  predicate GateSaid(g: Graph, rows: Rows, node: Node, passed: bool)
    requires node.id in rows
  {
    if HasFileInputs(node)
    then FileGate(node, rows[node.id].inputs) == passed
    else EvaluateGateway(node.logic, PrereqStatuses(g, rows, node.id)) == passed
  }

  ghost predicate PrereqsTerminal(g: Graph, rows: Rows, n: NodeId) {
    forall p | p in Prereqs(g, n) :: !Open(StatusOf(rows, p))
  }

  /** A gateway that the engine evaluated and blocked. */
  ghost predicate BlockedGate(g: Graph, rows: Rows, n: NodeId) {
    && n in rows && rows[n].status == SKIPPED
    && PrereqsTerminal(g, rows, n)
    && var node := Find(g.nodes, n);
       node.Some? && node.value.kind == GATEWAY && GateSaid(g, rows, node.value, false)
  }

  /** `n` is SKIPPED and lies `k` SKIPPED steps behind a blocked gateway. */
  ghost predicate TracesToGate(g: Graph, rows: Rows, n: NodeId, k: nat)
    decreases k
  {
    && n in rows && rows[n].status == SKIPPED
    && if k == 0 then BlockedGate(g, rows, n)
       else exists p | p in Prereqs(g, n) :: TracesToGate(g, rows, p, k - 1)
  }

  ghost predicate CausalAt(g: Graph, rows: Rows, node: Node)
    requires node.id in rows
  {
    match rows[node.id].status
    case IDLE => true
    case SKIPPED => exists k: nat :: TracesToGate(g, rows, node.id, k)
    case COMPLETED =>
      if node.kind == GATEWAY
      then PrereqsTerminal(g, rows, node.id) && (HasInEdge(g, node.id) ==> GateSaid(g, rows, node, true))
      else forall p | p in Prereqs(g, node.id) :: Cleared(StatusOf(rows, p))
    case _ =>
      if node.kind == GATEWAY then !HasInEdge(g, node.id)
      else forall p | p in Prereqs(g, node.id) :: Cleared(StatusOf(rows, p))
  }

  /** Each status is accounted for by the statuses of the predecessors. */
  ghost predicate Causal(g: Graph, rows: Rows) {
    forall n | n in rows :: Find(g.nodes, n).Some? && CausalAt(g, rows, Find(g.nodes, n).value)
  }

  // ------------------------------------------------------------ activation keeps them

  /** The nodes that trying the list attempts: the listed ones and the successors of newly passed gateways. */
  ghost function Attempts(g: Graph, rows: Rows, ts: seq<NodeId>): set<NodeId> {
    set n | n in rows && Attempted(g, Elements(ts), rows, TryAll(g, rows, ts), n)
  }

  /** Trying a list overlooks nothing new, and nothing that it attempts. */
  lemma TryAllRemembers(g: Graph, rows: Rows, ts: seq<NodeId>, missed: set<NodeId>)
    requires rows.Keys == Ids(g)
    requires forall n | Overlooked(g, rows, n) && n !in ts :: n in missed && Fed(g, rows, n)
    ensures Remembers(g, TryAll(g, rows, ts), missed - Attempts(g, rows, ts))
  {
    var rows' := TryAll(g, rows, ts);
    TryAllIsSettled(g, rows, ts);
    forall n | Overlooked(g, rows', n) ensures n in missed - Attempts(g, rows, ts) && Fed(g, rows', n) {
      if Attempted(g, Elements(ts), rows, rows', n) {
        UnfiredIsHeld(g, rows', n);
      } else {
        forall p | p in Prereqs(g, n) ensures Cleared(StatusOf(rows, p)) {
          assert !Turned(rows, rows', p, SKIPPED) && !Turned(rows, rows', p, COMPLETED);
        }
        assert Overlooked(g, rows, n);
        var p :| p in Prereqs(g, n) && StatusOf(rows, p) == COMPLETED;
        assert StatusOf(rows', p) == COMPLETED;
      }
    }
  }

  /** An IDLE node that an attempt would leave alone is held back. */
  lemma UnfiredIsHeld(g: Graph, rows: Rows, n: NodeId)
    requires n in rows && rows[n].status == IDLE && n in Ids(g) && Decide(g, rows, n).None?
    ensures Held(g, rows, n)
  {
    var p :| p in Prereqs(g, n) && (Open(StatusOf(rows, p)) || StatusOf(rows, p) == ERROR);
  }

  /** What held of a node's terminal predecessors keeps holding as the rows evolve. */
  lemma PrereqsStable(g: Graph, rows: Rows, rows': Rows, n: NodeId)
    requires Evolves(rows, rows') && PrereqsTerminal(g, rows, n)
    ensures PrereqsTerminal(g, rows', n)
    ensures PrereqStatuses(g, rows, n) == PrereqStatuses(g, rows', n)
    ensures forall p | p in Prereqs(g, n) :: StatusOf(rows, p) == StatusOf(rows', p)
  {
    forall p | p in Prereqs(g, n) ensures StatusOf(rows, p) == StatusOf(rows', p) {
      assert !Open(StatusOf(rows, p));
    }
  }

  lemma {:induction false} TraceStable(g: Graph, rows: Rows, rows': Rows, n: NodeId, k: nat)
    requires Evolves(rows, rows') && TracesToGate(g, rows, n, k)
    ensures TracesToGate(g, rows', n, k)
    decreases k
  {
    if k == 0 {
      PrereqsStable(g, rows, rows', n);
    } else {
      var p :| p in Prereqs(g, n) && TracesToGate(g, rows, p, k - 1);
      TraceStable(g, rows, rows', p, k - 1);
    }
  }

  lemma CausalStable(g: Graph, rows: Rows, rows': Rows, node: Node)
    requires Evolves(rows, rows') && node.id in rows && rows[node.id].status != IDLE
    requires CausalAt(g, rows, node)
    ensures CausalAt(g, rows', node)
  {
    var n := node.id;
    if rows[n].status == SKIPPED {
      var k: nat :| TracesToGate(g, rows, n, k);
      TraceStable(g, rows, rows', n, k);
    } else {
      assert PrereqsTerminal(g, rows, n);
      PrereqsStable(g, rows, rows', n);
    }
  }

  lemma FiredIsCausal(g: Graph, snap: Rows, rows: Rows, node: Node)
    requires Evolves(snap, rows) && node.id in rows && Find(g.nodes, node.id) == Some(node)
    requires Decide(g, snap, node.id) == Some(rows[node.id])
    requires HasInEdge(g, node.id)
    ensures CausalAt(g, rows, node)
    ensures rows[node.id].status == SKIPPED ==> TracesToGate(g, rows, node.id, 0)
  {
    var n := node.id;
    DecideFacts(g, snap, n);
    assert PrereqsTerminal(g, snap, n);
    PrereqsStable(g, snap, rows, n);
    if rows[n].status == SKIPPED {
      assert BlockedGate(g, rows, n);
      assert TracesToGate(g, rows, n, 0);
    }
  }

  lemma {:induction false} TracedIsTraced(g: Graph, rows0: Rows, rows: Rows, n: NodeId, k: nat)
    requires rows.Keys == Ids(g)
    requires SkipTraced(g, rows0, rows, n, k)
    requires forall m | Fired(g, rows0, rows, m) :: HasInEdge(g, m)
    ensures TracesToGate(g, rows, n, k)
    decreases k
  {
    if k == 0 {
      var snap :| FiredAt(g, rows0, snap, rows, n);
      FiredIsCausal(g, snap, rows, Find(g.nodes, n).value);
    } else {
      var p :| p in Prereqs(g, n) && SkipTraced(g, rows0, rows, p, k - 1);
      TracedIsTraced(g, rows0, rows, p, k - 1);
    }
  }

  /** Nodes without predecessors never fire: they are never a successor. */
  lemma OnlySuccessorsFire(g: Graph, rows0: Rows, rows: Rows, ts: seq<NodeId>, m: NodeId)
    requires Settled(g, Elements(ts), rows0, rows)
    requires forall t | t in ts :: HasInEdge(g, t)
    requires Fired(g, rows0, rows, m)
    ensures HasInEdge(g, m)
  {
    FiredFacts(g, rows0, rows, m);
    assert Explained(g, Elements(ts), rows0, rows, m);
    if SkippedByCascade(g, rows0, rows, m) {
      var k: nat :| k > 0 && SkipTraced(g, rows0, rows, m, k);
      var p :| p in Prereqs(g, m) && SkipTraced(g, rows0, rows, p, k - 1);
      assert Edge(p, m) in g.edges;
    } else if m !in ts {
      var p :| p in Prereqs(g, m) && Turned(rows0, rows, p, COMPLETED);
      assert Edge(p, m) in g.edges;
    }
  }

  lemma TryAllKeepsCausal(g: Graph, rows: Rows, ts: seq<NodeId>)
    requires rows.Keys == Ids(g) && Causal(g, rows)
    requires forall t | t in ts :: HasInEdge(g, t)
    ensures Causal(g, TryAll(g, rows, ts))
  {
    var rows' := TryAll(g, rows, ts);
    TryAllIsSettled(g, rows, ts);
    forall m | Fired(g, rows, rows', m) ensures HasInEdge(g, m) {
      OnlySuccessorsFire(g, rows, rows', ts, m);
    }
    forall n | n in rows' ensures Find(g.nodes, n).Some? && CausalAt(g, rows', Find(g.nodes, n).value) {
      var node := Find(g.nodes, n).value;
      if rows[n].status != IDLE {
        CausalStable(g, rows, rows', node);
      } else if rows'[n].status != IDLE {
        assert Explained(g, Elements(ts), rows, rows', n);
        if SkippedByCascade(g, rows, rows', n) {
          var k: nat :| k > 0 && SkipTraced(g, rows, rows', n, k);
          TracedIsTraced(g, rows, rows', n, k);
        } else {
          var snap :| FiredAt(g, rows, snap, rows', n);
          FiredIsCausal(g, snap, rows', node);
        }
      }
    }
  }
}
