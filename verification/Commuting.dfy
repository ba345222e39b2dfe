/**
 Two tasks that are running may be completed in either order: on an acyclic graph whose
 file bindings follow its edges, the whole state that results is the same.
 */
module Commuting {
  import opened Wrappers
  import opened Flow
  import opened Runtime
  import opened Activation
  import opened Settling
  import opened Confluence
  import opened Lifecycle

  function BothSeeds(g: Graph, a: NodeId, b: NodeId): set<NodeId> {
    Elements(Targets(g.edges, a)) + Elements(Targets(g.edges, b))
  }

  /** `a` is written and advanced to the end (`mid`); then `b` is written (`resumed`) and advanced (`end`). */
  ghost predicate InTurn(g: Graph, base: Rows, first: Rows, mid: Rows, resumed: Rows, end: Rows, a: NodeId, b: NodeId) {
    && Settled(g, Elements(Targets(g.edges, a)), first, mid)
    && Settled(g, Elements(Targets(g.edges, b)), resumed, end)
    && b in first && Open(first[b].status) && first[b].status != IDLE
    && b in base && base[b].status == COMPLETED
    && base == first[b := base[b]] && resumed == mid[b := base[b]]
  }

  lemma EndsEvolve(g: Graph, base: Rows, first: Rows, mid: Rows, resumed: Rows, end: Rows, a: NodeId, b: NodeId)
    requires InTurn(g, base, first, mid, resumed, end, a, b)
    ensures Evolves(first, mid) && Evolves(resumed, end) && mid[b] == first[b]
    ensures b in base && base == first[b := base[b]] && resumed == mid[b := base[b]]
    ensures b in first && Open(first[b].status) && first[b].status != IDLE
  {
  }

  /** What left IDLE in either half left it in the whole, and is where it was in the end. */
  lemma TurnsAdd(g: Graph, base: Rows, first: Rows, mid: Rows, resumed: Rows, end: Rows, a: NodeId, b: NodeId,
                 p: NodeId, s: Status)
    requires InTurn(g, base, first, mid, resumed, end, a, b)
    ensures Turned(base, end, p, s) <==> Turned(first, mid, p, s) || Turned(resumed, end, p, s)
  {
  }

  /** What a node that fired in the first half saw is still so in the end. */
  lemma FirstHalfSaw(g: Graph, base: Rows, first: Rows, mid: Rows, resumed: Rows, end: Rows, a: NodeId, b: NodeId,
                     n: NodeId)
    requires InTurn(g, base, first, mid, resumed, end, a, b) && Fired(g, first, mid, n)
    ensures n in base && n != b && n in mid && n in end && end[n] == mid[n] && base[n] == first[n]
    ensures forall p | p in Prereqs(g, n) :: p in mid && p in end && p != b && end[p] == mid[p] && !Open(mid[p].status)
    ensures n !in Prereqs(g, n)
  {
    hide Fired, Owing, InTurn;
    FiredFacts(g, first, mid, n);
    EndsEvolve(g, base, first, mid, resumed, end, a, b);
    FiredAlone(g, first, mid, n);
  }

  /** A node that fired is none of its own predecessors, which were terminal before it was. */
  lemma FiredAlone(g: Graph, rows0: Rows, rows: Rows, n: NodeId)
    requires Fired(g, rows0, rows, n)
    ensures n !in Prereqs(g, n)
  {
    var snap :| FiredAt(g, rows0, snap, rows, n);
    DecideFacts(g, snap, n);
  }

  /** A node that fired in the first half saw everything it would see in the end. */
  lemma FirstHalfFires(g: Graph, base: Rows, first: Rows, mid: Rows, resumed: Rows, end: Rows, a: NodeId, b: NodeId,
                       n: NodeId)
    requires BindingsFollowEdges(g) && InTurn(g, base, first, mid, resumed, end, a, b)
    requires Fired(g, first, mid, n)
    ensures n in base && n != b && end[n] == mid[n] && Decide(g, end[n := base[n]], n) == Some(end[n])
    ensures forall p | p in Prereqs(g, n) :: p in mid && p != b && end[p] == mid[p] && !Open(mid[p].status)
  {
    hide Decide, Fired, Owing, BindingsFollowEdges, InTurn;
    FirstHalfSaw(g, base, first, mid, resumed, end, a, b, n);
    FiredIsDecided(g, first, mid, n);
    assert AgreeOn(mid[n := first[n]], end[n := base[n]], Prereqs(g, n) + {n});
    DecideAgrees(g, mid[n := first[n]], end[n := base[n]], n);
  }

  /** A node that stayed IDLE all the way has nothing to fire it in the end, if anything attempted it. */
  lemma NobodyLeftOut(g: Graph, base: Rows, first: Rows, mid: Rows, resumed: Rows, end: Rows, a: NodeId, b: NodeId,
                      n: NodeId)
    requires InTurn(g, base, first, mid, resumed, end, a, b)
    requires n in base && end[n].status == IDLE
    requires Attempted(g, BothSeeds(g, a, b), base, end, n)
    ensures Decide(g, end, n).None?
  {
    var sb := Elements(Targets(g.edges, b));
    if !Attempted(g, sb, resumed, end, n) {
      assert b !in Prereqs(g, n);
      forall p | p in Prereqs(g, n) && Turned(base, end, p, COMPLETED) ensures Turned(first, mid, p, COMPLETED) {
        TurnsAdd(g, base, first, mid, resumed, end, a, b, p, COMPLETED);
      }
      assert Attempted(g, Elements(Targets(g.edges, a)), first, mid, n);
      assert Decide(g, mid, n).None?;
      if p :| p in Prereqs(g, n) && StatusOf(mid, p) != StatusOf(end, p) {
        assert !Turned(resumed, end, p, SKIPPED) && !Turned(resumed, end, p, COMPLETED);
        StayedOutOfError(g, sb, resumed, end, p);
        WaitsForOpen(g, end, p, n);
      } else {
        FiresAlike(g, mid, end, n);
      }
    }
  }

  /** Activation writes no ERROR: what has left IDLE is PENDING, COMPLETED or SKIPPED. */
  lemma StayedOutOfError(g: Graph, seeds: set<NodeId>, rows0: Rows, rows: Rows, p: NodeId)
    requires Settled(g, seeds, rows0, rows) && Left(rows0, rows, p)
    ensures rows[p].status == PENDING || rows[p].status == COMPLETED || rows[p].status == SKIPPED
  {
    assert Explained(g, seeds, rows0, rows, p);
    if SkippedByCascade(g, rows0, rows, p) {
      var k: nat :| k > 0 && SkipTraced(g, rows0, rows, p, k);
    } else {
      var snap :| FiredAt(g, rows0, snap, rows, p);
      DecideFacts(g, snap, p);
    }
  }

  lemma LeftFirst(g: Graph, base: Rows, first: Rows, mid: Rows, resumed: Rows, end: Rows, a: NodeId, b: NodeId,
                  n: NodeId)
    requires BindingsFollowEdges(g) && InTurn(g, base, first, mid, resumed, end, a, b)
    requires Left(first, mid, n)
    ensures n in base && end[n] == Expected(g, BothSeeds(g, a, b), base, end, n)
  {
    var sa := Elements(Targets(g.edges, a));
    assert Explained(g, sa, first, mid, n);
    assert n in base && n != b && end[n] == mid[n] && base[n] == first[n];
    if SkippedByCascade(g, first, mid, n) {
      CascadeHasSkippedPred(g, first, mid, n);
      var p :| p in Prereqs(g, n) && Turned(first, mid, p, SKIPPED);
      TurnsAdd(g, base, first, mid, resumed, end, a, b, p, SKIPPED);
      assert PredSkipped(g, base, end, n);
    } else {
      FirstHalfFires(g, base, first, mid, resumed, end, a, b, n);
      forall p | p in Prereqs(g, n) ensures !Turned(base, end, p, SKIPPED) {
        TurnsAdd(g, base, first, mid, resumed, end, a, b, p, SKIPPED);
        assert !PredSkipped(g, first, mid, n);
      }
      AttemptsAdd(g, base, first, mid, resumed, end, a, b, n);
      assert Attempted(g, BothSeeds(g, a, b), base, end, n);
    }
  }

  /** What either half attempts, the whole attempts. */
  lemma AttemptsAdd(g: Graph, base: Rows, first: Rows, mid: Rows, resumed: Rows, end: Rows, a: NodeId, b: NodeId,
                    n: NodeId)
    requires InTurn(g, base, first, mid, resumed, end, a, b)
    requires Attempted(g, Elements(Targets(g.edges, a)), first, mid, n)
      || Attempted(g, Elements(Targets(g.edges, b)), resumed, end, n)
    ensures Attempted(g, BothSeeds(g, a, b), base, end, n)
  {
    if n !in BothSeeds(g, a, b) {
      var p :| p in Prereqs(g, n) && (Turned(first, mid, p, COMPLETED) || Turned(resumed, end, p, COMPLETED));
      TurnsAdd(g, base, first, mid, resumed, end, a, b, p, COMPLETED);
    }
  }

  lemma LeftSecond(g: Graph, base: Rows, first: Rows, mid: Rows, resumed: Rows, end: Rows, a: NodeId, b: NodeId,
                   n: NodeId)
    requires BindingsFollowEdges(g) && InTurn(g, base, first, mid, resumed, end, a, b)
    requires Left(resumed, end, n)
    ensures n in base && end[n] == Expected(g, BothSeeds(g, a, b), base, end, n)
  {
    var sb := Elements(Targets(g.edges, b));
    assert Explained(g, sb, resumed, end, n);
    assert n in base && n != b && base[n] == resumed[n] && mid[n] == resumed[n];
    if SkippedByCascade(g, resumed, end, n) {
      CascadeHasSkippedPred(g, resumed, end, n);
      var p :| p in Prereqs(g, n) && Turned(resumed, end, p, SKIPPED);
      TurnsAdd(g, base, first, mid, resumed, end, a, b, p, SKIPPED);
      assert PredSkipped(g, base, end, n);
    } else {
      FiredIsDecided(g, resumed, end, n);
      forall p | p in Prereqs(g, n) ensures !Turned(base, end, p, SKIPPED) {
        TurnsAdd(g, base, first, mid, resumed, end, a, b, p, SKIPPED);
        assert !PredSkipped(g, first, mid, n) && !PredSkipped(g, resumed, end, n);
      }
      AttemptsAdd(g, base, first, mid, resumed, end, a, b, n);
    }
  }

  lemma LeftNever(g: Graph, base: Rows, first: Rows, mid: Rows, resumed: Rows, end: Rows, a: NodeId, b: NodeId,
                  n: NodeId)
    requires InTurn(g, base, first, mid, resumed, end, a, b)
    requires n in base && !Left(first, mid, n) && !Left(resumed, end, n)
    ensures end[n] == base[n] && end[n] == Expected(g, BothSeeds(g, a, b), base, end, n)
  {
    if base[n].status == IDLE {
      forall p | p in Prereqs(g, n) ensures !Turned(base, end, p, SKIPPED) {
        TurnsAdd(g, base, first, mid, resumed, end, a, b, p, SKIPPED);
        assert !PredSkipped(g, first, mid, n) && !PredSkipped(g, resumed, end, n);
      }
      assert end[n := base[n]] == end;
      if Attempted(g, BothSeeds(g, a, b), base, end, n) {
        NobodyLeftOut(g, base, first, mid, resumed, end, a, b, n);
      }
    }
  }

  /** Two advancements in turn are consistent with both completions written at once. */
  lemma InTurnIsConsistent(g: Graph, base: Rows, first: Rows, mid: Rows, resumed: Rows, end: Rows, a: NodeId, b: NodeId)
    requires BindingsFollowEdges(g) && InTurn(g, base, first, mid, resumed, end, a, b)
    ensures Consistent(g, BothSeeds(g, a, b), base, end)
  {
    forall n | n in base ensures end[n] == Expected(g, BothSeeds(g, a, b), base, end, n) {
      if Left(first, mid, n) {
        LeftFirst(g, base, first, mid, resumed, end, a, b, n);
      } else if Left(resumed, end, n) {
        LeftSecond(g, base, first, mid, resumed, end, a, b, n);
      } else {
        LeftNever(g, base, first, mid, resumed, end, a, b, n);
      }
    }
  }

  // ------------------------------------------------------------ the theorems

  /** The rows after `b` is completed right behind `a`. */
  ghost function AdvancedInTurn(g: Graph, rows: Rows, a: NodeId, ra: Row, b: NodeId, rb: Row): Rows {
    Advance(g, Advance(g, rows[a := ra], a)[b := rb], b)
  }

  lemma AdvancedInTurnIsConsistent(g: Graph, rows: Rows, a: NodeId, ra: Row, b: NodeId, rb: Row)
    requires BindingsFollowEdges(g) && a != b && a in rows && b in rows
    requires rows[b].status == RUNNING && ra.status == COMPLETED && rb.status == COMPLETED
    ensures Consistent(g, BothSeeds(g, a, b), rows[a := ra][b := rb], AdvancedInTurn(g, rows, a, ra, b, rb))
  {
    var first := rows[a := ra];
    var mid := Advance(g, first, a);
    var resumed := mid[b := rb];
    TryAllIsSettled(g, first, Targets(g.edges, a));
    TryAllIsSettled(g, resumed, Targets(g.edges, b));
    InTurnIsConsistent(g, first[b := rb], first, mid, resumed, Advance(g, resumed, b), a, b);
  }

  lemma SeedsSwap(g: Graph, a: NodeId, b: NodeId)
    ensures BothSeeds(g, a, b) == BothSeeds(g, b, a)
  {
  }

  /** The order of two advancements does not matter for any row. */
  lemma AdvancementsCommute(g: Graph, rank: NodeId -> nat, rows: Rows, a: NodeId, ra: Row, b: NodeId, rb: Row)
    requires Ranked(g, rank) && BindingsFollowEdges(g) && a != b && a in rows && b in rows
    requires rows[a].status == RUNNING && rows[b].status == RUNNING
    requires ra.status == COMPLETED && rb.status == COMPLETED
    ensures AdvancedInTurn(g, rows, a, ra, b, rb) == AdvancedInTurn(g, rows, b, rb, a, ra)
  {
    hide AdvancedInTurn, Consistent, BothSeeds, Ranked, BindingsFollowEdges;
    AdvancedInTurnIsConsistent(g, rows, a, ra, b, rb);
    AdvancedInTurnIsConsistent(g, rows, b, rb, a, ra);
    SeedsSwap(g, a, b);
    assert rows[b := rb][a := ra] == rows[a := ra][b := rb];
    ConsistentAgree(g, rank, BothSeeds(g, a, b), rows[a := ra][b := rb],
                    AdvancedInTurn(g, rows, a, ra, b, rb), AdvancedInTurn(g, rows, b, rb, a, ra));
  }

  /** An accepted completion advances the workflow and stores the derived status. */
  lemma AcceptedCompletion(g: Graph, s: State, n: NodeId, path: Option<FilePath>)
    requires s.rows.Keys == Ids(g) && Complete(g, s, n, path).1.Done?
    ensures n in s.rows && s.rows[n].status == RUNNING && !OutputsMissing(g, s.rows[n], n, path)
    ensures var s' := Complete(g, s, n, path).0;
      s'.rows == Advance(g, s.rows[n := CompletedRow(s.rows[n], path)], n) && s'.verdict == Derived(g, s'.rows)
  {
    hide Advance, OutputsMissing;
    var node := Find(g.nodes, n).value;
    assert node in g.nodes && Open(StatusOf(s.rows, node.id));
  }

  lemma Accepted(g: Graph, s: State, n: NodeId, path: Option<FilePath>)
    requires n in s.rows && s.rows[n].status == RUNNING && !OutputsMissing(g, s.rows[n], n, path)
    ensures Complete(g, s, n, path).1.Done?
  {
  }

  /** Completing `a` first leaves `b` exactly as it was, so its completion is still accepted. */
  lemma OtherStillCompletes(g: Graph, s: State, a: NodeId, pa: Option<FilePath>, b: NodeId, pb: Option<FilePath>)
    requires s.rows.Keys == Ids(g) && a != b
    requires Complete(g, s, a, pa).1.Done? && Complete(g, s, b, pb).1.Done?
    ensures var (s', r) := Complete(g, Complete(g, s, a, pa).0, b, pb);
      && r.Done?
      && s'.rows == AdvancedInTurn(g, s.rows, a, CompletedRow(s.rows[a], pa), b, CompletedRow(s.rows[b], pb))
      && s'.verdict == Derived(g, s'.rows)
  {
    hide Complete, Advance, OutputsMissing, Derived;
    AcceptedCompletion(g, s, a, pa);
    AcceptedCompletion(g, s, b, pb);
    var mid := Complete(g, s, a, pa).0;
    assert mid.rows[b] == s.rows[b] && mid.rows.Keys == s.rows.Keys;
    Accepted(g, mid, b, pb);
    AcceptedCompletion(g, mid, b, pb);
  }

  /** Two completions that are both accepted may be made in either order: rows and iteration status are the same. */
  lemma CompletionsCommute(g: Graph, rank: NodeId -> nat, s: State, a: NodeId, pa: Option<FilePath>, b: NodeId,
                           pb: Option<FilePath>)
    requires Ranked(g, rank) && BindingsFollowEdges(g) && s.rows.Keys == Ids(g) && a != b
    requires Complete(g, s, a, pa).1.Done? && Complete(g, s, b, pb).1.Done?
    ensures Complete(g, Complete(g, s, a, pa).0, b, pb) == Complete(g, Complete(g, s, b, pb).0, a, pa)
    ensures Complete(g, Complete(g, s, a, pa).0, b, pb).1.Done?
  {
    AcceptedCompletion(g, s, a, pa);
    AcceptedCompletion(g, s, b, pb);
    hide Complete, AdvancedInTurn, OutputsMissing, Derived;
    OtherStillCompletes(g, s, a, pa, b, pb);
    OtherStillCompletes(g, s, b, pb, a, pa);
    AdvancementsCommute(g, rank, s.rows, a, CompletedRow(s.rows[a], pa), b, CompletedRow(s.rows[b], pb));
  }
}
