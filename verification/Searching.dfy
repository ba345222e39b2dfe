/**
 Breadth-first search with a depth bound, as a state that can be advanced one queue entry
 at a time.  It is what keeps the file lineage queries exact on any set of edges.
 */
module Searching {
  import opened Flow

  datatype Direction = UP | DOWN

  /** `relation` is the provenance relation; the search follows all of them. */
  datatype LineageEdge = LineageEdge(id: nat, up: FileId, down: FileId, relation: nat)
  datatype Entry = Entry(file: FileId, depth: nat)

  /** The file an edge leads to, and the file it starts from, when walking in a direction. */
  function Next(e: LineageEdge, dir: Direction): FileId {
    if dir == UP then e.up else e.down
  }

  function From(e: LineageEdge, dir: Direction): FileId {
    if dir == UP then e.down else e.up
  }

  /** The files at most `k` hops away. */
  ghost function Ball(es: seq<LineageEdge>, dir: Direction, root: FileId, k: nat): set<FileId> {
    if k == 0 then {root}
    else
      var inner := Ball(es, dir, root, k - 1);
      inner + set e | e in es && From(e, dir) in inner :: Next(e, dir)
  }

  /** `findMany` on one end of the edges. */
  function Adjacent(es: seq<LineageEdge>, dir: Direction, f: FileId): (r: seq<LineageEdge>)
    ensures forall e :: e in r <==> e in es && From(e, dir) == f
    ensures NoRepeats(es) ==> NoRepeats(r)
  {
    if es == [] then []
    else
      var rest := Adjacent(es[1..], dir, f);
      assert forall e :: e in es <==> e == es[0] || e in es[1..];
      if From(es[0], dir) == f then [es[0]] + rest else rest
  }

  ghost predicate NoRepeats<T>(s: seq<T>) {
    forall i, j | 0 <= i < j < |s| :: s[i] != s[j]
  }

  lemma BallGrows(es: seq<LineageEdge>, dir: Direction, root: FileId, k: nat, m: nat)
    requires k <= m
    ensures Ball(es, dir, root, k) <= Ball(es, dir, root, m)
    decreases m
  {
    if k < m { BallGrows(es, dir, root, k, m - 1); }
  }

  /** A chain of files, each derived from the next, or in the other direction from the one before. */
  ghost predicate Chain(es: seq<LineageEdge>, dir: Direction, p: seq<FileId>) {
    p != [] && forall i | 0 < i < |p| :: LinkOf(es, dir, p[i - 1], p[i])
  }

  ghost predicate LinkOf(es: seq<LineageEdge>, dir: Direction, a: FileId, b: FileId) {
    exists e | e in es :: match dir case UP => e.down == a && e.up == b case DOWN => e.up == a && e.down == b
  }

  /** The files within `k` hops are the ends of the chains with at most `k` links. */
  lemma {:induction false} BallIsChains(es: seq<LineageEdge>, dir: Direction, root: FileId, k: nat, f: FileId)
    ensures f in Ball(es, dir, root, k) <==>
      exists p :: Chain(es, dir, p) && p[0] == root && p[|p| - 1] == f && |p| <= k + 1
  {
    if f in Ball(es, dir, root, k) { BallHasChain(es, dir, root, k, f); }
    if p :| Chain(es, dir, p) && p[0] == root && p[|p| - 1] == f && |p| <= k + 1 { ChainInBall(es, dir, root, k, p); }
  }

  lemma {:induction false} BallHasChain(es: seq<LineageEdge>, dir: Direction, root: FileId, k: nat, f: FileId)
    requires f in Ball(es, dir, root, k)
    ensures exists p :: Chain(es, dir, p) && p[0] == root && p[|p| - 1] == f && |p| <= k + 1
  {
    if k == 0 {
      assert Chain(es, dir, [root]);
    } else if f in Ball(es, dir, root, k - 1) {
      BallHasChain(es, dir, root, k - 1, f);
    } else {
      var e :| e in es && From(e, dir) in Ball(es, dir, root, k - 1) && Next(e, dir) == f;
      BallHasChain(es, dir, root, k - 1, From(e, dir));
      var p :| Chain(es, dir, p) && p[0] == root && p[|p| - 1] == From(e, dir) && |p| <= k;
      assert LinkOf(es, dir, From(e, dir), f);
      var longer := p + [f];
      forall i | 0 < i < |longer| ensures LinkOf(es, dir, longer[i - 1], longer[i]) {
        if i < |p| { assert LinkOf(es, dir, p[i - 1], p[i]); }
      }
      assert Chain(es, dir, longer) && longer[0] == root;
    }
  }

  lemma {:induction false} ChainInBall(es: seq<LineageEdge>, dir: Direction, root: FileId, k: nat, p: seq<FileId>)
    requires Chain(es, dir, p) && p[0] == root && |p| <= k + 1
    ensures p[|p| - 1] in Ball(es, dir, root, k)
    decreases |p|
  {
    if |p| == 1 {
      BallGrows(es, dir, root, 0, k);
    } else {
      var shorter := p[..|p| - 1];
      assert forall i | 0 < i < |shorter| :: LinkOf(es, dir, p[i - 1], p[i]);
      ChainInBall(es, dir, root, k - 1, shorter);
      assert LinkOf(es, dir, p[|p| - 2], p[|p| - 1]);
    }
  }

  // ------------------------------------------------------------ the state of a search

  ghost predicate Queued(queue: seq<Entry>, f: FileId) {
    exists q | q in queue :: q.file == f
  }

  /** Distances are exact, the queue is in order of distance, and finished files have all their neighbours. */
  ghost predicate Search(es: seq<LineageEdge>, dir: Direction, root: FileId, bound: int,
                         dist: map<FileId, nat>, queue: seq<Entry>, busy: set<FileId>)
  {
    && Exact(es, dir, root, dist)
    && Ordered(dist, queue)
    && (forall q | q in queue :: q.file !in busy)
    && Thorough(es, dir, bound, dist, queue, busy)
  }

  /** Every found file within the bound that is neither waiting nor being expanded has all its neighbours found. */
  ghost predicate Thorough(es: seq<LineageEdge>, dir: Direction, bound: int,
                           dist: map<FileId, nat>, queue: seq<Entry>, busy: set<FileId>)
  {
    forall f | f in dist && dist[f] < bound && !Queued(queue, f) && f !in busy :: Finished(es, dir, dist, f)
  }

  /** The recorded distance of a file is the length of a shortest path to it. */
  ghost predicate Exact(es: seq<LineageEdge>, dir: Direction, root: FileId, dist: map<FileId, nat>) {
    && root in dist
    && (forall f | f in dist :: f in Ball(es, dir, root, dist[f]))
    && (forall f, k: nat | f in dist && f in Ball(es, dir, root, k) :: dist[f] <= k)
  }

  ghost predicate Ordered(dist: map<FileId, nat>, queue: seq<Entry>) {
    && (forall q | q in queue :: q.file in dist && dist[q.file] == q.depth)
    && (forall i, j | 0 <= i < j < |queue| :: queue[i].depth <= queue[j].depth && queue[i].file != queue[j].file)
  }

  ghost predicate Finished(es: seq<LineageEdge>, dir: Direction, dist: map<FileId, nat>, f: FileId) {
    forall e | e in es && From(e, dir) == f :: Next(e, dir) in dist
  }

  /** `busy` is the file being expanded; what waits is at its distance or one further. */
  ghost predicate Expanding(es: seq<LineageEdge>, dir: Direction, root: FileId, bound: int,
                            dist: map<FileId, nat>, queue: seq<Entry>, f: FileId, d: nat)
  {
    && Search(es, dir, root, bound, dist, queue, {f})
    && f in dist && dist[f] == d
    && forall q | q in queue :: d <= q.depth <= d + 1
  }

  ghost predicate Waiting(dist: map<FileId, nat>, queue: seq<Entry>) {
    forall q | q in queue :: q.depth <= queue[0].depth + 1
  }

  lemma SearchStarts(es: seq<LineageEdge>, dir: Direction, root: FileId, bound: int)
    ensures Search(es, dir, root, bound, map[root := 0], [Entry(root, 0)], {})
  {
    assert Entry(root, 0) in [Entry(root, 0)];
  }

  /** Everything closer than the finished files' distance has been found. */
  lemma {:induction false} BallFound(es: seq<LineageEdge>, dir: Direction, root: FileId, dist: map<FileId, nat>, k: nat)
    requires root in dist
    requires forall f, m: nat | f in dist && f in Ball(es, dir, root, m) :: dist[f] <= m
    requires forall f | f in dist && dist[f] < k :: Finished(es, dir, dist, f)
    ensures Ball(es, dir, root, k) <= dist.Keys
  {
    if k > 0 {
      BallFound(es, dir, root, dist, k - 1);
      forall e | e in es && From(e, dir) in Ball(es, dir, root, k - 1) ensures Next(e, dir) in dist {
        assert dist[From(e, dir)] <= k - 1;
      }
    }
  }

  lemma SearchPops(es: seq<LineageEdge>, dir: Direction, root: FileId, bound: int, dist: map<FileId, nat>,
                   queue: seq<Entry>)
    requires Search(es, dir, root, bound, dist, queue, {}) && queue != [] && Waiting(dist, queue)
    ensures Expanding(es, dir, root, bound, dist, queue[1..], queue[0].file, queue[0].depth)
    ensures Ball(es, dir, root, queue[0].depth) <= dist.Keys || queue[0].depth > bound
  {
    hide Ball, Finished, Exact;
    var q, rest := queue[0], queue[1..];
    assert q in queue;
    assert Thorough(es, dir, bound, dist, rest, {q.file}) by {
      forall f | f in dist && !Queued(rest, f) && f != q.file ensures !Queued(queue, f) {
        forall r | r in queue ensures r == q || r in rest {}
      }
    }
    if q.depth <= bound { CloserFound(es, dir, root, bound, dist, queue); }
  }

  lemma CloserFound(es: seq<LineageEdge>, dir: Direction, root: FileId, bound: int, dist: map<FileId, nat>,
                    queue: seq<Entry>)
    requires Exact(es, dir, root, dist) && Ordered(dist, queue) && Thorough(es, dir, bound, dist, queue, {})
    requires queue != [] && queue[0].depth <= bound
    ensures Ball(es, dir, root, queue[0].depth) <= dist.Keys
  {
    hide Ball, Finished;
    forall f | f in dist && dist[f] < queue[0].depth ensures Finished(es, dir, dist, f) {
      assert !Queued(queue, f);
    }
    BallFound(es, dir, root, dist, queue[0].depth);
  }

  lemma BallReaches(es: seq<LineageEdge>, dir: Direction, root: FileId, k: nat, e: LineageEdge)
    requires e in es && From(e, dir) in Ball(es, dir, root, k)
    ensures Next(e, dir) in Ball(es, dir, root, k + 1)
  {
  }

  lemma OutsideBall(es: seq<LineageEdge>, dir: Direction, root: FileId, n: FileId, d: nat, k: nat)
    requires n !in Ball(es, dir, root, d) && n in Ball(es, dir, root, k)
    ensures d + 1 <= k
  {
    if k <= d { BallGrows(es, dir, root, k, d); }
  }

  lemma ExactExtends(es: seq<LineageEdge>, dir: Direction, root: FileId, dist: map<FileId, nat>, n: FileId, d: nat)
    requires Exact(es, dir, root, dist) && n !in dist
    requires n !in Ball(es, dir, root, d) && n in Ball(es, dir, root, d + 1)
    ensures Exact(es, dir, root, dist[n := d + 1])
  {
    hide Ball;
    var dist' := dist[n := d + 1];
    forall f, k: nat | f in dist' && f in Ball(es, dir, root, k) ensures dist'[f] <= k {
      if f == n { OutsideBall(es, dir, root, n, d, k); }
    }
  }

  lemma OrderedExtends(dist: map<FileId, nat>, queue: seq<Entry>, n: FileId, d: nat)
    requires Ordered(dist, queue) && n !in dist && forall q | q in queue :: q.depth <= d
    ensures Ordered(dist[n := d], queue + [Entry(n, d)])
    ensures forall g :: Queued(queue + [Entry(n, d)], g) <==> Queued(queue, g) || g == n
  {
    var queue' := queue + [Entry(n, d)];
    assert forall q :: q in queue' <==> q in queue || q == Entry(n, d);
    forall i, j | 0 <= i < j < |queue'| ensures queue'[i].depth <= queue'[j].depth && queue'[i].file != queue'[j].file {
      assert queue'[i] in queue;
    }
  }

  lemma ThoroughExtends(es: seq<LineageEdge>, dir: Direction, bound: int,
                        dist: map<FileId, nat>, queue: seq<Entry>, busy: set<FileId>, n: FileId, d: nat)
    requires Thorough(es, dir, bound, dist, queue, busy) && n !in dist
    ensures Thorough(es, dir, bound, dist[n := d], queue + [Entry(n, d)], busy)
  {
    var queue' := queue + [Entry(n, d)];
    assert forall q :: q in queue' <==> q in queue || q == Entry(n, d);
    forall g | g in dist && !Queued(queue', g) ensures !Queued(queue, g) {
      forall q | q in queue ensures q in queue' {}
    }
    assert Entry(n, d) in queue';
    forall g | g in dist && Finished(es, dir, dist, g) ensures Finished(es, dir, dist[n := d], g) {}
  }

  /** A new neighbour is one hop further than the file being expanded, and no closer. */
  lemma SearchDiscovers(es: seq<LineageEdge>, dir: Direction, root: FileId, bound: int,
                        dist: map<FileId, nat>, queue: seq<Entry>, f: FileId, d: nat, e: LineageEdge)
    requires Expanding(es, dir, root, bound, dist, queue, f, d)
    requires Ball(es, dir, root, d) <= dist.Keys
    requires e in es && From(e, dir) == f && Next(e, dir) !in dist
    ensures Expanding(es, dir, root, bound, dist[Next(e, dir) := d + 1], queue + [Entry(Next(e, dir), d + 1)], f, d)
  {
    hide Ball, Finished;
    var n := Next(e, dir);
    var dist', queue' := dist[n := d + 1], queue + [Entry(n, d + 1)];
    assert n in Ball(es, dir, root, d + 1) && n !in Ball(es, dir, root, d) by { BallReaches(es, dir, root, d, e); }
    assert Exact(es, dir, root, dist') by {
      ExactExtends(es, dir, root, dist, n, d);
    }
    assert Ordered(dist', queue') by { OrderedExtends(dist, queue, n, d + 1); }
    assert Thorough(es, dir, bound, dist', queue', {f}) by {
      ThoroughExtends(es, dir, bound, dist, queue, {f}, n, d + 1);
    }
    hide Exact, Ordered, Thorough;
    forall q | q in queue' ensures d <= q.depth <= d + 1 && q.file != f {
      assert q in queue || q == Entry(n, d + 1);
    }
  }

  lemma SearchFinishes(es: seq<LineageEdge>, dir: Direction, root: FileId, bound: int,
                       dist: map<FileId, nat>, queue: seq<Entry>, f: FileId, d: nat)
    requires Expanding(es, dir, root, bound, dist, queue, f, d)
    requires d >= bound || Finished(es, dir, dist, f)
    ensures Search(es, dir, root, bound, dist, queue, {}) && Waiting(dist, queue)
  {
    if queue != [] { assert queue[0] in queue; }
  }

  /** An exhausted queue means that exactly the ball has been found. */
  lemma SearchEnds(es: seq<LineageEdge>, dir: Direction, root: FileId, bound: nat, dist: map<FileId, nat>)
    requires Search(es, dir, root, bound, dist, [], {})
    requires forall f | f in dist :: dist[f] <= bound
    ensures dist.Keys == Ball(es, dir, root, bound)
  {
    forall f | f in dist && dist[f] < bound ensures Finished(es, dir, dist, f) {
      assert !Queued([], f);
    }
    BallFound(es, dir, root, dist, bound);
    forall f | f in dist ensures f in Ball(es, dir, root, bound) {
      BallGrows(es, dir, root, dist[f], bound);
    }
  }
}
