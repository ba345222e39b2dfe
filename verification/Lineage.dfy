/**
 File-to-file lineage: recording derivation edges when a node completes, and the two
 depth-bounded queries over them.
 */
module Lineage {
  import opened Wrappers
  import opened Flow
  import opened Runtime
  import opened Searching

  const WAS_DERIVED_FROM := 0

  datatype NodeRef = NodeRef(iteration: nat, node: NodeId)
  datatype FileRecord = FileRecord(path: FilePath, producer: Option<NodeRef>)

  /** A file found by a query, with the edge that led to it first. */
  datatype Hit = Hit(file: FileId, via: LineageEdge)

  /** A queue entry of the full-graph query. */
  datatype Task = Task(file: FileId, depth: nat, dir: Direction)
  datatype FullGraph = FullGraph(nodes: set<FileId>, edges: seq<LineageEdge>)

  /** A negative depth expands nothing, like zero. */
  function Hops(depth: int): nat {
    if depth < 0 then 0 else depth
  }

  /** The ancestors and descendants within the bound, and the edges met on the way, each once. */
  ghost predicate Surrounds(es: seq<LineageEdge>, root: FileId, bound: nat, full: FullGraph) {
    && full.nodes == Ball(es, UP, root, bound) + Ball(es, DOWN, root, bound)
    && NoRepeats(full.edges)
    && (forall e :: e in full.edges <==> (e in es && bound > 0 &&
         (e.down in Ball(es, UP, root, bound - 1) || e.up in Ball(es, DOWN, root, bound - 1))))
    && forall e | e in full.edges :: e.up in full.nodes && e.down in full.nodes
  }

  /** Nothing but ancestors and descendants within the bound, and edges between them. */
  ghost predicate Enclosed(es: seq<LineageEdge>, root: FileId, bound: nat, full: FullGraph) {
    && root in full.nodes
    && full.nodes <= Ball(es, UP, root, bound) + Ball(es, DOWN, root, bound)
    && forall e | e in full.edges :: e in es && e.up in full.nodes && e.down in full.nodes
  }

  // ------------------------------------------------------------ what a node derives

  /** Files named by the recorded inputs, by id or by legacy path. */
  function UpstreamFiles(files: map<FileId, FileRecord>, row: Row): set<FileId> {
    set f | f in files && exists k | k in row.inputs ::
      f in row.inputs[k].fileIds || row.inputs[k].filePath == Some(files[f].path)
  }

  function DownstreamFiles(files: map<FileId, FileRecord>, ref: NodeRef): set<FileId> {
    set f | f in files && files[f].producer == Some(ref)
  }

  /** `up` is a recorded input of the node, by id or by path, and `down` another file, which the node produced. */
  ghost predicate Derived(files: map<FileId, FileRecord>, rows: map<NodeRef, Row>, ref: NodeRef, up: FileId,
                          down: FileId)
  {
    && ref in rows && up in files && down in files && up != down && files[down].producer == Some(ref)
    && var inputs := rows[ref].inputs;
       exists k | k in inputs :: up in inputs[k].fileIds || inputs[k].filePath == Some(files[up].path)
  }

  predicate Present(es: seq<LineageEdge>, up: FileId, down: FileId, relation: nat) {
    exists e | e in es :: e.up == up && e.down == down && e.relation == relation
  }

  /** Nothing but derivation edges of the given node that were missing has been appended. */
  ghost predicate Appended(files: map<FileId, FileRecord>, rows: map<NodeRef, Row>, refs: set<NodeRef>,
                           before: seq<LineageEdge>, after: seq<LineageEdge>)
  {
    && before <= after
    && forall e | e in after[|before|..] ::
      && e.relation == WAS_DERIVED_FROM && !Present(before, e.up, e.down, WAS_DERIVED_FROM)
      && exists ref | ref in refs :: Derived(files, rows, ref, e.up, e.down)
  }

  ghost predicate FullyDerived(files: map<FileId, FileRecord>, rows: map<NodeRef, Row>, ref: NodeRef,
                               es: seq<LineageEdge>)
  {
    forall up, down | Derived(files, rows, ref, up, down) :: Present(es, up, down, WAS_DERIVED_FROM)
  }

  lemma AppendedTrans(files: map<FileId, FileRecord>, rows: map<NodeRef, Row>, a: set<NodeRef>, b: set<NodeRef>,
                      x: seq<LineageEdge>, y: seq<LineageEdge>, z: seq<LineageEdge>)
    requires Appended(files, rows, a, x, y) && Appended(files, rows, b, y, z)
    ensures Appended(files, rows, a + b, x, z)
  {
    forall e | e in z[|x|..]
      ensures e.relation == WAS_DERIVED_FROM && !Present(x, e.up, e.down, WAS_DERIVED_FROM)
      ensures exists ref | ref in a + b :: Derived(files, rows, ref, e.up, e.down)
    {
      assert z[|x|..] == y[|x|..] + z[|y|..];
      if e in y[|x|..] {
        var ref :| ref in a && Derived(files, rows, ref, e.up, e.down);
        assert ref in a + b;
      } else {
        var ref :| ref in b && Derived(files, rows, ref, e.up, e.down);
        assert ref in a + b;
        forall d | d in x ensures d in y {}
      }
    }
  }

  lemma AppendedMeansMissing(files: map<FileId, FileRecord>, rows: map<NodeRef, Row>, refs: set<NodeRef>,
                             before: seq<LineageEdge>, after: seq<LineageEdge>)
    requires Appended(files, rows, refs, before, after) && before != after
    ensures exists ref | ref in refs :: !FullyDerived(files, rows, ref, before)
  {
    var e := after[|before|];
    assert after[|before|..][0] == e;
    var ref :| ref in refs && Derived(files, rows, ref, e.up, e.down);
    assert !FullyDerived(files, rows, ref, before);
  }

  /** The nodes that produced the files at the lower ends. */
  ghost function Producers(files: map<FileId, FileRecord>, es: seq<LineageEdge>): set<Option<NodeRef>> {
    set e | e in es && e.down in files :: files[e.down].producer
  }

  lemma OneMoreProducer(files: map<FileId, FileRecord>, rows: map<NodeRef, Row>, done: set<NodeRef>, ref: NodeRef,
                        x: seq<LineageEdge>, y: seq<LineageEdge>, z: seq<LineageEdge>)
    requires Appended(files, rows, done, x, y) && Appended(files, rows, {ref}, y, z) && ref !in done && x <= y <= z
    ensures |Producers(files, z[|x|..])| == |Producers(files, y[|x|..])| + if y == z then 0 else 1
  {
    ProducedBy(files, rows, done, x, y);
    ProducedBy(files, rows, {ref}, y, z);
    hide Producers, Appended;
    TailsJoin(x, y, z);
    ProducersJoin(files, y[|x|..], z[|y|..]);
    CountJoined(Producers(files, y[|x|..]), Producers(files, z[|y|..]), done, ref);
  }

  lemma CountJoined(s: set<Option<NodeRef>>, t: set<Option<NodeRef>>, done: set<NodeRef>, ref: NodeRef)
    requires ref !in done && (forall p | p in s :: p.Some? && p.value in done) && forall p | p in t :: p == Some(ref)
    ensures |s + t| == |s| + if t == {} then 0 else 1
  {
    assert Some(ref) !in s;
    if p :| p in t { assert t == {Some(ref)}; }
  }

  lemma TailsJoin<T>(x: seq<T>, y: seq<T>, z: seq<T>)
    requires x <= y <= z
    ensures z[|x|..] == y[|x|..] + z[|y|..]
  {
  }

  lemma ProducersJoin(files: map<FileId, FileRecord>, a: seq<LineageEdge>, b: seq<LineageEdge>)
    ensures Producers(files, a + b) == Producers(files, a) + Producers(files, b)
  {
  }

  lemma ProducedBy(files: map<FileId, FileRecord>, rows: map<NodeRef, Row>, refs: set<NodeRef>,
                   before: seq<LineageEdge>,
                   after: seq<LineageEdge>)
    requires Appended(files, rows, refs, before, after)
    ensures forall p | p in Producers(files, after[|before|..]) :: p.Some? && p.value in refs
    ensures before == after <==> Producers(files, after[|before|..]) == {}
  {
    hide Present;
    if before != after { assert files[after[|before|..][0].down].producer in Producers(files, after[|before|..]); }
  }

  lemma AppendedNothing(files: map<FileId, FileRecord>, rows: map<NodeRef, Row>, es: seq<LineageEdge>)
    ensures Appended(files, rows, {}, es, es) && Producers(files, es[|es|..]) == {}
  {
  }

  lemma FullyDerivedStays(files: map<FileId, FileRecord>, rows: map<NodeRef, Row>, refs: set<NodeRef>,
                          new': set<NodeRef>,
                          a: seq<LineageEdge>, b: seq<LineageEdge>)
    requires Appended(files, rows, new', a, b) && forall r | r in refs :: FullyDerived(files, rows, r, a)
    ensures forall r | r in refs :: FullyDerived(files, rows, r, b)
  {
    forall r, up, down | r in refs && Derived(files, rows, r, up, down) ensures Present(b, up, down, WAS_DERIVED_FROM) {
      PresentStays(a, b, up, down);
    }
  }

  lemma PresentStays(a: seq<LineageEdge>, b: seq<LineageEdge>, up: FileId, down: FileId)
    requires a <= b && Present(a, up, down, WAS_DERIVED_FROM)
    ensures Present(b, up, down, WAS_DERIVED_FROM)
  {
    var d :| d in a && d.up == up && d.down == down && d.relation == WAS_DERIVED_FROM;
    assert d in b;
  }

  /** `rank` witnesses that no file derives from itself. */
  ghost predicate AcyclicLineage(es: seq<LineageEdge>, rank: FileId -> nat) {
    forall e | e in es :: rank(e.up) < rank(e.down)
  }

  lemma {:induction false} AncestorsRankLower(es: seq<LineageEdge>, rank: FileId -> nat, root: FileId, k: nat,
                                              f: FileId)
    requires AcyclicLineage(es, rank) && f in Ball(es, UP, root, k)
    ensures f == root || rank(f) < rank(root)
  {
    if k > 0 && f !in Ball(es, UP, root, k - 1) {
      var e :| e in es && From(e, UP) in Ball(es, UP, root, k - 1) && Next(e, UP) == f;
      AncestorsRankLower(es, rank, root, k - 1, e.down);
    } else if k > 0 {
      AncestorsRankLower(es, rank, root, k - 1, f);
    }
  }

  lemma {:induction false} DescendantsRankHigher(es: seq<LineageEdge>, rank: FileId -> nat, root: FileId, k: nat,
                                                 f: FileId)
    requires AcyclicLineage(es, rank) && f in Ball(es, DOWN, root, k)
    ensures f == root || rank(f) > rank(root)
  {
    if k > 0 && f !in Ball(es, DOWN, root, k - 1) {
      var e :| e in es && From(e, DOWN) in Ball(es, DOWN, root, k - 1) && Next(e, DOWN) == f;
      DescendantsRankHigher(es, rank, root, k - 1, e.up);
    } else if k > 0 {
      DescendantsRankHigher(es, rank, root, k - 1, f);
    }
  }

  function Opposite(dir: Direction): Direction {
    if dir == UP then DOWN else UP
  }

  /** No edge leads from one side of the root to the other. */
  lemma SidesAreApart(es: seq<LineageEdge>, rank: FileId -> nat, root: FileId, dir: Direction, k: nat, m: nat,
                      e: LineageEdge)
    requires AcyclicLineage(es, rank) && e in es && From(e, dir) in Ball(es, dir, root, k)
    ensures Next(e, dir) !in Ball(es, Opposite(dir), root, m)
  {
    var f, n := From(e, dir), Next(e, dir);
    if dir == UP {
      AncestorsRankLower(es, rank, root, k, f);
      if n in Ball(es, DOWN, root, m) { DescendantsRankHigher(es, rank, root, m, n); }
    } else {
      DescendantsRankHigher(es, rank, root, k, f);
      if n in Ball(es, UP, root, m) { AncestorsRankLower(es, rank, root, m, n); }
    }
  }

  class LineageService {
    var files: map<FileId, FileRecord>
    var rows: map<NodeRef, Row>
    var edges: seq<LineageEdge>
    var nextEdge: nat

    /** Edge rows are numbered; both ends exist. */
    ghost predicate Valid()
      reads this
    {
      && (forall e | e in edges :: e.id < nextEdge && e.up in files && e.down in files)
      && forall i, j | 0 <= i < j < |edges| :: edges[i].id != edges[j].id
    }

    /** Inserts one derivation edge unless the unique index refuses it. */
    method CreateDerivation(up: FileId, down: FileId) returns (created: bool)
      requires Valid() && up in files && down in files
      modifies this`edges, this`nextEdge
      ensures Valid() && created == !exists e | e in old(edges) :: e.up == up && e.down == down && e.relation == 0
      ensures edges == old(edges) + if created then [LineageEdge(old(nextEdge), up, down, 0)] else []
    {
      if Present(edges, up, down, WAS_DERIVED_FROM) { return false; }
      var e := LineageEdge(nextEdge, up, down, WAS_DERIVED_FROM);
      assert forall d :: d in edges + [e] <==> d in edges || d == e;
      edges := edges + [e];
      nextEdge := nextEdge + 1;
      return true;
    }

    /** Derives every output file of the node from every input file it recorded. */
    method RecordEdgesForNode(ref: NodeRef) returns (created: nat)
      requires Valid()
      modifies this`edges, this`nextEdge
      ensures Valid() && Appended(files, rows, {ref}, old(edges), edges) && old(edges) <= edges
      ensures FullyDerived(files, rows, ref, edges)
      ensures created == |edges| - |old(edges)|
    {
      created := 0;
      if ref !in rows { return; }
      var ups := UpstreamFiles(files, rows[ref]);
      var downs := DownstreamFiles(files, ref);
      var todo := ups;
      while todo != {}
        invariant todo <= ups && Valid() && created == |edges| - |old(edges)|
        invariant Appended(files, rows, {ref}, old(edges), edges)
        invariant forall up, down | up in ups - todo && down in downs && up != down ::
          Present(edges, up, down, WAS_DERIVED_FROM)
      {
        var up :| up in todo;
        var made := DeriveFrom(ref, up, downs);
        created := created + made;
        todo := todo - {up};
      }
    }

    /** The inner loop: one upstream file against all the node's files. */
    method DeriveFrom(ref: NodeRef, up: FileId, downs: set<FileId>) returns (created: nat)
      requires Valid() && ref in rows && up in UpstreamFiles(files, rows[ref]) && downs == DownstreamFiles(files, ref)
      modifies this`edges, this`nextEdge
      ensures Valid() && Appended(files, rows, {ref}, old(edges), edges)
      ensures forall down | down in downs && up != down :: Present(edges, up, down, WAS_DERIVED_FROM)
      ensures forall u, d | Present(old(edges), u, d, WAS_DERIVED_FROM) :: Present(edges, u, d, WAS_DERIVED_FROM)
      ensures created == |edges| - |old(edges)|
    {
      created := 0;
      var todo := downs;
      while todo != {}
        invariant todo <= downs && Valid() && created == |edges| - |old(edges)|
        invariant Appended(files, rows, {ref}, old(edges), edges)
        invariant forall down | down in downs - todo && up != down :: Present(edges, up, down, WAS_DERIVED_FROM)
      {
        var down :| down in todo;
        todo := todo - {down};
        if up == down { continue; }
        ghost var before := edges;
        var made := CreateDerivation(up, down);
        if made {
          created := created + 1;
          assert Derived(files, rows, ref, up, down);
          assert Appended(files, rows, {ref}, before, edges);
          AppendedTrans(files, rows, {ref}, {ref}, old(edges), before, edges);
          assert edges[|before|] in edges;
        }
        forall d | Present(before, up, d, WAS_DERIVED_FROM) ensures Present(edges, up, d, WAS_DERIVED_FROM) {
          PresentStays(before, edges, up, d);
        }
      }
      forall u, d | Present(old(edges), u, d, WAS_DERIVED_FROM) ensures Present(edges, u, d, WAS_DERIVED_FROM) {
        PresentStays(old(edges), edges, u, d);
      }
    }

    /** Records the edges of every completed node of an iteration. */
    method RebuildForIteration(iteration: nat) returns (nodesProcessed: nat, nodesWithEdges: nat, edgesCreated: nat)
      requires Valid()
      modifies this`edges, this`nextEdge
      ensures var refs := set ref | ref in rows && ref.iteration == iteration && rows[ref].status == COMPLETED;
        && Valid() && Appended(files, rows, refs, old(edges), edges)
        && (forall ref | ref in refs :: FullyDerived(files, rows, ref, edges))
        && nodesProcessed == |refs|
      ensures edgesCreated == |edges| - |old(edges)| && nodesWithEdges == |Producers(files, edges[|old(edges)|..])|
    {
      var refs := set ref | ref in rows && ref.iteration == iteration && rows[ref].status == COMPLETED;
      var todo := refs;
      nodesProcessed, nodesWithEdges, edgesCreated := 0, 0, 0;
      AppendedNothing(files, rows, edges);
      assert refs - todo == {};
      hide Appended, FullyDerived, Producers, Derived, Present;
      while todo != {}
        invariant todo <= refs && Valid() && edgesCreated == |edges| - |old(edges)|
        invariant nodesProcessed + |todo| == |refs|
        invariant old(edges) <= edges && nodesWithEdges == |Producers(files, edges[|old(edges)|..])|
        invariant Appended(files, rows, refs - todo, old(edges), edges)
        invariant forall ref | ref in refs - todo :: FullyDerived(files, rows, ref, edges)
      {
        var ref :| ref in todo;
        ghost var before := edges;
        var made := RecordEdgesForNode(ref);
        AppendedTrans(files, rows, refs - todo, {ref}, old(edges), before, edges);
        FullyDerivedStays(files, rows, refs - todo, {ref}, before, edges);
        assert refs - (todo - {ref}) == (refs - todo) + {ref};
        assert old(edges) <= before <= edges;
        OneMoreProducer(files, rows, refs - todo, ref, old(edges), before, edges);
        todo := todo - {ref};
        if made > 0 { nodesWithEdges := nodesWithEdges + 1; }
        edgesCreated := edgesCreated + made;
        nodesProcessed := nodesProcessed + 1;
      }
      assert refs - {} == refs;
    }

    /** Rebuilding again finds every edge in place. */
    method RebuildTwice(iteration: nat) returns (again: nat)
      requires Valid()
      modifies this`edges, this`nextEdge
      ensures again == 0
    {
      var _, _, _ := RebuildForIteration(iteration);
      ghost var once := edges;
      var _, _, created := RebuildForIteration(iteration);
      again := created;
      ghost var refs := set ref | ref in rows && ref.iteration == iteration && rows[ref].status == COMPLETED;
      if edges != once { AppendedMeansMissing(files, rows, refs, once, edges); }
    }

    // ---------------------------------------------------------- depth-bounded query

    /** Every file at shortest distance 1..depth, each once, nearest first; any set of edges, cycles included. */
    method Traverse(root: FileId, depth: int, dir: Direction) returns (result: Option<seq<Hit>>)
      requires Valid()
      ensures result.None? <==> root !in files
      ensures result.Some? ==> var hits := result.value;
        && (forall i, j | 0 <= i < j < |hits| :: hits[i].file != hits[j].file)
        && (forall h | h in hits :: h.via in edges && Next(h.via, dir) == h.file)
        && forall f :: (exists h | h in hits :: h.file == f) <==>
          depth >= 0 && f != root && f in Ball(edges, dir, root, depth)
      ensures result.Some? ==> NearestFirst(edges, dir, root, result.value)
    {
      if root !in files { return None; }
      var visited, queue := {root}, [Entry(root, 0)];
      var hits: seq<Hit> := [];
      ghost var dist: map<FileId, nat> := map[root := 0];
      SearchStarts(edges, dir, root, depth);
      while queue != []
        invariant Search(edges, dir, root, depth, dist, queue, {}) && Waiting(dist, queue)
        invariant Recorded(edges, dir, root, depth, dist, hits) && visited == dist.Keys && visited <= files.Keys
        invariant Nearing(dir, dist, hits)
        invariant queue != [] ==> NoneFurther(dist, queue[0].depth + 1)
        decreases files.Keys - visited, |queue|
      {
        var q := queue[0];
        SearchPops(edges, dir, root, depth, dist, queue);
        queue := queue[1..];
        if q.depth < depth {
          visited, queue, hits, dist := Expand(root, depth, dir, q, visited, queue, hits, dist);
        }
        SearchFinishes(edges, dir, root, depth, dist, queue, q.file, q.depth);
        FurtherOn(edges, dir, root, depth, dist, queue, q.file, q.depth);
      }
      HitsNearestFirst(edges, dir, root, dist, hits);
      if depth >= 0 {
        SearchEnds(edges, dir, root, depth, dist);
      }
      result := Some(hits);
    }

    /** The inner loop: the edges of one file. */
    method Expand(root: FileId, depth: int, dir: Direction, q: Entry,
                  visited0: set<FileId>, queue0: seq<Entry>, hits0: seq<Hit>, ghost dist0: map<FileId, nat>)
      returns (visited: set<FileId>, queue: seq<Entry>, hits: seq<Hit>, ghost dist: map<FileId, nat>)
      requires Valid() && q.depth < depth
      requires Midway(edges, dir, root, depth, dist0, queue0, hits0, q) && visited0 == dist0.Keys <= files.Keys
      ensures Midway(edges, dir, root, depth, dist, queue, hits, q) && visited == dist.Keys <= files.Keys
      ensures Finished(edges, dir, dist, q.file)
      ensures visited0 < visited || (visited == visited0 && queue == queue0)
    {
      hide Midway;
      visited, queue, hits, dist := visited0, queue0, hits0, dist0;
      var adjacent := Adjacent(edges, dir, q.file);
      var i := 0;
      while i < |adjacent|
        invariant 0 <= i <= |adjacent|
        invariant Midway(edges, dir, root, depth, dist, queue, hits, q) && visited == dist.Keys <= files.Keys
        invariant visited0 < visited || (visited == visited0 && queue == queue0)
        invariant forall k | 0 <= k < i :: Next(adjacent[k], dir) in visited
      {
        assert adjacent[i] in adjacent;
        visited, queue, hits, dist := Visit(root, depth, dir, q, adjacent[i], visited, queue, hits, dist);
        i := i + 1;
      }
      forall e | e in edges && From(e, dir) == q.file ensures Next(e, dir) in dist {
        var k :| 0 <= k < |adjacent| && adjacent[k] == e;
      }
    }

    /** One edge: a file not seen before is recorded and queued, one hop further. */
    method Visit(root: FileId, depth: int, dir: Direction, q: Entry, e: LineageEdge,
                 visited0: set<FileId>, queue0: seq<Entry>, hits0: seq<Hit>, ghost dist0: map<FileId, nat>)
      returns (visited: set<FileId>, queue: seq<Entry>, hits: seq<Hit>, ghost dist: map<FileId, nat>)
      requires Valid() && q.depth < depth && e in edges && From(e, dir) == q.file
      requires Midway(edges, dir, root, depth, dist0, queue0, hits0, q) && visited0 == dist0.Keys <= files.Keys
      ensures Midway(edges, dir, root, depth, dist, queue, hits, q) && visited == dist.Keys <= files.Keys
      ensures visited == visited0 + {Next(e, dir)} && (visited == visited0 ==> queue == queue0)
    {
      hide Midway, Ball;
      visited, queue, hits, dist := visited0, queue0, hits0, dist0;
      var next := Next(e, dir);
      if next !in visited {
        Discover(edges, dir, root, depth, dist, queue, hits, q, e);
        visited := visited + {next};
        hits := hits + [Hit(next, e)];
        queue := queue + [Entry(next, q.depth + 1)];
        dist := dist[next := q.depth + 1];
      }
    }

    // ---------------------------------------------------------- the whole graph around a file

    /**
     Walks up and down from `root` with one queue and one visited map, on any lineage.  Every file
     returned is an ancestor or a descendant within the bound.  On acyclic lineage the files are
     exactly those, and no edge is listed twice.
     */
    method GetFullGraph(root: FileId, maxDepth: int, ghost rank: FileId -> nat) returns (result: Option<FullGraph>)
      requires Valid()
      ensures result.None? <==> root !in files
      ensures result.Some? ==> Enclosed(edges, root, Hops(maxDepth), result.value)
      ensures result.Some? && AcyclicLineage(edges, rank) ==> Surrounds(edges, root, Hops(maxDepth), result.value)
    {
      hide Ball, Both, AcyclicLineage, Reached;
      if root !in files { return None; }
      var nodes, listed: seq<LineageEdge> := {root}, [];
      var bound := Hops(maxDepth);
      var queue := [Task(root, 0, UP), Task(root, 0, DOWN)];
      ghost var found := Found(map[root := 0], map[root := 0]);
      BothStart(edges, root, bound);
      ReachedStart(edges, root, bound);
      while queue != []
        invariant Reached(edges, root, bound, nodes, queue, listed) && nodes <= files.Keys
        invariant AcyclicLineage(edges, rank) ==>
          Both(edges, root, bound, found, queue, listed) && nodes == found.up.Keys + found.down.Keys
        decreases files.Keys - nodes, |queue|
      {
        nodes, queue, listed, found := Turn(root, bound, rank, nodes, queue, listed, found);
      }
      if AcyclicLineage(edges, rank) { BothEnd(edges, root, bound, found, listed); }
      ReachedEnd(edges, root, bound, nodes, listed);
      return Some(FullGraph(nodes, listed));
    }

    /** One turn of the loop: the head of the queue. */
    method Turn(root: FileId, bound: nat, ghost rank: FileId -> nat, nodes0: set<FileId>, queue0: seq<Task>,
                listed0: seq<LineageEdge>, ghost found0: Found)
      returns (nodes: set<FileId>, queue: seq<Task>, listed: seq<LineageEdge>, ghost found: Found)
      requires Valid() && queue0 != [] && Reached(edges, root, bound, nodes0, queue0, listed0) && nodes0 <= files.Keys
      requires AcyclicLineage(edges, rank) ==>
        Both(edges, root, bound, found0, queue0, listed0) && nodes0 == found0.up.Keys + found0.down.Keys
      ensures Reached(edges, root, bound, nodes, queue, listed) && nodes <= files.Keys
      ensures AcyclicLineage(edges, rank) ==>
        Both(edges, root, bound, found, queue, listed) && nodes == found.up.Keys + found.down.Keys
      ensures nodes0 < nodes || (nodes == nodes0 && |queue| < |queue0|)
    {
      hide Both, Halfway, Opened, Half, Later, Ball, AcyclicLineage, Reached;
      nodes, listed, found := nodes0, listed0, found0;
      var t := queue0[0];
      queue := queue0[1..];
      ReachedPop(edges, root, bound, nodes, queue0, listed);
      ghost var mine, other := found.Of(t.dir), found.Of(Opposite(t.dir));
      if t.depth < bound {
        if AcyclicLineage(edges, rank) { HalfwayStart(edges, root, bound, found0, nodes, queue0, listed); }
        nodes, queue, listed, mine := ExpandBoth(root, bound, rank, t, nodes, queue, listed, mine, other);
        if AcyclicLineage(edges, rank) {
          HalfwayEnd(edges, rank, root, bound, found0, queue0, listed0, nodes, queue, mine);
        }
        found := found.With(t.dir, mine);
      } else if AcyclicLineage(edges, rank) {
        BothPop(edges, root, bound, found, queue0, listed);
        BothSkip(edges, root, bound, found, queue0, listed);
      }
    }

    /** The inner loop of the full graph: lists every edge of the file and queues what is new. */
    method ExpandBoth(root: FileId, bound: nat, ghost rank: FileId -> nat, t: Task,
                      nodes0: set<FileId>, queue0: seq<Task>, listed0: seq<LineageEdge>,
                      ghost dist0: map<FileId, nat>, ghost other: map<FileId, nat>)
      returns (nodes: set<FileId>, queue: seq<Task>, listed: seq<LineageEdge>, ghost dist: map<FileId, nat>)
      requires Valid() && t.depth < bound && nodes0 <= files.Keys
      requires Reached(edges, root, bound, nodes0, queue0, listed0) && Reaching(edges, root, nodes0, t)
      requires AcyclicLineage(edges, rank) ==>
        Halfway(edges, root, bound, t, dist0, queue0, nodes0, queue0, dist0, other)
      ensures Reached(edges, root, bound, nodes, queue, listed) && nodes <= files.Keys
      ensures listed == listed0 + Adjacent(edges, t.dir, t.file)
      ensures AcyclicLineage(edges, rank) ==>
        Halfway(edges, root, bound, t, dist0, queue0, nodes, queue, dist, other) && Finished(edges, t.dir, dist, t.file)
      ensures nodes0 < nodes || (nodes == nodes0 && queue == queue0)
    {
      hide Halfway, Ball, AcyclicLineage, Reached, Reaching;
      nodes, queue, listed, dist := nodes0, queue0, listed0, dist0;
      var adjacent := Adjacent(edges, t.dir, t.file);
      var i := 0;
      while i < |adjacent|
        invariant 0 <= i <= |adjacent|
        invariant Reached(edges, root, bound, nodes, queue, listed) && Reaching(edges, root, nodes, t)
          && nodes <= files.Keys
        invariant listed == listed0 + adjacent[..i]
        invariant AcyclicLineage(edges, rank) ==>
          Halfway(edges, root, bound, t, dist0, queue0, nodes, queue, dist, other)
        invariant AcyclicLineage(edges, rank) ==> forall k | 0 <= k < i :: Next(adjacent[k], t.dir) in dist
        invariant nodes0 < nodes || (nodes == nodes0 && queue == queue0)
      {
        var e := adjacent[i];
        assert e in adjacent;
        var next := Next(e, t.dir);
        ReachedNext(edges, root, bound, nodes, queue, listed, t, e);
        listed := listed + [e];
        if next !in nodes {
          if AcyclicLineage(edges, rank) {
            HalfwayDiscovers(edges, root, bound, t, dist0, queue0, nodes, queue, dist, other, e);
            dist := dist[next := t.depth + 1];
          }
          nodes := nodes + {next};
          queue := queue + [Task(next, t.depth + 1, t.dir)];
        } else if AcyclicLineage(edges, rank) {
          HalfwaySeen(edges, rank, root, bound, t, dist0, queue0, nodes, queue, dist, other, e);
        }
        i := i + 1;
      }
      assert adjacent[..i] == adjacent;
      if AcyclicLineage(edges, rank) {
        forall e | e in edges && From(e, t.dir) == t.file ensures Next(e, t.dir) in dist {
          var k :| 0 <= k < |adjacent| && adjacent[k] == e;
        }
      }
    }
  }

  /** The state in the middle of expanding the file of `q`. */
  ghost predicate Midway(es: seq<LineageEdge>, dir: Direction, root: FileId, depth: int,
                         dist: map<FileId, nat>, queue: seq<Entry>, hits: seq<Hit>, q: Entry)
  {
    && Expanding(es, dir, root, depth, dist, queue, q.file, q.depth)
    && Ball(es, dir, root, q.depth) <= dist.Keys
    && Recorded(es, dir, root, depth, dist, hits)
    && Nearing(dir, dist, hits) && NoneFurther(dist, q.depth + 1)
  }

  /** So far the hits are in the order of their distances, and the edge of each starts one hop closer. */
  ghost predicate Nearing(dir: Direction, dist: map<FileId, nat>, hits: seq<Hit>) {
    && (forall i | 0 <= i < |hits| :: hits[i].file in dist && From(hits[i].via, dir) in dist
         && dist[hits[i].file] == dist[From(hits[i].via, dir)] + 1)
    && forall i, j | 0 <= i < j < |hits| :: dist[hits[i].file] <= dist[hits[j].file]
  }

  lemma NearingExtends(dir: Direction, dist: map<FileId, nat>, hits: seq<Hit>, d: nat, e: LineageEdge)
    requires Nearing(dir, dist, hits) && NoneFurther(dist, d)
    requires Next(e, dir) !in dist && From(e, dir) in dist && dist[From(e, dir)] + 1 == d
    ensures Nearing(dir, dist[Next(e, dir) := d], hits + [Hit(Next(e, dir), e)])
    ensures NoneFurther(dist[Next(e, dir) := d], d)
  {
    var dist', hits' := dist[Next(e, dir) := d], hits + [Hit(Next(e, dir), e)];
    assert forall f | f in dist :: dist'[f] == dist[f];
    assert forall i | 0 <= i < |hits| :: hits'[i] == hits[i];
  }

  ghost predicate NoneFurther(dist: map<FileId, nat>, d: nat) {
    forall f | f in dist :: dist[f] <= d
  }

  lemma FurtherOn(es: seq<LineageEdge>, dir: Direction, root: FileId, bound: int, dist: map<FileId, nat>,
                  queue: seq<Entry>, f: FileId, d: nat)
    requires Expanding(es, dir, root, bound, dist, queue, f, d) && NoneFurther(dist, d + 1)
    ensures queue != [] ==> NoneFurther(dist, queue[0].depth + 1)
  {
    if queue != [] { assert queue[0] in queue; }
  }

  /** Hits come in the order of their distances, and the edge of each starts one hop closer. */
  ghost predicate NearestFirst(es: seq<LineageEdge>, dir: Direction, root: FileId, hits: seq<Hit>) {
    && (forall i, j, k: nat | 0 <= i < j < |hits| && hits[j].file in Ball(es, dir, root, k) ::
          hits[i].file in Ball(es, dir, root, k))
    && forall h, k: nat | h in hits && k > 0 && h.file in Ball(es, dir, root, k) ::
         From(h.via, dir) in Ball(es, dir, root, k - 1)
  }

  lemma HitsNearestFirst(es: seq<LineageEdge>, dir: Direction, root: FileId, dist: map<FileId, nat>, hits: seq<Hit>)
    requires Exact(es, dir, root, dist) && Nearing(dir, dist, hits)
    ensures NearestFirst(es, dir, root, hits)
  {
    hide Ball, Exact;
    forall i, j, k: nat | 0 <= i < j < |hits| && hits[j].file in Ball(es, dir, root, k)
      ensures hits[i].file in Ball(es, dir, root, k)
    {
      ExactBall(es, dir, root, dist, hits[j].file, k);
      ExactBall(es, dir, root, dist, hits[i].file, k);
    }
    forall h, k: nat | h in hits && k > 0 && h.file in Ball(es, dir, root, k)
      ensures From(h.via, dir) in Ball(es, dir, root, k - 1)
    {
      var i :| 0 <= i < |hits| && hits[i] == h;
      ExactBall(es, dir, root, dist, h.file, k);
      ExactBall(es, dir, root, dist, From(h.via, dir), k - 1);
    }
  }

  lemma ExactBall(es: seq<LineageEdge>, dir: Direction, root: FileId, dist: map<FileId, nat>, f: FileId, k: nat)
    requires Exact(es, dir, root, dist) && f in dist
    ensures f in Ball(es, dir, root, k) <==> dist[f] <= k
  {
    if dist[f] <= k { BallGrows(es, dir, root, dist[f], k); }
  }

  lemma Discover(es: seq<LineageEdge>, dir: Direction, root: FileId, depth: int,
                 dist: map<FileId, nat>, queue: seq<Entry>, hits: seq<Hit>, q: Entry, e: LineageEdge)
    requires Midway(es, dir, root, depth, dist, queue, hits, q) && q.depth < depth
    requires e in es && From(e, dir) == q.file && Next(e, dir) !in dist
    ensures Midway(es, dir, root, depth, dist[Next(e, dir) := q.depth + 1],
                   queue + [Entry(Next(e, dir), q.depth + 1)], hits + [Hit(Next(e, dir), e)], q)
  {
    hide Ball, Search, Recorded, Nearing, NoneFurther;
    assert q.file in dist && dist[q.file] == q.depth;
    hide Expanding;
    SearchDiscovers(es, dir, root, depth, dist, queue, q.file, q.depth, e);
    NearingExtends(dir, dist, hits, q.depth + 1, e);
    RecordedExtends(es, dir, root, depth, dist, hits, q.depth + 1, e);
  }

  /** The hits are exactly the files found so far, other than the root. */
  ghost predicate Recorded(es: seq<LineageEdge>, dir: Direction, root: FileId, depth: int, dist: map<FileId, nat>,
                           hits: seq<Hit>)
  {
    && root in dist && dist[root] == 0
    && (forall f | f in dist && f != root :: 0 < dist[f] <= depth)
    && (forall i, j | 0 <= i < j < |hits| :: hits[i].file != hits[j].file)
    && (forall h | h in hits :: h.via in es && Next(h.via, dir) == h.file && h.file in dist && h.file != root)
    && forall f | f in dist && f != root :: exists h | h in hits :: h.file == f
  }

  lemma RecordedExtends(es: seq<LineageEdge>, dir: Direction, root: FileId, depth: int,
                        dist: map<FileId, nat>, hits: seq<Hit>, d: nat, e: LineageEdge)
    requires Recorded(es, dir, root, depth, dist, hits) && 0 < d <= depth
    requires e in es && Next(e, dir) !in dist
    ensures Recorded(es, dir, root, depth, dist[Next(e, dir) := d], hits + [Hit(Next(e, dir), e)])
  {
    var hits' := hits + [Hit(Next(e, dir), e)];
    assert forall h :: h in hits' <==> h in hits || h == Hit(Next(e, dir), e);
    forall i, j | 0 <= i < j < |hits'| ensures hits'[i].file != hits'[j].file {
      assert hits'[i] in hits;
    }
    forall f | f in dist && f != root ensures exists h | h in hits' :: h.file == f {
      var h :| h in hits && h.file == f;
      assert h in hits';
    }
  }

  // ------------------------------------------------------------ two searches in one queue

  /** The distances found so far on either side. */
  datatype Found = Found(up: map<FileId, nat>, down: map<FileId, nat>) {
    function Of(dir: Direction): map<FileId, nat> {
      if dir == UP then up else down
    }

    function With(dir: Direction, dist: map<FileId, nat>): Found {
      if dir == UP then this.(up := dist) else this.(down := dist)
    }
  }

  /** The entries of one direction. */
  ghost function Only(queue: seq<Task>, dir: Direction): seq<Entry> {
    if queue == [] then []
    else if queue[0].dir == dir then [Entry(queue[0].file, queue[0].depth)] + Only(queue[1..], dir)
    else Only(queue[1..], dir)
  }

  lemma {:induction false} OnlyAppend(queue: seq<Task>, t: Task, dir: Direction)
    ensures Only(queue + [t], dir) == Only(queue, dir) + if t.dir == dir then [Entry(t.file, t.depth)] else []
  {
    if queue == [] {
      assert queue + [t] == [t];
    } else {
      assert (queue + [t])[1..] == queue[1..] + [t];
      OnlyAppend(queue[1..], t, dir);
    }
  }

  ghost predicate Within(dist: map<FileId, nat>, bound: nat) {
    forall f | f in dist :: dist[f] <= bound
  }

  /** One direction of the search, between two turns of the loop. */
  ghost predicate Half(es: seq<LineageEdge>, dir: Direction, root: FileId, bound: nat, dist: map<FileId, nat>,
                       queue: seq<Task>)
  {
    Search(es, dir, root, bound, dist, Only(queue, dir), {}) && Waiting(dist, Only(queue, dir)) && Within(dist, bound)
  }

  /** The direction of `t`, while the edges of its file are being walked. */
  ghost predicate Opened(es: seq<LineageEdge>, root: FileId, bound: nat, dist: map<FileId, nat>, queue: seq<Task>,
                         t: Task)
  {
    && Expanding(es, t.dir, root, bound, dist, Only(queue, t.dir), t.file, t.depth)
    && Ball(es, t.dir, root, t.depth) <= dist.Keys
    && Within(dist, bound)
  }

  /** The edges of this file have been listed from this direction. */
  ghost predicate Walked(dir: Direction, dist: map<FileId, nat>, queue: seq<Task>, bound: nat, f: FileId) {
    f in dist && dist[f] < bound && !Queued(Only(queue, dir), f)
  }

  ghost predicate ListedFrom(es: seq<LineageEdge>, bound: nat, dir: Direction, mine: map<FileId, nat>,
                             other: map<FileId, nat>,
                             queue: seq<Task>, listed: seq<LineageEdge>)
  {
    && NoRepeats(listed)
    && forall e :: e in listed <==> (e in es &&
         (Walked(dir, mine, queue, bound, From(e, dir))
           || Walked(Opposite(dir), other, queue, bound, From(e, Opposite(dir)))))
  }

  ghost predicate Sides(es: seq<LineageEdge>, root: FileId, bound: nat, dir: Direction,
                        mine: map<FileId, nat>, other: map<FileId, nat>, queue: seq<Task>, listed: seq<LineageEdge>)
  {
    && Half(es, dir, root, bound, mine, queue)
    && Half(es, Opposite(dir), root, bound, other, queue)
    && ListedFrom(es, bound, dir, mine, other, queue, listed)
  }

  ghost predicate Both(es: seq<LineageEdge>, root: FileId, bound: nat, found: Found, queue: seq<Task>,
                       listed: seq<LineageEdge>)
  {
    Sides(es, root, bound, UP, found.up, found.down, queue, listed)
  }

  lemma SidesSwap(es: seq<LineageEdge>, root: FileId, bound: nat, dir: Direction,
                  mine: map<FileId, nat>, other: map<FileId, nat>, queue: seq<Task>, listed: seq<LineageEdge>)
    requires Sides(es, root, bound, dir, mine, other, queue, listed)
    ensures Sides(es, root, bound, Opposite(dir), other, mine, queue, listed)
  {
  }

  /** The two sides are symmetric. */
  lemma BothFrom(es: seq<LineageEdge>, root: FileId, bound: nat, dir: Direction, found: Found, queue: seq<Task>,
                 listed: seq<LineageEdge>)
    ensures Both(es, root, bound, found, queue, listed)
      <==> Sides(es, root, bound, dir, found.Of(dir), found.Of(Opposite(dir)), queue, listed)
  {
    if dir == DOWN {
      if Both(es, root, bound, found, queue,
        listed) { SidesSwap(es, root, bound, UP, found.up, found.down, queue, listed); }
      if Sides(es, root, bound, DOWN, found.down, found.up, queue, listed) {
        SidesSwap(es, root, bound, DOWN, found.down, found.up, queue, listed);
      }
    }
  }

  lemma BothStart(es: seq<LineageEdge>, root: FileId, bound: nat)
    ensures Both(es, root, bound, Found(map[root := 0], map[root := 0]), [Task(root, 0, UP), Task(root, 0, DOWN)], [])
  {
    var queue := [Task(root, 0, UP), Task(root, 0, DOWN)];
    var rest := [Task(root, 0, DOWN)];
    assert queue[1..] == rest && rest[1..] == [];
    assert Only(rest[1..], UP) == [] && Only(rest[1..], DOWN) == [];
    assert Only(rest, UP) == [] && Only(rest, DOWN) == [Entry(root, 0)];
    assert Only(queue, UP) == [Entry(root, 0)] && Only(queue, DOWN) == [Entry(root, 0)];
    SearchStarts(es, UP, root, bound);
    SearchStarts(es, DOWN, root, bound);
    assert Entry(root, 0) in [Entry(root, 0)];
  }

  /** The head of the queue opens its own direction and leaves the other alone. */
  lemma HeadOpens(es: seq<LineageEdge>, root: FileId, bound: nat, mine: map<FileId, nat>, queue: seq<Task>)
    requires queue != [] && Half(es, queue[0].dir, root, bound, mine, queue)
    ensures Opened(es, root, bound, mine, queue[1..], queue[0])
  {
    var t := queue[0];
    SearchPops(es, t.dir, root, bound, mine, Only(queue, t.dir));
    assert Only(queue, t.dir)[1..] == Only(queue[1..], t.dir);
  }

  lemma OtherStays(es: seq<LineageEdge>, root: FileId, bound: nat, dir: Direction, other: map<FileId, nat>,
                   queue: seq<Task>)
    requires queue != [] && queue[0].dir != dir && Half(es, dir, root, bound, other, queue)
    ensures Half(es, dir, root, bound, other, queue[1..]) && Only(queue[1..], dir) == Only(queue, dir)
  {
  }

  lemma BothPop(es: seq<LineageEdge>, root: FileId, bound: nat, found: Found, queue: seq<Task>,
                listed: seq<LineageEdge>)
    requires queue != [] && Both(es, root, bound, found, queue, listed)
    ensures var t := queue[0];
      && Opened(es, root, bound, found.Of(t.dir), queue[1..], t)
      && Half(es, Opposite(t.dir), root, bound, found.Of(Opposite(t.dir)), queue[1..])
  {
    hide Search, Waiting, Within;
    var t := queue[0];
    BothFrom(es, root, bound, t.dir, found, queue, listed);
    HeadOpens(es, root, bound, found.Of(t.dir), queue);
    OtherStays(es, root, bound, Opposite(t.dir), found.Of(Opposite(t.dir)), queue);
  }

  /** What was found before is unchanged, and everything found since is waiting. */
  ghost predicate Later(dir: Direction, dist0: map<FileId, nat>, queue0: seq<Task>, dist: map<FileId, nat>,
                        queue: seq<Task>)
  {
    && (forall f | f in dist0 ::
      f in dist && dist[f] == dist0[f] && (Queued(Only(queue, dir), f) <==> Queued(Only(queue0, dir), f)))
    && forall f | f in dist && f !in dist0 :: Queued(Only(queue, dir), f)
  }

  lemma LaterItself(dir: Direction, dist: map<FileId, nat>, queue: seq<Task>)
    ensures Later(dir, dist, queue, dist, queue)
  {
  }

  lemma QueuedAppend(tasks: seq<Entry>, q: Entry, f: FileId)
    ensures Queued(tasks + [q], f) <==> Queued(tasks, f) || f == q.file
  {
    assert forall r :: r in tasks + [q] <==> r in tasks || r == q;
  }

  lemma LaterExtends(dir: Direction, dist0: map<FileId, nat>, queue0: seq<Task>, dist: map<FileId, nat>,
                     queue: seq<Task>, n: FileId, d: nat)
    requires Later(dir, dist0, queue0, dist, queue) && n !in dist
    ensures Later(dir, dist0, queue0, dist[n := d], queue + [Task(n, d, dir)])
  {
    OnlyAppend(queue, Task(n, d, dir), dir);
    forall f ensures Queued(Only(queue, dir) + [Entry(n, d)], f) <==> Queued(Only(queue, dir), f) || f == n {
      QueuedAppend(Only(queue, dir), Entry(n, d), f);
    }
  }

  /** A file that neither side has seen extends the side being walked. */
  lemma TaskDiscovered(es: seq<LineageEdge>, root: FileId, bound: nat, dist0: map<FileId, nat>, queue0: seq<Task>,
                       dist: map<FileId, nat>, queue: seq<Task>, other: map<FileId, nat>, t: Task, e: LineageEdge)
    requires Opened(es, root, bound, dist, queue, t) && Half(es, Opposite(t.dir), root, bound, other, queue)
    requires Later(t.dir, dist0, queue0, dist, queue) && t.depth < bound
    requires e in es && From(e, t.dir) == t.file && Next(e, t.dir) !in dist
    ensures var n := Next(e, t.dir); var queue' := queue + [Task(n, t.depth + 1, t.dir)];
      && Opened(es, root, bound, dist[n := t.depth + 1], queue', t)
      && Half(es, Opposite(t.dir), root, bound, other, queue')
      && Only(queue', Opposite(t.dir)) == Only(queue, Opposite(t.dir))
      && Later(t.dir, dist0, queue0, dist[n := t.depth + 1], queue')
  {
    hide Search, Ball, Later, Waiting;
    var n := Next(e, t.dir);
    var task := Task(n, t.depth + 1, t.dir);
    OnlyAppend(queue, task, t.dir);
    OnlyAppend(queue, task, Opposite(t.dir));
    assert Only(queue, Opposite(t.dir)) + [] == Only(queue, Opposite(t.dir));
    SearchDiscovers(es, t.dir, root, bound, dist, Only(queue, t.dir), t.file, t.depth, e);
    LaterExtends(t.dir, dist0, queue0, dist, queue, n, t.depth + 1);
  }

  /** A neighbour already seen was seen from this side: the other side lies across the root. */
  lemma SeenOnThisSide(es: seq<LineageEdge>, rank: FileId -> nat, root: FileId, bound: nat,
                       dist: map<FileId, nat>, queue: seq<Task>, other: map<FileId, nat>, t: Task, e: LineageEdge)
    requires AcyclicLineage(es, rank)
    requires Opened(es, root, bound, dist, queue, t) && Half(es, Opposite(t.dir), root, bound, other, queue)
    requires e in es && From(e, t.dir) == t.file && Next(e, t.dir) in dist.Keys + other.Keys
    ensures Next(e, t.dir) in dist
  {
    var n := Next(e, t.dir);
    if n in other {
      assert n in Ball(es, Opposite(t.dir), root, other[n]) && t.file in Ball(es, t.dir, root, dist[t.file]);
      SidesAreApart(es, rank, root, t.dir, dist[t.file], other[n], e);
    }
  }

  // ------------------------------------------------------------ any lineage

  /** The task's file was found, at most as many hops away as it says. */
  ghost predicate Reaching(es: seq<LineageEdge>, root: FileId, nodes: set<FileId>, t: Task) {
    t.file in nodes && t.file in Ball(es, t.dir, root, t.depth)
  }

  /** What holds of the loop on any edges, cycles included. */
  ghost predicate Reached(es: seq<LineageEdge>, root: FileId, bound: nat, nodes: set<FileId>, queue: seq<Task>,
                          listed: seq<LineageEdge>)
  {
    && Enclosed(es, root, bound, FullGraph(nodes, listed))
    && forall t | t in queue :: Reaching(es, root, nodes, t)
  }

  lemma ReachedStart(es: seq<LineageEdge>, root: FileId, bound: nat)
    ensures Reached(es, root, bound, {root}, [Task(root, 0, UP), Task(root, 0, DOWN)], [])
  {
    BallGrows(es, UP, root, 0, bound);
  }

  lemma ReachedPop(es: seq<LineageEdge>, root: FileId, bound: nat, nodes: set<FileId>, queue: seq<Task>,
                   listed: seq<LineageEdge>)
    requires queue != [] && Reached(es, root, bound, nodes, queue, listed)
    ensures Reached(es, root, bound, nodes, queue[1..], listed) && Reaching(es, root, nodes, queue[0])
  {
  }

  /** One edge is listed and its other end found, one hop further. */
  lemma ReachedNext(es: seq<LineageEdge>, root: FileId, bound: nat, nodes: set<FileId>, queue: seq<Task>,
                    listed: seq<LineageEdge>,
                    t: Task, e: LineageEdge)
    requires Reached(es, root, bound, nodes, queue, listed) && Reaching(es, root, nodes, t) && t.depth < bound
    requires e in es && From(e, t.dir) == t.file
    ensures var next := Next(e, t.dir);
      && Reached(es, root, bound, nodes + {next}, queue + [Task(next, t.depth + 1, t.dir)], listed + [e])
      && (next in nodes ==> Reached(es, root, bound, nodes, queue, listed + [e]))
      && Reaching(es, root, nodes + {next}, t)
  {
    var n := Next(e, t.dir);
    var next := Task(n, t.depth + 1, t.dir);
    OneHop(es, root, bound, nodes, t, e);
    EnclosedMore(es, root, bound, nodes, listed, n, e);
    ReachingMore(es, root, nodes, queue, n, next);
    hide Enclosed, Reaching, Ball;
    if n in nodes { assert nodes + {n} == nodes; }
  }

  lemma OneHop(es: seq<LineageEdge>, root: FileId, bound: nat, nodes: set<FileId>, t: Task, e: LineageEdge)
    requires Reaching(es, root, nodes, t) && t.depth < bound && e in es && From(e, t.dir) == t.file
    ensures var n := Next(e, t.dir);
      && n in Ball(es, UP, root, bound) + Ball(es, DOWN, root, bound)
      && e.up in nodes + {n} && e.down in nodes + {n}
      && Reaching(es, root, nodes + {n}, Task(n, t.depth + 1, t.dir)) && Reaching(es, root, nodes + {n}, t)
  {
    hide Ball;
    BallReaches(es, t.dir, root, t.depth, e);
    BallGrows(es, t.dir, root, t.depth + 1, bound);
    assert t.dir == UP || t.dir == DOWN;
  }

  lemma ReachingMore(es: seq<LineageEdge>, root: FileId, nodes: set<FileId>, queue: seq<Task>, n: FileId, next: Task)
    requires (forall q | q in queue :: Reaching(es, root, nodes, q)) && Reaching(es, root, nodes + {n}, next)
    ensures forall q | q in queue + [next] :: Reaching(es, root, nodes + {n}, q)
  {
    hide Ball;
    assert forall q :: q in queue + [next] <==> q in queue || q == next;
  }

  lemma EnclosedMore(es: seq<LineageEdge>, root: FileId, bound: nat, nodes: set<FileId>, listed: seq<LineageEdge>,
                     n: FileId, e: LineageEdge)
    requires Enclosed(es, root, bound, FullGraph(nodes, listed)) && e in es
    requires n in Ball(es, UP, root, bound) + Ball(es, DOWN, root, bound)
    requires e.up in nodes + {n} && e.down in nodes + {n}
    ensures Enclosed(es, root, bound, FullGraph(nodes + {n}, listed + [e]))
  {
    hide Ball;
    assert forall d :: d in listed + [e] <==> d in listed || d == e;
  }

  lemma ReachedEnd(es: seq<LineageEdge>, root: FileId, bound: nat, nodes: set<FileId>, listed: seq<LineageEdge>)
    requires Reached(es, root, bound, nodes, [], listed)
    ensures Enclosed(es, root, bound, FullGraph(nodes, listed))
  {
  }

  // ------------------------------------------------------------ one file, on acyclic lineage

  /** Between two edges of the file of `t`: this side has grown from `dist0` to `dist`, the other is as it was. */
  ghost predicate Halfway(es: seq<LineageEdge>, root: FileId, bound: nat, t: Task, dist0: map<FileId, nat>,
                          queue0: seq<Task>,
                          nodes: set<FileId>, queue: seq<Task>, dist: map<FileId, nat>, other: map<FileId, nat>)
  {
    && Opened(es, root, bound, dist, queue, t) && Half(es, Opposite(t.dir), root, bound, other, queue)
    && nodes == dist.Keys + other.Keys
    && Later(t.dir, dist0, queue0, dist, queue)
    && Only(queue, Opposite(t.dir)) == Only(queue0, Opposite(t.dir))
  }

  lemma HalfwayStart(es: seq<LineageEdge>, root: FileId, bound: nat, found: Found, nodes: set<FileId>, queue: seq<Task>,
                     listed: seq<LineageEdge>)
    requires queue != [] && Both(es, root, bound, found, queue, listed) && nodes == found.up.Keys + found.down.Keys
    ensures var t := queue[0]; var mine, other := found.Of(t.dir), found.Of(Opposite(t.dir));
      Halfway(es, root, bound, t, mine, queue[1..], nodes, queue[1..], mine, other)
  {
    BothPop(es, root, bound, found, queue, listed);
    LaterItself(queue[0].dir, found.Of(queue[0].dir), queue[1..]);
    hide Both, Opened, Half, Later;
  }

  lemma HalfwayDiscovers(es: seq<LineageEdge>, root: FileId, bound: nat, t: Task, dist0: map<FileId, nat>,
                         queue0: seq<Task>,
                         nodes: set<FileId>, queue: seq<Task>, dist: map<FileId, nat>, other: map<FileId, nat>,
                           e: LineageEdge)
    requires Halfway(es, root, bound, t, dist0, queue0, nodes, queue, dist, other) && t.depth < bound
    requires e in es && From(e, t.dir) == t.file && Next(e, t.dir) !in nodes
    ensures var n := Next(e, t.dir);
      Halfway(es, root, bound, t, dist0, queue0, nodes + {n}, queue + [Task(n, t.depth + 1, t.dir)],
        dist[n := t.depth + 1], other)
  {
    TaskDiscovered(es, root, bound, dist0, queue0, dist, queue, other, t, e);
    hide Opened, Half, Later, Ball, Only;
  }

  lemma HalfwaySeen(es: seq<LineageEdge>, rank: FileId -> nat, root: FileId, bound: nat, t: Task, dist0: map<FileId,
                    nat>,
                    queue0: seq<Task>, nodes: set<FileId>, queue: seq<Task>, dist: map<FileId, nat>, other: map<FileId,
                      nat>,
                    e: LineageEdge)
    requires AcyclicLineage(es, rank) && Halfway(es, root, bound, t, dist0, queue0, nodes, queue, dist, other)
    requires e in es && From(e, t.dir) == t.file && Next(e, t.dir) in nodes
    ensures Next(e, t.dir) in dist
  {
    SeenOnThisSide(es, rank, root, bound, dist, queue, other, t, e);
  }

  lemma HalfwayEnd(es: seq<LineageEdge>, rank: FileId -> nat, root: FileId, bound: nat, found: Found,
                   waiting: seq<Task>,
                   seen: seq<LineageEdge>, nodes: set<FileId>, queue: seq<Task>, dist: map<FileId, nat>)
    requires AcyclicLineage(es, rank) && NoRepeats(es) && waiting != [] && waiting[0].depth < bound
    requires Both(es, root, bound, found, waiting, seen)
    requires var t := waiting[0];
      && Halfway(es, root, bound, t, found.Of(t.dir), waiting[1..], nodes, queue, dist, found.Of(Opposite(t.dir)))
      && Finished(es, t.dir, dist, t.file)
    ensures var t := waiting[0]; var found' := found.With(t.dir, dist);
      && Both(es, root, bound, found', queue, seen + Adjacent(es, t.dir, t.file))
      && nodes == found'.up.Keys + found'.down.Keys
  {
    BothPush(es, rank, root, bound, waiting[0], found, waiting, seen, dist, queue);
  }

  // ------------------------------------------------------------ one turn of the loop

  /** Exactly the popped file joins the walked ones. */
  lemma WalkedAfter(es: seq<LineageEdge>, root: FileId, bound: nat, was: map<FileId, nat>, waiting: seq<Task>,
                    dist: map<FileId, nat>, queue: seq<Task>, f: FileId)
    requires waiting != [] && Half(es, waiting[0].dir, root, bound, was, waiting)
    requires Later(waiting[0].dir, was, waiting[1..], dist, queue)
    ensures var t := waiting[0];
      Walked(t.dir, dist, queue, bound, f) <==>
        (f == t.file && t.depth < bound) || Walked(t.dir, was, waiting, bound, f)
  {
    var t := waiting[0];
    var tasks, rest := Only(waiting, t.dir), Only(waiting[1..], t.dir);
    assert tasks[0] == Entry(t.file, t.depth) && tasks[0] in tasks;
    forall q | q in tasks ensures q == tasks[0] || q in rest {}
    forall q | q in rest ensures q in tasks && q.file != t.file {
      var i :| 0 <= i < |rest| && rest[i] == q;
      assert tasks[i + 1] == q;
    }
    assert forall g :: Queued(tasks, g) <==> g == t.file || Queued(rest, g);
  }

  lemma FreshFromHere(es: seq<LineageEdge>, rank: FileId -> nat, root: FileId, bound: nat, mine: map<FileId, nat>,
                      other: map<FileId, nat>, queue: seq<Task>, listed: seq<LineageEdge>, e: LineageEdge)
    requires AcyclicLineage(es, rank) && queue != [] && e in es
    requires Sides(es, root, bound, queue[0].dir, mine, other, queue, listed)
    requires From(e, queue[0].dir) == queue[0].file
    ensures e !in listed
  {
    var t := queue[0];
    var tasks := Only(queue, t.dir);
    assert tasks[0] == Entry(t.file, t.depth) && tasks[0] in tasks;
    assert Queued(tasks, t.file);
    var n := From(e, Opposite(t.dir));
    if n in other {
      assert n in Ball(es, Opposite(t.dir), root, other[n]) && t.file in Ball(es, t.dir, root, mine[t.file]);
      SidesAreApart(es, rank, root, t.dir, mine[t.file], other[n], e);
    }
  }

  lemma NoRepeatsAppend(a: seq<LineageEdge>, b: seq<LineageEdge>)
    requires NoRepeats(a) && NoRepeats(b) && forall e | e in b :: e !in a
    ensures NoRepeats(a + b)
  {
    forall i, j | 0 <= i < j < |a + b| ensures (a + b)[i] != (a + b)[j] {
      if i < |a| <= j { assert a[i] in a && b[j - |a|] in b; }
    }
  }

  lemma ListedAfter(es: seq<LineageEdge>, rank: FileId -> nat, root: FileId, bound: nat, t: Task,
                    was: map<FileId, nat>, other: map<FileId, nat>, waiting: seq<Task>, seen: seq<LineageEdge>,
                    dist: map<FileId, nat>, queue: seq<Task>)
    requires AcyclicLineage(es, rank) && NoRepeats(es) && waiting != [] && t == waiting[0] && t.depth < bound
    requires Sides(es, root, bound, t.dir, was, other, waiting, seen)
    requires Later(t.dir, was, waiting[1..], dist, queue)
    requires Only(queue, Opposite(t.dir)) == Only(waiting[1..], Opposite(t.dir))
    ensures ListedFrom(es, bound, t.dir, dist, other, queue, seen + Adjacent(es, t.dir, t.file))
  {
    hide Search, Waiting, Within;
    var adjacent := Adjacent(es, t.dir, t.file);
    forall e | e in adjacent ensures e !in seen {
      FreshFromHere(es, rank, root, bound, was, other, waiting, seen, e);
    }
    NoRepeatsAppend(seen, adjacent);
    OtherStays(es, root, bound, Opposite(t.dir), other, waiting);
    forall e ensures e in seen + adjacent <==> (e in es &&
      (Walked(t.dir, dist, queue, bound, From(e, t.dir))
        || Walked(Opposite(t.dir), other, queue, bound, From(e, Opposite(t.dir)))))
    {
      WalkedAfter(es, root, bound, was, waiting, dist, queue, From(e, t.dir));
    }
  }

  lemma BothPush(es: seq<LineageEdge>, rank: FileId -> nat, root: FileId, bound: nat, t: Task,
                 found: Found, waiting: seq<Task>, seen: seq<LineageEdge>, dist: map<FileId, nat>, queue: seq<Task>)
    requires AcyclicLineage(es, rank) && NoRepeats(es) && waiting != [] && t == waiting[0] && t.depth < bound
    requires Both(es, root, bound, found, waiting, seen)
    requires Opened(es, root, bound, dist, queue, t)
    requires Half(es, Opposite(t.dir), root, bound, found.Of(Opposite(t.dir)), queue)
    requires Finished(es, t.dir, dist, t.file) && Later(t.dir, found.Of(t.dir), waiting[1..], dist, queue)
    requires Only(queue, Opposite(t.dir)) == Only(waiting[1..], Opposite(t.dir))
    ensures Both(es, root, bound, found.With(t.dir, dist), queue, seen + Adjacent(es, t.dir, t.file))
  {
    hide Search, Waiting, Within, Walked, Expanding, ListedFrom;
    BothFrom(es, root, bound, t.dir, found, waiting, seen);
    ListedAfter(es, rank, root, bound, t, found.Of(t.dir), found.Of(Opposite(t.dir)), waiting, seen, dist, queue);
    SearchFinishes(es, t.dir, root, bound, dist, Only(queue, t.dir), t.file, t.depth);
    BothFrom(es, root, bound, t.dir, found.With(t.dir, dist), queue, seen + Adjacent(es, t.dir, t.file));
  }

  lemma BothSkip(es: seq<LineageEdge>, root: FileId, bound: nat, found: Found, waiting: seq<Task>,
                 listed: seq<LineageEdge>)
    requires waiting != [] && waiting[0].depth >= bound
    requires Both(es, root, bound, found, waiting, listed)
    ensures Both(es, root, bound, found, waiting[1..], listed)
  {
    hide Search, Waiting, Within, Walked, Expanding;
    var t, queue := waiting[0], waiting[1..];
    var mine := found.Of(t.dir);
    BothPop(es, root, bound, found, waiting, listed);
    BothFrom(es, root, bound, t.dir, found, waiting, listed);
    LaterItself(t.dir, mine, queue);
    OtherStays(es, root, bound, Opposite(t.dir), found.Of(Opposite(t.dir)), waiting);
    forall f
      ensures Walked(t.dir, mine, queue, bound, f) <==> Walked(t.dir, mine, waiting, bound, f)
      ensures Walked(Opposite(t.dir), found.Of(Opposite(t.dir)), queue, bound, f)
        <==> Walked(Opposite(t.dir), found.Of(Opposite(t.dir)), waiting, bound, f)
    {
      WalkedAfter(es, root, bound, mine, waiting, mine, queue, f);
      WalkedAlike(Opposite(t.dir), found.Of(Opposite(t.dir)), queue, waiting, bound, f);
    }
    SearchFinishes(es, t.dir, root, bound, mine, Only(queue, t.dir), t.file, t.depth);
    BothFrom(es, root, bound, t.dir, found, queue, listed);
  }

  lemma WalkedAlike(dir: Direction, dist: map<FileId, nat>, a: seq<Task>, b: seq<Task>, bound: nat, f: FileId)
    requires Only(a, dir) == Only(b, dir)
    ensures Walked(dir, dist, a, bound, f) <==> Walked(dir, dist, b, bound, f)
  {
  }

  /** One exhausted side: the ball has been found, and all but its rim has been walked. */
  lemma HalfEnds(es: seq<LineageEdge>, dir: Direction, root: FileId, bound: nat, dist: map<FileId, nat>)
    requires Half(es, dir, root, bound, dist, [])
    ensures dist.Keys == Ball(es, dir, root, bound)
    ensures forall f :: Walked(dir, dist, [], bound, f) <==> bound > 0 && f in Ball(es, dir, root, bound - 1)
    ensures forall e | e in es && Walked(dir, dist, [], bound, From(e, dir)) ::
      Next(e, dir) in dist && From(e, dir) in dist
  {
    SearchEnds(es, dir, root, bound, dist);
    forall f ensures Walked(dir, dist, [], bound, f) <==> bound > 0 && f in Ball(es, dir, root, bound - 1) {
      if f in dist && dist[f] < bound { BallGrows(es, dir, root, dist[f], bound - 1); }
      if bound > 0 { BallGrows(es, dir, root, bound - 1, bound); }
    }
  }

  lemma BothEnd(es: seq<LineageEdge>, root: FileId, bound: nat, found: Found, listed: seq<LineageEdge>)
    requires Both(es, root, bound, found, [], listed)
    ensures found.up.Keys == Ball(es, UP, root, bound) && found.down.Keys == Ball(es, DOWN, root, bound)
    ensures NoRepeats(listed)
    ensures forall e :: e in listed <==> (e in es && bound > 0 &&
      (e.down in Ball(es, UP, root, bound - 1) || e.up in Ball(es, DOWN, root, bound - 1)))
    ensures forall e | e in listed ::
      e.up in found.up.Keys + found.down.Keys && e.down in found.up.Keys + found.down.Keys
  {
    var up, down := found.up, found.down;
    HalfEnds(es, UP, root, bound, up);
    HalfEnds(es, DOWN, root, bound, down);
    forall e | e in listed ensures e.up in up.Keys + down.Keys && e.down in up.Keys + down.Keys {
      if Walked(UP, up, [], bound, e.down) {
        assert From(e, UP) == e.down && Next(e, UP) == e.up;
      } else {
        assert Walked(DOWN, down, [], bound, From(e, DOWN));
        assert From(e, DOWN) == e.up && Next(e, DOWN) == e.down;
      }
    }
  }
}
