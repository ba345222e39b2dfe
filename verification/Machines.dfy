/**
 Versioned workflow definitions: a mutable head, version rows, and iterations pinned to
 version rows.  Starts, forks, deletions and saves of the graph, with whatever head columns
 a save names, never change the graph that a live iteration loads.  A save can also reach
 the version rows themselves through the relation of the head row; exactly when it then
 spares the live iterations, and exactly when the version numbers, the head and the rows
 stay in step, is stated below.
 */
module Machines {
  import opened Wrappers

  type Id = nat
  /** A serialised column; the services never look inside. */
  type Document = nat

  datatype Content = Content(nodes: Document, edges: Document, groups: Document)
  datatype VersionKey = VersionKey(machine: Id, number: int)
  datatype Machine = Machine(head: Content, latestVersion: int)

  /** The version is None for records that predate pinning, and for those whose version row was deleted. */
  datatype Pin = Pin(machine: Id, version: Option<VersionKey>)

  datatype Store = Store(
    machines: map<Id, Machine>,
    versions: map<VersionKey, Content>,
    iterations: map<Id, Pin>,
    nextId: Id)

  const EMPTY := Store(map[], map[], map[], 0)

  /**
   The remaining properties of a save's body are spread into the write of the head row.  They may
   name columns of the head, and version rows of the machine through its relation: `rows` says what
   the rows with these numbers are to hold, or None for those to be deleted.
   */
  datatype Rest = Rest(nodesJson: Option<Document>, edgesJson: Option<Document>, groupsJson: Option<Document>,
                       latestVersion: Option<int>, rows: map<int, Option<Content>>)

  const NO_REST := Rest(None, None, None, None, map[])

  /** What a save carries: an absent part keeps its present value. */
  datatype Patch = Patch(nodes: Option<Document>, edges: Option<Document>, groups: Option<Document>, rest: Rest)

  /** A part of the graph wins over the column of the same name, and either over the present value. */
  function Column(part: Option<Document>, column: Option<Document>, present: Document): Document {
    if part.Some? then part.value else if column.Some? then column.value else present
  }

  function Patched(c: Content, p: Patch): Content {
    Content(
      Column(p.nodes, p.rest.nodesJson, c.nodes),
      Column(p.edges, p.rest.edgesJson, c.edges),
      Column(p.groups, p.rest.groupsJson, c.groups))
  }

  /** Only the parts of the graph count, not the columns. */
  predicate GraphChanged(p: Patch) {
    p.nodes.Some? || p.edges.Some? || p.groups.Some?
  }

  /** The number the head carries after a save that appends no version. */
  function Numbered(latest: int, p: Patch): int {
    if p.rest.latestVersion.Some? then p.rest.latestVersion.value else latest
  }

  // ------------------------------------------------------------ the calls

  /** `headVersionHasIterations`. */
  predicate HeadLocked(s: Store, m: Id, latest: int) {
    VersionKey(m, latest) in s.versions
    && exists it | it in s.iterations :: s.iterations[it].version == Some(VersionKey(m, latest))
  }

  function CreateMachine(s: Store, c: Content): Store {
    s.(machines := s.machines[s.nextId := Machine(c, 1)],
       versions := s.versions[VersionKey(s.nextId, 1) := c],
       nextId := s.nextId + 1)
  }

  /** What a save writes on its own: the head, and at most one version row. */
  function SaveHead(s: Store, m: Id, p: Patch): (Store, Reply) {
    if m !in s.machines then (s, NotFound)
    else
      var existing := s.machines[m];
      var content := Patched(existing.head, p);
      var renumbered := Machine(content, Numbered(existing.latestVersion, p));
      if !GraphChanged(p) then (s.(machines := s.machines[m := renumbered]), Done)
      else if HeadLocked(s, m, existing.latestVersion) then
        var next := existing.latestVersion + 1;
        if VersionKey(m, next) in s.versions then (s, BadRequest)
        else (s.(machines := s.machines[m := Machine(content, next)],
                 versions := s.versions[VersionKey(m, next) := content]), Done)
      else if VersionKey(m, existing.latestVersion) !in s.versions then (s, BadRequest)
      else (s.(machines := s.machines[m := renumbered],
               versions := s.versions[VersionKey(m, existing.latestVersion) := content]), Done)
  }

  predicate Rewritten(m: Id, rows: map<int, Option<Content>>, k: VersionKey) {
    k.machine == m && k.number in rows
  }

  /** What is written through the relation; an iteration whose row is deleted loses its pin. */
  function WriteRows(s: Store, m: Id, rows: map<int, Option<Content>>): Store {
    var kept := set k | k in s.versions && !Rewritten(m, rows, k);
    var written := set i | i in rows && rows[i].Some? :: VersionKey(m, i);
    s.(versions := map k | k in kept + written :: if Rewritten(m, rows, k) then rows[k.number].value else s.versions[k],
       iterations := map it | it in s.iterations :: Unpinned(s.iterations[it], m, rows))
  }

  function Unpinned(pin: Pin, m: Id, rows: map<int, Option<Content>>): Pin {
    if pin.version.Some? && Rewritten(m, rows, pin.version.value) && rows[pin.version.value.number].None?
    then pin.(version := None) else pin
  }

  lemma NoRows(s: Store, m: Id)
    ensures WriteRows(s, m, map[]) == s
  {
    assert WriteRows(s, m, map[]).versions == s.versions;
    assert WriteRows(s, m, map[]).iterations == s.iterations;
  }

  /** `update`, and `updateGraph` as the patch that always carries nodes and edges and nothing else. */
  function Save(s: Store, m: Id, p: Patch): (Store, Reply) {
    var (s', reply) := SaveHead(s, m, p);
    if reply == Done then (WriteRows(s', m, p.rest.rows), Done) else (s, reply)
  }

  /** A machine with iterations cannot be deleted; its versions go with it. */
  function RemoveMachine(s: Store, m: Id): (Store, Reply) {
    if m !in s.machines then (s, NotFound)
    else if exists it | it in s.iterations :: s.iterations[it].machine == m then (s, BadRequest)
    else (s.(machines := s.machines - {m}, versions := map k | k in s.versions && k.machine != m :: s.versions[k]),
      Done)
  }

  /** The row that `findFirst` with descending version numbers returns. */
  predicate IsLatest(s: Store, m: Id, k: VersionKey) {
    k in s.versions && k.machine == m && forall j | j in s.versions && j.machine == m :: j.number <= k.number
  }

  ghost function StartIteration(s: Store, m: Id): (Store, Reply) {
    if m !in s.machines || !exists k :: IsLatest(s, m, k) then (s, NotFound)
    else
      var k :| IsLatest(s, m, k);
      (s.(iterations := s.iterations[s.nextId := Pin(m, Some(k))], nextId := s.nextId + 1), Done)
  }

  function ForkIteration(s: Store, it: Id): (Store, Reply) {
    if it !in s.iterations then (s, NotFound)
    else (s.(iterations := s.iterations[s.nextId := s.iterations[it]], nextId := s.nextId + 1), Done)
  }

  function DeleteIteration(s: Store, it: Id): (Store, Reply) {
    if it !in s.iterations then (s, NotFound) else (s.(iterations := s.iterations - {it}), Done)
  }

  /** `loadIterationFlow`: the pinned version row, or the head for records without a pin. */
  function Load(s: Store, it: Id): Option<Content> {
    if it !in s.iterations then None
    else match s.iterations[it].version
      case Some(k) => if k in s.versions then Some(s.versions[k]) else Head(s, s.iterations[it].machine)
      case None => Head(s, s.iterations[it].machine)
  }

  function Head(s: Store, m: Id): Option<Content> {
    if m in s.machines then Some(s.machines[m].head) else None
  }

  // ------------------------------------------------------------ the service object

  class MachinesService {
    var machines: map<Id, Machine>
    var versions: map<VersionKey, Content>
    var iterations: map<Id, Pin>
    var nextId: Id

    ghost function Abstract(): Store
      reads this
    {
      Store(machines, versions, iterations, nextId)
    }

    constructor ()
      ensures Abstract() == EMPTY
    {
      machines, versions, iterations, nextId := map[], map[], map[], 0;
    }

    method Create(c: Content) returns (id: Id)
      modifies this
      ensures id == old(nextId) && Abstract() == CreateMachine(old(Abstract()), c)
    {
      id := nextId;
      nextId := nextId + 1;
      machines := machines[id := Machine(c, 1)];
      versions := versions[VersionKey(id, 1) := c];
    }

    method HeadVersionHasIterations(m: Id, latest: int) returns (locked: bool)
      ensures locked == HeadLocked(Abstract(), m, latest)
    {
      var key := VersionKey(m, latest);
      if key !in versions { return false; }
      var pending := iterations.Keys;
      while pending != {}
        invariant pending <= iterations.Keys
        invariant forall it | it in iterations && it !in pending :: iterations[it].version != Some(key)
      {
        var it :| it in pending;
        if iterations[it].version == Some(key) { return true; }
        pending := pending - {it};
      }
      return false;
    }

    method Update(m: Id, p: Patch) returns (reply: Reply)
      modifies this`machines, this`versions, this`iterations
      ensures (Abstract(), reply) == Save(old(Abstract()), m, p)
    {
      if m !in machines { return NotFound; }
      var existing := machines[m];
      var content := Patched(existing.head, p);
      var latest := Numbered(existing.latestVersion, p);
      var graphChanged, locked := GraphChanged(p), false;
      if graphChanged {
        locked := HeadVersionHasIterations(m, existing.latestVersion);
      }
      if graphChanged && locked {
        latest := existing.latestVersion + 1;
        if VersionKey(m, latest) in versions { return BadRequest; }
        versions := versions[VersionKey(m, latest) := content];
      } else if graphChanged {
        if VersionKey(m, existing.latestVersion) !in versions { return BadRequest; }
        versions := versions[VersionKey(m, existing.latestVersion) := content];
      }
      machines := machines[m := Machine(content, latest)];
      var written := WriteRows(Store(machines, versions, iterations, nextId), m, p.rest.rows);
      versions, iterations := written.versions, written.iterations;
      return Done;
    }

    method UpdateGraph(m: Id, nodes: Document, edges: Document, groups: Option<Document>) returns (reply: Reply)
      modifies this`machines, this`versions
      ensures (Abstract(), reply) == Save(old(Abstract()), m, Patch(Some(nodes), Some(edges), groups, NO_REST))
    {
      ghost var saved := SaveHead(Abstract(), m, Patch(Some(nodes), Some(edges), groups, NO_REST)).0;
      NoRows(saved, m);
      if m !in machines { return NotFound; }
      var existing := machines[m];
      var content := Content(nodes, edges, if groups.Some? then groups.value else existing.head.groups);
      var locked := HeadVersionHasIterations(m, existing.latestVersion);
      if locked {
        var next := existing.latestVersion + 1;
        if VersionKey(m, next) in versions { return BadRequest; }
        versions := versions[VersionKey(m, next) := content];
        machines := machines[m := Machine(content, next)];
        return Done;
      }
      if VersionKey(m, existing.latestVersion) !in versions { return BadRequest; }
      versions := versions[VersionKey(m, existing.latestVersion) := content];
      machines := machines[m := existing.(head := content)];
      return Done;
    }
  }

  // ------------------------------------------------------------ every history

  ghost predicate PinsResolve(s: Store) {
    forall it | it in s.iterations ::
      var pin := s.iterations[it];
      pin.machine in s.machines
      && (pin.version.Some? ==> pin.version.value in s.versions && pin.version.value.machine == pin.machine)
  }

  ghost predicate IdsFresh(s: Store) {
    (forall m | m in s.machines :: m < s.nextId) && forall it | it in s.iterations :: it < s.nextId
  }

  ghost predicate VersionsRooted(s: Store) {
    forall k | k in s.versions :: k.machine in s.machines
  }

  /** What every history keeps, whatever its saves carry. */
  ghost predicate StoreInv(s: Store) {
    PinsResolve(s) && IdsFresh(s) && VersionsRooted(s)
  }

  datatype Op =
    | Create(c: Content)
    | SaveGraph(m: Id, p: Patch)
    | Remove(m: Id)
    | StartRun(m: Id)
    | ForkRun(it: Id)
    | DeleteRun(it: Id)

  ghost function Apply(s: Store, op: Op): Store {
    match op
    case Create(c) => CreateMachine(s, c)
    case SaveGraph(m, p) => Save(s, m, p).0
    case Remove(m) => RemoveMachine(s, m).0
    case StartRun(m) => StartIteration(s, m).0
    case ForkRun(it) => ForkIteration(s, it).0
    case DeleteRun(it) => DeleteIteration(s, it).0
  }

  ghost function History(ops: seq<Op>): Store {
    if ops == [] then EMPTY else Apply(History(ops[..|ops| - 1]), ops[|ops| - 1])
  }

  lemma HistoryMore(ops: seq<Op>, op: Op)
    ensures History(ops + [op]) == Apply(History(ops), op)
  {
    assert (ops + [op])[..|ops + [op]| - 1] == ops;
  }

  lemma StartKeepsInv(s: Store, m: Id)
    requires StoreInv(s)
    ensures StoreInv(StartIteration(s, m).0)
  {
    var s' := StartIteration(s, m).0;
    if s' != s {
      assert s'.iterations[s.nextId].version.value in s.versions;
    }
  }

  lemma HeadKeepsInv(s: Store, m: Id, p: Patch)
    requires StoreInv(s)
    ensures StoreInv(SaveHead(s, m, p).0)
  {
  }

  lemma RowsKeepInv(s: Store, m: Id, rows: map<int, Option<Content>>)
    requires StoreInv(s) && m in s.machines
    ensures StoreInv(WriteRows(s, m, rows))
  {
    var s' := WriteRows(s, m, rows);
    forall it | it in s'.iterations && s'.iterations[it].version.Some?
      ensures s'.iterations[it].version.value in s'.versions
    {
      assert s'.iterations[it] == s.iterations[it];
    }
  }

  lemma ApplyKeepsInv(s: Store, op: Op)
    requires StoreInv(s)
    ensures StoreInv(Apply(s, op))
  {
    match op
    case StartRun(m) => StartKeepsInv(s, m);
    case SaveGraph(m, p) =>
      HeadKeepsInv(s, m, p);
      if SaveHead(s, m, p).1 == Done { RowsKeepInv(SaveHead(s, m, p).0, m, p.rest.rows); }
    case _ =>
  }

  /** Every pin left resolves to a version row of its machine. */
  lemma {:induction false} EveryHistoryResolves(ops: seq<Op>)
    ensures StoreInv(History(ops))
    decreases |ops|
  {
    hide StoreInv;
    if ops == [] {
      EmptyResolves();
    } else {
      EveryHistoryResolves(ops[..|ops| - 1]);
      ApplyKeepsInv(History(ops[..|ops| - 1]), ops[|ops| - 1]);
    }
  }

  lemma EmptyResolves()
    ensures StoreInv(EMPTY)
  {
  }

  // ------------------------------------------------------------ frozen workflows

  /**
   What the save names does not touch what this iteration of the machine loads: its version row is
   not named, or is to hold what it holds, or is deleted while the head holds the same; and without a
   pin the head stays as it is.
   */
  predicate SparesOne(s: Store, m: Id, p: Patch, pin: Pin)
    requires m in s.machines
  {
    var head, rows := Patched(s.machines[m].head, p), p.rest.rows;
    match pin.version
    case None => head == s.machines[m].head
    case Some(k) =>
      k in s.versions && Rewritten(m, rows, k) ==>
        s.versions[k] == if rows[k.number].Some? then rows[k.number].value else head
  }

  /** The save is refused, or spares every live iteration of the machine. */
  predicate Spares(s: Store, m: Id, p: Patch) {
    m in s.machines && SaveHead(s, m, p).1 == Done ==>
      forall it | it in s.iterations && s.iterations[it].machine == m :: SparesOne(s, m, p, s.iterations[it])
  }

  /** On its own a save rewrites no row that an iteration is pinned to. */
  lemma HeadFrozen(s: Store, m: Id, p: Patch, it: Id)
    requires StoreInv(s) && it in s.iterations && s.iterations[it].version.Some?
    ensures var k := s.iterations[it].version.value; var s' := SaveHead(s, m, p).0;
      k in s.versions && k in s'.versions && s'.versions[k] == s.versions[k] && s'.iterations == s.iterations
  {
    var k := s.iterations[it].version.value;
    if m in s.machines && k == VersionKey(m, s.machines[m].latestVersion) {
      assert HeadLocked(s, m, s.machines[m].latestVersion);
    }
  }

  lemma LoadAfterSave(s: Store, m: Id, p: Patch, it: Id)
    requires StoreInv(s) && it in s.iterations && m in s.machines && SaveHead(s, m, p).1 == Done
    ensures it in Save(s, m, p).0.iterations
    ensures Load(Save(s, m, p).0, it) == Load(s, it) <==>
      (s.iterations[it].machine == m ==> SparesOne(s, m, p, s.iterations[it]))
  {
    var pin := s.iterations[it];
    var s1 := SaveHead(s, m, p).0;
    assert s1.iterations == s.iterations && s1.machines[m].head == Patched(s.machines[m].head, p);
    if pin.version.Some? { HeadFrozen(s, m, p, it); }
    hide SaveHead;
    assert Save(s, m, p).0.machines == s1.machines;
  }

  /** A save leaves what every live iteration loads unchanged if and only if it spares them. */
  lemma SaveFrozen(s: Store, m: Id, p: Patch)
    requires StoreInv(s)
    ensures (forall it | it in s.iterations :: Load(Save(s, m, p).0, it) == Load(s, it)) <==> Spares(s, m, p)
  {
    if m in s.machines && SaveHead(s, m, p).1 == Done {
      hide Load, SparesOne, Save, SaveHead;
      forall it | it in s.iterations
        ensures Load(Save(s, m, p).0, it) == Load(s, it) <==>
          (s.iterations[it].machine == m ==> SparesOne(s, m, p, s.iterations[it]))
      {
        LoadAfterSave(s, m, p, it);
      }
    }
  }

  /** A save that names no version row spares every iteration that has a pin. */
  lemma PlainSaveSpares(s: Store, m: Id, p: Patch)
    requires p.rest.rows == map[] && forall it | it in s.iterations && s.iterations[it].machine == m ::
      s.iterations[it].version.Some?
    ensures Spares(s, m, p)
  {
  }

  /** No call but such a save changes what an iteration loads, as long as the iteration lives. */
  lemma StepFrozen(s: Store, op: Op, it: Id)
    requires StoreInv(s) && it in s.iterations && it in Apply(s, op).iterations
    requires op.SaveGraph? ==> Spares(s, op.m, op.p)
    ensures Load(Apply(s, op), it) == Load(s, it)
  {
    match op
    case SaveGraph(m, p) => SaveFrozen(s, m, p);
    case _ =>
  }

  /** Ids are never reused: whatever lives later with this id is the same iteration. */
  lemma NoRebirth(s: Store, op: Op, it: Id)
    requires StoreInv(s) && it < s.nextId && it in Apply(s, op).iterations
    ensures it in s.iterations
  {
  }

  lemma IdsGrow(s: Store, op: Op)
    ensures s.nextId <= Apply(s, op).nextId
  {
  }

  /** Every save of `more` spares the iterations that live when it is made. */
  ghost predicate Sparing(ops: seq<Op>, more: seq<Op>) {
    more != [] ==>
      var before, op := more[..|more| - 1], more[|more| - 1];
      Sparing(ops, before) && (op.SaveGraph? ==> Spares(History(ops + before), op.m, op.p))
  }

  lemma {:induction false} LivesOn(ops: seq<Op>, more: seq<Op>, it: Id)
    requires it < History(ops).nextId && Sparing(ops, more)
    ensures it < History(ops + more).nextId
    ensures it in History(ops + more).iterations ==>
      it in History(ops).iterations && Load(History(ops + more), it) == Load(History(ops), it)
    decreases |more|
  {
    if more == [] {
      assert ops + more == ops;
    } else {
      var short, last := more[..|more| - 1], more[|more| - 1];
      assert ops + more == ops + short + [last];
      hide StoreInv, Apply, Load, Spares;
      HistoryMore(ops + short, last);
      LivesOn(ops, short, it);
      EveryHistoryResolves(ops + short);
      IdsGrow(History(ops + short), last);
      if it in History(ops + more).iterations {
        NoRebirth(History(ops + short), last, it);
        StepFrozen(History(ops + short), last, it);
      }
    }
  }

  lemma LoadsSomething(s: Store, it: Id)
    requires StoreInv(s) && it in s.iterations
    ensures Load(s, it).Some?
  {
  }

  /** Between any two moments of its life an iteration loads the same graph, as long as saves spare it. */
  lemma FrozenWorkflow(ops: seq<Op>, more: seq<Op>, it: Id)
    requires Sparing(ops, more)
    requires it in History(ops).iterations && it in History(ops + more).iterations
    ensures Load(History(ops), it).Some? && Load(History(ops + more), it) == Load(History(ops), it)
  {
    EveryHistoryResolves(ops);
    LoadsSomething(History(ops), it);
    LivesOn(ops, more, it);
  }

  /** No save names a version row, whatever head columns it names. */
  predicate Plain(ops: seq<Op>) {
    forall op | op in ops && op.SaveGraph? :: op.p.rest.rows == map[]
  }

  ghost predicate AllPinned(s: Store) {
    forall it | it in s.iterations :: s.iterations[it].version.Some?
  }

  lemma ApplyKeepsPinned(s: Store, op: Op)
    requires AllPinned(s) && (op.SaveGraph? ==> op.p.rest.rows == map[])
    ensures AllPinned(Apply(s, op))
  {
    if op.SaveGraph? { NoRows(SaveHead(s, op.m, op.p).0, op.m); }
  }

  lemma {:induction false} PlainKeepsPinned(ops: seq<Op>)
    requires Plain(ops)
    ensures AllPinned(History(ops))
    decreases |ops|
  {
    hide Apply, AllPinned;
    if ops == [] {
      EmptyPinned();
    } else {
      PlainKeepsPinned(ops[..|ops| - 1]);
      ApplyKeepsPinned(History(ops[..|ops| - 1]), ops[|ops| - 1]);
    }
  }

  lemma EmptyPinned()
    ensures AllPinned(EMPTY)
  {
  }

  lemma {:induction false} PlainIsSparing(ops: seq<Op>, more: seq<Op>)
    requires Plain(ops + more)
    ensures Sparing(ops, more)
    decreases |more|
  {
    if more != [] {
      var short, last := more[..|more| - 1], more[|more| - 1];
      assert forall op | op in ops + short :: op in ops + more;
      assert last in ops + more;
      hide Spares;
      PlainIsSparing(ops, short);
      PlainKeepsPinned(ops + short);
      if last.SaveGraph? { PlainSaveSpares(History(ops + short), last.m, last.p); }
    }
  }

  /** In particular while saves carry graphs, and name head columns only, nothing an iteration loads ever changes. */
  lemma PlainHistoriesFreeze(ops: seq<Op>, more: seq<Op>, it: Id)
    requires Plain(ops + more)
    requires it in History(ops).iterations && it in History(ops + more).iterations
    ensures Load(History(ops), it).Some? && Load(History(ops + more), it) == Load(History(ops), it)
  {
    PlainIsSparing(ops, more);
    FrozenWorkflow(ops, more, it);
  }

  /** For all its life a fork loads what its source loaded when it was forked. */
  lemma ForkLoadsAlike(ops: seq<Op>, it: Id, more: seq<Op>)
    requires it in History(ops).iterations && Sparing(ops + [ForkRun(it)], more)
    ensures var fork := History(ops).nextId; var forked := ops + [ForkRun(it)];
      && fork in History(forked).iterations
      && (fork in History(forked + more).iterations ==> Load(History(forked + more), fork) == Load(History(ops), it))
  {
    var s, forked := History(ops), ops + [ForkRun(it)];
    HistoryMore(ops, ForkRun(it));
    assert Load(History(forked), s.nextId) == Load(s, it);
    if s.nextId in History(forked + more).iterations {
      FrozenWorkflow(forked, more, s.nextId);
    }
  }

  /** Without a pin the guarantee is void: the record follows every accepted save of the head. */
  lemma UnpinnedFollowsHead(s: Store, it: Id, p: Patch)
    requires it in s.iterations && s.iterations[it].version.None? && s.iterations[it].machine in s.machines
    ensures var m := s.iterations[it].machine; var (s', reply) := Save(s, m, p);
      Load(s', it) == Some(if reply == Done then Patched(s.machines[m].head, p) else s.machines[m].head)
  {
  }

  // ------------------------------------------------------------ numbers, head and rows in step

  /** The rows of a machine are numbered exactly 1..n. */
  ghost predicate NumberedTo(s: Store, m: Id, n: int) {
    forall i: int :: VersionKey(m, i) in s.versions <==> 1 <= i <= n
  }

  /** The rows of a machine are numbered exactly 1..latestVersion, and its head is a copy of the last of them. */
  ghost predicate InStep(s: Store, m: Id) {
    && m in s.machines && s.machines[m].latestVersion >= 1
    && NumberedTo(s, m, s.machines[m].latestVersion)
    && s.versions[VersionKey(m, s.machines[m].latestVersion)] == s.machines[m].head
  }

  ghost predicate VersionsInStep(s: Store) {
    forall m | m in s.machines :: InStep(s, m)
  }

  /** The save appends a version. */
  predicate Appends(s: Store, m: Id, p: Patch)
    requires m in s.machines
  {
    GraphChanged(p) && HeadLocked(s, m, s.machines[m].latestVersion)
  }

  /** The save itself writes the row with this number, or finds it holding what the head will hold. */
  predicate HeldAlready(s: Store, m: Id, p: Patch, head: Content, number: int, top: int) {
    var k := VersionKey(m, number);
    (GraphChanged(p) && number == top) || (k in s.versions && s.versions[k] == head)
  }

  /**
   With the number that the head will carry, and the last row that the save writes on its own or
   finds: rows are named to be written up to that number and to be deleted beyond it, each number
   between the two is named, and the row with the head's number will hold what the head holds.
   */
  ghost predicate Harmless(s: Store, m: Id, p: Patch) {
    m in s.machines ==>
      var latest, head, rows := s.machines[m].latestVersion, Patched(s.machines[m].head, p), p.rest.rows;
      var top := if Appends(s, m, p) then latest + 1 else latest;
      var number := if Appends(s, m, p) then top else Numbered(latest, p);
      && number >= 1
      && (forall i | i in rows :: rows[i].Some? <==> 1 <= i <= number)
      && (forall i | top < i <= number :: i in rows) && (forall i | number < i <= top :: i in rows)
      && if number in rows then rows[number] == Some(head) else HeldAlready(s, m, p, head, number, top)
  }

  /**
   For a save that names no version row: it appends a version, or renumbers nothing and writes no
   head column without a part of the graph.
   */
  lemma PlainHarmless(s: Store, m: Id, p: Patch)
    requires InStep(s, m) && p.rest.rows == map[]
    ensures Harmless(s, m, p) <==>
      (Appends(s, m, p)
       || (Numbered(s.machines[m].latestVersion, p) == s.machines[m].latestVersion
           && (GraphChanged(p) || Patched(s.machines[m].head, p) == s.machines[m].head)))
  {
    var latest := s.machines[m].latestVersion;
    var number := Numbered(latest, p);
    assert VersionKey(m, latest) in s.versions;
    assert number !in p.rest.rows && latest !in p.rest.rows;
  }

  /**
   On its own a save of the graph writes the head and one version row: the next one if the head
   version is held, else the latest.
   */
  lemma SaveWritesOneVersion(s: Store, m: Id, p: Patch)
    requires InStep(s, m) && GraphChanged(p)
    ensures var c, latest := Patched(s.machines[m].head, p), s.machines[m].latestVersion;
      var n := if Appends(s, m, p) then latest + 1 else latest;
      var number := if Appends(s, m, p) then latest + 1 else Numbered(latest, p);
      Save(s, m, p) ==
        (WriteRows(s.(machines := s.machines[m := Machine(c, number)], versions := s.versions[VersionKey(m, n) := c]),
                   m, p.rest.rows), Done)
  {
    var latest := s.machines[m].latestVersion;
    assert VersionKey(m, latest) in s.versions && VersionKey(m, latest + 1) !in s.versions;
    hide WriteRows;
  }

  /** What the save itself leaves in a row: the new content in the last one if it carries a part of the graph. */
  function RowAfter(s: Store, m: Id, p: Patch, i: int, top: int): Content
    requires m in s.machines
  {
    if GraphChanged(p) && i == top then Patched(s.machines[m].head, p)
    else if VersionKey(m, i) in s.versions then s.versions[VersionKey(m, i)] else s.machines[m].head
  }

  /** The rows after the save's own writes. */
  lemma NumberedAfterHead(s: Store, m: Id, p: Patch)
    requires InStep(s, m)
    ensures var (s1, reply) := SaveHead(s, m, p); var latest := s.machines[m].latestVersion;
      var top := if Appends(s, m, p) then latest + 1 else latest;
      && reply == Done && m in s1.machines && NumberedTo(s1, m, top)
      && s1.machines[m] == Machine(Patched(s.machines[m].head, p), if Appends(s, m, p) then top
        else Numbered(latest, p))
      && forall i | 1 <= i <= top ::
           VersionKey(m, i) in s1.versions && s1.versions[VersionKey(m, i)] == RowAfter(s, m, p, i, top)
  {
    var latest := s.machines[m].latestVersion;
    assert VersionKey(m, latest) in s.versions && VersionKey(m, latest + 1) !in s.versions;
    var s1 := SaveHead(s, m, p).0;
    var top := if Appends(s, m, p) then latest + 1 else latest;
    forall i: int ensures VersionKey(m, i) in s1.versions <==> 1 <= i <= top {
      assert VersionKey(m, i) in s.versions <==> 1 <= i <= latest;
    }
  }

  /** When rows numbered 1..top are written through the relation, which of them there are afterwards. */
  lemma RowsNumbered(s: Store, m: Id, top: int, rows: map<int, Option<Content>>, number: int)
    requires NumberedTo(s, m, top) && top >= 1 && number >= 1
    ensures NumberedTo(WriteRows(s, m, rows), m, number) <==>
      && (forall i | i in rows :: rows[i].Some? <==> 1 <= i <= number)
      && (forall i | top < i <= number :: i in rows) && (forall i | number < i <= top :: i in rows)
  {
    var s' := WriteRows(s, m, rows);
    forall i: int ensures VersionKey(m, i) in s'.versions <==> if i in rows then rows[i].Some? else 1 <= i <= top {
      assert VersionKey(m, i) in s.versions <==> 1 <= i <= top;
    }
    if NumberedTo(s', m, number) {
      forall i | i in rows ensures rows[i].Some? <==>
        1 <= i <= number { assert VersionKey(m, i) in s'.versions <==> 1 <= i <= number; }
      forall i | top < i <= number ensures i in rows { assert VersionKey(m, i) in s'.versions; }
      forall i | number < i <= top ensures i in rows { assert VersionKey(m, i) !in s'.versions; }
    }
  }

  /** A save keeps a machine in step if and only if it is harmless. */
  lemma SaveKeepsInStep(s: Store, m: Id, p: Patch)
    requires InStep(s, m)
    ensures InStep(Save(s, m, p).0, m) <==> Harmless(s, m, p)
  {
    NumberedAfterHead(s, m, p);
    var s1, latest := SaveHead(s, m, p).0, s.machines[m].latestVersion;
    var top := if Appends(s, m, p) then latest + 1 else latest;
    var number := s1.machines[m].latestVersion;
    var s' := WriteRows(s1, m, p.rest.rows);
    hide SaveHead, NumberedTo;
    assert Save(s, m, p).0 == s' && s'.machines == s1.machines;
    if number >= 1 {
      RowsNumbered(s1, m, top, p.rest.rows, number);
      if NumberedTo(s', m, number) { HeadsRow(s, m, p, s1, top, number); }
    }
  }

  /** The row with the head's number. */
  lemma HeadsRow(s: Store, m: Id, p: Patch, s1: Store, top: int, number: int)
    requires InStep(s, m) && m in s1.machines && number >= 1 && NumberedTo(WriteRows(s1, m, p.rest.rows), m, number)
    requires NumberedTo(s1, m, top)
    requires top == if Appends(s, m, p) then s.machines[m].latestVersion + 1 else s.machines[m].latestVersion
    requires forall i | 1 <= i <= top ::
      VersionKey(m, i) in s1.versions && s1.versions[VersionKey(m, i)] == RowAfter(s, m, p, i, top)
    ensures var k, head, s' := VersionKey(m, number), Patched(s.machines[m].head, p), WriteRows(s1, m, p.rest.rows);
      && k in s'.versions
      && (s'.versions[k] == head <==>
           if number in p.rest.rows then p.rest.rows[number] == Some(head)
           else HeldAlready(s, m, p, head, number, top))
  {
    var k := VersionKey(m, number);
    assert k in WriteRows(s1, m, p.rest.rows).versions;
    if number !in p.rest.rows {
      assert k in s1.versions && number <= top;
      assert k in s.versions <==> number <= s.machines[m].latestVersion;
    }
  }

  /** A machine that a call does not save is in step afterwards iff it was before. */
  lemma OthersInStep(s: Store, op: Op, m: Id)
    requires IdsFresh(s) && m in s.machines && m in Apply(s, op).machines && (op.SaveGraph? ==> op.m != m)
    ensures InStep(Apply(s, op), m) <==> InStep(s, m)
  {
    var s' := Apply(s, op);
    assert s'.machines[m] == s.machines[m];
    forall i: int ensures VersionKey(m, i) in s'.versions <==> VersionKey(m, i) in s.versions {}
    forall i: int | VersionKey(m, i) in s.versions ensures s'.versions[VersionKey(m, i)] == s.versions[VersionKey(m, i)]
    {
    }
  }

  lemma NewInStep(s: Store, c: Content)
    requires VersionsRooted(s) && IdsFresh(s)
    ensures InStep(CreateMachine(s, c), s.nextId)
  {
    var s' := CreateMachine(s, c);
    forall i: int ensures VersionKey(s.nextId, i) in s'.versions <==> i == 1 {
      assert VersionKey(s.nextId, i).machine !in s.machines;
    }
  }

  /** One call keeps all machines in step if and only if it is not a harmful save. */
  lemma StepInStep(s: Store, op: Op)
    requires StoreInv(s) && VersionsInStep(s)
    ensures VersionsInStep(Apply(s, op)) <==> (op.SaveGraph? ==> Harmless(s, op.m, op.p))
  {
    hide InStep, Harmless;
    var s' := Apply(s, op);
    forall m | m in s'.machines && m in s.machines && (op.SaveGraph? ==> op.m != m) ensures InStep(s', m) {
      OthersInStep(s, op, m);
    }
    match op
    case Create(c) => NewInStep(s, c);
    case SaveGraph(m, p) =>
      if m in s.machines { SaveKeepsInStep(s, m, p); } else { UnknownIsHarmless(s, m, p); }
    case _ =>
  }

  lemma UnknownIsHarmless(s: Store, m: Id, p: Patch)
    requires m !in s.machines
    ensures Harmless(s, m, p)
  {
  }

  /** Every save of the history is harmless when it is made. */
  ghost predicate HarmlessHistory(ops: seq<Op>) {
    ops != [] ==>
      var before, op := ops[..|ops| - 1], ops[|ops| - 1];
      HarmlessHistory(before) && (op.SaveGraph? ==> Harmless(History(before), op.m, op.p))
  }

  /**
   After every history of harmless saves: version numbers are exactly 1..latestVersion and the head
   equals the latest row.
   */
  lemma {:induction false} EveryHistoryInStep(ops: seq<Op>)
    requires HarmlessHistory(ops)
    ensures VersionsInStep(History(ops))
    decreases |ops|
  {
    if ops != [] {
      hide Apply, StoreInv, VersionsInStep;
      EveryHistoryInStep(ops[..|ops| - 1]);
      EveryHistoryResolves(ops[..|ops| - 1]);
      StepInStep(History(ops[..|ops| - 1]), ops[|ops| - 1]);
    }
  }

  // ------------------------------------------------------------ what a new iteration loads

  /** Among finitely many version rows of a machine one has the highest number. */
  lemma {:induction false} LatestExists(m: Id, ks: set<VersionKey>) returns (k: VersionKey)
    requires ks != {} && forall j | j in ks :: j.machine == m
    ensures k in ks && forall j | j in ks :: j.number <= k.number
    decreases |ks|
  {
    k :| k in ks;
    var rest := ks - {k};
    if rest != {} {
      var best := LatestExists(m, rest);
      if k.number < best.number { k := best; }
    }
  }

  lemma StartLoadsLatest(s: Store, m: Id) returns (k: VersionKey)
    requires m in s.machines && exists j | j in s.versions :: j.machine == m
    ensures var (s', reply) := StartIteration(s, m);
      IsLatest(s, m, k) && reply == Done && Load(s', s.nextId) == Some(s.versions[k])
  {
    var ks := set j | j in s.versions && j.machine == m;
    var j :| j in s.versions && j.machine == m;
    assert j in ks;
    k := LatestExists(m, ks);
    assert IsLatest(s, m, k);
    var s' := StartIteration(s, m).0;
    var k' := s'.iterations[s.nextId].version.value;
    assert IsLatest(s, m, k') && k' == k;
  }

  lemma InStepLatest(s: Store, m: Id, k: VersionKey)
    requires InStep(s, m) && IsLatest(s, m, k)
    ensures k == VersionKey(m, s.machines[m].latestVersion)
  {
    assert VersionKey(m, k.number) in s.versions && VersionKey(m, s.machines[m].latestVersion) in s.versions;
  }

  /**
   In every history an iteration can be started if and only if the machine has a version row, and
   loads the latest; after harmless saves it can, and that is the head.
   */
  lemma StartsFromHead(ops: seq<Op>, m: Id)
    requires m in History(ops).machines
    ensures var s := History(ops); var (s', reply) := StartIteration(s, m);
      && (reply == Done <==> exists j | j in s.versions :: j.machine == m)
      && (reply == Done ==> exists k :: IsLatest(s, m, k) && Load(s', s.nextId) == Some(s.versions[k]))
      && (HarmlessHistory(ops) ==> reply == Done && Load(s', s.nextId) == Head(s, m))
  {
    var s := History(ops);
    if j :| j in s.versions && j.machine == m {
      var k := StartLoadsLatest(s, m);
      if HarmlessHistory(ops) {
        EveryHistoryInStep(ops);
        InStepLatest(s, m, k);
      }
    }
    if HarmlessHistory(ops) {
      EveryHistoryInStep(ops);
      assert VersionKey(m, s.machines[m].latestVersion) in s.versions;
    }
  }

  /**
   After one save from an in-step store that names no version row a new iteration loads the head iff
   the save carried a part of the graph or left the head as it was.
   */
  lemma StartAfterSave(s: Store, m: Id, p: Patch)
    requires InStep(s, m)
    ensures var s1 := Save(s, m, p).0; p.rest.rows == map[] ==>
      (Load(StartIteration(s1, m).0, s1.nextId) == Head(s1, m) <==>
       GraphChanged(p) || Patched(s.machines[m].head, p) == s.machines[m].head)
  {
    if p.rest.rows == map[] {
      NumberedAfterHead(s, m, p);
      var s1, latest := SaveHead(s, m, p).0, s.machines[m].latestVersion;
      NoRows(s1, m);
      var top := if Appends(s, m, p) then latest + 1 else latest;
      assert VersionKey(m, top) in s1.versions && VersionKey(m, latest) in s.versions;
      var k := StartLoadsLatest(s1, m);
      assert k == VersionKey(m, k.number) && k.number <= top;
      assert k == VersionKey(m, top);
    }
  }

  // ------------------------------------------------------------ when a save appends a version

  /** The next number, exactly if a live iteration holds the head version. */
  ghost function Added(s: Store, m: Id): set<VersionKey>
    requires m in s.machines
  {
    var latest := s.machines[m].latestVersion;
    if exists it | it in s.iterations :: s.iterations[it].version == Some(VersionKey(m, latest))
    then {VersionKey(m, latest + 1)} else {}
  }

  /**
   After harmless saves every save of the graph is accepted, and on its own adds a new number exactly
   when a live iteration holds the head version.
   */
  lemma NewVersionOnlyWhenHeld(ops: seq<Op>, m: Id, p: Patch)
    requires HarmlessHistory(ops) && m in History(ops).machines && GraphChanged(p)
    ensures var s := History(ops); var (s', reply) := Save(s, m, p); var latest := s.machines[m].latestVersion;
      && reply == Done && Head(s', m) == Some(Patched(s.machines[m].head, p))
      && (p.rest.rows == map[] ==> s'.versions.Keys - s.versions.Keys == Added(s, m))
  {
    EveryHistoryInStep(ops);
    var s := History(ops);
    var latest := s.machines[m].latestVersion;
    SaveWritesOneVersion(s, m, p);
    NoRows(SaveHead(s, m, p).0, m);
    assert VersionKey(m, latest) in s.versions && VersionKey(m, latest + 1) !in s.versions;
  }

  /** A save that only renumbers the head. */
  function Renumber(v: int): Patch {
    Patch(None, None, None, NO_REST.(latestVersion := Some(v)))
  }

  /**
   Once the head is renumbered to `v`, a save of the graph is accepted iff `v` is the last number, or
   an earlier one that no live iteration holds.
   */
  lemma SaveAfterRenumbering(s: Store, m: Id, v: int, p: Patch)
    requires InStep(s, m) && GraphChanged(p)
    ensures var latest := s.machines[m].latestVersion;
      Save(Save(s, m, Renumber(v)).0, m, p).1 == Done <==>
        (v == latest
         || (1 <= v < latest && !exists it | it in s.iterations :: s.iterations[it].version == Some(VersionKey(m, v))))
  {
    var latest := s.machines[m].latestVersion;
    var s1 := SaveHead(s, m, Renumber(v)).0;
    NoRows(s1, m);
    assert s1 == s.(machines := s1.machines) && s1.machines[m].latestVersion == v;
    assert VersionKey(m, v) in s.versions <==> 1 <= v <= latest;
    assert VersionKey(m, v + 1) in s.versions <==> 1 <= v + 1 <= latest;
  }

  // ------------------------------------------------------------ failing inputs

  /** A save that renumbers the head, and one that writes a head column directly. */
  lemma ColumnsBreakTheStep(c: Content, d: Document)
    requires d != c.nodes
    ensures var renumbered := History([Create(c), SaveGraph(0, Renumber(5))]);
      !VersionsInStep(renumbered) && Save(renumbered, 0, Patch(Some(d), None, None, NO_REST)).1 == BadRequest
    ensures var s := History([Create(c), SaveGraph(0, Patch(None, None, None, NO_REST.(nodesJson := Some(d))))]);
      !VersionsInStep(s) && Load(StartIteration(s, 0).0, s.nextId) != Head(s, 0)
  {
    var s0 := CreateMachine(EMPTY, c);
    var direct := Patch(None, None, None, NO_REST.(nodesJson := Some(d)));
    HistoryOfTwo(c, SaveGraph(0, Renumber(5)));
    HistoryOfTwo(c, SaveGraph(0, direct));
    EmptyResolves();
    NewInStep(EMPTY, c);
    hide Save, InStep, Harmless;
    SaveKeepsInStep(s0, 0, Renumber(5));
    SaveKeepsInStep(s0, 0, direct);
    DirectlyHarmful(s0, 0, Renumber(5));
    DirectlyHarmful(s0, 0, direct);
    StartAfterSave(s0, 0, direct);
    SaveAfterRenumbering(s0, 0, 5, Patch(Some(d), None, None, NO_REST));
  }

  lemma DirectlyHarmful(s: Store, m: Id, p: Patch)
    requires InStep(s, m) && p.rest.rows == map[] && !GraphChanged(p)
    requires Numbered(s.machines[m].latestVersion, p) != s.machines[m].latestVersion
      || Patched(s.machines[m].head, p) != s.machines[m].head
    ensures !Harmless(s, m, p)
  {
    PlainHarmless(s, m, p);
  }

  /** A save that names no head column and no part of the graph, only the first version row. */
  function Rewrite(c: Content): Patch {
    Patch(None, None, None, NO_REST.(rows := map[1 := Some(c)]))
  }

  /** It changes what a running iteration loads, and puts the head out of step. */
  lemma RowsThawTheWorkflow(c: Content, d: Content)
    requires d != c
    ensures var s := History([Create(c), StartRun(0)]); var s' := History([Create(c), StartRun(0),
      SaveGraph(0, Rewrite(d))]);
      && 1 in s.iterations && Load(s, 1) == Some(c) && Load(s', 1) == Some(d)
      && !Spares(s, 0, Rewrite(d)) && !VersionsInStep(s')
  {
    var s0 := CreateMachine(EMPTY, c);
    HistoryOfTwo(c, StartRun(0));
    var s := History([Create(c), StartRun(0)]);
    assert [Create(c), StartRun(0)] + [SaveGraph(0, Rewrite(d))] == [Create(c), StartRun(0), SaveGraph(0, Rewrite(d))];
    HistoryMore([Create(c), StartRun(0)], SaveGraph(0, Rewrite(d)));
    assert VersionKey(0, 1) in s0.versions;
    var k := StartLoadsLatest(s0, 0);
    assert k == VersionKey(0, 1) && s.iterations == map[1 := Pin(0, Some(k))];
    RewriteWrites(s, c, d);
  }

  lemma RewriteWrites(s: Store, c: Content, d: Content)
    requires s == Store(map[0 := Machine(c, 1)], map[VersionKey(0, 1) := c], map[1 := Pin(0, Some(VersionKey(0, 1)))],
      2)
    requires d != c
    ensures var s' := Save(s, 0, Rewrite(d)).0; Load(s', 1) == Some(d) && !InStep(s', 0) && 0 in s'.machines
    ensures !Spares(s, 0, Rewrite(d))
  {
  }

  lemma HistoryOfTwo(c: Content, op: Op)
    ensures History([Create(c), op]) == Apply(CreateMachine(EMPTY, c), op)
  {
    hide Apply;
    assert [Create(c), op][..1] == [Create(c)] && [Create(c)][..0] == [];
    assert History([]) == EMPTY;
    assert History([Create(c)]) == Apply(EMPTY, Create(c));
    CreateApplies(c);
  }

  lemma CreateApplies(c: Content)
    ensures Apply(EMPTY, Create(c)) == CreateMachine(EMPTY, c)
  {
  }
}
