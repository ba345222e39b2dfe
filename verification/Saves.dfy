/**
 What one call on the workflow definitions answers and what it stores: columns of the head,
 version rows, pins.  Stated on the fields before and after the call.
 */
module Saves {
  import opened Wrappers
  import opened Machines

  /** A save leaves in a column the part it was given, else the column named in the body, else what was there. */
  predicate Stored(part: Option<Document>, column: Option<Document>, before: Document, after: Document) {
    && (part.Some? ==> after == part.value)
    && (part.None? && column.Some? ==> after == column.value)
    && (part.None? && column.None? ==> after == before)
  }

  predicate StoredAll(before: Content, p: Patch, after: Content) {
    && Stored(p.nodes, p.rest.nodesJson, before.nodes, after.nodes)
    && Stored(p.edges, p.rest.edgesJson, before.edges, after.edges)
    && Stored(p.groups, p.rest.groupsJson, before.groups, after.groups)
  }

  predicate CarriesGraph(p: Patch) {
    p.nodes != None || p.edges != None || p.groups != None
  }

  /** The row with the head's number. */
  function HeadKey(s: Store, m: Id): VersionKey
    requires m in s.machines
  {
    VersionKey(m, s.machines[m].latestVersion)
  }

  predicate Held(s: Store, m: Id)
    requires m in s.machines
  {
    HeadKey(s, m) in s.versions && exists it | it in s.iterations :: s.iterations[it].version == Some(HeadKey(s, m))
  }

  /** The row that a save of the graph writes: the head's, or the next one if a live iteration holds that. */
  function WrittenKey(s: Store, m: Id): VersionKey
    requires m in s.machines
  {
    VersionKey(m, if Held(s, m) then s.machines[m].latestVersion + 1 else s.machines[m].latestVersion)
  }

  /**
   A save is refused on an unknown machine, and when the row that its graph needs created is there or
   the one it needs updated is not.  Refused, it changes nothing.
   */
  lemma SaveReply(s: Store, m: Id, p: Patch)
    ensures var (s', reply) := Save(s, m, p);
      && (reply == Done || reply == NotFound || reply == BadRequest)
      && (reply == NotFound <==> m !in s.machines)
      && (reply == BadRequest <==>
        m in s.machines && CarriesGraph(p) && (WrittenKey(s, m) in s.versions <==> Held(s, m)))
      && (reply != Done ==> s' == s)
  {
  }

  /** An accepted save stores column by column in the head, moves the number, and leaves the other machines alone. */
  lemma SaveStoresHead(s: Store, m: Id, p: Patch)
    requires Save(s, m, p).1 == Done
    ensures var s' := Save(s, m, p).0;
      && s'.machines.Keys == s.machines.Keys && s'.nextId == s.nextId
      && (forall other | other in s.machines && other != m :: s'.machines[other] == s.machines[other])
      && m in s.machines && StoredAll(s.machines[m].head, p, s'.machines[m].head)
      && s'.machines[m].latestVersion ==
           if CarriesGraph(p) && Held(s, m) then s.machines[m].latestVersion + 1
           else if p.rest.latestVersion.Some? then p.rest.latestVersion.value else s.machines[m].latestVersion
  {
  }

  /** What an accepted save leaves in the row `k`, where the head held `head`. */
  ghost predicate RowWritten(s: Store, m: Id, p: Patch, s': Store, k: VersionKey)
    requires m in s.machines
  {
    if k.machine == m && k.number in p.rest.rows then
      p.rest.rows[k.number] == if k in s'.versions then Some(s'.versions[k]) else None
    else if CarriesGraph(p) && k == WrittenKey(s, m) then
      k in s'.versions && StoredAll(s.machines[m].head, p, s'.versions[k])
    else
      (k in s'.versions <==> k in s.versions) && (k in s.versions ==> s'.versions[k] == s.versions[k])
  }

  /**
   Every version row after an accepted save: what the body names for it; for the row written with the
   graph, the parts given and else the old columns; any other as it was.  Pins stay, but for those on
   a row that the body deletes.
   */
  lemma SaveStoresRows(s: Store, m: Id, p: Patch)
    requires Save(s, m, p).1 == Done
    ensures var s' := Save(s, m, p).0;
      && m in s.machines && (forall k :: RowWritten(s, m, p, s', k))
      && s'.iterations.Keys == s.iterations.Keys
      && (forall it | it in s.iterations :: s'.iterations[it].machine == s.iterations[it].machine)
      && forall it | it in s.iterations :: s'.iterations[it].version ==
           match s.iterations[it].version
           case Some(k) => if k.machine == m && k.number in p.rest.rows && p.rest.rows[k.number] == None
                           then None else Some(k)
           case None => None
  {
    var s1, s' := SaveHead(s, m, p).0, Save(s, m, p).0;
    HeadWrites(s, m, p);
    hide SaveHead, Patched;
    forall k ensures RowWritten(s, m, p, s', k) {
      if !Rewritten(m, p.rest.rows, k) { assert k in s'.versions <==> k in s1.versions; }
    }
  }

  lemma HeadWrites(s: Store, m: Id, p: Patch)
    requires SaveHead(s, m, p).1 == Done
    ensures var s1 := SaveHead(s, m, p).0;
      && m in s.machines && s1.iterations == s.iterations
      && (CarriesGraph(p) ==>
            && WrittenKey(s, m) in s1.versions && StoredAll(s.machines[m].head, p, s1.versions[WrittenKey(s, m)])
            && s1.versions.Keys == s.versions.Keys + {WrittenKey(s, m)})
      && (!CarriesGraph(p) ==> s1.versions == s.versions)
      && forall k | k in s.versions && k != WrittenKey(s, m) :: k in s1.versions && s1.versions[k] == s.versions[k]
  {
  }

  /**
   What a new iteration loads after a save that names no version row, in every history of harmless
   saves: the graph part by part as saved, or, if the save carried no part, the graph from before.
   */
  lemma SavedIsStarted(ops: seq<Op>, m: Id, p: Patch)
    requires HarmlessHistory(ops) && m in History(ops).machines && p.rest.rows == map[]
    ensures var s := History(ops); var (s1, reply) := Save(s, m, p); var (s2, started) := StartIteration(s1, m);
      && reply == Done && started == Done && Load(s2, s1.nextId).Some?
      && (if CarriesGraph(p) then StoredAll(s.machines[m].head, p, Load(s2, s1.nextId).value)
          else Load(s2, s1.nextId) == Some(s.machines[m].head))
  {
    var s := History(ops);
    EveryHistoryInStep(ops);
    var latest := s.machines[m].latestVersion;
    assert VersionKey(m, latest) in s.versions && VersionKey(m, latest + 1) !in s.versions;
    SaveReply(s, m, p);
    SaveStoresHead(s, m, p);
    SaveStoresRows(s, m, p);
    var s1 := Save(s, m, p).0;
    var top := if CarriesGraph(p) then WrittenKey(s, m) else HeadKey(s, m);
    hide Save, InStep, StoredAll;
    assert RowWritten(s, m, p, s1, top);
    assert top in s1.versions;
    var k := StartLoadsLatest(s1, m);
    assert RowWritten(s, m, p, s1, k);
    LastRow(s, m, k);
    assert k == top;
  }

  lemma LastRow(s: Store, m: Id, k: VersionKey)
    requires InStep(s, m) && k.machine == m
    ensures k in s.versions ==> k.number <= s.machines[m].latestVersion
  {
    assert VersionKey(m, k.number) == k;
  }

  /** A new machine has the given graph in its head and in its one version row, number 1. */
  lemma CreateMachineEffect(s: Store, c: Content)
    requires IdsFresh(s) && VersionsRooted(s)
    ensures var s' := CreateMachine(s, c); var m := s.nextId;
      && m !in s.machines && s'.machines.Keys == s.machines.Keys + {m} && s'.nextId > s.nextId
      && s'.machines[m].head == c && s'.machines[m].latestVersion == 1
      && (forall i :: VersionKey(m, i) in s'.versions <==> i == 1) && s'.versions[VersionKey(m, 1)] == c
      && (forall other | other in s.machines :: s'.machines[other] == s.machines[other])
      && (forall k: VersionKey | k.machine != m :: k in s'.versions <==> k in s.versions)
      && (forall k | k in s.versions :: s'.versions[k] == s.versions[k]) && s'.iterations == s.iterations
  {
    assert forall i :: VersionKey(s.nextId, i) !in s.versions;
  }

  /** A machine is removed iff it is known and no live iteration runs it; its rows go, and nothing else. */
  lemma RemoveEffect(s: Store, m: Id)
    ensures var (s', reply) := RemoveMachine(s, m);
      && (reply == Done <==> m in s.machines && forall it | it in s.iterations :: s.iterations[it].machine != m)
      && (reply == NotFound <==> m !in s.machines) && (reply != Done ==> reply == NotFound || reply == BadRequest)
      && (reply != Done ==> s' == s) && s'.iterations == s.iterations && s'.nextId == s.nextId
      && (reply == Done ==>
            && (forall other :: other in s'.machines <==> other in s.machines && other != m)
            && (forall other | other in s'.machines :: s'.machines[other] == s.machines[other])
            && (forall k :: k in s'.versions <==> k in s.versions && k.machine != m)
            && forall k | k in s'.versions :: s'.versions[k] == s.versions[k])
  {
  }

  /** An iteration starts iff its machine is known and has a version row; it is pinned to the last one. */
  lemma StartEffect(s: Store, m: Id)
    ensures var (s', reply) := StartIteration(s, m);
      && (reply == Done <==> m in s.machines && exists k :: k in s.versions && k.machine == m)
      && (reply == Done || (reply == NotFound && s' == s))
      && (reply == Done ==>
            && s'.machines == s.machines && s'.versions == s.versions && s'.nextId > s.nextId
            && s'.iterations.Keys == s.iterations.Keys + {s.nextId}
            && (forall it | it in s.iterations && it != s.nextId :: s'.iterations[it] == s.iterations[it])
            && s'.iterations[s.nextId].machine == m && s'.iterations[s.nextId].version.Some?
            && var k := s'.iterations[s.nextId].version.value;
                k in s.versions && k.machine == m && forall i | VersionKey(m, i) in s.versions :: i <= k.number)
  {
    if m in s.machines && exists k :: k in s.versions && k.machine == m {
      var k := StartLoadsLatest(s, m);
    }
    assert forall i | VersionKey(m, i) in s.versions :: VersionKey(m, i).machine == m;
  }

  /** A fork has its source's pin; a deletion takes one iteration away.  Neither touches anything else. */
  lemma ForkAndDeleteEffect(s: Store, it: Id)
    requires IdsFresh(s)
    ensures var (s', reply) := ForkIteration(s, it);
      && (reply == Done <==> it in s.iterations) && (reply == Done || (reply == NotFound && s' == s))
      && s'.machines == s.machines && s'.versions == s.versions
      && (forall other | other in s.iterations :: other in s'.iterations && s'.iterations[other] == s.iterations[other])
      && (reply == Done ==>
            && s'.iterations.Keys - s.iterations.Keys == {s.nextId} && s'.nextId > s.nextId
            && s'.iterations[s.nextId].machine == s.iterations[it].machine
            && s'.iterations[s.nextId].version == s.iterations[it].version)
    ensures var (s', reply) := DeleteIteration(s, it);
      && (reply == Done <==> it in s.iterations) && (reply == Done || (reply == NotFound && s' == s))
      && s'.machines == s.machines && s'.versions == s.versions && s'.nextId == s.nextId
      && (forall other :: other in s'.iterations <==> other in s.iterations && other != it)
      && forall other | other in s'.iterations :: s'.iterations[other] == s.iterations[other]
  {
  }

  /** An iteration loads the row it is pinned to; without a pin, or without the row, the head of its machine. */
  lemma LoadMeaning(s: Store, it: Id, k: VersionKey)
    requires StoreInv(s)
    ensures Load(s, it).Some? <==> it in s.iterations
    ensures it in s.iterations && s.iterations[it].version == Some(k) ==> Load(s, it) == Some(s.versions[k])
    ensures it in s.iterations && s.iterations[it].version == None ==>
      Load(s, it) == Some(s.machines[s.iterations[it].machine].head)
  {
  }
}
