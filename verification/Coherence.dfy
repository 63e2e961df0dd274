/**
 What every command of the management plane keeps: coherence of configuration and built
 graphs (exactly unless the command is damaging), untouched templates under running
 tasks, and the record a restart needs.
 */
module Coherence {
  import opened Geometry
  import opened Keyed
  import opened RuntimeState
  import opened Management

  // ---------------------------------------------------------------- list facts

  ghost predicate DistinctIds<T>(xs: seq<Item<T>>) {
    forall i, j :: 0 <= i < j < |xs| ==> xs[i].id != xs[j].id
  }

  lemma {:induction false} OnceIsDistinct<T>(xs: seq<Item<T>>)
    requires OncePerId(xs)
    ensures DistinctIds(xs)
  {
    if xs != [] {
      OnceIsDistinct(xs[1..]);
      forall j | 1 <= j < |xs| ensures xs[j].id != xs[0].id {
        ListedIsMapped(xs[1..], j - 1);
      }
      forall i, j | 0 <= i < j < |xs| ensures xs[i].id != xs[j].id {
        if i > 0 {
          assert xs[1..][i - 1].id != xs[1..][j - 1].id;
        }
      }
    }
  }

  lemma {:induction false} UsersDistinct(ts: seq<Item<TaskBody>>, pipelineId: string)
    requires DistinctIds(ts)
    ensures DistinctIds(Users(ts, pipelineId))
  {
    if ts != [] {
      var k := |ts| - 1;
      UsersDistinct(ts[..k], pipelineId);
      UsersAre(ts[..k], pipelineId);
      var before := Users(ts[..k], pipelineId);
      forall i | 0 <= i < |before| ensures before[i].id != ts[k].id {
        assert before[i] in ts[..k];
      }
    }
  }

  /** Looking at the task list is looking at the task map. */
  lemma TaskUses(ts: seq<Item<TaskBody>>, id: string)
    requires OncePerId(ts)
    ensures SourceInUse(ts, id) <==> exists t :: t in ToMap(ts) && ToMap(ts)[t].sourceId == id
    ensures PipelineInUse(ts, id) <==> exists t :: t in ToMap(ts) && ToMap(ts)[t].pipelineId == id
  {
    var tasks := ToMap(ts);
    if SourceInUse(ts, id) {
      var i :| 0 <= i < |ts| && ts[i].body.sourceId == id;
      ListedIsMapped(ts, i);
    }
    if PipelineInUse(ts, id) {
      var i :| 0 <= i < |ts| && ts[i].body.pipelineId == id;
      ListedIsMapped(ts, i);
    }
    if t :| t in tasks && tasks[t].sourceId == id {
      var i := MappedIsListed(ts, t);
    }
    if t :| t in tasks && tasks[t].pipelineId == id {
      var i := MappedIsListed(ts, t);
    }
  }

  lemma FindAll(cfg: Config, sourceId: string, pipelineId: string)
    ensures Find(cfg.sources, sourceId) == if sourceId in ToMap(cfg.sources)
      then Some(ToMap(cfg.sources)[sourceId]) else None
    ensures Find(cfg.pipelines, pipelineId) == if pipelineId in ToMap(cfg.pipelines)
      then Some(ToMap(cfg.pipelines)[pipelineId]) else None
  {
    FindIsLookup(cfg.sources, sourceId);
    FindIsLookup(cfg.pipelines, pipelineId);
  }

  // ---------------------------------------------------------------- building

  ghost predicate Buildable(cfg: Config, t: Item<TaskBody>) { GraphFor(cfg, t.id, t.body).Some? }

  ghost predicate RefsExist(cfg: Config, t: Item<TaskBody>) {
    t.body.sourceId in ToMap(cfg.sources) && t.body.pipelineId in ToMap(cfg.pipelines)
  }

  lemma BuildEntryIs(m: Manager, t: Item<TaskBody>, autostart: bool)
    ensures BuildEntry(m, t, autostart) ==
      if !RefsExist(m.cfg, t) then Reply(m, Refused)
      else if !Buildable(m.cfg, t) then Reply(m, Threw)
      else Reply(m.(entries := m.entries[t.id := Entry(GraphFor(m.cfg, t.id, t.body).value, autostart)]), Done)
  {
    FindAll(m.cfg, t.body.sourceId, t.body.pipelineId);
  }

  /** The entries after building the listed tasks, all of them buildable. */
  ghost predicate BuiltEntries(m: Manager, ts: seq<Item<TaskBody>>, entries: map<string, Entry>) {
    && entries.Keys == m.entries.Keys + IdsOf(ts)
    && (forall i :: 0 <= i < |ts| ==>
          GraphFor(m.cfg, ts[i].id, ts[i].body) == Some(entries[ts[i].id].graph) && !entries[ts[i].id].running)
    && (forall id :: id in m.entries && id !in IdsOf(ts) ==> entries[id] == m.entries[id])
  }

  lemma OneMoreBuilt(m: Manager, ts: seq<Item<TaskBody>>, entries: map<string, Entry>, g: PipelineBody)
    requires ts != [] && DistinctIds(ts)
    requires BuiltEntries(m, ts[..|ts| - 1], entries)
    requires GraphFor(m.cfg, ts[|ts| - 1].id, ts[|ts| - 1].body) == Some(g)
    ensures BuiltEntries(m, ts, entries[ts[|ts| - 1].id := Entry(g, false)])
  {
    var k := |ts| - 1;
    assert IdsOf(ts) == IdsOf(ts[..k]) + {ts[k].id} by { IdsOfLast(ts); }
    var longer := entries[ts[k].id := Entry(g, false)];
    forall i | 0 <= i < |ts|
      ensures GraphFor(m.cfg, ts[i].id, ts[i].body) == Some(longer[ts[i].id].graph) && !longer[ts[i].id].running
    {
      if i < k {
        assert ts[..k][i] == ts[i];
      }
    }
  }

  lemma IdsOfLast<T>(xs: seq<Item<T>>)
    requires xs != []
    ensures IdsOf(xs) == IdsOf(xs[..|xs| - 1]) + {xs[|xs| - 1].id}
  {
    var k := |xs| - 1;
    forall id ensures id in IdsOf(xs) <==> id in IdsOf(xs[..k]) || id == xs[k].id {
      if id in IdsOf(xs[..k]) {
        var i :| 0 <= i < k && xs[..k][i].id == id;
        assert xs[i].id == id;
      }
      if id in IdsOf(xs) && id != xs[k].id {
        var i :| 0 <= i < |xs| && xs[i].id == id;
        assert xs[..k][i].id == id;
      }
    }
  }

  /** Building touches entries of the listed tasks only. */
  ghost predicate OnlyBuilt(m: Manager, n: Manager, ids: set<string>) {
    && n == m.(entries := n.entries) && n.entries.Keys <= m.entries.Keys + ids
    && forall id :: id in m.entries && id !in ids ==> id in n.entries && n.entries[id] == m.entries[id]
  }

  lemma OnlyBuiltMore(m: Manager, n: Manager, l: Manager, ids: set<string>, id: string)
    requires OnlyBuilt(m, n, ids) && OnlyBuilt(n, l, {id})
    ensures OnlyBuilt(m, l, ids + {id})
  {
  }

  lemma BuildEntryOnly(m: Manager, t: Item<TaskBody>, autostart: bool)
    ensures OnlyBuilt(m, BuildEntry(m, t, autostart).m, {t.id})
  {
  }

  lemma {:induction false} BuildEachOnly(m: Manager, ts: seq<Item<TaskBody>>)
    ensures OnlyBuilt(m, BuildEach(m, ts).m, IdsOf(ts))
    ensures OnlyBuilt(m, BuildAll(m, ts).m, IdsOf(ts))
  {
    if ts != [] {
      var k := |ts| - 1;
      BuildEachOnly(m, ts[..k]);
      IdsOfLast(ts);
      var each, all := BuildEach(m, ts[..k]).m, BuildAll(m, ts[..k]).m;
      BuildEntryOnly(each, ts[k], false);
      BuildEntryOnly(all, ts[k], false);
      OnlyBuiltMore(m, each, BuildEntry(each, ts[k], false).m, IdsOf(ts[..k]), ts[k].id);
      OnlyBuiltMore(m, all, BuildEntry(all, ts[k], false).m, IdsOf(ts[..k]), ts[k].id);
    }
  }

  /** Rebuilding tasks whose references exist builds them all if each is buildable. */
  lemma {:induction false} BuildEachSucceeds(m: Manager, ts: seq<Item<TaskBody>>)
    requires DistinctIds(ts)
    requires forall i :: 0 <= i < |ts| ==> Buildable(m.cfg, ts[i])
    ensures BuildEach(m, ts).outcome.Done?
    ensures BuildEach(m, ts).m == m.(entries := BuildEach(m, ts).m.entries)
    ensures BuiltEntries(m, ts, BuildEach(m, ts).m.entries)
  {
    if ts != [] {
      var k := |ts| - 1;
      forall i | 0 <= i < k ensures Buildable(m.cfg, ts[..k][i]) {
        assert ts[..k][i] == ts[i];
      }
      BuildEachSucceeds(m, ts[..k]);
      var before := BuildEach(m, ts[..k]);
      BuildEntryIs(before.m, ts[k], false);
      assert before.m.cfg == m.cfg && Buildable(m.cfg, ts[k]);
      OneMoreBuilt(m, ts, before.m.entries, GraphFor(m.cfg, ts[k].id, ts[k].body).value);
    }
  }

  lemma LastThrows(m: Manager, ts: seq<Item<TaskBody>>)
    requires DistinctIds(ts) && ts != [] && RefsExist(m.cfg, ts[|ts| - 1]) && !Buildable(m.cfg, ts[|ts| - 1])
    requires forall i :: 0 <= i < |ts| - 1 ==> Buildable(m.cfg, ts[i])
    requires ts[|ts| - 1].id !in m.entries
    ensures BuildEach(m, ts).outcome.Threw?
    ensures BuildEach(m, ts).m == m.(entries := BuildEach(m, ts).m.entries)
    ensures ts[|ts| - 1].id !in BuildEach(m, ts).m.entries
  {
    var k := |ts| - 1;
    assert forall i :: 0 <= i < k ==> ts[..k][i] == ts[i];
    BuildEachSucceeds(m, ts[..k]);
    BuildEntryIs(BuildEach(m, ts[..k]).m, ts[k], false);
  }

  /** If one is not, the rebuild throws and leaves that task without an entry. */
  lemma {:induction false} BuildEachThrows(m: Manager, ts: seq<Item<TaskBody>>, bad: nat) returns (gone: nat)
    requires DistinctIds(ts) && bad < |ts| && !Buildable(m.cfg, ts[bad])
    requires forall i :: 0 <= i < |ts| ==> RefsExist(m.cfg, ts[i]) && ts[i].id !in m.entries
    ensures BuildEach(m, ts).outcome.Threw?
    ensures BuildEach(m, ts).m == m.(entries := BuildEach(m, ts).m.entries)
    ensures gone < |ts| && ts[gone].id !in BuildEach(m, ts).m.entries
  {
    var k := |ts| - 1;
    assert forall i :: 0 <= i < k ==> ts[..k][i] == ts[i];
    if forall i :: 0 <= i < k ==> Buildable(m.cfg, ts[i]) {
      LastThrows(m, ts);
      gone := k;
    } else {
      var earlier: nat :| earlier < k && !Buildable(m.cfg, ts[earlier]);
      gone := BuildEachThrows(m, ts[..k], earlier);
    }
  }

  // ---------------------------------------------------------------- the plain commands

  lemma AddSourceCoherent(m: Manager, x: Item<SourceBody>)
    requires Coherent(m)
    ensures Coherent(DoAddSource(m, x).m)
  {
    FindIsLookup(m.cfg.sources, x.id);
    if x.id !in ToMap(m.cfg.sources) {
      AppendIsAdd(m.cfg.sources, x);
    }
  }

  /** A source goes exactly when it exists and no task names it; otherwise nothing changes. */
  lemma RemoveSourceCoherent(m: Manager, id: string)
    requires Coherent(m)
    ensures Coherent(DoRemoveSource(m, id).m)
    ensures var used := exists t :: t in ToMap(m.cfg.tasks) && ToMap(m.cfg.tasks)[t].sourceId == id;
      if id in ToMap(m.cfg.sources) && !used
      then ToMap(DoRemoveSource(m, id).m.cfg.sources) == ToMap(m.cfg.sources) - {id}
      else DoRemoveSource(m, id) == Reply(m, Refused)
  {
    FindIsLookup(m.cfg.sources, id);
    TaskUses(m.cfg.tasks, id);
    EraseIsRemove(m.cfg.sources, id);
  }

  lemma AddPipelineCoherent(m: Manager, x: Item<PipelineBody>)
    requires Coherent(m)
    ensures Coherent(DoAddPipeline(m, x).m)
  {
    FindIsLookup(m.cfg.pipelines, x.id);
    if x.id !in ToMap(m.cfg.pipelines) {
      AppendIsAdd(m.cfg.pipelines, x);
    }
  }

  /** A template goes exactly when it exists and no task names it; otherwise nothing changes. */
  lemma RemovePipelineCoherent(m: Manager, id: string)
    requires Coherent(m)
    ensures Coherent(DoRemovePipeline(m, id).m)
    ensures var used := exists t :: t in ToMap(m.cfg.tasks) && ToMap(m.cfg.tasks)[t].pipelineId == id;
      if id in ToMap(m.cfg.pipelines) && !used
      then ToMap(DoRemovePipeline(m, id).m.cfg.pipelines) == ToMap(m.cfg.pipelines) - {id}
      else DoRemovePipeline(m, id) == Reply(m, Refused)
  {
    FindIsLookup(m.cfg.pipelines, id);
    TaskUses(m.cfg.tasks, id);
    EraseIsRemove(m.cfg.pipelines, id);
  }

  lemma AddTaskCoherent(m: Manager, t: Item<TaskBody>, autostart: bool)
    requires Coherent(m)
    ensures Coherent(DoAddTask(m, t, autostart).m)
  {
    BuildEntryIs(m, t, autostart);
    if t.id !in m.entries {
      AppendIsAdd(m.cfg.tasks, t);
    }
  }

  lemma RemoveTaskCoherent(m: Manager, id: string)
    requires Coherent(m)
    ensures Coherent(DoRemoveTask(m, id).m)
  {
    EraseIsRemove(m.cfg.tasks, id);
  }

  // ---------------------------------------------------------------- the two replacing commands

  lemma UpdateTaskCoherentIff(m: Manager, t: Item<TaskBody>)
    requires Coherent(m)
    ensures Coherent(DoUpdateTask(m, t).m) <==> !Damaging(m, UpdateTask(t))
    ensures DoUpdateTask(m, t).outcome.Threw? <==> Damaging(m, UpdateTask(t))
  {
    FindAll(m.cfg, t.body.sourceId, t.body.pipelineId);
    if t.id in m.entries && !m.entries[t.id].running && RefsExist(m.cfg, t) {
      ReplaceIsUpdate(m.cfg.tasks, t);
      BuildEntryIs(SwapTask(m, t), t, false);
      if Buildable(m.cfg, t) {
        TaskRebuilt(m, t, Entry(GraphFor(m.cfg, t.id, t.body).value, false));
      } else {
        TaskLost(m, t);
      }
    }
  }

  ghost function SwapTask(m: Manager, t: Item<TaskBody>): Manager {
    m.(cfg := m.cfg.(tasks := Replace(m.cfg.tasks, t)),
       delta := m.delta.(tasks := RecordUpdate(m.delta.tasks, t)),
       entries := m.entries - {t.id})
  }

  /** A task without an entry breaks coherence. */
  lemma TaskLost(m: Manager, t: Item<TaskBody>)
    requires t.id in ToMap(Replace(m.cfg.tasks, t))
    ensures !Coherent(SwapTask(m, t))
  {
    var n := SwapTask(m, t);
    assert t.id in ToMap(n.cfg.tasks) && t.id !in n.entries;
  }

  /** With the graph its new record calls for, all is well. */
  lemma TaskRebuilt(m: Manager, t: Item<TaskBody>, e: Entry)
    requires Coherent(m) && t.id in m.entries
    requires OncePerId(Replace(m.cfg.tasks, t)) && ToMap(Replace(m.cfg.tasks, t)) == ToMap(m.cfg.tasks)[t.id := t.body]
    requires GraphFor(m.cfg, t.id, t.body) == Some(e.graph)
    ensures Coherent(SwapTask(m, t).(entries := SwapTask(m, t).entries[t.id := e]))
  {
    var n := SwapTask(m, t);
    var tasks := ToMap(n.cfg.tasks);
    forall id | id in tasks ensures GraphFor(n.cfg, id, tasks[id]) == Some(n.entries[t.id := e][id].graph) {
      if id != t.id {
        assert GraphFor(m.cfg, id, tasks[id]) == Some(m.entries[id].graph);
      }
    }
  }

  /** The tasks of a replaced template, seen from the state with the new template in place. */
  lemma SwapFacts(m: Manager, x: Item<PipelineBody>)
    requires Coherent(m) && Has(m.cfg.pipelines, x.id)
    ensures ToMap(SwapTemplate(m, x).cfg.pipelines) == ToMap(m.cfg.pipelines)[x.id := x.body]
    ensures DistinctIds(Users(m.cfg.tasks, x.id))
    ensures forall i :: 0 <= i < |Users(m.cfg.tasks, x.id)| ==>
      var t := Users(m.cfg.tasks, x.id)[i];
      && t.id in ToMap(m.cfg.tasks) && ToMap(m.cfg.tasks)[t.id] == t.body && t.body.pipelineId == x.id
      && RefsExist(SwapTemplate(m, x).cfg, t) && t.id !in SwapTemplate(m, x).entries
    ensures forall id :: id in ToMap(m.cfg.tasks) ==>
      (id in IdsOf(Users(m.cfg.tasks, x.id)) <==> ToMap(m.cfg.tasks)[id].pipelineId == x.id)
  {
    var ts, users := m.cfg.tasks, Users(m.cfg.tasks, x.id);
    FindIsLookup(m.cfg.pipelines, x.id);
    ReplaceIsUpdate(m.cfg.pipelines, x);
    OnceIsDistinct(ts);
    UsersDistinct(ts, x.id);
    UsersAre(ts, x.id);
    forall i | 0 <= i < |users|
      ensures users[i].id in ToMap(ts) && ToMap(ts)[users[i].id] == users[i].body && users[i].body.pipelineId == x.id
    {
      assert users[i] in users;
      var j :| 0 <= j < |ts| && ts[j] == users[i];
      ListedIsMapped(ts, j);
    }
    forall id | id in ToMap(ts) && ToMap(ts)[id].pipelineId == x.id ensures id in IdsOf(users) {
      var j := MappedIsListed(ts, id);
      assert ts[j] in users;
      var i :| 0 <= i < |users| && users[i] == ts[j];
    }
  }

  ghost predicate AllUsersBuildable(m: Manager, x: Item<PipelineBody>) {
    forall i :: 0 <= i < |Users(m.cfg.tasks, x.id)| ==> Buildable(SwapTemplate(m, x).cfg, Users(m.cfg.tasks, x.id)[i])
  }

  lemma DamagingMeans(m: Manager, x: Item<PipelineBody>)
    requires Coherent(m) && Has(m.cfg.pipelines, x.id) && !RunningUser(m, x.id)
    ensures Damaging(m, UpdatePipeline(x)) <==> !AllUsersBuildable(m, x)
  {
    var ts, users := m.cfg.tasks, Users(m.cfg.tasks, x.id);
    UsersAre(ts, x.id);
    forall i | 0 <= i < |users|
      ensures users[i] in ts && users[i].body.pipelineId == x.id
      ensures Buildable(SwapTemplate(m, x).cfg, users[i]) <==>
        Instantiate(x.body, users[i].id, users[i].body.sourceId).Some?
    {
      SwapFacts(m, x);
      assert users[i] in users;
    }
    if Damaging(m, UpdatePipeline(x)) {
      var j :| 0 <= j < |ts| && ts[j].body.pipelineId == x.id
               && Instantiate(x.body, ts[j].id, ts[j].body.sourceId).None?;
      assert ts[j] in users;
      var i :| 0 <= i < |users| && users[i] == ts[j];
    }
  }

  /** The rollback of `updatePipeline` is never reached from a coherent state. */
  lemma UpdatePipelineCoherentIff(m: Manager, x: Item<PipelineBody>)
    requires Coherent(m)
    ensures Coherent(DoUpdatePipeline(m, x).m) <==> !Damaging(m, UpdatePipeline(x))
    ensures DoUpdatePipeline(m, x).outcome.Threw? <==> Damaging(m, UpdatePipeline(x))
    ensures DoUpdatePipeline(m, x).outcome.Refused? <==> !Has(m.cfg.pipelines, x.id) || RunningUser(m, x.id)
  {
    if Has(m.cfg.pipelines, x.id) && !RunningUser(m, x.id) {
      SwapFacts(m, x);
      DamagingMeans(m, x);
      if AllUsersBuildable(m, x) {
        UpdatePipelineDone(m, x);
      } else {
        UpdatePipelineThrew(m, x);
      }
    }
  }

  /** The entries of other templates' tasks stay; those of this template's tasks are stopped. */
  ghost predicate OnlyUsersRebuilt(m: Manager, x: Item<PipelineBody>, entries: map<string, Entry>) {
    && entries.Keys == m.entries.Keys
    && forall id :: id in m.entries && id in ToMap(m.cfg.tasks) ==>
         if ToMap(m.cfg.tasks)[id].pipelineId == x.id then !entries[id].running else entries[id] == m.entries[id]
  }

  lemma RebuiltAt(m: Manager, x: Item<PipelineBody>, entries: map<string, Entry>, id: string)
    requires Coherent(m) && Has(m.cfg.pipelines, x.id) && id in ToMap(m.cfg.tasks)
    requires BuiltEntries(SwapTemplate(m, x), Users(m.cfg.tasks, x.id), entries)
    ensures id in entries && GraphFor(SwapTemplate(m, x).cfg, id, ToMap(m.cfg.tasks)[id]) == Some(entries[id].graph)
    ensures if ToMap(m.cfg.tasks)[id].pipelineId == x.id then !entries[id].running else entries[id] == m.entries[id]
  {
    var users, t := Users(m.cfg.tasks, x.id), ToMap(m.cfg.tasks)[id];
    SwapFacts(m, x);
    if t.pipelineId == x.id {
      var i :| 0 <= i < |users| && users[i].id == id;
    } else {
      assert GraphFor(m.cfg, id, t) == Some(m.entries[id].graph);
    }
  }

  lemma RebuiltCoherent(m: Manager, x: Item<PipelineBody>, entries: map<string, Entry>)
    requires Coherent(m) && Has(m.cfg.pipelines, x.id)
    requires BuiltEntries(SwapTemplate(m, x), Users(m.cfg.tasks, x.id), entries)
    ensures OnlyUsersRebuilt(m, x, entries)
    ensures forall id :: id in ToMap(m.cfg.tasks) ==>
      GraphFor(SwapTemplate(m, x).cfg, id, ToMap(m.cfg.tasks)[id]) == Some(entries[id].graph)
  {
    forall id | id in ToMap(m.cfg.tasks)
      ensures id in entries && GraphFor(SwapTemplate(m, x).cfg, id, ToMap(m.cfg.tasks)[id]) == Some(entries[id].graph)
      ensures if ToMap(m.cfg.tasks)[id].pipelineId == x.id then !entries[id].running else entries[id] == m.entries[id]
    {
      RebuiltAt(m, x, entries, id);
    }
    assert entries.Keys <= m.entries.Keys by { UserIds(m, x); }
  }

  lemma UserIds(m: Manager, x: Item<PipelineBody>)
    requires Coherent(m) && Has(m.cfg.pipelines, x.id)
    ensures IdsOf(Users(m.cfg.tasks, x.id)) <= m.entries.Keys
  {
    SwapFacts(m, x);
  }

  /** What `updatePipeline` does once past its checks. */
  lemma UpdateUnfolds(m: Manager, x: Item<PipelineBody>)
    requires Has(m.cfg.pipelines, x.id) && !RunningUser(m, x.id)
    ensures var built := BuildEach(SwapTemplate(m, x), Users(m.cfg.tasks, x.id));
      && (built.outcome.Done? ==> DoUpdatePipeline(m, x) == Reply(Persist(built.m), Done))
      && (built.outcome.Threw? ==> DoUpdatePipeline(m, x) == built)
  {
  }

  lemma UpdatePipelineDone(m: Manager, x: Item<PipelineBody>)
    requires Coherent(m) && Has(m.cfg.pipelines, x.id) && !RunningUser(m, x.id) && AllUsersBuildable(m, x)
    ensures DoUpdatePipeline(m, x).outcome.Done? && Coherent(DoUpdatePipeline(m, x).m)
    ensures OnlyUsersRebuilt(m, x, DoUpdatePipeline(m, x).m.entries)
    ensures DoUpdatePipeline(m, x).m == Persist(SwapTemplate(m, x).(entries := DoUpdatePipeline(m, x).m.entries))
  {
    var swapped, users := SwapTemplate(m, x), Users(m.cfg.tasks, x.id);
    assert DistinctIds(users) by { SwapFacts(m, x); }
    BuildEachSucceeds(swapped, users);
    UpdateUnfolds(m, x);
    RebuiltCoherent(m, x, BuildEach(swapped, users).m.entries);
  }

  lemma UpdatePipelineThrew(m: Manager, x: Item<PipelineBody>)
    requires Coherent(m) && Has(m.cfg.pipelines, x.id) && !RunningUser(m, x.id) && !AllUsersBuildable(m, x)
    ensures DoUpdatePipeline(m, x).outcome.Threw? && !Coherent(DoUpdatePipeline(m, x).m)
    ensures DoUpdatePipeline(m, x).m == SwapTemplate(m, x).(entries := DoUpdatePipeline(m, x).m.entries)
  {
    var swapped, users := SwapTemplate(m, x), Users(m.cfg.tasks, x.id);
    SwapFacts(m, x);
    var bad: nat :| bad < |users| && !Buildable(swapped.cfg, users[bad]);
    var gone := BuildEachThrows(swapped, users, bad);
    UpdateUnfolds(m, x);
    assert users[gone].id in ToMap(m.cfg.tasks);
  }

  /** Every command keeps a coherent manager coherent, exactly when it is not damaging. */
  lemma CoherentIff(m: Manager, c: Command)
    requires Coherent(m)
    ensures Coherent(Execute(m, c).m) <==> !Damaging(m, c)
  {
    match c
    case AddSource(x) => AddSourceCoherent(m, x);
    case RemoveSource(id) => RemoveSourceCoherent(m, id);
    case AddPipeline(x) => AddPipelineCoherent(m, x);
    case RemovePipeline(id) => RemovePipelineCoherent(m, id);
    case UpdatePipeline(x) => UpdatePipelineCoherentIff(m, x);
    case AddTask(t, autostart) => AddTaskCoherent(m, t, autostart);
    case UpdateTask(t) => UpdateTaskCoherentIff(m, t);
    case RemoveTask(id) => RemoveTaskCoherent(m, id);
    case _ => RestCoherent(m, c);
  }

  lemma RestCoherent(m: Manager, c: Command)
    requires Coherent(m) && (c.LoadModel? || c.UnloadModel? || c.Start? || c.Stop? || c.StartAll? || c.StopAll?)
    ensures Coherent(Execute(m, c).m)
  {
  }
}
