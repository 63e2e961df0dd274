/**
 What survives everything: commands that throw halfway, files whose tasks cannot be built, and
 any number of restarts (src/pipeline/TaskManager.cpp:89-526).
 */
module Histories {
  import opened Geometry
  import opened Keyed
  import opened RuntimeState
  import opened Management
  import opened Coherence
  import opened Restart

  // ---------------------------------------------------------------- references within a process

  /** Every listed task names a source and a template that exist. */
  ghost predicate AllRefs(cfg: Config) {
    forall t :: t in cfg.tasks ==> RefsExist(cfg, t)
  }

  lemma {:induction false} InErase<T>(xs: seq<Item<T>>, id: string, x: Item<T>)
    ensures x in Erase(xs, id) <==> x in xs && x.id != id
  {
    if xs != [] {
      InErase(xs[1..], id, x);
      assert xs == [xs[0]] + xs[1..];
    }
  }

  lemma {:induction false} InReplace<T>(xs: seq<Item<T>>, y: Item<T>, x: Item<T>)
    ensures x in Replace(xs, y) ==> x == y || x in xs
    ensures x in xs && x.id != y.id ==> x in Replace(xs, y)
    ensures y.id in ToMap(xs) ==> y in Replace(xs, y)
  {
    if xs != [] {
      InReplace(xs[1..], y, x);
      assert xs == [xs[0]] + xs[1..];
    }
  }

  /** Whatever a command does and however it ends, no task loses its source or its template. */
  lemma ReferencesStay(m: Manager, c: Command)
    requires AllRefs(m.cfg)
    ensures AllRefs(Execute(m, c).m.cfg)
  {
    match c
    case AddSource(x) => AppendIsAdd(m.cfg.sources, x);
    case AddPipeline(x) => AppendIsAdd(m.cfg.pipelines, x);
    case RemoveSource(id) =>
      EraseIsRemove(m.cfg.sources, id);
      assert forall t :: t in m.cfg.tasks && t.body.sourceId == id ==> SourceInUse(m.cfg.tasks, id);
    case RemovePipeline(id) =>
      EraseIsRemove(m.cfg.pipelines, id);
      assert forall t :: t in m.cfg.tasks && t.body.pipelineId == id ==> PipelineInUse(m.cfg.tasks, id);
    case UpdatePipeline(x) => UpdatePipelineRefs(m, x);
    case AddTask(t, autostart) => BuildEntryIs(m, t, autostart);
    case UpdateTask(t) => UpdateTaskRefs(m, t);
    case RemoveTask(id) =>
      forall t | t in Erase(m.cfg.tasks, id) ensures t in m.cfg.tasks { InErase(m.cfg.tasks, id, t); }
    case _ =>
  }

  lemma UpdateTaskRefs(m: Manager, t: Item<TaskBody>)
    requires AllRefs(m.cfg)
    ensures AllRefs(DoUpdateTask(m, t).m.cfg)
  {
    FindAll(m.cfg, t.body.sourceId, t.body.pipelineId);
    BuildEntryOnly(SwapTask(m, t), t, false);
    forall u | u in Replace(m.cfg.tasks, t) ensures u == t || u in m.cfg.tasks { InReplace(m.cfg.tasks, t, u); }
  }

  lemma UpdatePipelineRefs(m: Manager, x: Item<PipelineBody>)
    requires AllRefs(m.cfg)
    ensures AllRefs(DoUpdatePipeline(m, x).m.cfg)
  {
    UpdateShape(m, x);
  }

  /** However it ends, an update replaces the template at most, and keeps the task list. */
  lemma UpdateShape(m: Manager, x: Item<PipelineBody>)
    ensures SameShape(m, DoUpdatePipeline(m, x).m)
  {
    if Has(m.cfg.pipelines, x.id) && !RunningUser(m, x.id) {
      var users := Users(m.cfg.tasks, x.id);
      var backup := Item(x.id, Find(m.cfg.pipelines, x.id).value);
      SwapShape(m, x, users);
      SwapShape(BuildEach(SwapTemplate(m, x), users).m, backup, users);
    }
  }

  lemma SwapShape(m: Manager, x: Item<PipelineBody>, users: seq<Item<TaskBody>>)
    ensures SameShape(m, BuildEach(SwapTemplate(m, x), users).m) && SameShape(m, BuildAll(SwapTemplate(m, x), users).m)
  {
    ReplaceIsUpdate(m.cfg.pipelines, x);
    BuildEachOnly(SwapTemplate(m, x), users);
  }

  ghost predicate SameShape(m: Manager, n: Manager) {
    && n.cfg.sources == m.cfg.sources && n.cfg.tasks == m.cfg.tasks
    && ToMap(n.cfg.pipelines).Keys == ToMap(m.cfg.pipelines).Keys
  }

  // ---------------------------------------------------------------- graphs that exist are right

  /** The graph kept under `id` is the current template, instantiated for a listed task of that id. */
  ghost predicate RightGraph(cfg: Config, id: string, e: Entry) {
    exists t :: t in cfg.tasks && t.id == id && GraphFor(cfg, id, t.body) == Some(e.graph)
  }

  ghost predicate GraphsRight(m: Manager) {
    forall id :: id in m.entries ==> RightGraph(m.cfg, id, m.entries[id])
  }

  /** Building listed tasks one by one, stopping wherever. */
  lemma {:induction false} BuildRight(m: Manager, ts: seq<Item<TaskBody>>)
    requires GraphsRight(m) && forall t :: t in ts ==> t in m.cfg.tasks
    ensures GraphsRight(BuildEach(m, ts).m) && GraphsRight(BuildAll(m, ts).m)
  {
    if ts != [] {
      var k := |ts| - 1;
      BuildRight(m, ts[..k]);
      BuildEachOnly(m, ts[..k]);
      assert ts[k] in ts;
      OneRight(BuildEach(m, ts[..k]).m, ts[k], false);
      OneRight(BuildAll(m, ts[..k]).m, ts[k], false);
    }
  }

  lemma OneRight(m: Manager, t: Item<TaskBody>, autostart: bool)
    requires GraphsRight(m) && t in m.cfg.tasks
    ensures GraphsRight(BuildEntry(m, t, autostart).m)
  {
    BuildEntryIs(m, t, autostart);
    var n := BuildEntry(m, t, autostart).m;
    forall id | id in n.entries ensures RightGraph(n.cfg, id, n.entries[id]) {
      if id in m.entries && n.entries[id] == m.entries[id] {
        assert RightGraph(m.cfg, id, m.entries[id]);
      }
    }
  }

  /** Graphs stay right if their tasks stay listed and their sources and templates stay the same. */
  lemma StillRight(m: Manager, n: Manager)
    requires GraphsRight(m)
    requires forall id :: id in n.entries ==> id in m.entries && n.entries[id].graph == m.entries[id].graph
    requires forall t :: t in m.cfg.tasks && t.id in n.entries && GraphFor(m.cfg, t.id, t.body).Some? ==>
      t in n.cfg.tasks && GraphFor(n.cfg, t.id, t.body) == GraphFor(m.cfg, t.id, t.body)
    ensures GraphsRight(n)
  {
    forall id | id in n.entries ensures RightGraph(n.cfg, id, n.entries[id]) {
      assert RightGraph(m.cfg, id, m.entries[id]);
    }
  }

  lemma AddTaskRight(m: Manager, t: Item<TaskBody>, autostart: bool)
    requires GraphsRight(m)
    ensures GraphsRight(DoAddTask(m, t, autostart).m)
  {
    BuildEntryIs(m, t, autostart);
    var n := DoAddTask(m, t, autostart).m;
    forall id | id in n.entries ensures RightGraph(n.cfg, id, n.entries[id]) {
      if id in m.entries {
        assert RightGraph(m.cfg, id, m.entries[id]);
        var u :| u in m.cfg.tasks && u.id == id && GraphFor(m.cfg, id, u.body) == Some(m.entries[id].graph);
        assert u in n.cfg.tasks;
      } else {
        assert t in n.cfg.tasks;
      }
    }
  }

  lemma UpdateTaskRight(m: Manager, t: Item<TaskBody>)
    requires GraphsRight(m) && EntriesListed(m)
    ensures GraphsRight(DoUpdateTask(m, t).m)
  {
    if t.id in m.entries {
      var n := SwapTask(m, t);
      forall u | u in m.cfg.tasks && u.id != t.id ensures u in n.cfg.tasks { InReplace(m.cfg.tasks, t, u); }
      StillRight(m, n);
      InReplace(m.cfg.tasks, t, t);
      OneRight(n, t, false);
    }
  }

  lemma RemoveTaskRight(m: Manager, id: string)
    requires GraphsRight(m)
    ensures GraphsRight(DoRemoveTask(m, id).m)
  {
    if id in m.entries {
      forall u | u in m.cfg.tasks && u.id != id ensures u in Erase(m.cfg.tasks, id) { InErase(m.cfg.tasks, id, u); }
      StillRight(m, DoRemoveTask(m, id).m);
    }
  }

  /** A listed task that uses a template is among its users. */
  lemma UsersCover(ts: seq<Item<TaskBody>>, pipelineId: string)
    ensures forall t :: t in ts && t.body.pipelineId == pipelineId ==> t.id in IdsOf(Users(ts, pipelineId))
    ensures forall t :: t in Users(ts, pipelineId) ==> t in ts
  {
    UsersAre(ts, pipelineId);
    var users := Users(ts, pipelineId);
    forall t | t in ts && t.body.pipelineId == pipelineId ensures t.id in IdsOf(users) {
      assert t in users;
      var i :| 0 <= i < |users| && users[i] == t;
    }
  }

  lemma SwapRight(m: Manager, x: Item<PipelineBody>)
    requires GraphsRight(m)
    ensures GraphsRight(SwapTemplate(m, x))
  {
    UsersCover(m.cfg.tasks, x.id);
    ReplaceIsUpdate(m.cfg.pipelines, x);
    StillRight(m, SwapTemplate(m, x));
  }

  lemma UpdatePipelineRight(m: Manager, x: Item<PipelineBody>)
    requires GraphsRight(m)
    ensures GraphsRight(DoUpdatePipeline(m, x).m)
  {
    if Has(m.cfg.pipelines, x.id) && !RunningUser(m, x.id) {
      var users, swapped := Users(m.cfg.tasks, x.id), SwapTemplate(m, x);
      UsersCover(m.cfg.tasks, x.id);
      SwapRight(m, x);
      BuildRight(swapped, users);
      BuildEachOnly(swapped, users);
      var built := BuildEach(swapped, users);
      if built.outcome.Refused? {
        var backup := Item(x.id, Find(m.cfg.pipelines, x.id).value);
        SwapRight(built.m, backup);
        BuildRight(SwapTemplate(built.m, backup), users);
      }
    }
  }

  lemma SourcesRight(m: Manager, c: Command)
    requires GraphsRight(m) && (c.AddSource? || c.RemoveSource?)
    ensures GraphsRight(Execute(m, c).m)
  {
    if c.AddSource? {
      AppendIsAdd(m.cfg.sources, c.source);
    } else {
      EraseIsRemove(m.cfg.sources, c.id);
      assert forall t :: t in m.cfg.tasks && t.body.sourceId == c.id ==> SourceInUse(m.cfg.tasks, c.id);
    }
    StillRight(m, Execute(m, c).m);
  }

  lemma PipelinesRight(m: Manager, c: Command)
    requires GraphsRight(m) && (c.AddPipeline? || c.RemovePipeline?)
    ensures GraphsRight(Execute(m, c).m)
  {
    if c.AddPipeline? {
      AppendIsAdd(m.cfg.pipelines, c.pipeline);
    } else {
      EraseIsRemove(m.cfg.pipelines, c.id);
      assert forall t :: t in m.cfg.tasks && t.body.pipelineId == c.id ==> PipelineInUse(m.cfg.tasks, c.id);
    }
    StillRight(m, Execute(m, c).m);
  }

  /** Whatever a command does and however it ends, every graph that exists is the current template
      instantiated for its task. */
  lemma GraphsStay(m: Manager, c: Command)
    requires GraphsRight(m) && EntriesListed(m)
    ensures GraphsRight(Execute(m, c).m)
  {
    match c
    case AddSource(_) => SourcesRight(m, c);
    case RemoveSource(_) => SourcesRight(m, c);
    case AddPipeline(_) => PipelinesRight(m, c);
    case RemovePipeline(_) => PipelinesRight(m, c);
    case UpdatePipeline(x) => UpdatePipelineRight(m, x);
    case AddTask(t, autostart) => AddTaskRight(m, t, autostart);
    case UpdateTask(t) => UpdateTaskRight(m, t);
    case RemoveTask(id) => RemoveTaskRight(m, id);
    case _ => StillRight(m, Execute(m, c).m);
  }

  // ---------------------------------------------------------------- across restarts

  datatype Event = Do(command: Command) | Boot

  /** A start reads the file as it was last written and builds the graphs. */
  function After(base: Config, m: Manager, e: Event): Manager {
    match e
    case Do(c) => Execute(m, c).m
    case Boot => LoadAll(Rebooted(base, m.saved)).m
  }

  /** The program on a configuration file, after any starts and any commands. */
  function Life(base: Config, events: seq<Event>): Manager {
    if events == [] then Manager(base, NO_DELTAS, NO_DELTAS, map[])
    else After(base, Life(base, events[..|events| - 1]), events[|events| - 1])
  }

  lemma LifeGoesOn(base: Config, events: seq<Event>, e: Event)
    ensures Life(base, events + [e]) == After(base, Life(base, events), e)
  {
    assert (events + [e])[..|events|] == events;
  }

  /** The first start is a start. */
  lemma FirstStartIsBoot(base: Config)
    ensures Life(base, [Boot]) == FirstStart(base)
  {
    LifeGoesOn(base, [], Boot);
    assert [] + [Boot] == [Boot];
    assert Reload(base, NO_DELTAS) == base;
  }

  /** What holds at every moment of every life. */
  ghost predicate Standing(base: Config, m: Manager) {
    Recoverable(base, m) && GraphsRight(m)
  }

  lemma LoadedStands(base: Config, m: Manager)
    requires AllRecorded(base, m) && SavedIds(m)
    ensures Standing(base, LoadAll(m).m) && LoadAll(m).m.cfg == m.cfg
  {
    var empty := m.(entries := map[]);
    BuildEachOnly(empty, m.cfg.tasks);
    BuildRight(empty, m.cfg.tasks);
    ListedIds(m.cfg.tasks);
  }

  lemma ListedIds(ts: seq<Item<TaskBody>>)
    ensures IdsOf(ts) <= ToMap(ts).Keys
  {
    forall id | id in IdsOf(ts) ensures id in ToMap(ts) {
      var i :| 0 <= i < |ts| && ts[i].id == id;
      ListedHasKey(ts, ts[i]);
    }
  }

  /** The file read back is a faithful record of what it restores. */
  lemma ReadBackRecorded<T(!new)>(file: seq<Item<T>>, live: seq<Item<T>>, d: Delta<T>, saved: Delta<T>)
    requires OncePerId(file) && Recorded(ToMap(file), ToMap(live), d) && SameIds(saved, d)
    ensures Recorded(ToMap(file), ToMap(Reloaded(file, saved)), saved)
  {
    SameKeys(saved.added, d.added);
    RestartIds(file, live, d, saved);
  }

  lemma BootStands(base: Config, m: Manager)
    requires ValidFile(base) && Recoverable(base, m)
    ensures Standing(base, LoadAll(Rebooted(base, m.saved)).m)
  {
    ReadBackRecorded(base.sources, m.cfg.sources, m.delta.sources, m.saved.sources);
    ReadBackRecorded(base.pipelines, m.cfg.pipelines, m.delta.pipelines, m.saved.pipelines);
    ReadBackRecorded(base.tasks, m.cfg.tasks, m.delta.tasks, m.saved.tasks);
    ReadBackRecorded(base.models, m.cfg.models, m.delta.models, m.saved.models);
    LoadedStands(base, Rebooted(base, m.saved));
  }

  lemma CommandStands(base: Config, m: Manager, c: Command)
    requires Standing(base, m)
    ensures Standing(base, Execute(m, c).m)
  {
    KeepsRecord(base, m, c);
    KeepsSaved(m, c);
    GraphsStay(m, c);
  }

  /** From any file without repeated ids, through any commands, thrown or not, and any restarts:
      the file on disk records the live ids, and every graph is the current template for its task. */
  lemma {:induction false} EveryLifeStands(base: Config, events: seq<Event>)
    requires ValidFile(base)
    ensures Standing(base, Life(base, events))
  {
    if events == [] {
      FreshRecorded(base, Life(base, events));
    } else {
      var k := |events| - 1;
      var m := Life(base, events[..k]);
      EveryLifeStands(base, events[..k]);
      match events[k]
      case Do(c) => CommandStands(base, m, c);
      case Boot => BootStands(base, m);
    }
  }

  /** At every moment of every life a restart restores exactly the live ids of every kind: file
      records with their file content, others as last saved, which is as they are live if the file
      is up to date. */
  lemma RestartInEveryLife(base: Config, events: seq<Event>)
    requires ValidFile(base)
    ensures var m := Life(base, events);
      && BringsBack(base, m, Reload(base, m.saved))
      && (m.saved == m.delta ==> RestoresAll(base, m.cfg, Reload(base, m.saved)))
  {
    EveryLifeStands(base, events);
    var m := Life(base, events);
    RestartIds(base.sources, m.cfg.sources, m.delta.sources, m.saved.sources);
    RestartIds(base.pipelines, m.cfg.pipelines, m.delta.pipelines, m.saved.pipelines);
    RestartIds(base.tasks, m.cfg.tasks, m.delta.tasks, m.saved.tasks);
    RestartIds(base.models, m.cfg.models, m.delta.models, m.saved.models);
  }

  ghost predicate BringsBack(base: Config, m: Manager, again: Config) {
    && RestoresIds(base.sources, m.cfg.sources, m.saved.sources, again.sources)
    && RestoresIds(base.pipelines, m.cfg.pipelines, m.saved.pipelines, again.pipelines)
    && RestoresIds(base.tasks, m.cfg.tasks, m.saved.tasks, again.tasks)
    && RestoresIds(base.models, m.cfg.models, m.saved.models, again.models)
  }

  /** At every moment of every life a running task keeps its graph, its record, its source and its
      template through any command but its removal. */
  lemma RunningInEveryLife(base: Config, events: seq<Event>, c: Command, id: string)
    requires ValidFile(base) && c != RemoveTask(id)
    requires var m := Life(base, events); id in m.entries && m.entries[id].running
    ensures Untouched(Life(base, events), Life(base, events + [Do(c)]), id)
  {
    EveryLifeStands(base, events);
    LifeGoesOn(base, events, Do(c));
    RunningUntouched(Life(base, events), c, id);
  }

  /** At every moment of every life: whether a restart leaves a task without its references. */
  lemma ReferencesInEveryLife(base: Config, events: seq<Event>)
    requires ValidFile(base)
    ensures var m := Life(base, events);
      Recoverable(base, m) &&
      (AllRefer(Life(base, events + [Boot]).cfg) <==>
       forall id :: id in ToMap(m.cfg.tasks) ==> Refers(TaskAfter(base, m, id), m.cfg))
  {
    EveryLifeStands(base, events);
    LifeGoesOn(base, events, Boot);
    var n := Rebooted(base, Life(base, events).saved);
    BuildEachOnly(n.(entries := map[]), n.cfg.tasks);
    RestartReferencesIff(base, Life(base, events));
  }
}
