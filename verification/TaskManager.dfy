/**
 `TaskManager` as an object (src/pipeline/TaskManager.cpp:36-180, 334-526): each mutator
 changes the configuration, the delta and the entries in place, and is proved to compute
 the corresponding function of Management.  A thrown exception is the outcome `Threw`.
 */
module TaskManagers {
  import opened Geometry
  import opened Keyed
  import opened Placeholders
  import opened RuntimeState
  import opened Management
  import Coherence
  import Restart
  import Histories

  /** A URL without braces needs no interpolation. */
  lemma BraceFreeUrl(raw: string, taskId: string, sourceId: string)
    requires '{' !in raw
    ensures Interpolated(raw, taskId, sourceId) == Some(raw)
  {
    NamesUsable();
    ParseWritten(NAMES, "", End(raw));
    assert "" + raw == raw;
  }

  method InterpolateNode(n: Node, taskId: string, sourceId: string) returns (r: Option<Node>)
    ensures r == InstantiateNode(n, taskId, sourceId)
  {
    if n.kind != SINK || URL !in n.options {
      return Some(n);
    }
    var raw := n.options[URL];
    if '{' !in raw && '}' !in raw {
      BraceFreeUrl(raw, taskId, sourceId);
      assert n.options[URL := raw] == n.options;
      return Some(n);
    }
    var url := Interpolate(raw, taskId, sourceId);
    if url.None? {
      return None;
    }
    r := Some(n.(options := n.options[URL := url.value]));
  }

  /** `interpolatePipelineForTask`: a copy of the template with the task's stream URLs. */
  method InterpolatePipeline(p: PipelineBody, taskId: string, sourceId: string) returns (r: Option<PipelineBody>)
    ensures r == Instantiate(p, taskId, sourceId)
  {
    var nodes: seq<Node> := [];
    var i := 0;
    while i < |p.nodes|
      invariant 0 <= i <= |p.nodes|
      invariant InstantiateNodes(p.nodes[..i], taskId, sourceId) == Some(nodes)
    {
      assert p.nodes[..i + 1][..i] == p.nodes[..i];
      var n := InterpolateNode(p.nodes[i], taskId, sourceId);
      if n.None? {
        FailureSpreads(p.nodes, i + 1, taskId, sourceId);
        return None;
      }
      nodes := nodes + [n.value];
      i := i + 1;
    }
    assert p.nodes[..i] == p.nodes;
    r := Some(p.(nodes := nodes));
  }

  lemma {:induction false} FailureSpreads(ns: seq<Node>, k: nat, taskId: string, sourceId: string)
    requires k <= |ns| && InstantiateNodes(ns[..k], taskId, sourceId).None?
    ensures InstantiateNodes(ns, taskId, sourceId).None?
    decreases |ns| - k
  {
    if k == |ns| {
      assert ns[..k] == ns;
    } else {
      assert ns[..k + 1][..k] == ns[..k];
      FailureSpreads(ns, k + 1, taskId, sourceId);
    }
  }

  /** The loop of `removeSource` over the tasks. */
  method UsesSource(ts: seq<Item<TaskBody>>, id: string) returns (used: bool)
    ensures used == SourceInUse(ts, id)
  {
    for i := 0 to |ts|
      invariant forall k :: 0 <= k < i ==> ts[k].body.sourceId != id
    {
      if ts[i].body.sourceId == id {
        return true;
      }
    }
    used := false;
  }

  /** The loop of `removePipeline` over the tasks. */
  method UsesPipeline(ts: seq<Item<TaskBody>>, id: string) returns (used: bool)
    ensures used == PipelineInUse(ts, id)
  {
    for i := 0 to |ts|
      invariant forall k :: 0 <= k < i ==> ts[k].body.pipelineId != id
    {
      if ts[i].body.pipelineId == id {
        return true;
      }
    }
    used := false;
  }

  class TaskManager {
    var cfg: Config
    var delta: Deltas
    var saved: Deltas
    var entries: map<string, Entry>
    /** The configuration file, and everything that happened to the program on it. */
    ghost const base: Config
    ghost var past: seq<Histories.Event>

    ghost function Value(): Manager
      reads this
    {
      Manager(cfg, delta, saved, entries)
    }

    /** The fields are those of the program after its past. */
    ghost predicate Valid()
      reads this
    {
      Value() == Histories.Life(base, past)
    }

    ghost method Record(c: Command)
      modifies this`past
      ensures past == old(past) + [Histories.Do(c)]
      ensures Histories.Life(base, past) == Execute(Histories.Life(base, old(past)), c).m
    {
      Histories.LifeGoesOn(base, past, Histories.Do(c));
      past := past + [Histories.Do(c)];
    }

    /** What the theorems on lives say of the object. */
    lemma AlwaysStands()
      requires Valid() && Restart.ValidFile(base)
      ensures Histories.Standing(base, Value())
    {
      Histories.EveryLifeStands(base, past);
    }

    /** A command leaves everything in step exactly when it is not a damaging one. */
    lemma InStepIff(c: Command)
      requires Valid() && Coherent(Value())
      ensures Coherent(Histories.Life(base, past + [Histories.Do(c)])) <==> !Damaging(Value(), c)
    {
      Histories.LifeGoesOn(base, past, Histories.Do(c));
      Coherence.CoherentIff(Value(), c);
    }

    /** The constructor: the file with the persisted delta applied; graphs are built by LoadAll. */
    constructor (file: Config, persisted: Deltas)
      ensures base == file
      ensures Value() == Manager(
        Config(Reloaded(file.sources, persisted.sources), Reloaded(file.pipelines, persisted.pipelines),
               Reloaded(file.tasks, persisted.tasks), Reloaded(file.models, persisted.models)),
        persisted, persisted, map[])
    {
      var sources := ApplyRuntimeState(file.sources, persisted.sources);
      var pipelines := ApplyRuntimeState(file.pipelines, persisted.pipelines);
      var tasks := ApplyRuntimeState(file.tasks, persisted.tasks);
      var models := ApplyRuntimeState(file.models, persisted.models);
      cfg, delta, saved, entries := Config(sources, pipelines, tasks, models), persisted, persisted, map[];
      base, past := file, [];
    }

    method BuildEntry(t: Item<TaskBody>, autostart: bool) returns (r: Outcome)
      modifies this`entries
      ensures Reply(Value(), r) == Management.BuildEntry(old(Value()), t, autostart)
    {
      var source := Find(cfg.sources, t.body.sourceId);
      var template := Find(cfg.pipelines, t.body.pipelineId);
      if source.None? || template.None? {
        return Refused;
      }
      var graph := InterpolatePipeline(template.value, t.id, t.body.sourceId);
      if graph.None? {
        return Threw;
      }
      entries := entries[t.id := Entry(graph.value, autostart)];
      r := Done;
    }

    /** The end of a start, on the file as an earlier process left it. */
    method LoadAll(ghost earlier: seq<Histories.Event>) returns (r: Outcome)
      requires Value() == Restart.Rebooted(base, Histories.Life(base, earlier).saved)
      modifies this`entries, this`past
      ensures Valid() && past == earlier + [Histories.Boot]
      ensures Reply(Value(), r) == BuildAll(old(Value()).(entries := map[]), old(cfg).tasks)
    {
      Histories.LifeGoesOn(base, earlier, Histories.Boot);
      past := earlier + [Histories.Boot];
      entries := map[];
      r := BuildSkipping(cfg.tasks);
    }

    /** Builds each listed task, passing over refusals. */
    method BuildSkipping(ts: seq<Item<TaskBody>>) returns (r: Outcome)
      modifies this`entries
      ensures Reply(Value(), r) == BuildAll(old(Value()), ts)
    {
      var i := 0;
      r := Done;
      while i < |ts|
        invariant 0 <= i <= |ts|
        invariant Reply(Value(), Done) == BuildAll(old(Value()), ts[..i])
      {
        assert ts[..i + 1][..i] == ts[..i];
        var one := BuildEntry(ts[i], false);
        if one.Threw? {
          ThrowSpreads(old(Value()), ts, i + 1);
          return Threw;
        }
        i := i + 1;
      }
      assert ts[..i] == ts;
    }

    method AddSource(x: Item<SourceBody>) returns (r: Outcome)
      requires Valid()
      modifies this
      ensures Valid() && past == old(past) + [Histories.Do(Command.AddSource(x))]
      ensures Reply(Value(), r) == DoAddSource(old(Value()), x)
    {
      Record(Command.AddSource(x));
      if Has(cfg.sources, x.id) {
        return Refused;
      }
      cfg := cfg.(sources := cfg.sources + [x]);
      delta := delta.(sources := Delta(delta.sources.added + [x], Without(delta.sources.removed, x.id)));
      saved := delta;
      r := Done;
    }

    method RemoveSource(id: string) returns (r: Outcome)
      requires Valid()
      modifies this
      ensures Valid() && past == old(past) + [Histories.Do(Command.RemoveSource(id))]
      ensures Reply(Value(), r) == DoRemoveSource(old(Value()), id)
    {
      Record(Command.RemoveSource(id));
      if !Has(cfg.sources, id) {
        return Refused;
      }
      var used := UsesSource(cfg.tasks, id);
      if used {
        return Refused;
      }
      cfg := cfg.(sources := Erase(cfg.sources, id));
      delta := delta.(sources := Delta(Erase(delta.sources.added, id), delta.sources.removed + [id]));
      saved := delta;
      r := Done;
    }

    method AddPipeline(x: Item<PipelineBody>) returns (r: Outcome)
      requires Valid()
      modifies this
      ensures Valid() && past == old(past) + [Histories.Do(Command.AddPipeline(x))]
      ensures Reply(Value(), r) == DoAddPipeline(old(Value()), x)
    {
      Record(Command.AddPipeline(x));
      if Has(cfg.pipelines, x.id) {
        return Refused;
      }
      cfg := cfg.(pipelines := cfg.pipelines + [x]);
      delta := delta.(pipelines := Delta(delta.pipelines.added + [x], Without(delta.pipelines.removed, x.id)));
      saved := delta;
      r := Done;
    }

    method RemovePipeline(id: string) returns (r: Outcome)
      requires Valid()
      modifies this
      ensures Valid() && past == old(past) + [Histories.Do(Command.RemovePipeline(id))]
      ensures Reply(Value(), r) == DoRemovePipeline(old(Value()), id)
    {
      Record(Command.RemovePipeline(id));
      if !Has(cfg.pipelines, id) {
        return Refused;
      }
      var used := UsesPipeline(cfg.tasks, id);
      if used {
        return Refused;
      }
      cfg := cfg.(pipelines := Erase(cfg.pipelines, id));
      delta := delta.(pipelines := Delta(Erase(delta.pipelines.added, id), delta.pipelines.removed + [id]));
      saved := delta;
      r := Done;
    }

    /** The tasks of a template. */
    method Affected(pipelineId: string) returns (ts: seq<Item<TaskBody>>)
      ensures ts == Users(cfg.tasks, pipelineId)
    {
      ts := [];
      var i := 0;
      while i < |cfg.tasks|
        invariant 0 <= i <= |cfg.tasks| && ts == Users(cfg.tasks[..i], pipelineId)
      {
        assert cfg.tasks[..i + 1][..i] == cfg.tasks[..i];
        if cfg.tasks[i].body.pipelineId == pipelineId {
          ts := ts + [cfg.tasks[i]];
        }
        i := i + 1;
      }
      assert cfg.tasks[..i] == cfg.tasks;
    }

    /** Erases the entries of the listed tasks. */
    method DropEntries(ts: seq<Item<TaskBody>>)
      modifies this`entries
      ensures entries == old(entries) - IdsOf(ts)
    {
      var i := 0;
      while i < |ts|
        invariant 0 <= i <= |ts| && entries == old(entries) - IdsOf(ts[..i])
      {
        assert IdsOf(ts[..i + 1]) == IdsOf(ts[..i]) + {ts[i].id} by {
          Coherence.IdsOfLast(ts[..i + 1]);
          assert ts[..i + 1][..i] == ts[..i];
        }
        entries := entries - {ts[i].id};
        i := i + 1;
      }
      assert ts[..i] == ts;
    }

    method AnyRunning(pipelineId: string) returns (b: bool)
      ensures b == RunningUser(Value(), pipelineId)
    {
      var i := 0;
      while i < |cfg.tasks|
        invariant 0 <= i <= |cfg.tasks|
        invariant forall k :: 0 <= k < i && cfg.tasks[k].body.pipelineId == pipelineId && cfg.tasks[k].id in entries ==>
          !entries[cfg.tasks[k].id].running
      {
        var t := cfg.tasks[i];
        if t.body.pipelineId == pipelineId && t.id in entries && entries[t.id].running {
          return true;
        }
        i := i + 1;
      }
      b := false;
    }

    /** Builds each listed task, stopping at the first that is not built. */
    method BuildStopping(ts: seq<Item<TaskBody>>) returns (r: Outcome)
      modifies this`entries
      ensures Reply(Value(), r) == BuildEach(old(Value()), ts)
    {
      var i := 0;
      while i < |ts|
        invariant 0 <= i <= |ts|
        invariant Reply(Value(), Done) == BuildEach(old(Value()), ts[..i])
      {
        assert ts[..i + 1][..i] == ts[..i];
        r := BuildEntry(ts[i], false);
        if !r.Done? {
          StopSpreads(old(Value()), ts, i + 1);
          return;
        }
        i := i + 1;
      }
      assert ts[..i] == ts;
      r := Done;
    }

    method UpdatePipeline(x: Item<PipelineBody>) returns (r: Outcome)
      requires Valid()
      modifies this
      ensures Valid() && past == old(past) + [Histories.Do(Command.UpdatePipeline(x))]
      ensures Reply(Value(), r) == DoUpdatePipeline(old(Value()), x)
    {
      Record(Command.UpdatePipeline(x));
      var backup := Find(cfg.pipelines, x.id);
      if backup.None? {
        return Refused;
      }
      var busy := AnyRunning(x.id);
      if busy {
        return Refused;
      }
      cfg := cfg.(pipelines := Replace(cfg.pipelines, x));
      delta := delta.(pipelines := delta.pipelines.(added := Replace(delta.pipelines.added, x)));
      var ts := Affected(x.id);
      DropEntries(ts);
      assert Value() == SwapTemplate(old(Value()), x);
      r := BuildStopping(ts);
      if r.Done? {
        saved := delta;
      } else if r.Refused? {
        label Failed:
        var was := Item(x.id, backup.value);
        cfg := cfg.(pipelines := Replace(cfg.pipelines, was));
        delta := delta.(pipelines := delta.pipelines.(added := Replace(delta.pipelines.added, was)));
        BuildKeepsTasks(SwapTemplate(old(Value()), x), ts);
        DropEntries(ts);
        assert Value() == SwapTemplate(old@Failed(Value()), was);
        var again := BuildSkipping(ts);
        r := if again.Threw? then Threw else Refused;
      }
    }

    method AddTask(t: Item<TaskBody>, autostart: bool) returns (r: Outcome)
      requires Valid()
      modifies this
      ensures Valid() && past == old(past) + [Histories.Do(Command.AddTask(t, autostart))]
      ensures Reply(Value(), r) == DoAddTask(old(Value()), t, autostart)
    {
      Record(Command.AddTask(t, autostart));
      if t.id in entries {
        return Refused;
      }
      r := BuildEntry(t, autostart);
      if r.Done? {
        cfg := cfg.(tasks := cfg.tasks + [t]);
        delta := delta.(tasks := Delta(delta.tasks.added + [t], Without(delta.tasks.removed, t.id)));
        saved := delta;
      }
    }

    method UpdateTask(t: Item<TaskBody>) returns (r: Outcome)
      requires Valid()
      modifies this
      ensures Valid() && past == old(past) + [Histories.Do(Command.UpdateTask(t))]
      ensures Reply(Value(), r) == DoUpdateTask(old(Value()), t)
    {
      Record(Command.UpdateTask(t));
      if t.id !in entries || entries[t.id].running
         || !Has(cfg.sources, t.body.sourceId) || !Has(cfg.pipelines, t.body.pipelineId) {
        return Refused;
      }
      entries := entries - {t.id};
      cfg := cfg.(tasks := Replace(cfg.tasks, t));
      delta := delta.(tasks := delta.tasks.(added := Replace(delta.tasks.added, t)));
      r := BuildEntry(t, false);
      if !r.Threw? {
        saved := delta;
        r := Done;
      }
    }

    method RemoveTask(id: string) returns (r: Outcome)
      requires Valid()
      modifies this
      ensures Valid() && past == old(past) + [Histories.Do(Command.RemoveTask(id))]
      ensures Reply(Value(), r) == DoRemoveTask(old(Value()), id)
    {
      Record(Command.RemoveTask(id));
      if id !in entries {
        return Refused;
      }
      entries := entries - {id};
      cfg := cfg.(tasks := Erase(cfg.tasks, id));
      delta := delta.(tasks := Delta(Erase(delta.tasks.added, id), delta.tasks.removed + [id]));
      saved := delta;
      r := Done;
    }

    method LoadModel(x: Item<ModelBody>) returns (r: Outcome)
      requires Valid()
      modifies this
      ensures Valid() && past == old(past) + [Histories.Do(Command.LoadModel(x))]
      ensures Reply(Value(), r) == DoLoadModel(old(Value()), x)
    {
      Record(Command.LoadModel(x));
      if Has(cfg.models, x.id) {
        return Refused;
      }
      cfg := cfg.(models := cfg.models + [x]);
      delta := delta.(models := Delta(delta.models.added + [x], Without(delta.models.removed, x.id)));
      saved := delta;
      r := Done;
    }

    /** Whether a running task's template names the model. */
    method InferredWith(id: string) returns (b: bool)
      ensures b == ModelInUse(Value(), id)
    {
      var left := entries.Keys;
      while left != {}
        invariant left <= entries.Keys
        invariant forall t :: t in entries && t !in left ==> !(entries[t].running && ModelOfTask(cfg, t) == Some(id))
        decreases left
      {
        var t :| t in left;
        if entries[t].running && ModelOfTask(cfg, t) == Some(id) {
          return true;
        }
        left := left - {t};
      }
      b := false;
    }

    method UnloadModel(id: string) returns (r: Outcome)
      requires Valid()
      modifies this
      ensures Valid() && past == old(past) + [Histories.Do(Command.UnloadModel(id))]
      ensures Reply(Value(), r) == DoUnloadModel(old(Value()), id)
    {
      Record(Command.UnloadModel(id));
      if !Has(cfg.models, id) {
        return Refused;
      }
      var used := InferredWith(id);
      if used {
        return Refused;
      }
      cfg := cfg.(models := Erase(cfg.models, id));
      delta := delta.(models := Delta(Erase(delta.models.added, id), delta.models.removed + [id]));
      saved := delta;
      r := Done;
    }

    method SetEach(running: bool)
      modifies this`entries
      ensures entries == map id | id in old(entries) :: old(entries)[id].(running := running)
    {
      var left := entries.Keys;
      while left != {}
        invariant left <= entries.Keys == old(entries).Keys
        invariant forall t :: t in entries ==>
          entries[t] == if t in left then old(entries)[t] else old(entries)[t].(running := running)
        decreases left
      {
        var t :| t in left;
        if entries[t].running != running {
          entries := entries[t := entries[t].(running := running)];
        }
        left := left - {t};
      }
    }

    /** `startAll` and `stopAll`. */
    method SwitchAll(running: bool)
      requires Valid()
      modifies this`entries, this`past
      ensures Valid() && past == old(past) + [Histories.Do(if running then Command.StartAll else Command.StopAll)]
      ensures Reply(Value(), Done) == SetAll(old(Value()), running)
    {
      Record(if running then Command.StartAll else Command.StopAll);
      SetEach(running);
    }

    method Start(id: string) returns (r: Outcome)
      requires Valid()
      modifies this`entries, this`past
      ensures Valid() && past == old(past) + [Histories.Do(Command.Start(id))]
      ensures Reply(Value(), r) == DoStart(old(Value()), id)
    {
      Record(Command.Start(id));
      if id !in entries {
        return Refused;
      }
      if !entries[id].running {
        entries := entries[id := entries[id].(running := true)];
      } else {
        assert entries[id := entries[id].(running := true)] == entries;
      }
      r := Done;
    }

    method Stop(id: string) returns (r: Outcome)
      requires Valid()
      modifies this`entries, this`past
      ensures Valid() && past == old(past) + [Histories.Do(Command.Stop(id))]
      ensures Reply(Value(), r) == DoStop(old(Value()), id)
    {
      Record(Command.Stop(id));
      if id !in entries {
        return Refused;
      }
      if entries[id].running {
        entries := entries[id := entries[id].(running := false)];
      } else {
        assert entries[id := entries[id].(running := false)] == entries;
      }
      r := Done;
    }
  }

  lemma {:induction false} ThrowSpreads(m: Manager, ts: seq<Item<TaskBody>>, k: nat)
    requires k <= |ts| && BuildAll(m, ts[..k]).outcome.Threw?
    ensures BuildAll(m, ts) == BuildAll(m, ts[..k])
    decreases |ts| - k
  {
    if k == |ts| {
      assert ts[..k] == ts;
    } else {
      assert ts[..k + 1][..k] == ts[..k];
      ThrowSpreads(m, ts, k + 1);
    }
  }

  lemma {:induction false} StopSpreads(m: Manager, ts: seq<Item<TaskBody>>, k: nat)
    requires k <= |ts| && !BuildEach(m, ts[..k]).outcome.Done?
    ensures BuildEach(m, ts) == BuildEach(m, ts[..k])
    decreases |ts| - k
  {
    if k == |ts| {
      assert ts[..k] == ts;
    } else {
      assert ts[..k + 1][..k] == ts[..k];
      StopSpreads(m, ts, k + 1);
    }
  }

  lemma {:induction false} BuildKeepsTasks(m: Manager, ts: seq<Item<TaskBody>>)
    ensures BuildEach(m, ts).m.cfg == m.cfg
  {
    if ts != [] {
      BuildKeepsTasks(m, ts[..|ts| - 1]);
    }
  }
}
