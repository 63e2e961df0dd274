/**
 What the management commands do, without the functions that compute it
 (src/pipeline/TaskManager.cpp:36-85, 134-246, 340-526): configuration as maps, graphs node by node,
 and who is refused.  It holds in every state, coherent or not.
 */
module Commands {
  import opened Geometry
  import opened Keyed
  import opened Placeholders
  import opened RuntimeState
  import opened Management
  import opened Coherence

  // ---------------------------------------------------------------- the graph of a task

  /** Node `m` is node `n` with the URL of a stream sink filled in for this task and its source. */
  ghost predicate FilledIn(n: Node, m: Node, taskId: string, sourceId: string) {
    && m.id == n.id && m.kind == n.kind && m.options.Keys == n.options.Keys
    && (forall k :: k in n.options && !(n.kind == "sink.stream" && k == "output_url") ==> m.options[k] == n.options[k])
    && (n.kind == "sink.stream" && "output_url" in n.options ==>
          Interpolated(n.options["output_url"], taskId, sourceId) == Some(m.options["output_url"]))
  }

  /** The URL of a stream sink does not interpolate. */
  ghost predicate BadUrl(n: Node, taskId: string, sourceId: string) {
    n.kind == "sink.stream" && "output_url" in n.options
    && Interpolated(n.options["output_url"], taskId, sourceId).None?
  }

  ghost predicate AllFilledIn(ns: seq<Node>, ms: seq<Node>, taskId: string, sourceId: string) {
    |ms| == |ns| && forall i :: 0 <= i < |ns| ==> FilledIn(ns[i], ms[i], taskId, sourceId)
  }

  lemma {:induction false} NodesAre(ns: seq<Node>, taskId: string, sourceId: string)
    ensures var r := InstantiateNodes(ns, taskId, sourceId);
      && (r.None? <==> exists n :: n in ns && BadUrl(n, taskId, sourceId))
      && (r.Some? ==> AllFilledIn(ns, r.value, taskId, sourceId))
  {
    if ns != [] {
      var k := |ns| - 1;
      NodesAre(ns[..k], taskId, sourceId);
      NodeIs(ns[k], taskId, sourceId);
      assert ns == ns[..k] + [ns[k]];
    }
  }

  lemma NodeIs(n: Node, taskId: string, sourceId: string)
    ensures var r := InstantiateNode(n, taskId, sourceId);
      (r.None? <==> BadUrl(n, taskId, sourceId)) && (r.Some? ==> FilledIn(n, r.value, taskId, sourceId))
  {
  }

  ghost predicate IsGraph(p: PipelineBody, g: PipelineBody, taskId: string, sourceId: string) {
    g.edges == p.edges && AllFilledIn(p.nodes, g.nodes, taskId, sourceId)
  }

  ghost predicate HasBadUrl(p: PipelineBody, taskId: string, sourceId: string) {
    exists n :: n in p.nodes && BadUrl(n, taskId, sourceId)
  }

  /** Instantiating a template copies it node by node, with the URLs of stream sinks filled in, and
      throws exactly when one of them does not interpolate. */
  lemma GraphIs(p: PipelineBody, taskId: string, sourceId: string)
    ensures var r := Instantiate(p, taskId, sourceId);
      && (r.None? <==> HasBadUrl(p, taskId, sourceId))
      && (r.Some? ==> IsGraph(p, r.value, taskId, sourceId))
  {
    NodesAre(p.nodes, taskId, sourceId);
  }

  /** A stream sink publishes under the id of the task where its URL says so, and under that of the
      source where it says that. */
  lemma SinkUrl(n: Node, m: Node, a: string, b: string, taskId: string, sourceId: string)
    requires FilledIn(n, m, taskId, sourceId) && n.kind == "sink.stream" && "output_url" in n.options
    requires '{' !in a && '{' !in b
    ensures n.options["output_url"] == a + "{task_id}" + b ==> m.options["output_url"] == a + taskId + b
    ensures n.options["output_url"] == a + "{source_id}" + b ==> m.options["output_url"] == a + sourceId + b
  {
    PutsTaskId(a, b, taskId, sourceId);
    PutsSourceId(a, b, taskId, sourceId);
    PlainText(b, taskId, sourceId);
  }

  // ---------------------------------------------------------------- what is changed and what is not

  /** The entry of this id is a graph built for the record `t` from the templates of `cfg`. */
  ghost predicate BuiltEntry(cfg: Config, t: Item<TaskBody>, e: Entry, running: bool) {
    && t.body.pipelineId in ToMap(cfg.pipelines) && e.running == running
    && IsGraph(ToMap(cfg.pipelines)[t.body.pipelineId], e.graph, t.id, t.body.sourceId)
  }

  ghost predicate CannotFill(cfg: Config, t: Item<TaskBody>) {
    t.body.pipelineId in ToMap(cfg.pipelines)
    && HasBadUrl(ToMap(cfg.pipelines)[t.body.pipelineId], t.id, t.body.sourceId)
  }

  /** One entry was built, for `t`. */
  ghost predicate NewEntry(m: Manager, n: Manager, t: Item<TaskBody>, running: bool) {
    && t.id in n.entries && n == m.(entries := m.entries[t.id := n.entries[t.id]])
    && BuiltEntry(m.cfg, t, n.entries[t.id], running)
  }

  /** What the build of one task comes to. */
  lemma BuildIs(m: Manager, t: Item<TaskBody>, autostart: bool)
    ensures var r := BuildEntry(m, t, autostart);
      && (r.outcome.Refused? <==> !RefsExist(m.cfg, t))
      && (r.outcome.Threw? <==> RefsExist(m.cfg, t) && CannotFill(m.cfg, t))
      && (if r.outcome.Done? then NewEntry(m, r.m, t, autostart) else r.m == m)
  {
    BuildEntryIs(m, t, autostart);
    if RefsExist(m.cfg, t) {
      GraphIs(ToMap(m.cfg.pipelines)[t.body.pipelineId], t.id, t.body.sourceId);
    }
  }

  ghost predicate SameButEntries(m: Manager, n: Manager) { n == m.(entries := n.entries) }

  /** Only the running flags differ: that of `id` is now `running`. */
  ghost predicate Flagged(m: Manager, n: Manager, id: string, running: bool) {
    && SameButEntries(m, n) && n.entries.Keys == m.entries.Keys && id in m.entries
    && n.entries[id] == Entry(m.entries[id].graph, running)
    && forall i :: i in m.entries && i != id ==> n.entries[i] == m.entries[i]
  }

  ghost predicate AllFlagged(m: Manager, n: Manager, running: bool) {
    && SameButEntries(m, n) && n.entries.Keys == m.entries.Keys
    && forall i :: i in m.entries ==> n.entries[i] == Entry(m.entries[i].graph, running)
  }

  /** The model of a template: that of its first inference node that names one. */
  ghost predicate InfersWith(ns: seq<Node>, id: string) {
    || (exists i :: 0 <= i < |ns| && Names(ns[i]) && ns[i].options["model_id"] == id
                 && forall j :: 0 <= j < i ==> !Names(ns[j]))
    || (id == "" && forall j :: 0 <= j < |ns| ==> !Names(ns[j]))
  }

  predicate Names(n: Node) { n.kind == "infer.engine" && "model_id" in n.options }

  lemma {:induction false} InferModelIs(ns: seq<Node>, id: string)
    ensures InferModel(ns) == id <==> InfersWith(ns, id)
  {
    if ns != [] && !Names(ns[0]) {
      InferModelIs(ns[1..], id);
      assert forall j :: 0 <= j < |ns| - 1 ==> ns[1..][j] == ns[j + 1];
      if InfersWith(ns[1..], id) && exists i :: 0 <= i < |ns| - 1 && Names(ns[1..][i]) {
        FirstShifts(ns, id);
      }
      if InfersWith(ns, id) && exists i :: 0 <= i < |ns| && Names(ns[i]) {
        var i :| 0 <= i < |ns| && Names(ns[i]) && ns[i].options["model_id"] == id
              && forall j :: 0 <= j < i ==> !Names(ns[j]);
        assert ns[1..][i - 1] == ns[i];
        assert forall j :: 0 <= j < i - 1 ==> !Names(ns[1..][j]);
      }
    }
  }

  lemma FirstShifts(ns: seq<Node>, id: string)
    requires ns != [] && !Names(ns[0]) && InfersWith(ns[1..], id) && exists i :: 0 <= i < |ns| - 1 && Names(ns[1..][i])
    ensures InfersWith(ns, id)
  {
    var rest := ns[1..];
    var i :| 0 <= i < |rest| && Names(rest[i]) && rest[i].options["model_id"] == id
          && forall j :: 0 <= j < i ==> !Names(rest[j]);
    assert ns[i + 1] == rest[i];
    forall j | 0 <= j < i + 1 ensures !Names(ns[j]) {
      if j > 0 { assert ns[j] == rest[j - 1]; }
    }
  }

  /** Some running task infers with the model. */
  ghost predicate InUseModel(m: Manager, id: string) {
    exists t :: t in m.entries && m.entries[t].running && t in ToMap(m.cfg.tasks)
      && ToMap(m.cfg.tasks)[t].pipelineId in ToMap(m.cfg.pipelines)
      && InfersWith(ToMap(m.cfg.pipelines)[ToMap(m.cfg.tasks)[t].pipelineId].nodes, id)
  }

  lemma ModelUse(m: Manager, id: string)
    ensures ModelInUse(m, id) <==> InUseModel(m, id)
  {
    forall t | t in m.entries && m.entries[t].running
      ensures ModelOfTask(m.cfg, t) == Some(id) <==>
        t in ToMap(m.cfg.tasks) && ToMap(m.cfg.tasks)[t].pipelineId in ToMap(m.cfg.pipelines)
        && InfersWith(ToMap(m.cfg.pipelines)[ToMap(m.cfg.tasks)[t].pipelineId].nodes, id)
    {
      FindIsLookup(m.cfg.tasks, t);
      if t in ToMap(m.cfg.tasks) {
        var p := ToMap(m.cfg.tasks)[t].pipelineId;
        FindIsLookup(m.cfg.pipelines, p);
        if p in ToMap(m.cfg.pipelines) { InferModelIs(ToMap(m.cfg.pipelines)[p].nodes, id); }
      }
    }
  }

  // ---------------------------------------------------------------- every command

  ghost predicate Refuses(m: Manager, r: Reply) { r == Reply(m, Refused) }

  ghost predicate SourceUsed(m: Manager, id: string) { exists t :: t in m.cfg.tasks && t.body.sourceId == id }
  ghost predicate TemplateUsed(m: Manager, id: string) { exists t :: t in m.cfg.tasks && t.body.pipelineId == id }

  ghost predicate TemplateRuns(m: Manager, id: string) {
    exists t :: t in m.cfg.tasks && t.body.pipelineId == id && t.id in m.entries && m.entries[t.id].running
  }

  /** The new template is in place, every task of it has a new, idle entry, and nothing else changed. */
  ghost predicate TemplateReplaced(m: Manager, n: Manager, x: Item<PipelineBody>) {
    && n.cfg == m.cfg.(pipelines := n.cfg.pipelines) && ToMap(n.cfg.pipelines) == ToMap(m.cfg.pipelines)[x.id := x.body]
    && (forall id :: id in m.entries && !UserId(m, x.id, id) ==> id in n.entries && n.entries[id] == m.entries[id])
    && (forall id :: id in n.entries ==> id in m.entries || UserId(m, x.id, id))
    && (forall id :: UserId(m, x.id, id) ==>
          id in n.entries && BuiltForUser(n.cfg, m.cfg.tasks, x.id, id, n.entries[id]))
  }

  ghost predicate UserId(m: Manager, p: string, id: string) {
    exists t :: t in m.cfg.tasks && t.body.pipelineId == p && t.id == id
  }

  ghost predicate BuiltForUser(cfg: Config, ts: seq<Item<TaskBody>>, p: string, id: string, e: Entry) {
    exists t :: t in ts && t.body.pipelineId == p && t.id == id && BuiltEntry(cfg, t, e, false)
  }

  ghost predicate TaskReplaced(m: Manager, n: Manager, t: Item<TaskBody>) {
    && n.cfg == m.cfg.(tasks := n.cfg.tasks)
    && ToMap(n.cfg.tasks) == if t.id in ToMap(m.cfg.tasks) then ToMap(m.cfg.tasks)[t.id := t.body]
                             else ToMap(m.cfg.tasks)
  }

  /** What a command answers and what it does to configuration and entries. */
  ghost predicate Effect(m: Manager, c: Command, r: Reply) {
    var n := r.m;
    match c
    case AddSource(x) =>
      if x.id in ToMap(m.cfg.sources) then Refuses(m, r)
      else r.outcome.Done? && n.cfg == m.cfg.(sources := m.cfg.sources + [x]) && n.entries == m.entries
    case RemoveSource(id) =>
      if id !in ToMap(m.cfg.sources) || SourceUsed(m, id) then Refuses(m, r)
      else
        && r.outcome.Done? && n.cfg == m.cfg.(sources := n.cfg.sources) && n.entries == m.entries
        && ToMap(n.cfg.sources) == ToMap(m.cfg.sources) - {id}
    case AddPipeline(x) =>
      if x.id in ToMap(m.cfg.pipelines) then Refuses(m, r)
      else r.outcome.Done? && n.cfg == m.cfg.(pipelines := m.cfg.pipelines + [x]) && n.entries == m.entries
    case RemovePipeline(id) =>
      if id !in ToMap(m.cfg.pipelines) || TemplateUsed(m, id) then Refuses(m, r)
      else
        && r.outcome.Done? && n.cfg == m.cfg.(pipelines := n.cfg.pipelines) && n.entries == m.entries
        && ToMap(n.cfg.pipelines) == ToMap(m.cfg.pipelines) - {id}
    case UpdatePipeline(x) =>
      if x.id !in ToMap(m.cfg.pipelines) || TemplateRuns(m, x.id) then Refuses(m, r)
      else r.outcome.Done? ==> TemplateReplaced(m, n, x)
    case AddTask(t, autostart) =>
      if t.id in m.entries || !RefsExist(m.cfg, t) then Refuses(m, r)
      else if CannotFill(m.cfg, t) then r == Reply(m, Threw)
      else
        && r.outcome.Done? && n.cfg == m.cfg.(tasks := m.cfg.tasks + [t])
        && t.id in n.entries && n.entries == m.entries[t.id := n.entries[t.id]]
        && BuiltEntry(m.cfg, t, n.entries[t.id], autostart)
    case UpdateTask(t) =>
      if t.id !in m.entries || m.entries[t.id].running || !RefsExist(m.cfg, t) then Refuses(m, r)
      else if CannotFill(m.cfg, t) then r.outcome.Threw? && TaskReplaced(m, n, t) && n.entries == m.entries - {t.id}
      else
        && r.outcome.Done? && TaskReplaced(m, n, t)
        && t.id in n.entries && n.entries == m.entries[t.id := n.entries[t.id]]
        && BuiltEntry(m.cfg, t, n.entries[t.id], false)
    case RemoveTask(id) =>
      if id !in m.entries then Refuses(m, r)
      else
        && r.outcome.Done? && n.cfg == m.cfg.(tasks := n.cfg.tasks) && n.entries == m.entries - {id}
        && ToMap(n.cfg.tasks) == ToMap(m.cfg.tasks) - {id}
    case LoadModel(x) =>
      if x.id in ToMap(m.cfg.models) then Refuses(m, r)
      else r.outcome.Done? && n.cfg == m.cfg.(models := m.cfg.models + [x]) && n.entries == m.entries
    case UnloadModel(id) =>
      if id !in ToMap(m.cfg.models) || InUseModel(m, id) then Refuses(m, r)
      else
        && r.outcome.Done? && n.cfg == m.cfg.(models := n.cfg.models) && n.entries == m.entries
        && ToMap(n.cfg.models) == ToMap(m.cfg.models) - {id}
    case Start(id) =>
      if id !in m.entries then Refuses(m, r) else r.outcome.Done? && Flagged(m, n, id, true)
    case Stop(id) =>
      if id !in m.entries then Refuses(m, r) else r.outcome.Done? && Flagged(m, n, id, false)
    case StartAll => r.outcome.Done? && AllFlagged(m, n, true)
    case StopAll => r.outcome.Done? && AllFlagged(m, n, false)
  }

  /** Every command has this effect, in every state. */
  lemma CommandDoes(m: Manager, c: Command)
    ensures Effect(m, c, Execute(m, c))
  {
    match c
    case AddSource(x) => FindIsLookup(m.cfg.sources, x.id);
    case AddPipeline(x) => FindIsLookup(m.cfg.pipelines, x.id);
    case LoadModel(x) => FindIsLookup(m.cfg.models, x.id);
    case RemoveSource(id) => RemoveSourceDoes(m, id);
    case RemovePipeline(id) => RemovePipelineDoes(m, id);
    case UnloadModel(id) =>
      FindIsLookup(m.cfg.models, id);
      EraseIsRemove(m.cfg.models, id);
      ModelUse(m, id);
    case UpdatePipeline(x) => UpdatePipelineDoes(m, x);
    case AddTask(t, autostart) => BuildIs(m, t, autostart);
    case UpdateTask(t) => UpdateTaskDoes(m, t);
    case RemoveTask(id) => EraseIsRemove(m.cfg.tasks, id);
    case _ =>
  }

  lemma RemoveSourceDoes(m: Manager, id: string)
    ensures Effect(m, RemoveSource(id), DoRemoveSource(m, id))
  {
    FindIsLookup(m.cfg.sources, id);
    EraseIsRemove(m.cfg.sources, id);
    if SourceUsed(m, id) {
      var t :| t in m.cfg.tasks && t.body.sourceId == id;
      var i :| 0 <= i < |m.cfg.tasks| && m.cfg.tasks[i] == t;
    }
  }

  lemma RemovePipelineDoes(m: Manager, id: string)
    ensures Effect(m, RemovePipeline(id), DoRemovePipeline(m, id))
  {
    FindIsLookup(m.cfg.pipelines, id);
    EraseIsRemove(m.cfg.pipelines, id);
    if TemplateUsed(m, id) {
      var t :| t in m.cfg.tasks && t.body.pipelineId == id;
      var i :| 0 <= i < |m.cfg.tasks| && m.cfg.tasks[i] == t;
    }
  }

  lemma UpdateTaskDoes(m: Manager, t: Item<TaskBody>)
    ensures Effect(m, UpdateTask(t), DoUpdateTask(m, t))
  {
    FindAll(m.cfg, t.body.sourceId, t.body.pipelineId);
    ReplaceIsUpdate(m.cfg.tasks, t);
    BuildIs(SwapTask(m, t), t, false);
  }

  lemma RunsIff(m: Manager, id: string)
    ensures RunningUser(m, id) <==> TemplateRuns(m, id)
  {
    if TemplateRuns(m, id) {
      var t :| t in m.cfg.tasks && t.body.pipelineId == id && t.id in m.entries && m.entries[t.id].running;
      var i :| 0 <= i < |m.cfg.tasks| && m.cfg.tasks[i] == t;
    }
  }

  /** Building a list of tasks one by one to the end gives each an entry of its own. */
  lemma {:induction false} EachBuilt(m: Manager, ts: seq<Item<TaskBody>>, all: seq<Item<TaskBody>>, p: string)
    requires BuildEach(m, ts).outcome.Done? && forall t :: t in ts ==> t in all && t.body.pipelineId == p
    ensures var n := BuildEach(m, ts).m;
      && SameButEntries(m, n)
      && (forall id :: id in m.entries && id !in IdsOf(ts) ==> id in n.entries && n.entries[id] == m.entries[id])
      && (forall id :: id in n.entries ==> id in m.entries || id in IdsOf(ts))
      && (forall id :: id in IdsOf(ts) ==> id in n.entries && BuiltForUser(m.cfg, all, p, id, n.entries[id]))
  {
    if ts != [] {
      var k := |ts| - 1;
      assert forall t :: t in ts[..k] ==> t in ts;
      EachBuilt(m, ts[..k], all, p);
      BuildIs(BuildEach(m, ts[..k]).m, ts[k], false);
      IdsOfLast(ts);
      assert ts[k] in ts;
    }
  }

  lemma UpdatePipelineDoes(m: Manager, x: Item<PipelineBody>)
    ensures Effect(m, UpdatePipeline(x), DoUpdatePipeline(m, x))
  {
    FindIsLookup(m.cfg.pipelines, x.id);
    ReplaceIsUpdate(m.cfg.pipelines, x);
    RunsIff(m, x.id);
    var swapped, users := SwapTemplate(m, x), Users(m.cfg.tasks, x.id);
    if Has(m.cfg.pipelines, x.id) && !RunningUser(m, x.id) && BuildEach(swapped, users).outcome.Done? {
      UsersAre(m.cfg.tasks, x.id);
      EachBuilt(swapped, users, m.cfg.tasks, x.id);
      UpdateUnfolds(m, x);
      forall id ensures id in IdsOf(users) <==> UserId(m, x.id, id) {
        if id in IdsOf(users) {
          var i :| 0 <= i < |users| && users[i].id == id;
          assert users[i] in users;
        }
        if UserId(m, x.id, id) {
          var t :| t in m.cfg.tasks && t.body.pipelineId == x.id && t.id == id;
          assert t in users;
          var i :| 0 <= i < |users| && users[i] == t;
        }
      }
    }
  }
}
