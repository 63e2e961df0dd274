/**
 The management plane as a value (src/pipeline/TaskManager.cpp): the live configuration,
 the delta kept for restarts, what was last persisted of it, and the built graph of
 every task.  Every command is a function from one such value to the next.

 Building a graph interpolates the stream URLs of the template, which may throw;
 constructing the stages themselves is taken not to throw.
 */
module Management {
  import opened Geometry
  import opened Keyed
  import opened Placeholders
  import opened RuntimeState

  datatype SourceBody = SourceBody(url: string, settings: seq<int>)
  datatype Node = Node(id: string, kind: string, options: map<string, string>)
  datatype DropPolicy = Block | DropOldest | DropNewest
  datatype Edge = Edge(from: string, to: string, capacity: int, policy: DropPolicy)
  datatype PipelineBody = PipelineBody(nodes: seq<Node>, edges: seq<Edge>)
  datatype TaskBody = TaskBody(sourceId: string, pipelineId: string, sampleFps: int, useHwdec: bool)
  datatype ModelBody = ModelBody(backend: string, path: string)

  datatype Config = Config(
    sources: seq<Item<SourceBody>>,
    pipelines: seq<Item<PipelineBody>>,
    tasks: seq<Item<TaskBody>>,
    models: seq<Item<ModelBody>>)

  datatype Deltas = Deltas(
    sources: Delta<SourceBody>,
    pipelines: Delta<PipelineBody>,
    tasks: Delta<TaskBody>,
    models: Delta<ModelBody>)

  datatype Entry = Entry(graph: PipelineBody, running: bool)

  datatype Manager = Manager(cfg: Config, delta: Deltas, saved: Deltas, entries: map<string, Entry>)

  /** A mutator returns true, returns false, or lets an exception escape. */
  datatype Outcome = Done | Refused | Threw

  datatype Reply = Reply(m: Manager, outcome: Outcome)

  // ---------------------------------------------------------------- building a task's graph

  const SINK := "sink.stream"
  const URL := "output_url"

  function InstantiateNode(n: Node, taskId: string, sourceId: string): Option<Node> {
    if n.kind == SINK && URL in n.options then
      match Interpolated(n.options[URL], taskId, sourceId)
      case Some(url) => Some(n.(options := n.options[URL := url]))
      case None => None
    else Some(n)
  }

  function InstantiateNodes(ns: seq<Node>, taskId: string, sourceId: string): Option<seq<Node>> {
    if ns == [] then Some([]) else
    match (InstantiateNodes(ns[..|ns| - 1], taskId, sourceId), InstantiateNode(ns[|ns| - 1], taskId, sourceId))
    case (Some(before), Some(n)) => Some(before + [n])
    case _ => None
  }

  /** The template with the task's own stream URLs; `None` when interpolation throws. */
  function Instantiate(p: PipelineBody, taskId: string, sourceId: string): Option<PipelineBody> {
    match InstantiateNodes(p.nodes, taskId, sourceId)
    case Some(ns) => Some(p.(nodes := ns))
    case None => None
  }

  function BuildEntry(m: Manager, t: Item<TaskBody>, autostart: bool): Reply {
    match (Find(m.cfg.sources, t.body.sourceId), Find(m.cfg.pipelines, t.body.pipelineId))
    case (Some(_), Some(p)) =>
      (match Instantiate(p, t.id, t.body.sourceId)
       case None => Reply(m, Threw)
       case Some(g) => Reply(m.(entries := m.entries[t.id := Entry(g, autostart)]), Done))
    case _ => Reply(m, Refused)
  }

  /** Builds each task in turn, stopping at the first that is not built. */
  function BuildEach(m: Manager, ts: seq<Item<TaskBody>>): Reply {
    if ts == [] then Reply(m, Done) else
    var before := BuildEach(m, ts[..|ts| - 1]);
    if before.outcome.Done? then BuildEntry(before.m, ts[|ts| - 1], false) else before
  }

  /** Builds each task in turn, passing over refusals. */
  function BuildAll(m: Manager, ts: seq<Item<TaskBody>>): Reply {
    if ts == [] then Reply(m, Done) else
    var before := BuildAll(m, ts[..|ts| - 1]);
    if before.outcome.Threw? then before else
    var last := BuildEntry(before.m, ts[|ts| - 1], false);
    if last.outcome.Refused? then Reply(last.m, Done) else last
  }

  function Users(ts: seq<Item<TaskBody>>, pipelineId: string): seq<Item<TaskBody>> {
    if ts == [] then [] else
    var before := Users(ts[..|ts| - 1], pipelineId);
    var t := ts[|ts| - 1];
    if t.body.pipelineId == pipelineId then before + [t] else before
  }

  function IdsOf<T>(xs: seq<Item<T>>): set<string> { set i | 0 <= i < |xs| :: xs[i].id }

  // ---------------------------------------------------------------- commands

  datatype Command =
    | AddSource(source: Item<SourceBody>) | RemoveSource(id: string)
    | AddPipeline(pipeline: Item<PipelineBody>) | RemovePipeline(id: string)
    | UpdatePipeline(pipeline: Item<PipelineBody>)
    | AddTask(task: Item<TaskBody>, autostart: bool) | UpdateTask(task: Item<TaskBody>) | RemoveTask(id: string)
    | LoadModel(model: Item<ModelBody>) | UnloadModel(id: string)
    | Start(id: string) | Stop(id: string) | StartAll | StopAll

  function Persist(m: Manager): Manager { m.(saved := m.delta) }

  function DoAddSource(m: Manager, x: Item<SourceBody>): Reply {
    if Has(m.cfg.sources, x.id) then Reply(m, Refused) else
    Reply(Persist(m.(cfg := m.cfg.(sources := m.cfg.sources + [x]),
                     delta := m.delta.(sources := RecordAdd(m.delta.sources, x)))), Done)
  }

  predicate SourceInUse(ts: seq<Item<TaskBody>>, id: string) { exists i :: 0 <= i < |ts| && ts[i].body.sourceId == id }
  predicate PipelineInUse(ts: seq<Item<TaskBody>>, id: string) {
    exists i :: 0 <= i < |ts| && ts[i].body.pipelineId == id
  }

  function DoRemoveSource(m: Manager, id: string): Reply {
    if !Has(m.cfg.sources, id) || SourceInUse(m.cfg.tasks, id) then Reply(m, Refused) else
    Reply(Persist(m.(cfg := m.cfg.(sources := Erase(m.cfg.sources, id)),
                     delta := m.delta.(sources := RecordRemove(m.delta.sources, id)))), Done)
  }

  function DoAddPipeline(m: Manager, x: Item<PipelineBody>): Reply {
    if Has(m.cfg.pipelines, x.id) then Reply(m, Refused) else
    Reply(Persist(m.(cfg := m.cfg.(pipelines := m.cfg.pipelines + [x]),
                     delta := m.delta.(pipelines := RecordAdd(m.delta.pipelines, x)))), Done)
  }

  function DoRemovePipeline(m: Manager, id: string): Reply {
    if !Has(m.cfg.pipelines, id) || PipelineInUse(m.cfg.tasks, id) then Reply(m, Refused) else
    Reply(Persist(m.(cfg := m.cfg.(pipelines := Erase(m.cfg.pipelines, id)),
                     delta := m.delta.(pipelines := RecordRemove(m.delta.pipelines, id)))), Done)
  }

  predicate RunningUser(m: Manager, pipelineId: string) {
    exists i :: 0 <= i < |m.cfg.tasks| && m.cfg.tasks[i].body.pipelineId == pipelineId
             && m.cfg.tasks[i].id in m.entries && m.entries[m.cfg.tasks[i].id].running
  }

  /** Puts a template in place and drops the graphs built from the old one. */
  function SwapTemplate(m: Manager, x: Item<PipelineBody>): Manager {
    m.(cfg := m.cfg.(pipelines := Replace(m.cfg.pipelines, x)),
       delta := m.delta.(pipelines := RecordUpdate(m.delta.pipelines, x)),
       entries := m.entries - IdsOf(Users(m.cfg.tasks, x.id)))
  }

  function DoUpdatePipeline(m: Manager, x: Item<PipelineBody>): Reply {
    match Find(m.cfg.pipelines, x.id)
    case None => Reply(m, Refused)
    case Some(backup) =>
      if RunningUser(m, x.id) then Reply(m, Refused) else
      var affected := Users(m.cfg.tasks, x.id);
      var built := BuildEach(SwapTemplate(m, x), affected);
      match built.outcome
      case Done => Reply(Persist(built.m), Done)
      case Threw => built
      case Refused =>
        var restored := BuildAll(SwapTemplate(built.m, Item(x.id, backup)), affected);
        Reply(restored.m, if restored.outcome.Threw? then Threw else Refused)
  }

  function DoAddTask(m: Manager, t: Item<TaskBody>, autostart: bool): Reply {
    if t.id in m.entries then Reply(m, Refused) else
    var built := BuildEntry(m, t, autostart);
    if !built.outcome.Done? then built else
    Reply(Persist(built.m.(cfg := built.m.cfg.(tasks := built.m.cfg.tasks + [t]),
                           delta := built.m.delta.(tasks := RecordAdd(built.m.delta.tasks, t)))), Done)
  }

  function DoUpdateTask(m: Manager, t: Item<TaskBody>): Reply {
    if t.id !in m.entries || m.entries[t.id].running
       || !Has(m.cfg.sources, t.body.sourceId) || !Has(m.cfg.pipelines, t.body.pipelineId) then Reply(m, Refused) else
    var swapped := m.(cfg := m.cfg.(tasks := Replace(m.cfg.tasks, t)),
                      delta := m.delta.(tasks := RecordUpdate(m.delta.tasks, t)),
                      entries := m.entries - {t.id});
    var built := BuildEntry(swapped, t, false);
    if built.outcome.Threw? then built else Reply(Persist(built.m), Done)
  }

  function DoRemoveTask(m: Manager, id: string): Reply {
    if id !in m.entries then Reply(m, Refused) else
    Reply(Persist(m.(cfg := m.cfg.(tasks := Erase(m.cfg.tasks, id)),
                     delta := m.delta.(tasks := RecordRemove(m.delta.tasks, id)),
                     entries := m.entries - {id})), Done)
  }

  function DoLoadModel(m: Manager, x: Item<ModelBody>): Reply {
    if Has(m.cfg.models, x.id) then Reply(m, Refused) else
    Reply(Persist(m.(cfg := m.cfg.(models := m.cfg.models + [x]),
                     delta := m.delta.(models := RecordAdd(m.delta.models, x)))), Done)
  }

  /** The model of the first inference node that names one. */
  function InferModel(ns: seq<Node>): string {
    if ns == [] then ""
    else if ns[0].kind == "infer.engine" && "model_id" in ns[0].options then ns[0].options["model_id"]
    else InferModel(ns[1..])
  }

  function ModelOfTask(cfg: Config, taskId: string): Option<string> {
    match Find(cfg.tasks, taskId)
    case None => None
    case Some(t) =>
      match Find(cfg.pipelines, t.pipelineId)
      case None => None
      case Some(p) => Some(InferModel(p.nodes))
  }

  predicate ModelInUse(m: Manager, id: string) {
    exists tid :: tid in m.entries && m.entries[tid].running && ModelOfTask(m.cfg, tid) == Some(id)
  }

  function DoUnloadModel(m: Manager, id: string): Reply {
    if !Has(m.cfg.models, id) || ModelInUse(m, id) then Reply(m, Refused) else
    Reply(Persist(m.(cfg := m.cfg.(models := Erase(m.cfg.models, id)),
                     delta := m.delta.(models := RecordRemove(m.delta.models, id)))), Done)
  }

  function DoStart(m: Manager, id: string): Reply {
    if id !in m.entries then Reply(m, Refused) else
    Reply(m.(entries := m.entries[id := m.entries[id].(running := true)]), Done)
  }

  function DoStop(m: Manager, id: string): Reply {
    if id !in m.entries then Reply(m, Refused) else
    Reply(m.(entries := m.entries[id := m.entries[id].(running := false)]), Done)
  }

  function SetAll(m: Manager, running: bool): Reply {
    Reply(m.(entries := map id | id in m.entries :: m.entries[id].(running := running)), Done)
  }

  function Execute(m: Manager, c: Command): Reply {
    match c
    case AddSource(x) => DoAddSource(m, x)
    case RemoveSource(id) => DoRemoveSource(m, id)
    case AddPipeline(x) => DoAddPipeline(m, x)
    case RemovePipeline(id) => DoRemovePipeline(m, id)
    case UpdatePipeline(x) => DoUpdatePipeline(m, x)
    case AddTask(t, autostart) => DoAddTask(m, t, autostart)
    case UpdateTask(t) => DoUpdateTask(m, t)
    case RemoveTask(id) => DoRemoveTask(m, id)
    case LoadModel(x) => DoLoadModel(m, x)
    case UnloadModel(id) => DoUnloadModel(m, id)
    case Start(id) => DoStart(m, id)
    case Stop(id) => DoStop(m, id)
    case StartAll => SetAll(m, true)
    case StopAll => SetAll(m, false)
  }

  // ---------------------------------------------------------------- coherence

  /** The graph task `id` should have under the given configuration, if it can be built. */
  ghost function GraphFor(cfg: Config, id: string, t: TaskBody): Option<PipelineBody> {
    if t.sourceId in ToMap(cfg.sources) && t.pipelineId in ToMap(cfg.pipelines)
    then Instantiate(ToMap(cfg.pipelines)[t.pipelineId], id, t.sourceId)
    else None
  }

  /** Every task's source and pipeline exist, the built entries are exactly the tasks, and
      each holds the current template instantiated for its task. */
  ghost predicate Coherent(m: Manager) {
    var tasks := ToMap(m.cfg.tasks);
    && OncePerId(m.cfg.tasks)
    && m.entries.Keys == tasks.Keys
    && (forall id :: id in tasks ==> GraphFor(m.cfg, id, tasks[id]) == Some(m.entries[id].graph))
  }

  /** The commands that break coherence: replacing the template of a task, or a task,
      when the template's placeholders do not instantiate for a task concerned. */
  ghost predicate Damaging(m: Manager, c: Command) {
    match c
    case UpdatePipeline(x) =>
      && Has(m.cfg.pipelines, x.id) && !RunningUser(m, x.id)
      && exists i :: 0 <= i < |m.cfg.tasks| && m.cfg.tasks[i].body.pipelineId == x.id
                  && Instantiate(x.body, m.cfg.tasks[i].id, m.cfg.tasks[i].body.sourceId).None?
    case UpdateTask(t) =>
      && t.id in m.entries && !m.entries[t.id].running
      && Has(m.cfg.sources, t.body.sourceId) && Has(m.cfg.pipelines, t.body.pipelineId)
      && Instantiate(Find(m.cfg.pipelines, t.body.pipelineId).value, t.id, t.body.sourceId).None?
    case _ => false
  }

  // ---------------------------------------------------------------- list facts

  lemma {:induction false} ListedIsMapped<T>(xs: seq<Item<T>>, i: nat)
    requires OncePerId(xs) && i < |xs|
    ensures xs[i].id in ToMap(xs) && ToMap(xs)[xs[i].id] == xs[i].body
  {
    if i > 0 {
      ListedIsMapped(xs[1..], i - 1);
    }
  }

  lemma {:induction false} MappedIsListed<T>(xs: seq<Item<T>>, id: string) returns (i: nat)
    requires id in ToMap(xs)
    ensures i < |xs| && xs[i] == Item(id, ToMap(xs)[id])
  {
    if xs[0].id == id {
      i := 0;
    } else {
      var k := MappedIsListed(xs[1..], id);
      i := k + 1;
    }
  }

  lemma {:induction false} UsersAre(ts: seq<Item<TaskBody>>, pipelineId: string)
    ensures forall t :: t in Users(ts, pipelineId) <==> t in ts && t.body.pipelineId == pipelineId
  {
    if ts != [] {
      var k := |ts| - 1;
      UsersAre(ts[..k], pipelineId);
      assert ts == ts[..k] + [ts[k]];
    }
  }
}
