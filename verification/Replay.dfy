/**
 The sidecar's replay of its own snapshot into the engine (tools/infer-server/store.go:206-269):
 sources, then pipelines (added, or updated when they already exist), then tasks, then the
 running tasks, each group in map order, which is arbitrary.  An attempt may be cut off
 after any command, whether or not the engine carried that command out.

 The engine is any state of the manager, coherent or not: a restart can leave listed tasks
 without their source, and an update that threw can leave one without its graph.
 */
module Replay {
  import opened Geometry
  import opened Keyed
  import opened Management
  import opened Coherence

  datatype Snapshot = Snapshot(
    sources: map<string, SourceBody>,
    pipelines: map<string, PipelineBody>,
    tasks: map<string, TaskBody>,
    running: set<string>)

  /** One iteration order of the four loops. */
  datatype Order = Order(sources: seq<string>, pipelines: seq<string>, tasks: seq<string>, starts: seq<string>)

  ghost predicate Enumerates(s: seq<string>, ids: set<string>) { forall id :: id in s <==> id in ids }

  ghost predicate IsOrder(o: Order, snap: Snapshot) {
    && Enumerates(o.sources, snap.sources.Keys) && Enumerates(o.pipelines, snap.pipelines.Keys)
    && Enumerates(o.tasks, snap.tasks.Keys) && Enumerates(o.starts, snap.running)
  }

  // ---------------------------------------------------------------- one attempt

  function PutSource(m: Manager, id: string, x: SourceBody): Manager { DoAddSource(m, Item(id, x)).m }

  function AddOnly(m: Manager, id: string, x: PipelineBody): Manager { DoAddPipeline(m, Item(id, x)).m }

  /** `add_pipeline`, and `update_pipeline` if the answer is that it already exists. */
  function PutPipeline(m: Manager, id: string, x: PipelineBody): Manager {
    if DoAddPipeline(m, Item(id, x)).outcome.Refused? then DoUpdatePipeline(m, Item(id, x)).m else AddOnly(m, id, x)
  }

  function PutTask(m: Manager, id: string, t: TaskBody): Manager { DoAddTask(m, Item(id, t), false).m }

  function StartTask(m: Manager, id: string): Manager { DoStart(m, id).m }

  function PutSources(m: Manager, snap: Snapshot, ids: seq<string>): Manager {
    if ids == [] then m else
    var k := |ids| - 1; var before := PutSources(m, snap, ids[..k]);
    if ids[k] in snap.sources then PutSource(before, ids[k], snap.sources[ids[k]]) else before
  }

  function PutPipelines(m: Manager, snap: Snapshot, ids: seq<string>): Manager {
    if ids == [] then m else
    var k := |ids| - 1; var before := PutPipelines(m, snap, ids[..k]);
    if ids[k] in snap.pipelines then PutPipeline(before, ids[k], snap.pipelines[ids[k]]) else before
  }

  function PutTasks(m: Manager, snap: Snapshot, ids: seq<string>): Manager {
    if ids == [] then m else
    var k := |ids| - 1; var before := PutTasks(m, snap, ids[..k]);
    if ids[k] in snap.tasks then PutTask(before, ids[k], snap.tasks[ids[k]]) else before
  }

  function StartTasks(m: Manager, ids: seq<string>): Manager {
    if ids == [] then m else
    var k := |ids| - 1; StartTask(StartTasks(m, ids[..k]), ids[k])
  }

  /** How far an attempt got; `half` says the last pipeline was added but not updated. */
  datatype Cut = InSources(n: nat) | InPipelines(n: nat, half: bool) | InTasks(n: nat) | InStarts(n: nat)

  predicate IsCut(c: Cut, o: Order) {
    match c
    case InSources(n) => n <= |o.sources|
    case InPipelines(n, half) => n <= |o.pipelines| && (half ==> n < |o.pipelines|)
    case InTasks(n) => n <= |o.tasks|
    case InStarts(n) => n <= |o.starts|
  }

  /** The engine after an attempt that was cut off. */
  function Attempt(m: Manager, snap: Snapshot, o: Order, c: Cut): Manager
    requires IsCut(c, o)
  {
    match c
    case InSources(n) => PutSources(m, snap, o.sources[..n])
    case InPipelines(n, half) =>
      var before := PutPipelines(PutSources(m, snap, o.sources), snap, o.pipelines[..n]);
      if half && o.pipelines[n] in snap.pipelines
        then AddOnly(before, o.pipelines[n], snap.pipelines[o.pipelines[n]]) else before
    case InTasks(n) =>
      PutTasks(PutPipelines(PutSources(m, snap, o.sources), snap, o.pipelines), snap, o.tasks[..n])
    case InStarts(n) =>
      StartTasks(PutTasks(PutPipelines(PutSources(m, snap, o.sources), snap, o.pipelines), snap, o.tasks),
                 o.starts[..n])
  }

  function Complete(o: Order): Cut { InStarts(|o.starts|) }

  /** The update, where there is one, does not throw. */
  predicate PipelineAnswers(m: Manager, id: string, x: PipelineBody) {
    DoAddPipeline(m, Item(id, x)).outcome.Refused? ==> !DoUpdatePipeline(m, Item(id, x)).outcome.Threw?
  }

  predicate PipelinesAnswer(m: Manager, snap: Snapshot, ids: seq<string>) {
    ids == [] ||
    var k := |ids| - 1;
    PipelinesAnswer(m, snap, ids[..k]) &&
    (ids[k] in snap.pipelines ==> PipelineAnswers(PutPipelines(m, snap, ids[..k]), ids[k], snap.pipelines[ids[k]]))
  }

  predicate TasksAnswer(m: Manager, snap: Snapshot, ids: seq<string>) {
    ids == [] ||
    var k := |ids| - 1;
    TasksAnswer(m, snap, ids[..k]) &&
    (ids[k] in snap.tasks ==>
       !DoAddTask(PutTasks(m, snap, ids[..k]), Item(ids[k], snap.tasks[ids[k]]), false).outcome.Threw?)
  }

  /** No command of a complete attempt throws. */
  predicate Answered(m: Manager, snap: Snapshot, o: Order) {
    var sourced := PutSources(m, snap, o.sources);
    PipelinesAnswer(sourced, snap, o.pipelines) && TasksAnswer(PutPipelines(sourced, snap, o.pipelines), snap, o.tasks)
  }

  /** Attempts cut off anywhere, one after another, each in its own order. */
  function Attempts(m: Manager, snap: Snapshot, tries: seq<(Order, Cut)>): Manager
    requires forall i :: 0 <= i < |tries| ==> IsCut(tries[i].1, tries[i].0)
  {
    if tries == [] then m else
    var k := |tries| - 1;
    Attempt(Attempts(m, snap, tries[..k]), snap, tries[k].0, tries[k].1)
  }

  ghost predicate AreTries(tries: seq<(Order, Cut)>, snap: Snapshot) {
    forall i :: 0 <= i < |tries| ==> IsOrder(tries[i].0, snap) && IsCut(tries[i].1, tries[i].0)
  }

  /** The same records, each task as often, the same graphs and the same tasks running; only the
      order of the lists may differ. */
  ghost predicate Same(m: Manager, n: Manager) {
    && ToMap(m.cfg.sources) == ToMap(n.cfg.sources) && ToMap(m.cfg.pipelines) == ToMap(n.cfg.pipelines)
    && multiset(m.cfg.tasks) == multiset(n.cfg.tasks) && m.entries == n.entries
  }

  /** Any cut attempts followed by a complete one end where a single complete one ends, in any
      orders. */
  ghost predicate Converges(m: Manager, snap: Snapshot) {
    forall tries, last, only ::
      AreTries(tries, snap) && IsOrder(last, snap) && IsOrder(only, snap) ==> Agree(m, snap, tries, last, only)
  }

  ghost predicate Agree(m: Manager, snap: Snapshot, tries: seq<(Order, Cut)>, last: Order, only: Order)
    requires AreTries(tries, snap)
  {
    Same(Attempt(Attempts(m, snap, tries), snap, last, Complete(last)), Attempt(m, snap, only, Complete(only)))
  }

  // ---------------------------------------------------------------- when replay converges

  /** The replay updates this template: the snapshot has it and no running task uses it. */
  ghost predicate Idle(m: Manager, snap: Snapshot, p: string) { p in snap.pipelines && !RunningUser(m, p) }

  /** Every task of a template that the replay updates has its template already, and its source
      at the latest when the replay has added the sources. */
  ghost predicate Anchored(m: Manager, snap: Snapshot) {
    forall t :: t in m.cfg.tasks && Idle(m, snap, t.body.pipelineId) ==>
      t.body.pipelineId in ToMap(m.cfg.pipelines) && t.body.sourceId in TargetSources(m, snap)
  }

  /** Every task of a template that the replay updates instantiates the stored version. */
  ghost predicate Harmless(m: Manager, snap: Snapshot) {
    forall t :: t in m.cfg.tasks && Idle(m, snap, t.body.pipelineId) ==> Stored(snap, t).Some?
  }

  /** No id is listed twice with templates that the replay updates. */
  ghost predicate Unmixed(m: Manager, snap: Snapshot) {
    forall i, j :: 0 <= i < j < |m.cfg.tasks| && m.cfg.tasks[i].id == m.cfg.tasks[j].id ==>
      !Idle(m, snap, m.cfg.tasks[i].body.pipelineId) || !Idle(m, snap, m.cfg.tasks[j].body.pipelineId)
  }

  ghost predicate Fits(m: Manager, snap: Snapshot) { Anchored(m, snap) && Harmless(m, snap) && Unmixed(m, snap) }

  /** The graph of a task under the stored version of its template. */
  ghost function Stored(snap: Snapshot, t: Item<TaskBody>): Option<PipelineBody> {
    if t.body.pipelineId in snap.pipelines
    then Instantiate(snap.pipelines[t.body.pipelineId], t.id, t.body.sourceId) else None
  }

  // ---------------------------------------------------------------- where replay leads

  ghost function TargetSources(m: Manager, snap: Snapshot): map<string, SourceBody> {
    snap.sources + ToMap(m.cfg.sources)
  }

  ghost function TargetPipelines(m: Manager, snap: Snapshot): map<string, PipelineBody> {
    var live := ToMap(m.cfg.pipelines);
    map id | id in snap.pipelines.Keys + live.Keys ::
      if id in snap.pipelines && (id !in live || !RunningUser(m, id)) then snap.pipelines[id] else live[id]
  }

  /** Updating its template gives this id a graph. */
  ghost predicate Rebuilt(m: Manager, snap: Snapshot, id: string) {
    exists t :: t in m.cfg.tasks && t.id == id && Idle(m, snap, t.body.pipelineId)
  }

  ghost function AddedGraph(m: Manager, snap: Snapshot, id: string): Option<PipelineBody>
    requires id in snap.tasks
  {
    var t := snap.tasks[id];
    if t.sourceId in TargetSources(m, snap) && t.pipelineId in TargetPipelines(m, snap)
    then Instantiate(TargetPipelines(m, snap)[t.pipelineId], id, t.sourceId) else None
  }

  /** The replay adds a record for this task: the engine has no graph under its id when the
      turn of the tasks comes, and can build it. */
  ghost predicate Accepted(m: Manager, snap: Snapshot, id: string) {
    id in snap.tasks && id !in m.entries && !Rebuilt(m, snap, id) && AddedGraph(m, snap, id).Some?
  }

  // ---------------------------------------------------------------- on the way

  ghost predicate SourcesWay(start: Manager, m: Manager, snap: Snapshot) {
    && ToMap(start.cfg.sources).Keys <= ToMap(m.cfg.sources).Keys
    && forall id :: id in ToMap(m.cfg.sources) ==>
         id in TargetSources(start, snap) && ToMap(m.cfg.sources)[id] == TargetSources(start, snap)[id]
  }

  ghost predicate PipelinesWay(start: Manager, m: Manager, snap: Snapshot) {
    && ToMap(start.cfg.pipelines).Keys <= ToMap(m.cfg.pipelines).Keys
    && forall p :: p in ToMap(m.cfg.pipelines) ==>
         && p in TargetPipelines(start, snap)
         && (Idle(start, snap, p) || ToMap(m.cfg.pipelines)[p] == TargetPipelines(start, snap)[p])
  }

  ghost predicate IsAdded(start: Manager, snap: Snapshot, t: Item<TaskBody>) {
    Accepted(start, snap, t.id) && t.body == snap.tasks[t.id]
  }

  /** Records are appended, for accepted tasks only and at most once for each. */
  ghost predicate TasksWay(start: Manager, m: Manager, snap: Snapshot) {
    var n := |start.cfg.tasks|;
    && n <= |m.cfg.tasks| && m.cfg.tasks[..n] == start.cfg.tasks
    && (forall i :: n <= i < |m.cfg.tasks| ==> IsAdded(start, snap, m.cfg.tasks[i]))
    && (forall i, j :: n <= i < j < |m.cfg.tasks| ==> m.cfg.tasks[i].id != m.cfg.tasks[j].id)
  }

  ghost predicate WasAdded(start: Manager, m: Manager, id: string) {
    exists i :: |start.cfg.tasks| <= i < |m.cfg.tasks| && m.cfg.tasks[i].id == id
  }

  ghost predicate WasRunning(start: Manager, id: string) { id in start.entries && start.entries[id].running }

  ghost predicate EntryWay(start: Manager, m: Manager, snap: Snapshot, id: string, e: Entry) {
    && (|| Rebuilt(start, snap, id)
        || (id in start.entries && e.graph == start.entries[id].graph)
        || (WasAdded(start, m, id) && Accepted(start, snap, id) && AddedGraph(start, snap, id) == Some(e.graph)))
    && (e.running ==> id in snap.running || WasRunning(start, id))
  }

  ghost predicate EntriesWay(start: Manager, m: Manager, snap: Snapshot) {
    && (forall id :: id in m.entries ==> EntryWay(start, m, snap, id, m.entries[id]))
    && (forall id :: id in start.entries && !Rebuilt(start, snap, id) ==> id in m.entries)
    && (forall id :: WasRunning(start, id) ==> id in m.entries && m.entries[id].running)
    && (forall id :: WasAdded(start, m, id) ==> id in m.entries)
  }

  ghost predicate HasStored(m: Manager, snap: Snapshot, t: Item<TaskBody>) {
    t.id in m.entries && Stored(snap, t) == Some(m.entries[t.id].graph)
  }

  /** The replay is done with this template. */
  ghost predicate PlacedAt(start: Manager, m: Manager, snap: Snapshot, p: string) {
    && p in ToMap(m.cfg.pipelines) && p in TargetPipelines(start, snap)
    && ToMap(m.cfg.pipelines)[p] == TargetPipelines(start, snap)[p]
    && (Idle(start, snap, p) ==> forall t :: t in start.cfg.tasks && t.body.pipelineId == p ==> HasStored(m, snap, t))
  }

  /** Nothing runs on a template before the replay is done with it. */
  ghost predicate UseWay(start: Manager, m: Manager, snap: Snapshot) {
    forall p :: Idle(start, snap, p) && RunningUser(m, p) ==> PlacedAt(start, m, snap, p)
  }

  /** `m` lies on the way from `start` to where replay leads. */
  ghost predicate OnTheWay(start: Manager, m: Manager, snap: Snapshot) {
    && SourcesWay(start, m, snap) && PipelinesWay(start, m, snap) && TasksWay(start, m, snap)
    && EntriesWay(start, m, snap) && UseWay(start, m, snap) && (Coherent(start) ==> Coherent(m))
  }

  lemma StartIsOnTheWay(m: Manager, snap: Snapshot)
    ensures OnTheWay(m, m, snap)
  {
    assert m.cfg.tasks[..|m.cfg.tasks|] == m.cfg.tasks;
  }

  // ---------------------------------------------------------------- sources

  lemma PutSourceOnTheWay(start: Manager, m: Manager, snap: Snapshot, id: string)
    requires OnTheWay(start, m, snap) && id in snap.sources
    ensures var n := PutSource(m, id, snap.sources[id]);
      && OnTheWay(start, n, snap) && id in ToMap(n.cfg.sources)
      && ToMap(m.cfg.sources).Keys <= ToMap(n.cfg.sources).Keys
  {
    var x := Item(id, snap.sources[id]);
    FindIsLookup(m.cfg.sources, id);
    AppendIsAdd(m.cfg.sources, x);
    AddSourceKeeps(m, x);
    var n := PutSource(m, id, snap.sources[id]);
    SameParts(start, m, n, snap);
    if Coherent(m) { AddSourceCoherent(m, x); }
  }

  lemma AddSourceKeeps(m: Manager, x: Item<SourceBody>)
    ensures var n := DoAddSource(m, x).m;
      n.cfg.pipelines == m.cfg.pipelines && n.cfg.tasks == m.cfg.tasks && n.entries == m.entries
  {
  }

  lemma SameParts(start: Manager, m: Manager, n: Manager, snap: Snapshot)
    requires n.cfg.pipelines == m.cfg.pipelines && n.cfg.tasks == m.cfg.tasks && n.entries == m.entries
    requires PipelinesWay(start, m, snap) && TasksWay(start, m, snap)
    requires EntriesWay(start, m, snap) && UseWay(start, m, snap)
    ensures PipelinesWay(start, n, snap) && TasksWay(start, n, snap)
    ensures EntriesWay(start, n, snap) && UseWay(start, n, snap)
  {
    SameLists(start, m, n, snap);
    forall p | Idle(start, snap, p) && RunningUser(n, p) ensures PlacedAt(start, n, snap, p) {
      assert RunningUser(m, p);
      assert PlacedAt(start, m, snap, p);
    }
  }

  // ---------------------------------------------------------------- pipelines

  lemma AddOnlyOnTheWay(start: Manager, m: Manager, snap: Snapshot, p: string)
    requires OnTheWay(start, m, snap) && p in snap.pipelines && Anchored(start, snap)
    ensures var n := AddOnly(m, p, snap.pipelines[p]);
      && OnTheWay(start, n, snap) && n.cfg.sources == m.cfg.sources
      && (p !in ToMap(m.cfg.pipelines) ==> PlacedAt(start, n, snap, p))
      && forall q :: PlacedAt(start, m, snap, q) ==> PlacedAt(start, n, snap, q)
  {
    var x := Item(p, snap.pipelines[p]);
    FindIsLookup(m.cfg.pipelines, p);
    AppendIsAdd(m.cfg.pipelines, x);
    var n := AddOnly(m, p, snap.pipelines[p]);
    if p !in ToMap(m.cfg.pipelines) {
      assert p !in ToMap(start.cfg.pipelines);
      TemplateAdded(start, m, n, snap, p);
      if Coherent(m) { AddPipelineCoherent(m, x); }
    }
  }

  lemma TemplateAdded(start: Manager, m: Manager, n: Manager, snap: Snapshot, p: string)
    requires OnTheWay(start, m, snap) && p in snap.pipelines && Anchored(start, snap)
    requires p !in ToMap(start.cfg.pipelines) && p !in ToMap(m.cfg.pipelines)
    requires n.cfg.sources == m.cfg.sources && n.cfg.tasks == m.cfg.tasks && n.entries == m.entries
    requires ToMap(n.cfg.pipelines) == ToMap(m.cfg.pipelines)[p := snap.pipelines[p]]
    ensures SourcesWay(start, n, snap) && PipelinesWay(start, n, snap) && TasksWay(start, n, snap)
    ensures EntriesWay(start, n, snap) && UseWay(start, n, snap)
    ensures PlacedAt(start, n, snap, p)
    ensures forall q :: PlacedAt(start, m, snap, q) ==> PlacedAt(start, n, snap, q)
  {
    SameLists(start, m, n, snap);
    forall q | PlacedAt(start, m, snap, q) ensures PlacedAt(start, n, snap, q) {
      PlacedStays(start, m, n, snap, q);
    }
    forall q | Idle(start, snap, q) && RunningUser(n, q) ensures PlacedAt(start, n, snap, q) {
      assert RunningUser(m, q);
      PlacedStays(start, m, n, snap, q);
    }
  }

  lemma SameLists(start: Manager, m: Manager, n: Manager, snap: Snapshot)
    requires n.cfg.tasks == m.cfg.tasks && n.entries == m.entries
    requires TasksWay(start, m, snap) && EntriesWay(start, m, snap)
    ensures TasksWay(start, n, snap) && EntriesWay(start, n, snap)
  {
  }

  lemma PlacedStays(start: Manager, m: Manager, n: Manager, snap: Snapshot, q: string)
    requires PlacedAt(start, m, snap, q)
    requires q in ToMap(n.cfg.pipelines) && ToMap(n.cfg.pipelines)[q] == ToMap(m.cfg.pipelines)[q]
    requires Idle(start, snap, q) ==>
      forall t :: t in start.cfg.tasks && t.body.pipelineId == q && t.id in m.entries ==>
        t.id in n.entries && n.entries[t.id].graph == m.entries[t.id].graph
    ensures PlacedAt(start, n, snap, q)
  {
    if Idle(start, snap, q) {
      forall t | t in start.cfg.tasks && t.body.pipelineId == q ensures HasStored(n, snap, t) {
        assert HasStored(m, snap, t);
      }
    }
  }

  /** What is idle on the way was idle at the start. */
  lemma StillIdle(start: Manager, m: Manager, snap: Snapshot, p: string)
    requires OnTheWay(start, m, snap) && p in snap.pipelines && !RunningUser(m, p)
    ensures Idle(start, snap, p)
  {
    var n := |start.cfg.tasks|;
    assert forall i :: 0 <= i < n ==> start.cfg.tasks[i] == m.cfg.tasks[..n][i];
    assert forall id :: WasRunning(start, id) ==> m.entries[id].running;
  }

  /** A listed task is from the start, or was added by the replay. */
  lemma FromStartOrAdded(start: Manager, m: Manager, snap: Snapshot, t: Item<TaskBody>)
    requires TasksWay(start, m, snap) && t in m.cfg.tasks
    ensures t in start.cfg.tasks || (IsAdded(start, snap, t) && WasAdded(start, m, t.id))
  {
    var i :| 0 <= i < |m.cfg.tasks| && m.cfg.tasks[i] == t;
    if i < |start.cfg.tasks| {
      assert m.cfg.tasks[..|start.cfg.tasks|][i] == t;
    }
  }

  lemma UserBuilds(start: Manager, m: Manager, snap: Snapshot, p: string, t: Item<TaskBody>)
    requires TasksWay(start, m, snap) && Fits(start, snap) && Idle(start, snap, p)
    requires t in m.cfg.tasks && t.body.pipelineId == p
    ensures t.body.sourceId in TargetSources(start, snap) && Stored(snap, t).Some?
    ensures t !in start.cfg.tasks ==> AddedGraph(start, snap, t.id) == Stored(snap, t)
  {
    FromStartOrAdded(start, m, snap, t);
  }

  /** Users of an idle template have different ids. */
  lemma UsersApart(start: Manager, m: Manager, snap: Snapshot, p: string)
    requires TasksWay(start, m, snap) && Unmixed(start, snap) && Idle(start, snap, p)
    ensures DistinctIds(Users(m.cfg.tasks, p))
  {
    var ts, n := m.cfg.tasks, |start.cfg.tasks|;
    forall i, j | 0 <= i < j < |ts| && ts[i].body.pipelineId == p && ts[j].body.pipelineId == p
      ensures ts[i].id != ts[j].id
    {
      if i < n {
        assert ts[i] == ts[..n][i] == start.cfg.tasks[i];
        if j < n {
          assert ts[j] == ts[..n][j] == start.cfg.tasks[j];
        } else {
          assert IsAdded(start, snap, ts[j]);
          assert start.cfg.tasks[i] in start.cfg.tasks;
        }
      }
    }
    UsersDiffer(ts, p);
  }

  lemma {:induction false} UsersDiffer(ts: seq<Item<TaskBody>>, p: string)
    requires forall i, j :: 0 <= i < j < |ts| && ts[i].body.pipelineId == p && ts[j].body.pipelineId == p ==>
      ts[i].id != ts[j].id
    ensures DistinctIds(Users(ts, p))
  {
    if ts != [] {
      var k := |ts| - 1;
      UsersDiffer(ts[..k], p);
      UsersAre(ts[..k], p);
      var before := Users(ts[..k], p);
      if ts[k].body.pipelineId == p {
        forall i | 0 <= i < |before| ensures before[i].id != ts[k].id {
          assert before[i] in before;
          var j :| 0 <= j < k && ts[..k][j] == before[i];
          assert ts[j] == before[i];
        }
      }
    }
  }

  /** The update goes through: template swapped, every user rebuilt from it and idle. */
  ghost predicate Updated(m: Manager, n: Manager, x: Item<PipelineBody>) {
    && n.cfg == SwapTemplate(m, x).cfg && ToMap(n.cfg.pipelines) == ToMap(m.cfg.pipelines)[x.id := x.body]
    && n.cfg.sources == m.cfg.sources && n.cfg.tasks == m.cfg.tasks
    && BuiltEntries(SwapTemplate(m, x), Users(m.cfg.tasks, x.id), n.entries)
  }

  lemma UpdateGoesThrough(start: Manager, m: Manager, snap: Snapshot, p: string)
    requires OnTheWay(start, m, snap) && Fits(start, snap) && ToMap(m.cfg.sources) == TargetSources(start, snap)
    requires p in snap.pipelines && p in ToMap(m.cfg.pipelines) && !RunningUser(m, p)
    ensures Updated(m, DoUpdatePipeline(m, Item(p, snap.pipelines[p])).m, Item(p, snap.pipelines[p]))
    ensures DoUpdatePipeline(m, Item(p, snap.pipelines[p])).outcome.Done?
    ensures Coherent(m) ==> Coherent(DoUpdatePipeline(m, Item(p, snap.pipelines[p])).m)
  {
    var x := Item(p, snap.pipelines[p]);
    var swapped, users := SwapTemplate(m, x), Users(m.cfg.tasks, p);
    StillIdle(start, m, snap, p);
    FindIsLookup(m.cfg.pipelines, p);
    ReplaceIsUpdate(m.cfg.pipelines, x);
    UsersAre(m.cfg.tasks, p);
    forall i | 0 <= i < |users| ensures Buildable(swapped.cfg, users[i]) {
      assert users[i] in users;
      UserBuilds(start, m, snap, p, users[i]);
    }
    UsersApart(start, m, snap, p);
    BuildEachSucceeds(swapped, users);
    UpdateUnfolds(m, x);
    if Coherent(m) { UpdatePipelineDone(m, x); }
  }

  /** The ids of the users of an idle template. */
  lemma UserIdIs(m: Manager, p: string, id: string)
    requires id in IdsOf(Users(m.cfg.tasks, p))
    ensures exists t :: t in m.cfg.tasks && t.id == id && t.body.pipelineId == p && t in Users(m.cfg.tasks, p)
  {
    var users := Users(m.cfg.tasks, p);
    var i :| 0 <= i < |users| && users[i].id == id;
    assert users[i] in users;
    UsersAre(m.cfg.tasks, p);
  }

  /** Entries of ids that do not use the template stay; those of users are rebuilt and idle. */
  lemma UpdatedEntry(m: Manager, n: Manager, snap: Snapshot, p: string, id: string)
    requires p in snap.pipelines && Updated(m, n, Item(p, snap.pipelines[p]))
    ensures id in n.entries <==> id in m.entries || id in IdsOf(Users(m.cfg.tasks, p))
    ensures id !in IdsOf(Users(m.cfg.tasks, p)) && id in m.entries ==> n.entries[id] == m.entries[id]
    ensures id in IdsOf(Users(m.cfg.tasks, p)) ==> id in n.entries && !n.entries[id].running
  {
    var users := Users(m.cfg.tasks, p);
    if id in IdsOf(users) {
      var i :| 0 <= i < |users| && users[i].id == id;
    }
  }

  lemma UpdatedGraph(m: Manager, n: Manager, snap: Snapshot, p: string, t: Item<TaskBody>)
    requires p in snap.pipelines && Updated(m, n, Item(p, snap.pipelines[p]))
    requires t in m.cfg.tasks && t.body.pipelineId == p
    ensures t.id in IdsOf(Users(m.cfg.tasks, p)) && HasStored(n, snap, t)
  {
    var users := Users(m.cfg.tasks, p);
    UsersAre(m.cfg.tasks, p);
    var i :| 0 <= i < |users| && users[i] == t;
    assert GraphFor(n.cfg, t.id, t.body) == Some(n.entries[t.id].graph);
  }

  /** A user of an idle template was not running. */
  lemma UserIdle(m: Manager, p: string, id: string)
    requires !RunningUser(m, p) && id in IdsOf(Users(m.cfg.tasks, p)) && id in m.entries
    ensures !m.entries[id].running
  {
    UsersAre(m.cfg.tasks, p);
    var users, ts := Users(m.cfg.tasks, p), m.cfg.tasks;
    var i :| 0 <= i < |users| && users[i].id == id;
    assert users[i] in users;
    var j :| 0 <= j < |ts| && ts[j] == users[i];
  }

  lemma UpdatedEntries(start: Manager, m: Manager, n: Manager, snap: Snapshot, p: string)
    requires OnTheWay(start, m, snap) && Fits(start, snap) && Idle(start, snap, p) && !RunningUser(m, p)
    requires Updated(m, n, Item(p, snap.pipelines[p]))
    ensures EntriesWay(start, n, snap)
  {
    forall id | id in n.entries ensures EntryWay(start, n, snap, id, n.entries[id]) {
      UpdatedEntryWay(start, m, n, snap, p, id);
    }
    forall id | id in m.entries ensures id in n.entries { UpdatedEntry(m, n, snap, p, id); }
    forall id | WasRunning(start, id) ensures id in n.entries && n.entries[id].running {
      UpdatedEntry(m, n, snap, p, id);
      if id in IdsOf(Users(m.cfg.tasks, p)) { UserIdle(m, p, id); }
    }
    forall id | WasAdded(start, n, id) ensures WasAdded(start, m, id) {}
  }

  lemma UpdatedEntryWay(start: Manager, m: Manager, n: Manager, snap: Snapshot, p: string, id: string)
    requires OnTheWay(start, m, snap) && Fits(start, snap) && Idle(start, snap, p) && !RunningUser(m, p)
    requires Updated(m, n, Item(p, snap.pipelines[p])) && id in n.entries
    ensures EntryWay(start, n, snap, id, n.entries[id])
  {
    UpdatedEntry(m, n, snap, p, id);
    if id in IdsOf(Users(m.cfg.tasks, p)) {
      UserIdIs(m, p, id);
      var t :| t in m.cfg.tasks && t.id == id && t.body.pipelineId == p && t in Users(m.cfg.tasks, p);
      UpdatedGraph(m, n, snap, p, t);
      FromStartOrAdded(start, m, snap, t);
      UserBuilds(start, m, snap, p, t);
      assert WasAdded(start, m, id) ==> WasAdded(start, n, id);
    } else {
      assert EntryWay(start, m, snap, id, m.entries[id]);
      assert WasAdded(start, m, id) ==> WasAdded(start, n, id);
    }
  }

  /** An id with a record under one idle template is no user of another. */
  lemma NoOtherUser(start: Manager, m: Manager, snap: Snapshot, p: string, t: Item<TaskBody>)
    requires TasksWay(start, m, snap) && Unmixed(start, snap) && Idle(start, snap, p)
    requires t in start.cfg.tasks && Idle(start, snap, t.body.pipelineId) && t.body.pipelineId != p
    ensures t.id !in IdsOf(Users(m.cfg.tasks, p))
  {
    if t.id in IdsOf(Users(m.cfg.tasks, p)) {
      UserIdIs(m, p, t.id);
      var u :| u in m.cfg.tasks && u.id == t.id && u.body.pipelineId == p;
      FromStartOrAdded(start, m, snap, u);
      if u in start.cfg.tasks {
        var i :| 0 <= i < |start.cfg.tasks| && start.cfg.tasks[i] == t;
        var j :| 0 <= j < |start.cfg.tasks| && start.cfg.tasks[j] == u;
      }
    }
  }

  lemma UpdatedPlaces(start: Manager, m: Manager, n: Manager, snap: Snapshot, p: string)
    requires OnTheWay(start, m, snap) && Fits(start, snap) && Idle(start, snap, p) && !RunningUser(m, p)
    requires p in ToMap(m.cfg.pipelines) && Updated(m, n, Item(p, snap.pipelines[p]))
    ensures PlacedAt(start, n, snap, p)
    ensures forall q :: PlacedAt(start, m, snap, q) ==> PlacedAt(start, n, snap, q)
  {
    forall t | t in start.cfg.tasks && t.body.pipelineId == p ensures HasStored(n, snap, t) {
      StartIsListed(start, m, snap, t);
      UpdatedGraph(m, n, snap, p, t);
    }
    forall q | PlacedAt(start, m, snap, q) ensures PlacedAt(start, n, snap, q) {
      if q != p {
        forall t | Idle(start, snap, q) && t in start.cfg.tasks && t.body.pipelineId == q && t.id in m.entries
          ensures t.id in n.entries && n.entries[t.id].graph == m.entries[t.id].graph
        {
          NoOtherUser(start, m, snap, p, t);
          UpdatedEntry(m, n, snap, p, t.id);
        }
        PlacedStays(start, m, n, snap, q);
      }
    }
  }

  lemma StartIsListed(start: Manager, m: Manager, snap: Snapshot, t: Item<TaskBody>)
    requires TasksWay(start, m, snap) && t in start.cfg.tasks
    ensures t in m.cfg.tasks
  {
    assert t in m.cfg.tasks[..|start.cfg.tasks|];
  }

  lemma UpdatedUse(start: Manager, m: Manager, n: Manager, snap: Snapshot, p: string, q: string)
    requires p in snap.pipelines && Updated(m, n, Item(p, snap.pipelines[p])) && RunningUser(n, q)
    ensures RunningUser(m, q)
  {
    var ts := n.cfg.tasks;
    var i :| 0 <= i < |ts| && ts[i].body.pipelineId == q && ts[i].id in n.entries && n.entries[ts[i].id].running;
    UpdatedEntry(m, n, snap, p, ts[i].id);
  }

  lemma UpdatedOnTheWay(start: Manager, m: Manager, n: Manager, snap: Snapshot, p: string)
    requires OnTheWay(start, m, snap) && Fits(start, snap) && Idle(start, snap, p) && !RunningUser(m, p)
    requires p in ToMap(m.cfg.pipelines) && Updated(m, n, Item(p, snap.pipelines[p]))
    requires Coherent(m) ==> Coherent(n)
    ensures OnTheWay(start, n, snap) && PlacedAt(start, n, snap, p)
    ensures forall q :: PlacedAt(start, m, snap, q) ==> PlacedAt(start, n, snap, q)
  {
    UpdatedEntries(start, m, n, snap, p);
    UpdatedPlaces(start, m, n, snap, p);
    forall q | Idle(start, snap, q) && RunningUser(n, q) ensures PlacedAt(start, n, snap, q) {
      UpdatedUse(start, m, n, snap, p, q);
    }
    UpdatedLists(start, m, n, snap, p);
  }

  lemma UpdatedLists(start: Manager, m: Manager, n: Manager, snap: Snapshot, p: string)
    requires Idle(start, snap, p) && p in ToMap(m.cfg.pipelines) && Updated(m, n, Item(p, snap.pipelines[p]))
    requires SourcesWay(start, m, snap) && PipelinesWay(start, m, snap) && TasksWay(start, m, snap)
    ensures SourcesWay(start, n, snap) && PipelinesWay(start, n, snap) && TasksWay(start, n, snap)
  {
  }

  /** After its turn a template is placed, and stays so. */
  lemma PutPipelineOnTheWay(start: Manager, m: Manager, snap: Snapshot, p: string)
    requires OnTheWay(start, m, snap) && Fits(start, snap) && ToMap(m.cfg.sources) == TargetSources(start, snap)
    requires p in snap.pipelines
    ensures var n := PutPipeline(m, p, snap.pipelines[p]);
      && OnTheWay(start, n, snap) && n.cfg.sources == m.cfg.sources && PlacedAt(start, n, snap, p)
      && forall q :: PlacedAt(start, m, snap, q) ==> PlacedAt(start, n, snap, q)
  {
    var x := Item(p, snap.pipelines[p]);
    FindIsLookup(m.cfg.pipelines, p);
    AddOnlyOnTheWay(start, m, snap, p);
    if p in ToMap(m.cfg.pipelines) {
      if RunningUser(m, p) {
        InUsePlaced(start, m, snap, p);
      } else {
        StillIdle(start, m, snap, p);
        UpdateGoesThrough(start, m, snap, p);
        UpdatedOnTheWay(start, m, DoUpdatePipeline(m, x).m, snap, p);
      }
    }
  }

  lemma InUsePlaced(start: Manager, m: Manager, snap: Snapshot, p: string)
    requires OnTheWay(start, m, snap) && p in snap.pipelines && p in ToMap(m.cfg.pipelines) && RunningUser(m, p)
    ensures PlacedAt(start, m, snap, p)
  {
  }

  // ---------------------------------------------------------------- tasks and starts

  /** Sources and templates are where replay leads, and every rebuilt task has its graph. */
  ghost predicate Placed(start: Manager, m: Manager, snap: Snapshot) {
    && ToMap(m.cfg.sources) == TargetSources(start, snap) && ToMap(m.cfg.pipelines) == TargetPipelines(start, snap)
    && forall t :: t in start.cfg.tasks && Idle(start, snap, t.body.pipelineId) ==> HasStored(m, snap, t)
  }

  lemma PlacedEverywhere(start: Manager, m: Manager, snap: Snapshot, p: string)
    requires Placed(start, m, snap) && p in TargetPipelines(start, snap)
    ensures PlacedAt(start, m, snap, p)
  {
  }

  lemma AcceptedBuilds(start: Manager, m: Manager, snap: Snapshot, id: string)
    requires OnTheWay(start, m, snap) && Placed(start, m, snap) && id in snap.tasks && id !in m.entries
    ensures Accepted(start, snap, id) <==> Buildable(m.cfg, Item(id, snap.tasks[id]))
    ensures Accepted(start, snap, id) ==> GraphFor(m.cfg, id, snap.tasks[id]) == AddedGraph(start, snap, id)
    ensures !WasAdded(start, m, id)
  {
  }

  lemma PutTaskOnTheWay(start: Manager, m: Manager, snap: Snapshot, id: string)
    requires OnTheWay(start, m, snap) && Placed(start, m, snap) && id in snap.tasks
    ensures var n := PutTask(m, id, snap.tasks[id]);
      && OnTheWay(start, n, snap) && Placed(start, n, snap)
      && (Accepted(start, snap, id) ==> id in n.entries) && m.entries.Keys <= n.entries.Keys
  {
    var t := Item(id, snap.tasks[id]);
    BuildEntryIs(m, t, false);
    if id !in m.entries {
      AcceptedBuilds(start, m, snap, id);
      if Accepted(start, snap, id) {
        TaskAdded(start, m, PutTask(m, id, t.body), snap, t, AddedGraph(start, snap, id).value);
      }
    }
    if Coherent(m) { AddTaskCoherent(m, t, false); }
  }

  lemma TaskAdded(start: Manager, m: Manager, n: Manager, snap: Snapshot, t: Item<TaskBody>, g: PipelineBody)
    requires OnTheWay(start, m, snap) && Placed(start, m, snap) && t.id !in m.entries && IsAdded(start, snap, t)
    requires AddedGraph(start, snap, t.id) == Some(g) && !WasAdded(start, m, t.id)
    requires n.cfg == m.cfg.(tasks := m.cfg.tasks + [t]) && n.entries == m.entries[t.id := Entry(g, false)]
    ensures SourcesWay(start, n, snap) && PipelinesWay(start, n, snap) && TasksWay(start, n, snap)
    ensures EntriesWay(start, n, snap) && UseWay(start, n, snap) && Placed(start, n, snap)
  {
    AppendedTasks(start, m, n, snap, t);
    AddedEntries(start, m, n, snap, t, g);
    forall u | u in start.cfg.tasks && Idle(start, snap, u.body.pipelineId) ensures HasStored(n, snap, u) {
      assert HasStored(m, snap, u);
    }
    forall p | Idle(start, snap, p) && RunningUser(n, p) ensures PlacedAt(start, n, snap, p) {
      PlacedEverywhere(start, n, snap, p);
    }
  }

  lemma AppendedTasks(start: Manager, m: Manager, n: Manager, snap: Snapshot, t: Item<TaskBody>)
    requires TasksWay(start, m, snap) && IsAdded(start, snap, t) && !WasAdded(start, m, t.id)
    requires n.cfg.tasks == m.cfg.tasks + [t]
    ensures TasksWay(start, n, snap)
  {
    var k := |start.cfg.tasks|;
    assert n.cfg.tasks[..k] == m.cfg.tasks[..k];
  }

  lemma AddedEntries(start: Manager, m: Manager, n: Manager, snap: Snapshot, t: Item<TaskBody>, g: PipelineBody)
    requires TasksWay(start, m, snap) && EntriesWay(start, m, snap) && t.id !in m.entries && IsAdded(start, snap, t)
    requires AddedGraph(start, snap, t.id) == Some(g)
    requires n.cfg.tasks == m.cfg.tasks + [t] && n.entries == m.entries[t.id := Entry(g, false)]
    ensures EntriesWay(start, n, snap)
  {
    AddedIds(start, m, n, t);
    forall id | id in n.entries ensures EntryWay(start, n, snap, id, n.entries[id]) {
      if id != t.id {
        assert EntryWay(start, m, snap, id, m.entries[id]);
      }
    }
  }

  lemma AddedIds(start: Manager, m: Manager, n: Manager, t: Item<TaskBody>)
    requires |start.cfg.tasks| <= |m.cfg.tasks| && n.cfg.tasks == m.cfg.tasks + [t]
    ensures forall id :: WasAdded(start, n, id) <==> WasAdded(start, m, id) || id == t.id
  {
    forall id ensures WasAdded(start, n, id) <==> WasAdded(start, m, id) || id == t.id {
      if WasAdded(start, m, id) {
        var i :| |start.cfg.tasks| <= i < |m.cfg.tasks| && m.cfg.tasks[i].id == id;
        assert n.cfg.tasks[i].id == id;
      }
      if id == t.id {
        assert n.cfg.tasks[|m.cfg.tasks|].id == id;
      }
    }
  }

  lemma StartOnTheWay(start: Manager, m: Manager, snap: Snapshot, id: string)
    requires OnTheWay(start, m, snap) && Placed(start, m, snap) && id in snap.running
    ensures var n := StartTask(m, id);
      && OnTheWay(start, n, snap) && Placed(start, n, snap) && n.cfg == m.cfg && n.entries.Keys == m.entries.Keys
      && (id in m.entries ==> n.entries[id].running)
      && forall i :: i in m.entries && m.entries[i].running ==> n.entries[i].running
  {
    if id in m.entries {
      var n := StartTask(m, id);
      assert n.entries == m.entries[id := m.entries[id].(running := true)];
      StartKeepsCoherent(m, id);
      Started(start, m, n, snap, id);
    }
  }

  lemma StartKeepsCoherent(m: Manager, id: string)
    ensures Coherent(m) ==> Coherent(StartTask(m, id))
  {
  }

  lemma Started(start: Manager, m: Manager, n: Manager, snap: Snapshot, id: string)
    requires OnTheWay(start, m, snap) && Placed(start, m, snap) && id in snap.running && id in m.entries
    requires n.cfg == m.cfg && n.entries == m.entries[id := m.entries[id].(running := true)]
    requires Coherent(m) ==> Coherent(n)
    ensures OnTheWay(start, n, snap) && Placed(start, n, snap)
  {
    StartedEntries(start, m, n, snap, id);
    forall u | u in start.cfg.tasks && Idle(start, snap, u.body.pipelineId) ensures HasStored(n, snap, u) {
      assert HasStored(m, snap, u);
    }
    forall p | Idle(start, snap, p) && RunningUser(n, p) ensures PlacedAt(start, n, snap, p) {
      PlacedEverywhere(start, n, snap, p);
    }
  }

  lemma StartedEntries(start: Manager, m: Manager, n: Manager, snap: Snapshot, id: string)
    requires EntriesWay(start, m, snap) && id in snap.running && id in m.entries
    requires n.cfg == m.cfg && n.entries == m.entries[id := m.entries[id].(running := true)]
    ensures EntriesWay(start, n, snap)
  {
    forall i | i in n.entries ensures EntryWay(start, n, snap, i, n.entries[i]) {
      assert EntryWay(start, m, snap, i, m.entries[i]);
      assert WasAdded(start, m, i) ==> WasAdded(start, n, i);
    }
    forall i | WasAdded(start, n, i) ensures WasAdded(start, m, i) {}
  }

  // ---------------------------------------------------------------- the four loops

  lemma {:induction false} SourcesOnTheWay(start: Manager, m: Manager, snap: Snapshot, ids: seq<string>)
    requires OnTheWay(start, m, snap)
    ensures var n := PutSources(m, snap, ids);
      && OnTheWay(start, n, snap) && ToMap(m.cfg.sources).Keys <= ToMap(n.cfg.sources).Keys
      && forall id :: id in ids && id in snap.sources ==> id in ToMap(n.cfg.sources)
  {
    if ids != [] {
      var k := |ids| - 1;
      SourcesOnTheWay(start, m, snap, ids[..k]);
      assert ids == ids[..k] + [ids[k]];
      if ids[k] in snap.sources {
        PutSourceOnTheWay(start, PutSources(m, snap, ids[..k]), snap, ids[k]);
      }
    }
  }

  lemma {:induction false} PipelinesOnTheWay(start: Manager, m: Manager, snap: Snapshot, ids: seq<string>)
    requires OnTheWay(start, m, snap) && Fits(start, snap) && ToMap(m.cfg.sources) == TargetSources(start, snap)
    ensures var n := PutPipelines(m, snap, ids);
      && OnTheWay(start, n, snap) && n.cfg.sources == m.cfg.sources
      && forall p :: p in ids && p in snap.pipelines ==> PlacedAt(start, n, snap, p)
  {
    if ids != [] {
      var k := |ids| - 1;
      PipelinesOnTheWay(start, m, snap, ids[..k]);
      var before := PutPipelines(m, snap, ids[..k]);
      assert ids == ids[..k] + [ids[k]];
      if ids[k] in snap.pipelines {
        PutPipelineOnTheWay(start, before, snap, ids[k]);
      }
    }
  }

  lemma {:induction false} TasksOnTheWay(start: Manager, m: Manager, snap: Snapshot, ids: seq<string>)
    requires OnTheWay(start, m, snap) && Placed(start, m, snap)
    ensures var n := PutTasks(m, snap, ids);
      && OnTheWay(start, n, snap) && Placed(start, n, snap)
      && forall id :: id in ids && Accepted(start, snap, id) ==> id in n.entries
  {
    if ids != [] {
      var k := |ids| - 1;
      TasksOnTheWay(start, m, snap, ids[..k]);
      var before := PutTasks(m, snap, ids[..k]);
      assert ids == ids[..k] + [ids[k]];
      if ids[k] in snap.tasks {
        PutTaskOnTheWay(start, before, snap, ids[k]);
      }
    }
  }

  lemma {:induction false} StartsOnTheWay(start: Manager, m: Manager, snap: Snapshot, ids: seq<string>)
    requires OnTheWay(start, m, snap) && Placed(start, m, snap) && forall id :: id in ids ==> id in snap.running
    ensures var n := StartTasks(m, ids);
      && OnTheWay(start, n, snap) && Placed(start, n, snap) && n.cfg == m.cfg && n.entries.Keys == m.entries.Keys
      && forall id :: id in ids && id in n.entries ==> n.entries[id].running
  {
    if ids != [] {
      var k := |ids| - 1;
      assert ids == ids[..k] + [ids[k]];
      StartsOnTheWay(start, m, snap, ids[..k]);
      StartOnTheWay(start, StartTasks(m, ids[..k]), snap, ids[k]);
    }
  }

  // ---------------------------------------------------------------- whole attempts

  lemma AllSourcesPlaced(start: Manager, m: Manager, snap: Snapshot, o: Order)
    requires OnTheWay(start, m, snap) && IsOrder(o, snap)
    ensures OnTheWay(start, PutSources(m, snap, o.sources), snap)
    ensures ToMap(PutSources(m, snap, o.sources).cfg.sources) == TargetSources(start, snap)
  {
    SourcesOnTheWay(start, m, snap, o.sources);
    var n := PutSources(m, snap, o.sources);
    forall id | id in TargetSources(start, snap) ensures id in ToMap(n.cfg.sources) {
      assert id in snap.sources || id in ToMap(start.cfg.sources);
    }
  }

  lemma AllPipelinesPlaced(start: Manager, m: Manager, snap: Snapshot, o: Order)
    requires OnTheWay(start, m, snap) && Fits(start, snap) && IsOrder(o, snap)
    requires ToMap(m.cfg.sources) == TargetSources(start, snap)
    ensures var n := PutPipelines(m, snap, o.pipelines); OnTheWay(start, n, snap) && Placed(start, n, snap)
  {
    PipelinesOnTheWay(start, m, snap, o.pipelines);
    var n := PutPipelines(m, snap, o.pipelines);
    forall p | p in snap.pipelines ensures PlacedAt(start, n, snap, p) {
      assert p in o.pipelines;
    }
    EachPlaced(start, n, snap);
  }

  lemma EachPlaced(start: Manager, n: Manager, snap: Snapshot)
    requires PipelinesWay(start, n, snap) && ToMap(n.cfg.sources) == TargetSources(start, snap)
    requires forall p :: p in snap.pipelines ==> PlacedAt(start, n, snap, p)
    ensures Placed(start, n, snap)
  {
    forall p | p in TargetPipelines(start, snap)
      ensures p in ToMap(n.cfg.pipelines) && ToMap(n.cfg.pipelines)[p] == TargetPipelines(start, snap)[p]
    {
      assert p in snap.pipelines || p in ToMap(start.cfg.pipelines);
    }
    forall t | t in start.cfg.tasks && Idle(start, snap, t.body.pipelineId) ensures HasStored(n, snap, t) {
      assert PlacedAt(start, n, snap, t.body.pipelineId);
    }
  }

  /** Wherever an attempt is cut off, the engine is on its way. */
  lemma CutIsOnTheWay(start: Manager, m: Manager, snap: Snapshot, o: Order, c: Cut)
    requires Fits(start, snap) && OnTheWay(start, m, snap) && IsOrder(o, snap) && IsCut(c, o)
    ensures OnTheWay(start, Attempt(m, snap, o, c), snap)
  {
    AllSourcesPlaced(start, m, snap, o);
    var sourced := PutSources(m, snap, o.sources);
    AllPipelinesPlaced(start, sourced, snap, o);
    var piped := PutPipelines(sourced, snap, o.pipelines);
    match c
    case InSources(n) => SourcesOnTheWay(start, m, snap, o.sources[..n]);
    case InPipelines(n, half) =>
      PipelinesOnTheWay(start, sourced, snap, o.pipelines[..n]);
      if half && o.pipelines[n] in snap.pipelines {
        AddOnlyOnTheWay(start, PutPipelines(sourced, snap, o.pipelines[..n]), snap, o.pipelines[n]);
      }
    case InTasks(n) => TasksOnTheWay(start, piped, snap, o.tasks[..n]);
    case InStarts(n) =>
      TasksOnTheWay(start, piped, snap, o.tasks);
      StartsOnTheWay(start, PutTasks(piped, snap, o.tasks), snap, o.starts[..n]);
  }

  /** The engine where replay leads: everything is placed, every accepted task was added, and
      whatever should run and can is running. */
  ghost predicate Arrived(start: Manager, m: Manager, snap: Snapshot) {
    && OnTheWay(start, m, snap) && Placed(start, m, snap)
    && (forall id :: Accepted(start, snap, id) ==> id in m.entries)
    && (forall id :: id in m.entries && id in snap.running ==> m.entries[id].running)
  }

  lemma LastLoopsArrive(start: Manager, m: Manager, snap: Snapshot, o: Order)
    requires OnTheWay(start, m, snap) && Placed(start, m, snap) && IsOrder(o, snap)
    ensures Arrived(start, StartTasks(PutTasks(m, snap, o.tasks), o.starts), snap)
  {
    TasksOnTheWay(start, m, snap, o.tasks);
    var tasked := PutTasks(m, snap, o.tasks);
    StartsOnTheWay(start, tasked, snap, o.starts);
    forall id | Accepted(start, snap, id) ensures id in tasked.entries {
      assert id in o.tasks;
    }
    assert forall id :: id in snap.running ==> id in o.starts;
  }

  /** A complete attempt from anywhere on the way arrives. */
  lemma CompleteArrives(start: Manager, m: Manager, snap: Snapshot, o: Order)
    requires Fits(start, snap) && OnTheWay(start, m, snap) && IsOrder(o, snap)
    ensures Arrived(start, Attempt(m, snap, o, Complete(o)), snap)
  {
    AllSourcesPlaced(start, m, snap, o);
    var sourced := PutSources(m, snap, o.sources);
    AllPipelinesPlaced(start, sourced, snap, o);
    LastLoopsArrive(start, PutPipelines(sourced, snap, o.pipelines), snap, o);
    assert o.starts[..|o.starts|] == o.starts;
  }

  // ---------------------------------------------------------------- arriving is arriving at the same place

  lemma {:induction false} OnceEach<T>(xs: seq<Item<T>>, x: Item<T>)
    requires DistinctIds(xs)
    ensures multiset(xs)[x] == if x in xs then 1 else 0
  {
    if xs != [] {
      var k := |xs| - 1;
      OnceEach(xs[..k], x);
      assert xs == xs[..k] + [xs[k]];
    }
  }

  lemma SameSets<T>(xs: seq<Item<T>>, ys: seq<Item<T>>)
    requires DistinctIds(xs) && DistinctIds(ys) && forall x :: x in xs <==> x in ys
    ensures multiset(xs) == multiset(ys)
  {
    forall x ensures multiset(xs)[x] == multiset(ys)[x] {
      OnceEach(xs, x);
      OnceEach(ys, x);
    }
  }

  ghost function AddedTasks(start: Manager, m: Manager): seq<Item<TaskBody>>
    requires |start.cfg.tasks| <= |m.cfg.tasks|
  {
    m.cfg.tasks[|start.cfg.tasks|..]
  }

  ghost predicate AllAdded(start: Manager, m: Manager, snap: Snapshot) {
    TasksWay(start, m, snap) && forall id :: Accepted(start, snap, id) ==> WasAdded(start, m, id)
  }

  lemma ArrivedAdded(start: Manager, m: Manager, snap: Snapshot)
    requires Arrived(start, m, snap)
    ensures AllAdded(start, m, snap)
  {
    forall id | Accepted(start, snap, id) ensures WasAdded(start, m, id) {
      assert EntryWay(start, m, snap, id, m.entries[id]);
    }
  }

  /** Exactly the accepted tasks were added, as the snapshot has them, once each. */
  lemma AddedAre(start: Manager, m: Manager, snap: Snapshot, t: Item<TaskBody>)
    requires AllAdded(start, m, snap)
    ensures t in AddedTasks(start, m) <==> IsAdded(start, snap, t)
  {
    if t in AddedTasks(start, m) { AddedIsAccepted(start, m, snap, t); }
    if IsAdded(start, snap, t) { AcceptedIsAdded(start, m, snap, t); }
  }

  lemma AddedIsAccepted(start: Manager, m: Manager, snap: Snapshot, t: Item<TaskBody>)
    requires TasksWay(start, m, snap) && t in AddedTasks(start, m)
    ensures IsAdded(start, snap, t)
  {
    var n, ts := |start.cfg.tasks|, m.cfg.tasks;
    var i :| 0 <= i < |ts| - n && AddedTasks(start, m)[i] == t;
    assert IsAdded(start, snap, ts[n + i]);
  }

  lemma AcceptedIsAdded(start: Manager, m: Manager, snap: Snapshot, t: Item<TaskBody>)
    requires AllAdded(start, m, snap) && IsAdded(start, snap, t)
    ensures t in AddedTasks(start, m)
  {
    var n, ts := |start.cfg.tasks|, m.cfg.tasks;
    assert WasAdded(start, m, t.id);
    var i :| n <= i < |ts| && ts[i].id == t.id;
    assert IsAdded(start, snap, ts[i]) && AddedTasks(start, m)[i - n] == ts[i];
  }

  lemma AddedApart(start: Manager, m: Manager, snap: Snapshot)
    requires TasksWay(start, m, snap)
    ensures DistinctIds(AddedTasks(start, m)) && m.cfg.tasks == start.cfg.tasks + AddedTasks(start, m)
  {
    var ms, k := AddedTasks(start, m), |start.cfg.tasks|;
    forall i, j | 0 <= i < j < |ms| ensures ms[i].id != ms[j].id {
      assert m.cfg.tasks[k + i].id != m.cfg.tasks[k + j].id;
    }
  }

  lemma ArrivedTasks(start: Manager, m: Manager, n: Manager, snap: Snapshot)
    requires AllAdded(start, m, snap) && AllAdded(start, n, snap)
    ensures multiset(m.cfg.tasks) == multiset(n.cfg.tasks)
  {
    var ms, ns := AddedTasks(start, m), AddedTasks(start, n);
    forall t ensures t in ms <==> t in ns {
      AddedAre(start, m, snap, t);
      AddedAre(start, n, snap, t);
    }
    AddedApart(start, m, snap);
    AddedApart(start, n, snap);
    SameSets(ms, ns);
  }

  lemma ArrivedEntry(start: Manager, m: Manager, n: Manager, snap: Snapshot, id: string)
    requires Arrived(start, m, snap) && Arrived(start, n, snap) && id in m.entries
    ensures id in n.entries && n.entries[id] == m.entries[id]
  {
    var e := m.entries[id];
    assert EntryWay(start, m, snap, id, e);
    if Rebuilt(start, snap, id) {
      var t :| t in start.cfg.tasks && t.id == id && Idle(start, snap, t.body.pipelineId);
      assert HasStored(m, snap, t) && HasStored(n, snap, t);
    }
    assert EntryWay(start, n, snap, id, n.entries[id]);
  }

  lemma ArrivedEntries(start: Manager, m: Manager, n: Manager, snap: Snapshot)
    requires Arrived(start, m, snap) && Arrived(start, n, snap)
    ensures m.entries == n.entries
  {
    forall id | id in m.entries ensures id in n.entries && n.entries[id] == m.entries[id] {
      ArrivedEntry(start, m, n, snap, id);
    }
    forall id | id in n.entries ensures id in m.entries {
      ArrivedEntry(start, n, m, snap, id);
    }
  }

  lemma ArrivedSame(start: Manager, m: Manager, n: Manager, snap: Snapshot)
    requires Arrived(start, m, snap) && Arrived(start, n, snap)
    ensures Same(m, n)
  {
    ArrivedEntries(start, m, n, snap);
    ArrivedAdded(start, m, snap);
    ArrivedAdded(start, n, snap);
    ArrivedTasks(start, m, n, snap);
  }

  lemma {:induction false} AttemptsOnTheWay(start: Manager, snap: Snapshot, tries: seq<(Order, Cut)>)
    requires Fits(start, snap) && AreTries(tries, snap)
    ensures OnTheWay(start, Attempts(start, snap, tries), snap)
  {
    if tries == [] {
      StartIsOnTheWay(start, snap);
    } else {
      var k := |tries| - 1;
      AttemptsOnTheWay(start, snap, tries[..k]);
      CutIsOnTheWay(start, Attempts(start, snap, tries[..k]), snap, tries[k].0, tries[k].1);
    }
  }

  /** Any failed attempts followed by a complete one leave the engine where a single complete
      attempt, in any other order, would have left it. */
  lemma ReplayConverges(m: Manager, snap: Snapshot)
    requires Fits(m, snap)
    ensures Converges(m, snap)
  {
    forall tries, last, only | AreTries(tries, snap) && IsOrder(last, snap) && IsOrder(only, snap)
      ensures Agree(m, snap, tries, last, only)
    {
      AttemptsOnTheWay(m, snap, tries);
      StartIsOnTheWay(m, snap);
      CompleteArrives(m, Attempts(m, snap, tries), snap, last);
      CompleteArrives(m, m, snap, only);
      ArrivedSame(m, Attempt(Attempts(m, snap, tries), snap, last, Complete(last)),
                  Attempt(m, snap, only, Complete(only)), snap);
    }
  }
}
