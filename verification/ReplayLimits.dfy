/**
 Which engines the sidecar's replay brings to one state whatever it is sent
 (tools/infer-server/store.go:206-269, src/pipeline/TaskManager.cpp:395-475), and what happens on
 the others: a restart can leave a task whose source or template is gone, and on such an engine
 attempts pile up records or pick different graphs.
 */
module ReplayLimits {
  import opened Geometry
  import opened Keyed
  import opened RuntimeState
  import opened Management
  import opened Coherence
  import opened Restart
  import opened Histories
  import opened Replay
  import opened Rollback

  /** Every task whose template is not in use has its source and its template. */
  ghost predicate Steady(m: Manager) {
    forall t :: t in m.cfg.tasks ==> RunningUser(m, t.body.pipelineId) || RefsExist(m.cfg, t)
  }

  lemma SteadyFits(m: Manager, snap: Snapshot)
    requires OncePerId(m.cfg.tasks) && Steady(m) && Harmless(m, snap)
    ensures Fits(m, snap)
  {
    OnceIsDistinct(m.cfg.tasks);
  }

  const EMPTY := PipelineBody([], [])
  const ONE := PipelineBody([Node("n", "", map[])], [])

  lemma PlainGraphs(taskId: string, sourceId: string)
    ensures Instantiate(EMPTY, taskId, sourceId) == Some(EMPTY)
    ensures Instantiate(ONE, taskId, sourceId) == Some(ONE)
  {
    var ns := ONE.nodes;
    assert ns[..|ns| - 1] == [];
    assert InstantiateNode(ns[0], taskId, sourceId) == Some(ns[0]);
    assert InstantiateNodes(ns, taskId, sourceId) == Some([] + [ns[0]]);
    assert [] + [ns[0]] == ns;
  }

  // ---------------------------------------------------------------- what updates never do

  /** Building gives an id a graph only if one of its records can be built. */
  lemma {:induction false} BuildEachEntries(m: Manager, ts: seq<Item<TaskBody>>, id: string)
    requires id in BuildEach(m, ts).m.entries
    ensures id in m.entries || exists t :: t in ts && t.id == id && Buildable(m.cfg, t)
  {
    if ts != [] {
      var k := |ts| - 1;
      var before := BuildEach(m, ts[..k]);
      BuildEachOnly(m, ts[..k]);
      BuildEntryIs(before.m, ts[k], false);
      if id in before.m.entries { BuildEachEntries(m, ts[..k], id); }
      assert ts == ts[..k] + [ts[k]];
    }
  }

  /** No record of this id that uses the template has its source. */
  ghost predicate Uprooted(m: Manager, id: string, p: string) {
    forall t :: t in m.cfg.tasks && t.id == id && t.body.pipelineId == p ==> t.body.sourceId !in ToMap(m.cfg.sources)
  }

  /** An update of its template, rolled back or not, takes such a task its graph for good. */
  lemma UpdateUproots(m: Manager, x: Item<PipelineBody>, id: string)
    requires Has(m.cfg.pipelines, x.id) && !RunningUser(m, x.id) && Uprooted(m, id, x.id)
    requires exists t :: t in m.cfg.tasks && t.id == id && t.body.pipelineId == x.id
    ensures id !in DoUpdatePipeline(m, x).m.entries
  {
    var users, swapped := Users(m.cfg.tasks, x.id), SwapTemplate(m, x);
    UsersAre(m.cfg.tasks, x.id);
    UserIdsAre(m.cfg.tasks, x.id, id);
    var built := BuildEach(swapped, users);
    BuildEachOnly(swapped, users);
    if id in built.m.entries { BuildEachEntries(swapped, users, id); }
    var back := SwapTemplate(built.m, Item(x.id, Find(m.cfg.pipelines, x.id).value));
    BuildAllEntries(back, users);
    assert forall i :: 0 <= i < |users| ==> users[i] in users;
  }

  lemma UserIdsAre(ts: seq<Item<TaskBody>>, p: string, id: string)
    requires exists t :: t in ts && t.id == id && t.body.pipelineId == p
    ensures id in IdsOf(Users(ts, p))
  {
    UsersAre(ts, p);
    var t :| t in ts && t.id == id && t.body.pipelineId == p;
    var users := Users(ts, p);
    var i :| 0 <= i < |users| && users[i] == t;
  }

  /** Nothing was set running. */
  ghost predicate NoneStarted(m: Manager, n: Manager) {
    forall id :: id in n.entries && n.entries[id].running ==> id in m.entries && m.entries[id].running
  }

  lemma {:induction false} BuildStartsNone(m: Manager, ts: seq<Item<TaskBody>>)
    ensures NoneStarted(m, BuildEach(m, ts).m) && NoneStarted(m, BuildAll(m, ts).m)
  {
    if ts != [] {
      BuildStartsNone(m, ts[..|ts| - 1]);
    }
  }

  /** Sources and tasks stay, templates stay but for the content of this one, and nothing starts. */
  ghost predicate OnlyTemplate(m: Manager, n: Manager, x: Item<PipelineBody>) {
    && n.cfg.sources == m.cfg.sources && n.cfg.tasks == m.cfg.tasks && NoneStarted(m, n)
    && ToMap(n.cfg.pipelines).Keys == ToMap(m.cfg.pipelines).Keys
    && forall p :: p in ToMap(m.cfg.pipelines) ==>
         ToMap(n.cfg.pipelines)[p] == ToMap(m.cfg.pipelines)[p] || (p == x.id && ToMap(n.cfg.pipelines)[p] == x.body)
  }

  lemma SwapOnly(m: Manager, x: Item<PipelineBody>, users: seq<Item<TaskBody>>)
    ensures OnlyTemplate(m, BuildEach(SwapTemplate(m, x), users).m, x)
    ensures OnlyTemplate(m, BuildAll(SwapTemplate(m, x), users).m, x)
  {
    ReplaceIsUpdate(m.cfg.pipelines, x);
    BuildEachOnly(SwapTemplate(m, x), users);
    BuildStartsNone(SwapTemplate(m, x), users);
  }

  lemma UpdateOnly(m: Manager, x: Item<PipelineBody>)
    ensures OnlyTemplate(m, DoUpdatePipeline(m, x).m, x)
  {
    FindIsLookup(m.cfg.pipelines, x.id);
    if Has(m.cfg.pipelines, x.id) && !RunningUser(m, x.id) {
      var users := Users(m.cfg.tasks, x.id);
      SwapOnly(m, x, users);
      SwapOnly(BuildEach(SwapTemplate(m, x), users).m, Item(x.id, Find(m.cfg.pipelines, x.id).value), users);
    }
  }

  // ---------------------------------------------------------------- records pile up

  const NOWHERE := SourceBody("", [])

  function Moved(b: string, q: string): TaskBody { TaskBody(b, q, 0, false) }

  /** The task of template `p` is stored as one of `q` on source `b`. */
  function PileSnapshot(id: string, p: string, q: string, b: string): Snapshot {
    Snapshot(map[b := NOWHERE], map[p := EMPTY, q := EMPTY], map[id := Moved(b, q)], {})
  }

  function PileOrder(id: string, p: string, q: string, b: string): Order { Order([b], [q, p], [id], []) }

  /** A task of `p`, idle, whose source is gone and not among those replayed. */
  ghost predicate Stranded(m: Manager, id: string, p: string, q: string, b: string) {
    && q != p && p in ToMap(m.cfg.pipelines) && !RunningUser(m, p)
    && (exists t :: t in m.cfg.tasks && t.id == id && t.body.pipelineId == p)
    && (forall t :: t in m.cfg.tasks && t.id == id && t.body.pipelineId == p ==>
          t.body.sourceId !in ToMap(m.cfg.sources) && t.body.sourceId != b)
    && (q in ToMap(m.cfg.pipelines) ==> ToMap(m.cfg.pipelines)[q] == EMPTY)
  }

  /** No task of `p` runs if none did and nothing was started. */
  lemma StillNoUser(m: Manager, n: Manager, p: string)
    requires n.cfg.tasks == m.cfg.tasks && NoneStarted(m, n) && !RunningUser(m, p)
    ensures !RunningUser(n, p)
  {
  }

  lemma StrandedSource(m: Manager, id: string, p: string, q: string, b: string)
    requires Stranded(m, id, p, q, b)
    ensures var n := PutSource(m, b, NOWHERE);
      && Stranded(n, id, p, q, b) && b in ToMap(n.cfg.sources) && n.cfg.tasks == m.cfg.tasks
  {
    FindIsLookup(m.cfg.sources, b);
    AppendIsAdd(m.cfg.sources, Item(b, NOWHERE));
    var n := PutSource(m, b, NOWHERE);
    assert n.entries == m.entries && n.cfg.pipelines == m.cfg.pipelines && n.cfg.tasks == m.cfg.tasks;
    StillNoUser(m, n, p);
  }

  lemma StrandedUpdate(m: Manager, id: string, p: string, q: string, b: string, x: string)
    requires Stranded(m, id, p, q, b)
    ensures var n := DoUpdatePipeline(m, Item(x, EMPTY)).m;
      && Stranded(n, id, p, q, b) && n.cfg.sources == m.cfg.sources && n.cfg.tasks == m.cfg.tasks
      && ToMap(n.cfg.pipelines).Keys == ToMap(m.cfg.pipelines).Keys
  {
    UpdateOnly(m, Item(x, EMPTY));
    StillNoUser(m, DoUpdatePipeline(m, Item(x, EMPTY)).m, p);
  }

  lemma StrandedOther(m: Manager, id: string, p: string, q: string, b: string)
    requires Stranded(m, id, p, q, b)
    ensures var n := PutPipeline(m, q, EMPTY);
      && Stranded(n, id, p, q, b) && n.cfg.sources == m.cfg.sources && n.cfg.tasks == m.cfg.tasks
      && q in ToMap(n.cfg.pipelines)
  {
    var x := Item(q, EMPTY);
    FindIsLookup(m.cfg.pipelines, q);
    AppendIsAdd(m.cfg.pipelines, x);
    if q in ToMap(m.cfg.pipelines) {
      StrandedUpdate(m, id, p, q, b, q);
    } else {
      var n := PutPipeline(m, q, EMPTY);
      assert n.entries == m.entries && n.cfg.tasks == m.cfg.tasks;
      StillNoUser(m, n, p);
    }
  }

  /** The update of its own template is rolled back and leaves the task without a graph. */
  lemma StrandedOwn(m: Manager, id: string, p: string, q: string, b: string)
    requires Stranded(m, id, p, q, b)
    ensures var n := PutPipeline(m, p, EMPTY);
      && Stranded(n, id, p, q, b) && n.cfg.sources == m.cfg.sources && n.cfg.tasks == m.cfg.tasks
      && ToMap(n.cfg.pipelines).Keys == ToMap(m.cfg.pipelines).Keys && id !in n.entries
  {
    var x := Item(p, EMPTY);
    FindIsLookup(m.cfg.pipelines, p);
    StrandedUpdate(m, id, p, q, b, p);
    UpdateUproots(m, x, id);
  }

  /** So its stored version is added once more. */
  lemma StrandedAdd(m: Manager, id: string, p: string, q: string, b: string)
    requires Stranded(m, id, p, q, b) && b in ToMap(m.cfg.sources) && q in ToMap(m.cfg.pipelines) && id !in m.entries
    ensures var n := PutTask(m, id, Moved(b, q));
      Stranded(n, id, p, q, b) && n.cfg.tasks == m.cfg.tasks + [Item(id, Moved(b, q))] && id in n.entries
  {
    var t := Item(id, Moved(b, q));
    BuildEntryIs(m, t, false);
    PlainGraphs(id, b);
    var n := PutTask(m, id, t.body);
    assert n.cfg.tasks == m.cfg.tasks + [t] && n.entries == m.entries[id := Entry(EMPTY, false)];
  }

  /** The calls of one complete attempt. */
  lemma PileUnfolds(m: Manager, id: string, p: string, q: string, b: string)
    requires q != p
    ensures var o := PileOrder(id, p, q, b);
      Attempt(m, PileSnapshot(id, p, q, b), o, Complete(o)) ==
      PutTask(PutPipeline(PutPipeline(PutSource(m, b, NOWHERE), q, EMPTY), p, EMPTY), id, Moved(b, q))
  {
    PileStates(m, id, p, q, b);
    var own := PutPipeline(PutPipeline(PutSource(m, b, NOWHERE), q, EMPTY), p, EMPTY);
    assert [id][..0] == [];
    assert PutTasks(own, PileSnapshot(id, p, q, b), [id]) == PutTask(own, id, Moved(b, q));
  }

  /** Every complete attempt adds the task again. */
  lemma AttemptPiles(m: Manager, id: string, p: string, q: string, b: string)
    requires Stranded(m, id, p, q, b)
    ensures var o := PileOrder(id, p, q, b); var n := Attempt(m, PileSnapshot(id, p, q, b), o, Complete(o));
      Stranded(n, id, p, q, b) && n.cfg.tasks == m.cfg.tasks + [Item(id, Moved(b, q))] && id in n.entries
  {
    PileUnfolds(m, id, p, q, b);
    var sourced := PutSource(m, b, NOWHERE);
    StrandedSource(m, id, p, q, b);
    StrandedOther(sourced, id, p, q, b);
    var piped := PutPipeline(sourced, q, EMPTY);
    StrandedOwn(piped, id, p, q, b);
    StrandedAdd(PutPipeline(piped, p, EMPTY), id, p, q, b);
  }

  // ---------------------------------------------------------------- without an exception

  /** A task of `p` that has its references can be built, and none is waiting for `b`. */
  ghost predicate Restorable(m: Manager, p: string, b: string) {
    forall t :: t in m.cfg.tasks && t.body.pipelineId == p ==>
      t.body.sourceId != b && (RefsExist(m.cfg, t) ==> Buildable(m.cfg, t))
  }

  lemma StillRestorable(m: Manager, n: Manager, p: string, b: string)
    requires Restorable(m, p, b) && p in ToMap(m.cfg.pipelines) && p in ToMap(n.cfg.pipelines)
    requires forall t :: t in n.cfg.tasks && t.body.pipelineId == p ==> t in m.cfg.tasks
    requires forall id :: id in ToMap(n.cfg.sources) && id != b ==> id in ToMap(m.cfg.sources)
    requires ToMap(n.cfg.pipelines)[p] == ToMap(m.cfg.pipelines)[p] || ToMap(n.cfg.pipelines)[p] == EMPTY
    ensures Restorable(n, p, b)
  {
    forall t | t in n.cfg.tasks && t.body.pipelineId == p && RefsExist(n.cfg, t) ensures Buildable(n.cfg, t) {
      PlainGraphs(t.id, t.body.sourceId);
      assert RefsExist(m.cfg, t) && Buildable(m.cfg, t);
    }
  }

  /** An update to the empty template does not throw if its rollback cannot. */
  lemma EmptyAnswers(m: Manager, x: string)
    requires forall t :: t in m.cfg.tasks && t.body.pipelineId == x && RefsExist(m.cfg, t) ==> Buildable(m.cfg, t)
    ensures !DoUpdatePipeline(m, Item(x, EMPTY)).outcome.Threw?
  {
    var users, after := Users(m.cfg.tasks, x), SwapTemplate(m, Item(x, EMPTY)).cfg;
    FindIsLookup(m.cfg.pipelines, x);
    if Has(m.cfg.pipelines, x) && !RunningUser(m, x) {
      UsersAre(m.cfg.tasks, x);
      ReplaceIsUpdate(m.cfg.pipelines, Item(x, EMPTY));
      forall i | 0 <= i < |users| && RefsExist(after, users[i]) ensures Buildable(after, users[i]) {
        assert users[i] in users;
        PlainGraphs(users[i].id, users[i].body.sourceId);
      }
      UpdateEnds(m, Item(x, EMPTY));
    }
  }

  /** What the first three calls leave, and that they are answered. */
  lemma PileCallsAnswer(m: Manager, id: string, p: string, q: string, b: string)
    requires Stranded(m, id, p, q, b) && Restorable(m, p, b)
    ensures var sourced := PutSource(m, b, NOWHERE); var other := PutPipeline(sourced, q, EMPTY);
      && PipelineAnswers(sourced, q, EMPTY) && PipelineAnswers(other, p, EMPTY)
      && Restorable(PutPipeline(other, p, EMPTY), p, b)
  {
    StrandedSource(m, id, p, q, b);
    var sourced := PutSource(m, b, NOWHERE);
    AddedSource(m, b);
    StillRestorable(m, sourced, p, b);
    forall t | t in sourced.cfg.tasks && t.body.pipelineId == q && RefsExist(sourced.cfg, t)
      ensures Buildable(sourced.cfg, t)
    {
      PlainGraphs(t.id, t.body.sourceId);
    }
    EmptyAnswers(sourced, q);
    StrandedOther(sourced, id, p, q, b);
    var other := PutPipeline(sourced, q, EMPTY);
    PutKeepsTemplate(sourced, q, p);
    StillRestorable(sourced, other, p, b);
    EmptyAnswers(other, p);
    StrandedOwn(other, id, p, q, b);
    PutKeepsTemplate(other, p, p);
    StillRestorable(other, PutPipeline(other, p, EMPTY), p, b);
  }

  lemma AddedSource(m: Manager, b: string)
    ensures var n := PutSource(m, b, NOWHERE);
      && n.cfg.pipelines == m.cfg.pipelines
      && forall id :: id in ToMap(n.cfg.sources) && id != b ==> id in ToMap(m.cfg.sources)
  {
    AppendIsAdd(m.cfg.sources, Item(b, NOWHERE));
  }

  lemma PutKeepsTemplate(m: Manager, x: string, p: string)
    requires p in ToMap(m.cfg.pipelines)
    ensures var n := ToMap(PutPipeline(m, x, EMPTY).cfg.pipelines);
      p in n && (n[p] == ToMap(m.cfg.pipelines)[p] || n[p] == EMPTY)
  {
    FindIsLookup(m.cfg.pipelines, x);
    AppendIsAdd(m.cfg.pipelines, Item(x, EMPTY));
    UpdateOnly(m, Item(x, EMPTY));
  }

  lemma PileTaskAnswers(m: Manager, id: string, p: string, q: string, b: string)
    requires Stranded(m, id, p, q, b) && Restorable(m, p, b)
    requires b in ToMap(m.cfg.sources) && q in ToMap(m.cfg.pipelines) && id !in m.entries
    ensures TasksAnswer(m, PileSnapshot(id, p, q, b), [id]) && Restorable(PutTask(m, id, Moved(b, q)), p, b)
  {
    StrandedAdd(m, id, p, q, b);
    BuildEntryIs(m, Item(id, Moved(b, q)), false);
    PlainGraphs(id, b);
    StillRestorable(m, PutTask(m, id, Moved(b, q)), p, b);
    assert [id][..0] == [];
  }

  /** If no rollback can throw, every command of the attempts is answered. */
  lemma PileAnswers(m: Manager, id: string, p: string, q: string, b: string)
    requires Stranded(m, id, p, q, b) && Restorable(m, p, b)
    ensures var o, snap := PileOrder(id, p, q, b), PileSnapshot(id, p, q, b);
      Answered(m, snap, o) && Restorable(Attempt(m, snap, o, Complete(o)), p, b)
  {
    var snap, sourced := PileSnapshot(id, p, q, b), PutSource(m, b, NOWHERE);
    var other := PutPipeline(sourced, q, EMPTY);
    PileCallsAnswer(m, id, p, q, b);
    PileStates(m, id, p, q, b);
    StrandedSource(m, id, p, q, b);
    StrandedOther(sourced, id, p, q, b);
    StrandedOwn(other, id, p, q, b);
    PileTaskAnswers(PutPipeline(other, p, EMPTY), id, p, q, b);
    PileUnfolds(m, id, p, q, b);
    assert [q, p][..1] == [q] && [q][..0] == [];
    assert PipelinesAnswer(sourced, snap, [q]);
    assert PipelinesAnswer(sourced, snap, [q, p]);
  }

  /** The states between the calls. */
  lemma PileStates(m: Manager, id: string, p: string, q: string, b: string)
    requires q != p
    ensures var snap, sourced := PileSnapshot(id, p, q, b), PutSource(m, b, NOWHERE);
      var other := PutPipeline(sourced, q, EMPTY);
      && PutSources(m, snap, [b]) == sourced && PutPipelines(sourced, snap, [q]) == other
      && PutPipelines(sourced, snap, [q, p]) == PutPipeline(other, p, EMPTY)
  {
    assert [b][..0] == [] && [q, p][..1] == [q] && [q][..0] == [];
  }

  lemma PileIsOrder(id: string, p: string, q: string, b: string)
    requires q != p
    ensures IsOrder(PileOrder(id, p, q, b), PileSnapshot(id, p, q, b))
  {
  }

  lemma PileIsHarmless(m: Manager, id: string, p: string, q: string, b: string)
    ensures Harmless(m, PileSnapshot(id, p, q, b))
  {
    var snap := PileSnapshot(id, p, q, b);
    forall t | t in m.cfg.tasks && Idle(m, snap, t.body.pipelineId) ensures Stored(snap, t).Some? {
      PlainGraphs(t.id, t.body.sourceId);
    }
  }

  /** Two complete attempts end elsewhere than one. */
  ghost predicate TwiceDiffers(m: Manager, snap: Snapshot, o: Order) {
    var once := Attempt(m, snap, o, Complete(o));
    IsOrder(o, snap) && !Same(Attempt(once, snap, o, Complete(o)), once)
  }

  /** In both every command is answered. */
  ghost predicate TwiceAnswered(m: Manager, snap: Snapshot, o: Order) {
    Answered(m, snap, o) && Answered(Attempt(m, snap, o, Complete(o)), snap, o)
  }

  /** One attempt adds one record, two attempts add two. */
  lemma PilesUp(m: Manager, id: string, p: string, q: string, b: string)
    requires Stranded(m, id, p, q, b)
    ensures var o, snap := PileOrder(id, p, q, b), PileSnapshot(id, p, q, b);
      && Harmless(m, snap) && TwiceDiffers(m, snap, o) && !Converges(m, snap)
      && (Restorable(m, p, b) ==> TwiceAnswered(m, snap, o))
  {
    var o, snap := PileOrder(id, p, q, b), PileSnapshot(id, p, q, b);
    PileIsHarmless(m, id, p, q, b);
    PileIsOrder(id, p, q, b);
    var once := Attempt(m, snap, o, Complete(o));
    AttemptPiles(m, id, p, q, b);
    AttemptPiles(once, id, p, q, b);
    LongerDiffers(Attempt(once, snap, o, Complete(o)), once);
    DifferMeansDiverge(m, snap, o);
    if Restorable(m, p, b) {
      PileAnswers(m, id, p, q, b);
      PileAnswers(once, id, p, q, b);
    }
  }

  lemma LongerDiffers(m: Manager, n: Manager)
    requires |m.cfg.tasks| != |n.cfg.tasks|
    ensures !Same(m, n)
  {
    assert |multiset(m.cfg.tasks)| == |m.cfg.tasks| && |multiset(n.cfg.tasks)| == |n.cfg.tasks|;
  }

  lemma OneTry(m: Manager, snap: Snapshot, o: Order)
    requires IsOrder(o, snap)
    ensures AreTries([(o, Complete(o))], snap)
    ensures Attempts(m, snap, [(o, Complete(o))]) == Attempt(m, snap, o, Complete(o))
  {
    assert [(o, Complete(o))][..0] == [];
  }

  lemma DifferMeansDiverge(m: Manager, snap: Snapshot, o: Order)
    requires TwiceDiffers(m, snap, o)
    ensures !Converges(m, snap)
  {
    OneTry(m, snap, o);
    assert !Agree(m, snap, [(o, Complete(o))], o, o);
  }

  // ---------------------------------------------------------------- a template that comes back

  /** All the sources that tasks name, and the template `p` with content `x`. */
  function ReturnSnapshot(m: Manager, p: string, x: PipelineBody): Snapshot {
    Snapshot(map i | 0 <= i < |m.cfg.tasks| :: m.cfg.tasks[i].body.sourceId := NOWHERE, map[p := x], map[], {})
  }

  function ReturnOrder(m: Manager, p: string): Order {
    Order(seq(|m.cfg.tasks|, i requires 0 <= i < |m.cfg.tasks| => m.cfg.tasks[i].body.sourceId), [p], [], [])
  }

  lemma ReturnIsOrder(m: Manager, p: string, x: PipelineBody)
    ensures IsOrder(ReturnOrder(m, p), ReturnSnapshot(m, p, x))
  {
    var o, ts := ReturnOrder(m, p), m.cfg.tasks;
    forall id | id in ReturnSnapshot(m, p, x).sources ensures id in o.sources {
      var i :| 0 <= i < |ts| && ts[i].body.sourceId == id;
      assert o.sources[i] == id;
    }
  }

  /** Adding sources adds sources. */
  lemma {:induction false} SourcesOnly(m: Manager, snap: Snapshot, ids: seq<string>)
    ensures var n := PutSources(m, snap, ids);
      && n.cfg.tasks == m.cfg.tasks && n.cfg.pipelines == m.cfg.pipelines && n.entries == m.entries
      && ToMap(m.cfg.sources).Keys <= ToMap(n.cfg.sources).Keys
      && forall id :: id in ids && id in snap.sources ==> id in ToMap(n.cfg.sources)
  {
    if ids != [] {
      var k := |ids| - 1;
      SourcesOnly(m, snap, ids[..k]);
      assert ids == ids[..k] + [ids[k]];
      var before := PutSources(m, snap, ids[..k]);
      if ids[k] in snap.sources {
        FindIsLookup(before.cfg.sources, ids[k]);
        AppendIsAdd(before.cfg.sources, Item(ids[k], snap.sources[ids[k]]));
      }
    }
  }

  lemma ReturnUnfolds(m: Manager, snap: Snapshot, o: Order, p: string, x: PipelineBody)
    requires snap.pipelines == map[p := x] && o.pipelines == [p] && o.tasks == [] && o.starts == []
    ensures Attempt(m, snap, o, Complete(o)) == PutPipeline(PutSources(m, snap, o.sources), p, x)
    ensures Answered(m, snap, o) <==> PipelineAnswers(PutSources(m, snap, o.sources), p, x)
  {
    var sourced := PutSources(m, snap, o.sources);
    assert [p][..0] == [];
    assert PutPipelines(sourced, snap, [p]) == PutPipeline(sourced, p, x);
    assert PutPipelines(sourced, snap, []) == sourced && PipelinesAnswer(sourced, snap, []);
    assert PipelinesAnswer(sourced, snap, [p]) <==> PipelineAnswers(sourced, p, x);
    assert TasksAnswer(PutPipelines(sourced, snap, [p]), snap, []);
  }

  /** An idle task of a template that is gone, with no graph or another one than `x` would give. */
  ghost predicate Orphaned(m: Manager, t: Item<TaskBody>, x: PipelineBody) {
    && OncePerId(m.cfg.tasks) && t in m.cfg.tasks && t.body.pipelineId !in ToMap(m.cfg.pipelines)
    && !RunningUser(m, t.body.pipelineId) && (t.id in m.entries ==> m.entries[t.id].graph != x)
    && (x == EMPTY || x == ONE)
  }

  /** The first attempt adds the template and leaves the graphs alone. */
  lemma ReturnAdds(m: Manager, t: Item<TaskBody>, x: PipelineBody)
    requires Orphaned(m, t, x)
    ensures var p := t.body.pipelineId; var o := ReturnOrder(m, p);
      var n := Attempt(m, ReturnSnapshot(m, p, x), o, Complete(o));
      && n.cfg.tasks == m.cfg.tasks && n.entries == m.entries
      && p in ToMap(n.cfg.pipelines) && ToMap(n.cfg.pipelines)[p] == x
      && Answered(m, ReturnSnapshot(m, p, x), o)
  {
    var p := t.body.pipelineId;
    var o, snap := ReturnOrder(m, p), ReturnSnapshot(m, p, x);
    ReturnUnfolds(m, snap, o, p, x);
    SourcesOnly(m, snap, o.sources);
    FindIsLookup(m.cfg.pipelines, p);
    AppendIsAdd(m.cfg.pipelines, Item(p, x));
  }

  /** The second one updates it and builds the task from it. */
  lemma ReturnRebuilds(m: Manager, n: Manager, t: Item<TaskBody>, x: PipelineBody)
    requires Orphaned(m, t, x) && n.cfg.tasks == m.cfg.tasks && n.entries == m.entries
    requires t.body.pipelineId in ToMap(n.cfg.pipelines)
    ensures var p := t.body.pipelineId; var o := ReturnOrder(m, p);
      var l := Attempt(n, ReturnSnapshot(m, p, x), o, Complete(o));
      && t.id in l.entries && l.entries[t.id].graph == x
      && Answered(n, ReturnSnapshot(m, p, x), o)
  {
    var p := t.body.pipelineId;
    var o, snap := ReturnOrder(m, p), ReturnSnapshot(m, p, x);
    ReturnUnfolds(n, snap, o, p, x);
    ReturnSources(m, n, p, x);
    var sourced := PutSources(n, snap, o.sources);
    FindIsLookup(sourced.cfg.pipelines, p);
    UpdateBuilds(sourced, Item(p, x), t);
  }

  /** The replay adds the sources that are missing. */
  lemma ReturnSources(m: Manager, n: Manager, p: string, x: PipelineBody)
    requires n.cfg.tasks == m.cfg.tasks && n.entries == m.entries
    ensures var l := PutSources(n, ReturnSnapshot(m, p, x), ReturnOrder(m, p).sources);
      && l.cfg.tasks == m.cfg.tasks && l.cfg.pipelines == n.cfg.pipelines && l.entries == m.entries
      && forall u :: u in m.cfg.tasks ==> u.body.sourceId in ToMap(l.cfg.sources)
  {
    var o, snap := ReturnOrder(m, p), ReturnSnapshot(m, p, x);
    SourcesOnly(n, snap, o.sources);
    ReturnIsOrder(m, p, x);
    forall u | u in m.cfg.tasks ensures u.body.sourceId in o.sources && u.body.sourceId in snap.sources {
      assert u.body.sourceId in snap.sources;
    }
  }

  /** An update whose tasks all have their sources builds each of them. */
  lemma UpdateBuilds(m: Manager, x: Item<PipelineBody>, t: Item<TaskBody>)
    requires OncePerId(m.cfg.tasks) && x.id in ToMap(m.cfg.pipelines) && !RunningUser(m, x.id)
    requires t in m.cfg.tasks && t.body.pipelineId == x.id && (x.body == EMPTY || x.body == ONE)
    requires forall u :: u in m.cfg.tasks ==> u.body.sourceId in ToMap(m.cfg.sources)
    ensures DoUpdatePipeline(m, x).outcome.Done?
    ensures var n := DoUpdatePipeline(m, x).m; t.id in n.entries && n.entries[t.id].graph == x.body
  {
    var swapped, users := SwapTemplate(m, x), Users(m.cfg.tasks, x.id);
    FindIsLookup(m.cfg.pipelines, x.id);
    ReplaceIsUpdate(m.cfg.pipelines, x);
    UsersAre(m.cfg.tasks, x.id);
    OnceIsDistinct(m.cfg.tasks);
    UsersDistinct(m.cfg.tasks, x.id);
    forall i | 0 <= i < |users|
      ensures GraphFor(swapped.cfg, users[i].id, users[i].body) == Some(x.body)
    {
      assert users[i] in users;
      PlainGraphs(users[i].id, users[i].body.sourceId);
    }
    BuildEachSucceeds(swapped, users);
    UpdateUnfolds(m, x);
    var i :| 0 <= i < |users| && users[i] == t;
  }

  /** One attempt leaves the task as it was, two give it the graph of the template. */
  lemma PicksGraph(m: Manager, t: Item<TaskBody>, x: PipelineBody)
    requires Orphaned(m, t, x)
    ensures var o, snap := ReturnOrder(m, t.body.pipelineId), ReturnSnapshot(m, t.body.pipelineId, x);
      Harmless(m, snap) && TwiceDiffers(m, snap, o) && TwiceAnswered(m, snap, o) && !Converges(m, snap)
  {
    var p := t.body.pipelineId;
    var o, snap := ReturnOrder(m, p), ReturnSnapshot(m, p, x);
    ReturnIsOrder(m, p, x);
    ReturnIsHarmless(m, p, x);
    ReturnAdds(m, t, x);
    ReturnRebuilds(m, Attempt(m, snap, o, Complete(o)), t, x);
    DifferMeansDiverge(m, snap, o);
  }

  lemma ReturnIsHarmless(m: Manager, p: string, x: PipelineBody)
    requires x == EMPTY || x == ONE
    ensures Harmless(m, ReturnSnapshot(m, p, x))
  {
    var snap := ReturnSnapshot(m, p, x);
    forall u | u in m.cfg.tasks && Idle(m, snap, u.body.pipelineId) ensures Stored(snap, u).Some? {
      PlainGraphs(u.id, u.body.sourceId);
    }
  }

  // ---------------------------------------------------------------- the exact condition

  lemma {:induction false} LongerThanAll(ids: set<string>) returns (n: nat)
    ensures forall id :: id in ids ==> |id| < n
  {
    if ids == {} {
      n := 0;
    } else {
      var one :| one in ids;
      var k := LongerThanAll(ids - {one});
      n := if k <= |one| then |one| + 1 else k;
    }
  }

  lemma FreshId(ids: set<string>) returns (id: string)
    ensures id !in ids
  {
    var n := LongerThanAll(ids);
    id := seq(n, i => 'x');
  }

  /** Loading the configuration would not throw: every task that has its references can be built. */
  ghost predicate Loadable(m: Manager) {
    forall t :: t in m.cfg.tasks && RefsExist(m.cfg, t) ==> Buildable(m.cfg, t)
  }

  /** On every other engine two complete attempts can end elsewhere than one, without an exception
      if loading the engine would not throw either. */
  lemma UnsteadyDiverges(m: Manager) returns (snap: Snapshot, o: Order)
    requires OncePerId(m.cfg.tasks) && !Steady(m)
    ensures Harmless(m, snap) && TwiceDiffers(m, snap, o) && !Converges(m, snap)
    ensures Loadable(m) ==> TwiceAnswered(m, snap, o)
  {
    var t :| t in m.cfg.tasks && !RunningUser(m, t.body.pipelineId) && !RefsExist(m.cfg, t);
    var p := t.body.pipelineId;
    if p in ToMap(m.cfg.pipelines) {
      var q := FreshId(ToMap(m.cfg.pipelines).Keys);
      var b := FreshId(set u | u in m.cfg.tasks :: u.body.sourceId);
      OnlyRecord(m.cfg.tasks, t);
      assert forall u :: u in m.cfg.tasks ==> u.body.sourceId != b;
      PilesUp(m, t.id, p, q, b);
      snap, o := PileSnapshot(t.id, p, q, b), PileOrder(t.id, p, q, b);
    } else {
      var x := if t.id in m.entries && m.entries[t.id].graph == EMPTY then ONE else EMPTY;
      PicksGraph(m, t, x);
      snap, o := ReturnSnapshot(m, p, x), ReturnOrder(m, p);
    }
  }

  lemma OnlyRecord(ts: seq<Item<TaskBody>>, t: Item<TaskBody>)
    requires OncePerId(ts) && t in ts
    ensures forall u :: u in ts && u.id == t.id ==> u == t
  {
    OnceIsDistinct(ts);
    var i :| 0 <= i < |ts| && ts[i] == t;
    forall u | u in ts && u.id == t.id ensures u == t {
      var j :| 0 <= j < |ts| && ts[j] == u;
    }
  }

  /** An engine that lists each task once converges under every harmless snapshot exactly when
      every task whose template is not in use has its source and its template. */
  lemma ConvergesIff(m: Manager)
    requires OncePerId(m.cfg.tasks)
    ensures Steady(m) <==> forall snap :: Harmless(m, snap) ==> Converges(m, snap)
  {
    if Steady(m) {
      forall snap | Harmless(m, snap) ensures Converges(m, snap) {
        SteadyFits(m, snap);
        ReplayConverges(m, snap);
      }
    } else {
      var snap, o := UnsteadyDiverges(m);
    }
  }

  // ---------------------------------------------------------------- engines that have just restarted

  /** A restart lists each task once, so the condition is exact for every engine just restarted. */
  lemma RestartListsOnce(base: Config, events: seq<Event>)
    requires ValidFile(base)
    ensures OncePerId(Life(base, events + [Boot]).cfg.tasks)
  {
    LifeGoesOn(base, events, Boot);
    RestartInEveryLife(base, events);
    var n := Rebooted(base, Life(base, events).saved);
    BuildEachOnly(n.(entries := map[]), n.cfg.tasks);
  }

  lemma RestartedConvergesIff(base: Config, events: seq<Event>)
    requires ValidFile(base)
    ensures var m := Life(base, events + [Boot]);
      Steady(m) <==> forall snap :: Harmless(m, snap) ==> Converges(m, snap)
    ensures !LoadAll(Rebooted(base, Life(base, events).saved)).outcome.Threw? ==> Loadable(Life(base, events + [Boot]))
  {
    RestartListsOnce(base, events);
    ConvergesIff(Life(base, events + [Boot]));
    LifeGoesOn(base, events, Boot);
    var n := Rebooted(base, Life(base, events).saved);
    BuildEachOnly(n.(entries := map[]), n.cfg.tasks);
    RestoreThrowsIff(n.(entries := map[]), n.cfg.tasks);
  }

  /** References that exist are enough. */
  lemma ReferencesConverge(m: Manager, snap: Snapshot)
    requires OncePerId(m.cfg.tasks) && AllRefs(m.cfg) && Harmless(m, snap)
    ensures Converges(m, snap)
  {
    SteadyFits(m, snap);
    ReplayConverges(m, snap);
  }
}
