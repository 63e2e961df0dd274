/**
 Two lives of the program after which the sidecar's replay does not converge: a task is moved,
 its old source or its old template is removed, and the engine restarts
 (src/common/RuntimeState.cpp:295-320, tools/infer-server/store.go:223-269).
 */
module ReplayLives {
  import opened Geometry
  import opened Keyed
  import opened RuntimeState
  import opened Management
  import opened Coherence
  import opened Restart
  import opened Histories
  import opened Replay
  import opened Rollback
  import opened ReplayLimits

  const A := Item("a", NOWHERE)
  const B := Item("b", NOWHERE)
  const P := Item("p", EMPTY)
  const Q := Item("q", EMPTY)
  const T := Item("t", TaskBody("a", "p", 0, false))
  const MOVED_T := Item("t", Moved("b", "q"))
  const FILE := Config([A, B], [P, Q], [T], [])

  /** The task was moved to another source and template. */
  const MOVED := Manager(FILE.(tasks := [MOVED_T]), NO_DELTAS, NO_DELTAS, map["t" := Entry(EMPTY, false)])

  lemma Pair<T>(x: Item<T>, y: Item<T>)
    requires x.id != y.id
    ensures Find([x, y], x.id) == Some(x.body) && Find([x, y], y.id) == Some(y.body)
    ensures Erase([x, y], x.id) == [y] && ToMap([y]).Keys == {y.id}
  {
    assert [x, y][1..] == [y] && [y][1..] == [];
    assert Erase([y], x.id) == [y] + Erase([y][1..], x.id) == [y];
  }

  lemma FileStarts()
    ensures Life(FILE, [Boot]) == MOVED.(cfg := FILE)
  {
    FirstStartIsBoot(FILE);
    var empty := Manager(FILE, NO_DELTAS, NO_DELTAS, map[]);
    assert Find(FILE.sources, "a") == Some(NOWHERE) && Find(FILE.pipelines, "p") == Some(EMPTY);
    PlainGraphs("t", "a");
    assert FILE.tasks[..0] == [];
    assert BuildAll(empty, []) == Reply(empty, Done);
    assert BuildEntry(empty, T, false) == Reply(MOVED.(cfg := FILE), Done);
  }

  lemma FileMoves()
    ensures Execute(MOVED.(cfg := FILE), UpdateTask(MOVED_T)) == Reply(MOVED, Done)
  {
    var m := MOVED.(cfg := FILE);
    Pair(A, B);
    Pair(P, Q);
    PlainGraphs("t", "b");
    assert Replace(m.cfg.tasks, MOVED_T) == [MOVED_T];
    assert RecordUpdate(m.delta.tasks, MOVED_T) == m.delta.tasks;
    assert m.entries - {"t"} == map[];
    assert BuildEntry(MOVED.(entries := map[]), MOVED_T, false) == Reply(MOVED, Done);
  }

  /** After that its first source, or its first template, can go. */
  lemma FileCut()
    ensures Execute(MOVED, RemoveSource("a")).m.saved == NO_DELTAS.(sources := Delta([], ["a"]))
    ensures Execute(MOVED, RemovePipeline("p")).m.saved == NO_DELTAS.(pipelines := Delta([], ["p"]))
  {
    assert Find(MOVED.cfg.sources, "a") == Some(NOWHERE) && Find(MOVED.cfg.pipelines, "p") == Some(EMPTY);
  }

  function Removing(c: Command): seq<Event> { [Boot, Do(UpdateTask(MOVED_T)), Do(c), Boot] }

  lemma FileLife(c: Command)
    ensures Life(FILE, Removing(c)) == LoadAll(Rebooted(FILE, Execute(MOVED, c).m.saved)).m
  {
    FileStarts();
    FileMoves();
    var moving := [Boot] + [Do(UpdateTask(MOVED_T))];
    LifeGoesOn(FILE, [Boot], Do(UpdateTask(MOVED_T)));
    LifeGoesOn(FILE, moving, Do(c));
    LifeGoesOn(FILE, moving + [Do(c)], Boot);
    assert moving + [Do(c)] + [Boot] == Removing(c);
  }

  ghost predicate Unbuilt(m: Manager, sources: seq<Item<SourceBody>>, pipelines: seq<Item<PipelineBody>>) {
    m.cfg == FILE.(sources := sources, pipelines := pipelines) && m.entries == map[]
  }

  lemma LoadsNothing(n: Manager)
    requires n.cfg.tasks == [T] && n.entries == map[] && !RefsExist(n.cfg, T)
    ensures LoadAll(n).m == n
  {
    assert [T][..0] == [];
    assert BuildAll(n, []) == Reply(n, Done);
    BuildEntryIs(n, T, false);
    assert n.(entries := map[]) == n;
  }

  lemma Reloads()
    ensures Reload(FILE, NO_DELTAS.(sources := Delta([], ["a"]))) == FILE.(sources := [B])
    ensures Reload(FILE, NO_DELTAS.(pipelines := Delta([], ["p"]))) == FILE.(pipelines := [Q])
  {
    Pair(A, B);
    Pair(P, Q);
    ReloadedOne(FILE.sources, "a");
    ReloadedOne(FILE.pipelines, "p");
  }

  lemma ReloadedOne<T>(xs: seq<Item<T>>, id: string)
    ensures Reloaded(xs, NoDelta()) == xs && Reloaded(xs, Delta([], [id])) == Erase(xs, id)
  {
    assert [id][..0] == [];
    assert EraseAll(xs, [id]) == Erase(EraseAll(xs, []), id);
  }

  /** A restart brings the task back as the file has it, without its source ... */
  lemma SourceGone()
    ensures Unbuilt(Life(FILE, Removing(RemoveSource("a"))), [B], [P, Q])
  {
    FileCut();
    FileLife(RemoveSource("a"));
    Reloads();
    Pair(A, B);
    LoadsNothing(Rebooted(FILE, NO_DELTAS.(sources := Delta([], ["a"]))));
  }

  /** ... or without its template. */
  lemma TemplateGone()
    ensures Unbuilt(Life(FILE, Removing(RemovePipeline("p"))), [A, B], [Q])
  {
    FileCut();
    FileLife(RemovePipeline("p"));
    Reloads();
    Pair(P, Q);
    LoadsNothing(Rebooted(FILE, NO_DELTAS.(pipelines := Delta([], ["p"]))));
  }

  lemma SourceGoneStrands(m: Manager)
    requires Unbuilt(m, [B], [P, Q])
    ensures Stranded(m, "t", "p", "q", "b")
  {
    Pair(A, B);
    Pair(P, Q);
    assert T in m.cfg.tasks;
    assert m.cfg.pipelines[1..] == [Q];
  }

  /** The task is moved and its first source removed.  After a restart, replaying the moved task
      adds its record again with every attempt. */
  lemma RestartedPilesUp()
    ensures var m := Life(FILE, Removing(RemoveSource("a")));
      var snap, o := PileSnapshot("t", "p", "q", "b"), PileOrder("t", "p", "q", "b");
      var once := Attempt(m, snap, o, Complete(o));
      && m.cfg.tasks == [T] && once.cfg.tasks == [T, MOVED_T]
      && Attempt(once, snap, o, Complete(o)).cfg.tasks == [T, MOVED_T, MOVED_T]
      && TwiceAnswered(m, snap, o) && Harmless(m, snap) && !Converges(m, snap)
  {
    var m := Life(FILE, Removing(RemoveSource("a")));
    SourceGone();
    SourceGoneStrands(m);
    TwiceMoved(m);
    PilesUp(m, "t", "p", "q", "b");
  }

  lemma TwiceMoved(m: Manager)
    requires Stranded(m, "t", "p", "q", "b") && m.cfg.tasks == [T]
    ensures var snap, o := PileSnapshot("t", "p", "q", "b"), PileOrder("t", "p", "q", "b");
      var once := Attempt(m, snap, o, Complete(o));
      once.cfg.tasks == [T, MOVED_T] && Attempt(once, snap, o, Complete(o)).cfg.tasks == [T, MOVED_T, MOVED_T]
  {
    var snap, o := PileSnapshot("t", "p", "q", "b"), PileOrder("t", "p", "q", "b");
    AttemptPiles(m, "t", "p", "q", "b");
    AttemptPiles(Attempt(m, snap, o, Complete(o)), "t", "p", "q", "b");
  }

  /** On the engine after one such attempt, updating the first template, with the content it has,
      is refused, rolled back, and takes the task its graph. */
  lemma RollbackTakesGraph()
    ensures var m, o := Life(FILE, Removing(RemoveSource("a"))), PileOrder("t", "p", "q", "b");
      var once := Attempt(m, PileSnapshot("t", "p", "q", "b"), o, Complete(o));
      var r := Execute(once, UpdatePipeline(P));
      "t" in once.entries && r.outcome.Refused? && r.m.cfg == once.cfg && "t" !in r.m.entries
  {
    var m, o := Life(FILE, Removing(RemoveSource("a"))), PileOrder("t", "p", "q", "b");
    SourceGone();
    SourceGoneStrands(m);
    AttemptPiles(m, "t", "p", "q", "b");
    StrandedRollsBack(Attempt(m, PileSnapshot("t", "p", "q", "b"), o, Complete(o)), MOVED_T);
  }

  lemma StrandedRollsBack(m: Manager, t: Item<TaskBody>)
    requires Stranded(m, "t", "p", "q", "b") && m.cfg.tasks == [T, t] && t.body.pipelineId != "p"
    ensures var r := Execute(m, UpdatePipeline(P));
      r.outcome.Refused? && r.m.cfg == m.cfg && "t" !in r.m.entries
  {
    var users, after := Users(m.cfg.tasks, "p"), SwapTemplate(m, P).cfg;
    FindIsLookup(m.cfg.pipelines, "p");
    assert T in m.cfg.tasks;
    UsersAre(m.cfg.tasks, "p");
    assert users != [] && users[0] in users;
    assert FailsAt(after, users, 0) && !RefsExist(after, users[0]);
    UpdateEnds(m, P);
    RollbackLeaves(m, P);
    UpdateUproots(m, P, "t");
  }

  /** The task is moved and its first template removed.  After a restart, one attempt to bring the
      template back leaves the task without a graph, and a second one builds it. */
  lemma RestartedPicksGraph()
    ensures var m := Life(FILE, Removing(RemovePipeline("p")));
      var snap, o := ReturnSnapshot(m, "p", EMPTY), ReturnOrder(m, "p");
      var once := Attempt(m, snap, o, Complete(o));
      && once.cfg.tasks == [T] && once.entries == map[]
      && "t" in Attempt(once, snap, o, Complete(o)).entries
      && TwiceAnswered(m, snap, o) && Harmless(m, snap) && !Converges(m, snap)
  {
    var m := Life(FILE, Removing(RemovePipeline("p")));
    TemplateGone();
    Pair(P, Q);
    assert T in m.cfg.tasks && OncePerId([T]);
    var snap, o := ReturnSnapshot(m, "p", EMPTY), ReturnOrder(m, "p");
    ReturnAdds(m, T, EMPTY);
    ReturnRebuilds(m, Attempt(m, snap, o, Complete(o)), T, EMPTY);
    PicksGraph(m, T, EMPTY);
  }

  /** The same life, and a snapshot that brings the template back and has the moved task. */
  const MOVED_SNAPSHOT := Snapshot(map["b" := NOWHERE], map["p" := ONE, "q" := EMPTY], map["t" := MOVED_T.body], {})

  const MOVED_ORDER := Order(["b"], ["p", "q"], ["t"], [])

  /** After the sources and the first template. */
  function Halfway(m: Manager): Manager { PutPipeline(PutSource(m, "b", NOWHERE), "p", ONE) }

  lemma MovedUnfolds(m: Manager)
    ensures Attempt(m, MOVED_SNAPSHOT, MOVED_ORDER, InPipelines(1, false)) == Halfway(m)
    ensures Attempt(m, MOVED_SNAPSHOT, MOVED_ORDER, Complete(MOVED_ORDER)) ==
      PutTask(PutPipeline(Halfway(m), "q", EMPTY), "t", MOVED_T.body)
  {
    var sourced, snap := PutSource(m, "b", NOWHERE), MOVED_SNAPSHOT;
    assert ["b"][..0] == [] && ["p", "q"][..1] == ["p"] && ["p"][..0] == [] && ["t"][..0] == [];
    assert PutSources(m, snap, ["b"]) == sourced;
    assert PutPipelines(sourced, snap, ["p"]) == Halfway(m);
    var piped := PutPipeline(Halfway(m), "q", EMPTY);
    assert PutPipelines(sourced, snap, ["p", "q"]) == piped;
    assert PutTasks(piped, snap, ["t"]) == PutTask(piped, "t", MOVED_T.body);
  }

  /** The engine of that life while only the task of the file is listed. */
  ghost predicate OnlyT(m: Manager) {
    && m.cfg.sources == [A, B] && m.cfg.tasks == [T]
    && "q" in ToMap(m.cfg.pipelines) && ToMap(m.cfg.pipelines)["q"] == EMPTY
    && forall id :: id in m.entries ==> !m.entries[id].running
  }

  lemma SourceThere(m: Manager)
    requires OnlyT(m)
    ensures PutSource(m, "b", NOWHERE) == m
    ensures "a" in ToMap(m.cfg.sources) && "b" in ToMap(m.cfg.sources)
  {
    Pair(A, B);
    FindIsLookup(m.cfg.sources, "a");
    FindIsLookup(m.cfg.sources, "b");
  }

  lemma {:induction false} NoUsers(ts: seq<Item<TaskBody>>, p: string)
    requires forall t :: t in ts ==> t.body.pipelineId != p
    ensures Users(ts, p) == []
  {
    if ts != [] {
      assert ts[|ts| - 1] in ts;
      NoUsers(ts[..|ts| - 1], p);
    }
  }

  /** Updating the template that no listed task uses changes no graph. */
  lemma OtherUpdate(m: Manager)
    requires OnlyT(m)
    ensures var n := PutPipeline(m, "q", EMPTY); OnlyT(n) && n.entries == m.entries
  {
    FindIsLookup(m.cfg.pipelines, "q");
    ReplaceIsUpdate(m.cfg.pipelines, Item("q", EMPTY));
    NoUsers(m.cfg.tasks, "q");
    var users := Users(m.cfg.tasks, "q");
    assert m.entries - IdsOf(users) == m.entries;
  }

  lemma FirstAdds(m: Manager)
    requires OnlyT(m) && "p" !in ToMap(m.cfg.pipelines)
    ensures var n := Halfway(m); OnlyT(n) && n.entries == m.entries && "p" in ToMap(n.cfg.pipelines)
  {
    SourceThere(m);
    FindIsLookup(m.cfg.pipelines, "p");
    AppendIsAdd(m.cfg.pipelines, Item("p", ONE));
  }

  lemma SecondBuilds(m: Manager)
    requires OnlyT(m) && "p" in ToMap(m.cfg.pipelines)
    ensures var n := Halfway(m); OnlyT(n) && "t" in n.entries && n.entries["t"].graph == ONE
  {
    SourceThere(m);
    FindIsLookup(m.cfg.pipelines, "p");
    assert T in m.cfg.tasks && OncePerId([T]);
    UpdateBuilds(m, Item("p", ONE), T);
    UpdateOnly(m, Item("p", ONE));
  }

  lemma AddsMoved(m: Manager)
    requires OnlyT(m) && "t" !in m.entries
    ensures var n := PutTask(m, "t", MOVED_T.body);
      n.cfg.tasks == [T, MOVED_T] && "t" in n.entries && n.entries["t"].graph == EMPTY
  {
    SourceThere(m);
    BuildEntryIs(m, MOVED_T, false);
    PlainGraphs("t", "b");
  }

  /** A single attempt adds the moved task and builds it from its new template.  Cut off after the old
      template was added, and then completed, the attempt builds the old record from the old one. */
  lemma CutPicksGraph()
    ensures var m, snap, o := Life(FILE, Removing(RemovePipeline("p"))), MOVED_SNAPSHOT, MOVED_ORDER;
      var single := Attempt(m, snap, o, Complete(o));
      var retried := Attempt(Attempt(m, snap, o, InPipelines(1, false)), snap, o, Complete(o));
      && IsOrder(o, snap)
      && single.cfg.tasks == [T, MOVED_T] && "t" in single.entries && single.entries["t"].graph == EMPTY
      && retried.cfg.tasks == [T] && "t" in retried.entries && retried.entries["t"].graph == ONE
  {
    var m := Life(FILE, Removing(RemovePipeline("p")));
    TemplateGone();
    Pair(P, Q);
    assert OnlyT(m);
    FirstAdds(m);
    MovedUnfolds(m);
    OtherUpdate(Halfway(m));
    AddsMoved(PutPipeline(Halfway(m), "q", EMPTY));
    MovedUnfolds(Halfway(m));
    SecondBuilds(Halfway(m));
    OtherUpdate(Halfway(Halfway(m)));
  }
}
