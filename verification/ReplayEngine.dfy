/**
 `replayOnce` and `replayState` driving the engine (tools/infer-server/store.go:209-269).
 The transport is an oracle: after some calls one reports an error, its command carried out
 or not.  Nothing in the engine's server catches an exception, so a command
 that throws gives no answer and the attempt ends there.
 */
module ReplayEngine {
  import opened Geometry
  import opened Keyed
  import opened Management
  import opened Coherence
  import opened TaskManagers
  import opened Replay

  // ---------------------------------------------------------------- engines that are in step

  /** With every template in place, the replay's updates are all safe exactly when the snapshot is
      harmless to the engine. */
  lemma HarmlessIff(m: Manager, snap: Snapshot)
    requires Anchored(m, snap)
    ensures Harmless(m, snap) <==>
      forall p :: p in snap.pipelines ==> !Damaging(m, UpdatePipeline(Item(p, snap.pipelines[p])))
  {
    var ts := m.cfg.tasks;
    if Harmless(m, snap) {
      forall p | p in snap.pipelines ensures !Damaging(m, UpdatePipeline(Item(p, snap.pipelines[p]))) {
        assert forall i :: 0 <= i < |ts| ==> ts[i] in ts;
      }
    }
    if forall p :: p in snap.pipelines ==> !Damaging(m, UpdatePipeline(Item(p, snap.pipelines[p]))) {
      forall t | t in ts && Idle(m, snap, t.body.pipelineId) ensures Stored(snap, t).Some? {
        var p := t.body.pipelineId;
        FindIsLookup(m.cfg.pipelines, p);
        assert !Damaging(m, UpdatePipeline(Item(p, snap.pipelines[p])));
        var i :| 0 <= i < |ts| && ts[i] == t;
      }
    }
  }

  /** A coherent engine fits every snapshot that is harmless to it. */
  lemma CoherentFits(m: Manager, snap: Snapshot)
    requires Coherent(m) && Harmless(m, snap)
    ensures Fits(m, snap)
  {
    var ts := m.cfg.tasks;
    forall t | t in ts
      ensures t.body.pipelineId in ToMap(m.cfg.pipelines) && t.body.sourceId in TargetSources(m, snap)
    {
      var i :| 0 <= i < |ts| && ts[i] == t;
      ListedIsMapped(ts, i);
      assert GraphFor(m.cfg, t.id, t.body).Some?;
    }
    OnceIsDistinct(ts);
  }

  // ---------------------------------------------------------------- the loops

  /** Calls left before the failing one; at zero the call reports an error. */
  datatype Line = Line(left: nat, carriedOut: bool)

  method ReplaySources(engine: TaskManager, snap: Snapshot, ids: seq<string>, line: Line)
    returns (ok: bool, rest: Line, ghost n: nat)
    requires engine.Valid() && forall i :: 0 <= i < |ids| ==> ids[i] in snap.sources
    modifies engine
    ensures engine.Valid() && n <= |ids| && (ok ==> n == |ids|)
    ensures engine.Value() == PutSources(old(engine.Value()), snap, ids[..n])
  {
    rest, n := line, 0;
    var i := 0;
    while i < |ids|
      invariant 0 <= i <= |ids| && n == i && engine.Valid()
      invariant engine.Value() == PutSources(old(engine.Value()), snap, ids[..i])
    {
      assert ids[..i + 1][..i] == ids[..i];
      var x := Item(ids[i], snap.sources[ids[i]]);
      if rest.left == 0 && !rest.carriedOut {
        return false, rest, n;
      }
      var r := engine.AddSource(x);
      n := i + 1;
      if rest.left == 0 {
        return false, rest, n;
      }
      rest := rest.(left := rest.left - 1);
      i := i + 1;
    }
    ok := true;
  }

  method ReplayPipelines(engine: TaskManager, snap: Snapshot, ids: seq<string>, line: Line)
    returns (ok: bool, rest: Line, ghost n: nat, ghost half: bool)
    requires engine.Valid() && forall i :: 0 <= i < |ids| ==> ids[i] in snap.pipelines
    modifies engine
    ensures engine.Valid() && n <= |ids| && (ok ==> n == |ids| && !half)
    ensures half ==> n < |ids|
    ensures ok ==> PipelinesAnswer(old(engine.Value()), snap, ids)
    ensures var before := PutPipelines(old(engine.Value()), snap, ids[..n]);
      engine.Value() == if half then AddOnly(before, ids[n], snap.pipelines[ids[n]]) else before
  {
    rest, n, half := line, 0, false;
    var i := 0;
    while i < |ids|
      invariant 0 <= i <= |ids| && n == i && !half && engine.Valid()
      invariant engine.Value() == PutPipelines(old(engine.Value()), snap, ids[..i])
      invariant PipelinesAnswer(old(engine.Value()), snap, ids[..i])
    {
      assert ids[..i + 1][..i] == ids[..i];
      var x := Item(ids[i], snap.pipelines[ids[i]]);
      if rest.left == 0 && !rest.carriedOut {
        return false, rest, n, half;
      }
      var r := engine.AddPipeline(x);
      if rest.left == 0 {
        return false, rest, n, true;
      }
      rest := rest.(left := rest.left - 1);
      if r.Refused? {
        if rest.left == 0 && !rest.carriedOut {
          return false, rest, n, half;
        }
        var u := engine.UpdatePipeline(x);
        n := i + 1;
        if rest.left == 0 || u.Threw? {
          return false, rest, n, half;
        }
        rest := rest.(left := rest.left - 1);
      }
      n := i + 1;
      i := i + 1;
    }
    assert ids[..i] == ids;
    ok := true;
  }

  method ReplayTasks(engine: TaskManager, snap: Snapshot, ids: seq<string>, line: Line)
    returns (ok: bool, rest: Line, ghost n: nat)
    requires engine.Valid() && forall i :: 0 <= i < |ids| ==> ids[i] in snap.tasks
    modifies engine
    ensures engine.Valid() && n <= |ids| && (ok ==> n == |ids|)
    ensures engine.Value() == PutTasks(old(engine.Value()), snap, ids[..n])
    ensures ok ==> TasksAnswer(old(engine.Value()), snap, ids)
  {
    rest, n := line, 0;
    var i := 0;
    while i < |ids|
      invariant 0 <= i <= |ids| && n == i && engine.Valid()
      invariant engine.Value() == PutTasks(old(engine.Value()), snap, ids[..i])
      invariant TasksAnswer(old(engine.Value()), snap, ids[..i])
    {
      assert ids[..i + 1][..i] == ids[..i];
      var t := Item(ids[i], snap.tasks[ids[i]]);
      if rest.left == 0 && !rest.carriedOut {
        return false, rest, n;
      }
      var r := engine.AddTask(t, false);
      n := i + 1;
      if rest.left == 0 || r.Threw? {
        return false, rest, n;
      }
      rest := rest.(left := rest.left - 1);
      i := i + 1;
    }
    assert ids[..i] == ids;
    ok := true;
  }

  method ReplayStarts(engine: TaskManager, ids: seq<string>, line: Line)
    returns (ok: bool, rest: Line, ghost n: nat)
    requires engine.Valid()
    modifies engine
    ensures engine.Valid() && n <= |ids| && (ok ==> n == |ids|)
    ensures engine.Value() == StartTasks(old(engine.Value()), ids[..n])
  {
    rest, n := line, 0;
    var i := 0;
    while i < |ids|
      invariant 0 <= i <= |ids| && n == i && engine.Valid()
      invariant engine.Value() == StartTasks(old(engine.Value()), ids[..i])
    {
      assert ids[..i + 1][..i] == ids[..i];
      if rest.left == 0 && !rest.carriedOut {
        return false, rest, n;
      }
      var r := engine.Start(ids[i]);
      n := i + 1;
      if rest.left == 0 {
        return false, rest, n;
      }
      rest := rest.(left := rest.left - 1);
      i := i + 1;
    }
    ok := true;
  }

  /** One attempt, in the iteration order `o`, on any engine. */
  method ReplayOnce(engine: TaskManager, snap: Snapshot, o: Order, line: Line) returns (ok: bool, ghost c: Cut)
    requires engine.Valid() && IsOrder(o, snap)
    modifies engine
    ensures engine.Valid() && IsCut(c, o) && (ok ==> c == Complete(o) && Answered(old(engine.Value()), snap, o))
    ensures engine.Value() == Attempt(old(engine.Value()), snap, o, c)
  {
    var rest: Line;
    ghost var n: nat;
    ghost var half: bool;
    ok, rest, n := ReplaySources(engine, snap, o.sources, line);
    c := InSources(n);
    if !ok { return; }
    assert o.sources[..n] == o.sources;
    ok, rest, n, half := ReplayPipelines(engine, snap, o.pipelines, rest);
    c := InPipelines(n, half);
    if !ok { return; }
    assert o.pipelines[..n] == o.pipelines;
    ok, rest, n := ReplayTasks(engine, snap, o.tasks, rest);
    c := InTasks(n);
    if !ok { return; }
    assert o.tasks[..n] == o.tasks;
    ok, rest, n := ReplayStarts(engine, o.starts, rest);
    c := InStarts(n);
  }

  /** Retrying attempts, each with its own order and its own failing call: if one of them
      completes on an engine that the snapshot fits, the engine is where a single complete
      attempt would have left it. */
  method ReplayState(engine: TaskManager, snap: Snapshot, tries: seq<(Order, Line)>)
    returns (ok: bool, ghost done: seq<(Order, Cut)>)
    requires engine.Valid() && forall i :: 0 <= i < |tries| ==> IsOrder(tries[i].0, snap)
    modifies engine
    ensures engine.Valid() && AreTries(done, snap) && engine.Value() == Attempts(old(engine.Value()), snap, done)
    ensures ok ==> done != [] && done[|done| - 1].1 == Complete(done[|done| - 1].0)
    ensures ok && Fits(old(engine.Value()), snap) ==>
      forall o :: IsOrder(o, snap) ==> Same(engine.Value(), Attempt(old(engine.Value()), snap, o, Complete(o)))
    ensures Fits(old(engine.Value()), snap) && Coherent(old(engine.Value())) ==> Coherent(engine.Value())
  {
    ghost var start := engine.Value();
    done := [];
    var i := 0;
    ok := false;
    while i < |tries| && !ok
      invariant 0 <= i <= |tries| && engine.Valid()
      invariant AreTries(done, snap) && engine.Value() == Attempts(start, snap, done)
      invariant ok ==> done != [] && done[|done| - 1].1 == Complete(done[|done| - 1].0)
      decreases |tries| - i, !ok
    {
      ghost var c;
      ok, c := ReplayOnce(engine, snap, tries[i].0, tries[i].1);
      assert (done + [(tries[i].0, c)])[..|done|] == done;
      done := done + [(tries[i].0, c)];
      i := i + 1;
    }
    if Fits(start, snap) { WhereItEnds(start, snap, done); }
  }

  /** On an engine that fits, attempts keep coherence, and end where one complete attempt ends. */
  lemma WhereItEnds(m: Manager, snap: Snapshot, done: seq<(Order, Cut)>)
    requires Fits(m, snap) && AreTries(done, snap)
    ensures Coherent(m) ==> Coherent(Attempts(m, snap, done))
    ensures done != [] && done[|done| - 1].1 == Complete(done[|done| - 1].0) ==>
      forall o :: IsOrder(o, snap) ==> Same(Attempts(m, snap, done), Attempt(m, snap, o, Complete(o)))
  {
    AttemptsOnTheWay(m, snap, done);
    if done != [] && done[|done| - 1].1 == Complete(done[|done| - 1].0) {
      ReplayConverges(m, snap);
      var k := |done| - 1;
      forall o | IsOrder(o, snap) ensures Same(Attempts(m, snap, done), Attempt(m, snap, o, Complete(o))) {
        assert AreTries(done[..k], snap);
        assert Agree(m, snap, done[..k], done[k].0, o);
      }
    }
  }
}
