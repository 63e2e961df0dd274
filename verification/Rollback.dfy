/**
 How `updatePipeline` ends from any state, coherent or not, and what its rollback leaves
 (src/pipeline/TaskManager.cpp:395-446).  The command checks the template and that no task of it
 runs, but not the sources of its tasks, which a restart can leave missing.
 */
module Rollback {
  import opened Geometry
  import opened Keyed
  import opened Management
  import opened Coherence

  // ---------------------------------------------------------------- how a rebuild ends

  ghost predicate EachBuildable(cfg: Config, ts: seq<Item<TaskBody>>) {
    forall i :: 0 <= i < |ts| ==> Buildable(cfg, ts[i])
  }

  /** The first task that cannot be built is number `k`. */
  ghost predicate FailsAt(cfg: Config, ts: seq<Item<TaskBody>>, k: nat) {
    k < |ts| && !Buildable(cfg, ts[k]) && EachBuildable(cfg, ts[..k])
  }

  /** Some task lacks its source or its template, and every earlier one can be built. */
  ghost predicate Lacks(cfg: Config, ts: seq<Item<TaskBody>>) {
    exists k: nat :: FailsAt(cfg, ts, k) && !RefsExist(cfg, ts[k])
  }

  /** Some task has them and cannot be built, and every earlier one can. */
  ghost predicate Throws(cfg: Config, ts: seq<Item<TaskBody>>) {
    exists k: nat :: FailsAt(cfg, ts, k) && RefsExist(cfg, ts[k])
  }

  /** A rebuild is refused exactly when the first task that cannot be built lacks a reference, and
      throws exactly when it does not. */
  lemma {:induction false} RebuildEnds(m: Manager, ts: seq<Item<TaskBody>>)
    ensures BuildEach(m, ts).outcome.Done? <==> EachBuildable(m.cfg, ts)
    ensures BuildEach(m, ts).outcome.Refused? <==> Lacks(m.cfg, ts)
    ensures BuildEach(m, ts).outcome.Threw? <==> Throws(m.cfg, ts)
  {
    if ts != [] {
      var k := |ts| - 1;
      RebuildEnds(m, ts[..k]);
      BuildEachOnly(m, ts[..k]);
      BuildEntryIs(BuildEach(m, ts[..k]).m, ts[k], false);
      FirstFailure(m.cfg, ts);
    }
  }

  lemma FirstFailure(cfg: Config, ts: seq<Item<TaskBody>>)
    requires ts != []
    ensures var before, last := ts[..|ts| - 1], ts[|ts| - 1];
      && (EachBuildable(cfg, ts) <==> EachBuildable(cfg, before) && Buildable(cfg, last))
      && (Lacks(cfg, ts) <==> Lacks(cfg, before) || (EachBuildable(cfg, before) && !RefsExist(cfg, last)))
      && (Throws(cfg, ts) <==>
            Throws(cfg, before) || (EachBuildable(cfg, before) && RefsExist(cfg, last) && !Buildable(cfg, last)))
  {
    OneMoreBuildable(cfg, ts);
    LacksMore(cfg, ts);
    ThrowsMore(cfg, ts);
  }

  lemma LacksMore(cfg: Config, ts: seq<Item<TaskBody>>)
    requires ts != []
    ensures var before, last := ts[..|ts| - 1], ts[|ts| - 1];
      Lacks(cfg, ts) <==> Lacks(cfg, before) || (EachBuildable(cfg, before) && !RefsExist(cfg, last))
  {
    var n := |ts| - 1;
    if Lacks(cfg, ts) {
      var k: nat :| FailsAt(cfg, ts, k) && !RefsExist(cfg, ts[k]);
      if k < n { SameFailure(cfg, ts, n, k); }
    }
    if Lacks(cfg, ts[..n]) {
      var k: nat :| FailsAt(cfg, ts[..n], k) && !RefsExist(cfg, ts[..n][k]);
      SameFailure(cfg, ts, n, k);
    }
    if EachBuildable(cfg, ts[..n]) && !RefsExist(cfg, ts[n]) {
      assert FailsAt(cfg, ts, n);
    }
  }

  lemma ThrowsMore(cfg: Config, ts: seq<Item<TaskBody>>)
    requires ts != []
    ensures var before, last := ts[..|ts| - 1], ts[|ts| - 1];
      Throws(cfg, ts) <==>
        Throws(cfg, before) || (EachBuildable(cfg, before) && RefsExist(cfg, last) && !Buildable(cfg, last))
  {
    var n := |ts| - 1;
    if Throws(cfg, ts) {
      var k: nat :| FailsAt(cfg, ts, k) && RefsExist(cfg, ts[k]);
      if k < n { SameFailure(cfg, ts, n, k); }
    }
    if Throws(cfg, ts[..n]) {
      var k: nat :| FailsAt(cfg, ts[..n], k) && RefsExist(cfg, ts[..n][k]);
      SameFailure(cfg, ts, n, k);
    }
    if EachBuildable(cfg, ts[..n]) && RefsExist(cfg, ts[n]) && !Buildable(cfg, ts[n]) {
      assert FailsAt(cfg, ts, n);
    }
  }

  lemma OneMoreBuildable(cfg: Config, ts: seq<Item<TaskBody>>)
    requires ts != []
    ensures EachBuildable(cfg, ts) <==> EachBuildable(cfg, ts[..|ts| - 1]) && Buildable(cfg, ts[|ts| - 1])
  {
    assert forall i :: 0 <= i < |ts| - 1 ==> ts[..|ts| - 1][i] == ts[i];
  }

  lemma SameFailure(cfg: Config, ts: seq<Item<TaskBody>>, n: nat, k: nat)
    requires k < n <= |ts|
    ensures FailsAt(cfg, ts, k) <==> FailsAt(cfg, ts[..n], k)
    ensures ts[..n][k] == ts[k]
  {
    assert ts[..n][..k] == ts[..k] && ts[..n][k] == ts[k];
  }

  /** Some task has its references and cannot be built. */
  ghost predicate Unrestorable(cfg: Config, ts: seq<Item<TaskBody>>) {
    exists t :: t in ts && RefsExist(cfg, t) && !Buildable(cfg, t)
  }

  /** Restoring passes over missing references, so it throws exactly when some task has them and
      cannot be built. */
  lemma {:induction false} RestoreThrowsIff(m: Manager, ts: seq<Item<TaskBody>>)
    ensures BuildAll(m, ts).outcome.Threw? <==> Unrestorable(m.cfg, ts)
  {
    if ts != [] {
      var k := |ts| - 1;
      RestoreThrowsIff(m, ts[..k]);
      BuildEachOnly(m, ts[..k]);
      BuildEntryIs(BuildAll(m, ts[..k]).m, ts[k], false);
      assert ts == ts[..k] + [ts[k]];
    }
  }

  ghost predicate BuiltFrom(cfg: Config, ts: seq<Item<TaskBody>>, id: string, e: Entry) {
    !e.running && exists t :: t in ts && t.id == id && GraphFor(cfg, id, t.body) == Some(e.graph)
  }

  /** Every entry is an old one or built from one of the tasks, and every task that can be built
      has one. */
  ghost predicate RestoredFrom(m: Manager, ts: seq<Item<TaskBody>>, n: Manager) {
    && n.cfg == m.cfg
    && (forall id :: id in n.entries ==>
          (id in m.entries && n.entries[id] == m.entries[id]) || BuiltFrom(m.cfg, ts, id, n.entries[id]))
    && (forall t :: t in ts && Buildable(m.cfg, t) ==> t.id in n.entries)
  }

  lemma OneMoreRestored(m: Manager, ts: seq<Item<TaskBody>>, t: Item<TaskBody>, before: Manager)
    requires RestoredFrom(m, ts, before) && !BuildEntry(before, t, false).outcome.Threw?
    ensures RestoredFrom(m, ts + [t], BuildEntry(before, t, false).m)
  {
    var n, us := BuildEntry(before, t, false).m, ts + [t];
    BuildEntryIs(before, t, false);
    assert t in us && forall u :: u in ts ==> u in us;
    forall id | id in n.entries && !(id in m.entries && n.entries[id] == m.entries[id])
      ensures BuiltFrom(m.cfg, us, id, n.entries[id])
    {
      if id in before.entries && n.entries[id] == before.entries[id] {
        assert BuiltFrom(m.cfg, ts, id, n.entries[id]);
      }
    }
  }

  /** Restoring into a state without entries of these tasks gives one to each that can be built. */
  lemma {:induction false} Restored(m: Manager, ts: seq<Item<TaskBody>>)
    requires !BuildAll(m, ts).outcome.Threw?
    ensures RestoredFrom(m, ts, BuildAll(m, ts).m)
  {
    if ts != [] {
      var k := |ts| - 1;
      Restored(m, ts[..k]);
      OneMoreRestored(m, ts[..k], ts[k], BuildAll(m, ts[..k]).m);
      assert ts == ts[..k] + [ts[k]];
    }
  }

  // ---------------------------------------------------------------- the whole command

  /** How the command ends, from any state: the first task that cannot be built under the new
      template decides, and after a refusal those that cannot be built under the old one. */
  lemma UpdateEnds(m: Manager, x: Item<PipelineBody>)
    requires Has(m.cfg.pipelines, x.id) && !RunningUser(m, x.id)
    ensures var users, after := Users(m.cfg.tasks, x.id), SwapTemplate(m, x).cfg;
      var outcome := DoUpdatePipeline(m, x).outcome;
      && (outcome.Done? <==> EachBuildable(after, users))
      && (outcome.Refused? <==> Lacks(after, users) && !Unrestorable(m.cfg, users))
      && (outcome.Threw? <==> Throws(after, users) || (Lacks(after, users) && Unrestorable(m.cfg, users)))
  {
    var users, swapped := Users(m.cfg.tasks, x.id), SwapTemplate(m, x);
    RebuildEnds(swapped, users);
    BuildEachOnly(swapped, users);
    var backup := Item(x.id, Find(m.cfg.pipelines, x.id).value);
    ReplaceBack(m.cfg.pipelines, x);
    RestoreThrowsIff(SwapTemplate(BuildEach(swapped, users).m, backup), users);
  }

  lemma {:induction false} ReplaceBack<T>(xs: seq<Item<T>>, x: Item<T>)
    requires Has(xs, x.id)
    ensures Replace(Replace(xs, x), Item(x.id, Find(xs, x.id).value)) == xs
  {
    if xs[0].id == x.id {
      assert ([x] + xs[1..])[1..] == xs[1..];
      assert [xs[0]] + xs[1..] == xs;
    } else {
      ReplaceBack(xs[1..], x);
      assert ([xs[0]] + Replace(xs[1..], x))[1..] == Replace(xs[1..], x);
    }
  }

  /** What a rollback leaves: the configuration and the file as they were, and the entries of
      other tasks; of the template's own tasks exactly those that can be built get a new entry, the
      others have none, even if they had one before. */
  lemma RollbackLeaves(m: Manager, x: Item<PipelineBody>)
    requires Has(m.cfg.pipelines, x.id) && !RunningUser(m, x.id) && DoUpdatePipeline(m, x).outcome.Refused?
    ensures var n, users := DoUpdatePipeline(m, x).m, Users(m.cfg.tasks, x.id);
      && n.cfg == m.cfg && n.saved == m.saved
      && (forall id :: id !in IdsOf(users) ==>
            (id in n.entries <==> id in m.entries) && (id in m.entries ==> n.entries[id] == m.entries[id]))
      && (forall t :: t in users && Buildable(m.cfg, t) ==> t.id in n.entries)
      && (forall id :: id in IdsOf(users) && id in n.entries ==> BuiltFrom(m.cfg, users, id, n.entries[id]))
  {
    var users, swapped := Users(m.cfg.tasks, x.id), SwapTemplate(m, x);
    var built := BuildEach(swapped, users).m;
    var backup := Item(x.id, Find(m.cfg.pipelines, x.id).value);
    var back := SwapTemplate(built, backup);
    UpdateUnfolds(m, x);
    BuildEachOnly(swapped, users);
    ReplaceBack(m.cfg.pipelines, x);
    BuildEachOnly(back, users);
    Restored(back, users);
  }
}
