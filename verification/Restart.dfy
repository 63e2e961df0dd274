/**
 Whole histories of the management plane: what holds after every command, what a restart
 brings back, and when the restarted process is coherent again.
 */
module Restart {
  import opened Geometry
  import opened Keyed
  import Placeholders
  import opened RuntimeState
  import opened Management
  import opened Coherence

  // ---------------------------------------------------------------- running tasks

  /** The graph and the record of a task are the same in both states, and so are the source and the
      template it names, as far as they exist. */
  ghost predicate Untouched(m: Manager, n: Manager, id: string) {
    && id in m.entries && id in n.entries && n.entries[id].graph == m.entries[id].graph
    && id in ToMap(m.cfg.tasks) && id in ToMap(n.cfg.tasks) && ToMap(n.cfg.tasks)[id] == ToMap(m.cfg.tasks)[id]
    && Kept(m.cfg.sources, n.cfg.sources, ToMap(m.cfg.tasks)[id].sourceId)
    && Kept(m.cfg.pipelines, n.cfg.pipelines, ToMap(m.cfg.tasks)[id].pipelineId)
  }

  ghost predicate Kept<T(!new)>(xs: seq<Item<T>>, ys: seq<Item<T>>, id: string) {
    id in ToMap(xs) ==> id in ToMap(ys) && ToMap(ys)[id] == ToMap(xs)[id]
  }

  /** While a task runs, no command but its removal changes its graph, its record, its source or its
      template, from any state that keeps graphs of listed tasks only, even if the command throws. */
  lemma RunningUntouched(m: Manager, c: Command, id: string)
    requires EntriesListed(m) && id in m.entries && m.entries[id].running && c != RemoveTask(id)
    ensures Untouched(m, Execute(m, c).m, id)
  {
    match c
    case AddSource(_) => RunningUnderLists(m, c, id);
    case RemoveSource(_) => RunningUnderLists(m, c, id);
    case AddPipeline(_) => RunningUnderLists(m, c, id);
    case RemovePipeline(_) => RunningUnderLists(m, c, id);
    case UpdatePipeline(x) => RunningUnderUpdate(m, x, id);
    case AddTask(_, _) => RunningUnderTasks(m, c, id);
    case UpdateTask(_) => RunningUnderTasks(m, c, id);
    case RemoveTask(_) => RunningUnderTasks(m, c, id);
    case _ => RunningUnderRest(m, c, id);
  }

  lemma RunningUnderRest(m: Manager, c: Command, id: string)
    requires EntriesListed(m) && id in m.entries
    requires c.LoadModel? || c.UnloadModel? || c.Start? || c.Stop? || c.StartAll? || c.StopAll?
    ensures Untouched(m, Execute(m, c).m, id)
  {
  }

  lemma RunningUnderLists(m: Manager, c: Command, id: string)
    requires EntriesListed(m) && id in m.entries
    requires c.AddSource? || c.RemoveSource? || c.AddPipeline? || c.RemovePipeline?
    ensures Untouched(m, Execute(m, c).m, id)
  {
    RunningUses(m, id);
    match c
    case AddSource(x) => AppendIsAdd(m.cfg.sources, x);
    case RemoveSource(x) => EraseIsRemove(m.cfg.sources, x);
    case AddPipeline(x) => AppendIsAdd(m.cfg.pipelines, x);
    case RemovePipeline(x) => EraseIsRemove(m.cfg.pipelines, x);
  }

  lemma RunningUnderTasks(m: Manager, c: Command, id: string)
    requires EntriesListed(m) && id in m.entries && m.entries[id].running && c != RemoveTask(id)
    requires c.AddTask? || c.UpdateTask? || c.RemoveTask?
    ensures Untouched(m, Execute(m, c).m, id)
  {
    match c
    case AddTask(x, autostart) =>
      AppendIsAdd(m.cfg.tasks, x);
      BuildEntryOnly(m, x, autostart);
    case UpdateTask(x) => RunningUnderTaskUpdate(m, x, id);
    case RemoveTask(x) => EraseIsRemove(m.cfg.tasks, x);
  }

  lemma RunningUnderTaskUpdate(m: Manager, x: Item<TaskBody>, id: string)
    requires EntriesListed(m) && id in m.entries && m.entries[id].running
    ensures Untouched(m, DoUpdateTask(m, x).m, id)
  {
    ReplaceIsUpdate(m.cfg.tasks, x);
    BuildEntryOnly(SwapTask(m, x), x, false);
  }

  /** What a listed task names is in use. */
  lemma RunningUses(m: Manager, id: string)
    requires id in ToMap(m.cfg.tasks)
    ensures SourceInUse(m.cfg.tasks, ToMap(m.cfg.tasks)[id].sourceId)
    ensures PipelineInUse(m.cfg.tasks, ToMap(m.cfg.tasks)[id].pipelineId)
  {
    var i := MappedIsListed(m.cfg.tasks, id);
  }

  lemma RunningUnderUpdate(m: Manager, x: Item<PipelineBody>, id: string)
    requires EntriesListed(m) && id in m.entries && m.entries[id].running
    ensures Untouched(m, DoUpdatePipeline(m, x).m, id)
  {
    if Has(m.cfg.pipelines, x.id) && !RunningUser(m, x.id) {
      var users := Users(m.cfg.tasks, x.id);
      var i := MappedIsListed(m.cfg.tasks, id);
      NoRunningUser(m, x.id, id);
      SwapLeaves(m, x, users, id);
      var built := BuildEach(SwapTemplate(m, x), users).m;
      var backup := Item(x.id, Find(m.cfg.pipelines, x.id).value);
      SwapLeaves(built, backup, users, id);
      StillLeaves(m, built, BuildAll(SwapTemplate(built, backup), users).m, x.id, id);
      UpdateIsOneOf(m, x);
      LeavesUntouched(m, DoUpdatePipeline(m, x).m, x.id, id);
    }
  }

  /** An update ends after building the tasks under the new template, or under the old one. */
  lemma UpdateIsOneOf(m: Manager, x: Item<PipelineBody>)
    requires Has(m.cfg.pipelines, x.id) && !RunningUser(m, x.id)
    ensures var users, n := Users(m.cfg.tasks, x.id), DoUpdatePipeline(m, x).m;
      var built := BuildEach(SwapTemplate(m, x), users).m;
      var backup := Item(x.id, Find(m.cfg.pipelines, x.id).value);
      n == built || n == Persist(built) || n == BuildAll(SwapTemplate(built, backup), users).m
  {
  }

  lemma StillLeaves(m: Manager, n: Manager, l: Manager, pipelineId: string, id: string)
    requires SameButTemplate(m, n, pipelineId, id) && SameButTemplate(n, l, pipelineId, id)
    ensures SameButTemplate(m, l, pipelineId, id)
  {
    forall p | p != pipelineId ensures Kept(m.cfg.pipelines, l.cfg.pipelines, p) {
      assert Kept(m.cfg.pipelines, n.cfg.pipelines, p) && Kept(n.cfg.pipelines, l.cfg.pipelines, p);
    }
  }

  lemma LeavesUntouched(m: Manager, n: Manager, pipelineId: string, id: string)
    requires SameButTemplate(m, n, pipelineId, id)
    requires id in ToMap(m.cfg.tasks) && ToMap(m.cfg.tasks)[id].pipelineId != pipelineId
    ensures Untouched(m, n, id)
  {
  }

  lemma NoRunningUser(m: Manager, pipelineId: string, id: string)
    requires !RunningUser(m, pipelineId) && id in m.entries && m.entries[id].running
    ensures id !in IdsOf(Users(m.cfg.tasks, pipelineId))
  {
    var users, ts := Users(m.cfg.tasks, pipelineId), m.cfg.tasks;
    UsersAre(ts, pipelineId);
    forall i | 0 <= i < |users| ensures users[i].id != id {
      assert users[i] in users;
      var j :| 0 <= j < |ts| && ts[j] == users[i];
    }
  }

  /** Swapping a template and building its tasks leaves all others alone. */
  lemma SwapLeaves(m: Manager, x: Item<PipelineBody>, users: seq<Item<TaskBody>>, id: string)
    requires users == Users(m.cfg.tasks, x.id) && id in m.entries && id !in IdsOf(users)
    ensures SameButTemplate(m, BuildEach(SwapTemplate(m, x), users).m, x.id, id)
    ensures SameButTemplate(m, BuildAll(SwapTemplate(m, x), users).m, x.id, id)
  {
    ReplaceIsUpdate(m.cfg.pipelines, x);
    BuildEachOnly(SwapTemplate(m, x), users);
  }

  ghost predicate SameButTemplate(m: Manager, n: Manager, pipelineId: string, id: string) {
    && id in m.entries && id in n.entries && n.entries[id] == m.entries[id]
    && n.cfg.sources == m.cfg.sources && n.cfg.tasks == m.cfg.tasks
    && forall p :: p != pipelineId ==> Kept(m.cfg.pipelines, n.cfg.pipelines, p)
  }

  // ---------------------------------------------------------------- the record for restarts

  ghost predicate AllRecorded(base: Config, m: Manager) {
    && Recorded(ToMap(base.sources), ToMap(m.cfg.sources), m.delta.sources)
    && Recorded(ToMap(base.pipelines), ToMap(m.cfg.pipelines), m.delta.pipelines)
    && Recorded(ToMap(base.tasks), ToMap(m.cfg.tasks), m.delta.tasks)
    && Recorded(ToMap(base.models), ToMap(m.cfg.models), m.delta.models)
  }

  /** Graphs are kept for listed tasks only. */
  ghost predicate EntriesListed(m: Manager) { m.entries.Keys <= ToMap(m.cfg.tasks).Keys }

  lemma KindAdd<T>(base: map<string, T>, xs: seq<Item<T>>, d: Delta<T>, x: Item<T>)
    requires Recorded(base, ToMap(xs), d)
    ensures Recorded(base, ToMap(xs + [x]), RecordAdd(d, x))
  {
    AppendIsAdd(xs, x);
    AddRecorded(base, ToMap(xs), d, x);
  }

  lemma KindRemove<T>(base: map<string, T>, xs: seq<Item<T>>, d: Delta<T>, id: string)
    requires Recorded(base, ToMap(xs), d) && id in ToMap(xs)
    ensures Recorded(base, ToMap(Erase(xs, id)), RecordRemove(d, id))
  {
    EraseIsRemove(xs, id);
    RemoveRecorded(base, ToMap(xs), d, id);
  }

  lemma KindUpdate<T>(base: map<string, T>, xs: seq<Item<T>>, d: Delta<T>, x: Item<T>)
    requires Recorded(base, ToMap(xs), d) && x.id in ToMap(xs)
    ensures Recorded(base, ToMap(Replace(xs, x)), RecordUpdate(d, x))
  {
    ReplaceIsUpdate(xs, x);
    UpdateRecorded(base, ToMap(xs), d, x);
  }

  /** Every command, whether it succeeds, is refused or throws halfway, in any state, keeps the
      delta a faithful record. */
  lemma KeepsRecord(base: Config, m: Manager, c: Command)
    requires AllRecorded(base, m) && EntriesListed(m)
    ensures AllRecorded(base, Execute(m, c).m) && EntriesListed(Execute(m, c).m)
  {
    match c
    case AddTask(t, autostart) => AddTaskRecord(base, m, t, autostart);
    case UpdatePipeline(x) => UpdatePipelineRecord(base, m, x);
    case UpdateTask(t) => UpdateTaskRecord(base, m, t);
    case RemoveTask(id) =>
      EraseIsRemove(m.cfg.tasks, id);
      if id in m.entries { KindRemove(ToMap(base.tasks), m.cfg.tasks, m.delta.tasks, id); }
    case LoadModel(x) => KindAdd(ToMap(base.models), m.cfg.models, m.delta.models, x);
    case UnloadModel(id) =>
      FindIsLookup(m.cfg.models, id);
      if id in ToMap(m.cfg.models) { KindRemove(ToMap(base.models), m.cfg.models, m.delta.models, id); }
    case _ => KeepsRecordOfGraphParts(base, m, c);
  }

  lemma KeepsRecordOfGraphParts(base: Config, m: Manager, c: Command)
    requires AllRecorded(base, m) && EntriesListed(m)
    requires c.AddSource? || c.RemoveSource? || c.AddPipeline? || c.RemovePipeline?
          || c.Start? || c.Stop? || c.StartAll? || c.StopAll?
    ensures AllRecorded(base, Execute(m, c).m) && EntriesListed(Execute(m, c).m)
  {
    match c
    case AddSource(x) => KindAdd(ToMap(base.sources), m.cfg.sources, m.delta.sources, x);
    case RemoveSource(id) =>
      FindIsLookup(m.cfg.sources, id);
      if id in ToMap(m.cfg.sources) { KindRemove(ToMap(base.sources), m.cfg.sources, m.delta.sources, id); }
    case AddPipeline(x) => KindAdd(ToMap(base.pipelines), m.cfg.pipelines, m.delta.pipelines, x);
    case RemovePipeline(id) =>
      FindIsLookup(m.cfg.pipelines, id);
      if id in ToMap(m.cfg.pipelines) { KindRemove(ToMap(base.pipelines), m.cfg.pipelines, m.delta.pipelines, id); }
    case _ =>
  }

  lemma AddTaskRecord(base: Config, m: Manager, t: Item<TaskBody>, autostart: bool)
    requires AllRecorded(base, m) && EntriesListed(m)
    ensures AllRecorded(base, DoAddTask(m, t, autostart).m) && EntriesListed(DoAddTask(m, t, autostart).m)
  {
    BuildEntryIs(m, t, autostart);
    AppendIsAdd(m.cfg.tasks, t);
    KindAdd(ToMap(base.tasks), m.cfg.tasks, m.delta.tasks, t);
  }

  lemma SwapRecord(base: Config, m: Manager, x: Item<PipelineBody>)
    requires AllRecorded(base, m) && EntriesListed(m) && x.id in ToMap(m.cfg.pipelines)
    ensures AllRecorded(base, SwapTemplate(m, x)) && EntriesListed(SwapTemplate(m, x))
    ensures x.id in ToMap(SwapTemplate(m, x).cfg.pipelines)
  {
    ReplaceIsUpdate(m.cfg.pipelines, x);
    KindUpdate(ToMap(base.pipelines), m.cfg.pipelines, m.delta.pipelines, x);
  }

  lemma BuiltRecord(base: Config, m: Manager, n: Manager, ids: set<string>)
    requires AllRecorded(base, m) && EntriesListed(m) && OnlyBuilt(m, n, ids) && ids <= ToMap(m.cfg.tasks).Keys
    ensures AllRecorded(base, n) && EntriesListed(n)
  {
  }

  lemma UsersListed(ts: seq<Item<TaskBody>>, pipelineId: string)
    ensures IdsOf(Users(ts, pipelineId)) <= ToMap(ts).Keys
  {
    UsersAre(ts, pipelineId);
    var users := Users(ts, pipelineId);
    forall id | id in IdsOf(users) ensures id in ToMap(ts) {
      var i :| 0 <= i < |users| && users[i].id == id;
      assert users[i] in users;
      ListedHasKey(ts, users[i]);
    }
  }

  lemma {:induction false} ListedHasKey<T>(xs: seq<Item<T>>, x: Item<T>)
    requires x in xs
    ensures x.id in ToMap(xs)
  {
    if xs[0] != x {
      ListedHasKey(xs[1..], x);
    }
  }

  lemma UpdatePipelineRecord(base: Config, m: Manager, x: Item<PipelineBody>)
    requires AllRecorded(base, m) && EntriesListed(m)
    ensures AllRecorded(base, DoUpdatePipeline(m, x).m) && EntriesListed(DoUpdatePipeline(m, x).m)
  {
    FindIsLookup(m.cfg.pipelines, x.id);
    if Has(m.cfg.pipelines, x.id) && !RunningUser(m, x.id) {
      var users := Users(m.cfg.tasks, x.id);
      var swapped := SwapTemplate(m, x);
      UsersListed(m.cfg.tasks, x.id);
      SwapRecord(base, m, x);
      BuildEachOnly(swapped, users);
      var built := BuildEach(swapped, users);
      BuiltRecord(base, swapped, built.m, IdsOf(users));
      if built.outcome.Refused? {
        var back := SwapTemplate(built.m, Item(x.id, Find(m.cfg.pipelines, x.id).value));
        SwapRecord(base, built.m, Item(x.id, Find(m.cfg.pipelines, x.id).value));
        BuildEachOnly(back, users);
        BuiltRecord(base, back, BuildAll(back, users).m, IdsOf(users));
      }
    }
  }

  lemma UpdateTaskRecord(base: Config, m: Manager, t: Item<TaskBody>)
    requires AllRecorded(base, m) && EntriesListed(m)
    ensures AllRecorded(base, DoUpdateTask(m, t).m) && EntriesListed(DoUpdateTask(m, t).m)
  {
    if t.id in m.entries {
      ReplaceIsUpdate(m.cfg.tasks, t);
      KindUpdate(ToMap(base.tasks), m.cfg.tasks, m.delta.tasks, t);
      BuildEntryOnly(SwapTask(m, t), t, false);
      BuiltRecord(base, SwapTask(m, t), BuildEntry(SwapTask(m, t), t, false).m, {t.id});
    }
  }

  // ---------------------------------------------------------------- what is on disk

  /** The same records are added and removed; only contents may differ. */
  ghost predicate SameIds<T>(a: Delta<T>, b: Delta<T>) {
    a.removed == b.removed && |a.added| == |b.added| && forall i :: 0 <= i < |a.added| ==>
      a.added[i].id == b.added[i].id
  }

  ghost predicate SavedIds(m: Manager) {
    && m.saved.sources == m.delta.sources && m.saved.models == m.delta.models
    && SameIds(m.saved.pipelines, m.delta.pipelines) && SameIds(m.saved.tasks, m.delta.tasks)
  }

  lemma {:induction false} ReplaceKeepsIds<T>(xs: seq<Item<T>>, x: Item<T>)
    ensures |Replace(xs, x)| == |xs| && forall i :: 0 <= i < |xs| ==> Replace(xs, x)[i].id == xs[i].id
  {
    if xs != [] {
      ReplaceKeepsIds(xs[1..], x);
    }
  }

  /** The commands that write the file when they go through. */
  predicate Writes(c: Command) { !(c.Start? || c.Stop? || c.StartAll? || c.StopAll?) }

  /** The file names the same records as the delta after every command, thrown or not, and equals
      it after every writing command that goes through. */
  lemma KeepsSaved(m: Manager, c: Command)
    requires SavedIds(m)
    ensures SavedIds(Execute(m, c).m)
    ensures Writes(c) && Execute(m, c).outcome.Done? ==> Execute(m, c).m.saved == Execute(m, c).m.delta
    ensures !Writes(c) ==> Execute(m, c).m.saved == m.saved && Execute(m, c).m.delta == m.delta
  {
    match c
    case AddTask(t, autostart) => BuildEntryOnly(m, t, autostart);
    case UpdateTask(t) =>
      ReplaceKeepsIds(m.delta.tasks.added, t);
      BuildEntryOnly(SwapTask(m, t), t, false);
    case UpdatePipeline(x) => UpdatePipelineSaved(m, x);
    case _ => RestSaved(m, c);
  }

  lemma RestSaved(m: Manager, c: Command)
    requires SavedIds(m) && !c.AddTask? && !c.UpdateTask? && !c.UpdatePipeline?
    ensures Execute(m, c).m.saved == Execute(m, c).m.delta
      || (Execute(m, c).m.saved, Execute(m, c).m.delta) == (m.saved, m.delta)
    ensures Writes(c) && Execute(m, c).outcome.Done? ==> Execute(m, c).m.saved == Execute(m, c).m.delta
    ensures !Writes(c) ==> Execute(m, c).m.saved == m.saved && Execute(m, c).m.delta == m.delta
  {
  }

  lemma SwapSaved(m: Manager, x: Item<PipelineBody>)
    requires SavedIds(m)
    ensures SavedIds(SwapTemplate(m, x))
  {
    ReplaceKeepsIds(m.delta.pipelines.added, x);
  }

  lemma UpdatePipelineSaved(m: Manager, x: Item<PipelineBody>)
    requires SavedIds(m)
    ensures SavedIds(DoUpdatePipeline(m, x).m)
    ensures DoUpdatePipeline(m, x).outcome.Done? ==> DoUpdatePipeline(m, x).m.saved == DoUpdatePipeline(m, x).m.delta
  {
    if Has(m.cfg.pipelines, x.id) && !RunningUser(m, x.id) {
      var users := Users(m.cfg.tasks, x.id);
      SwapSaved(m, x);
      BuildEachOnly(SwapTemplate(m, x), users);
      var built := BuildEach(SwapTemplate(m, x), users).m;
      var back := SwapTemplate(built, Item(x.id, Find(m.cfg.pipelines, x.id).value));
      SwapSaved(built, Item(x.id, Find(m.cfg.pipelines, x.id).value));
      BuildEachOnly(back, users);
    }
  }

  // ---------------------------------------------------------------- histories

  ghost predicate Sound(base: Config, m: Manager) {
    Coherent(m) && AllRecorded(base, m) && m.saved == m.delta
  }

  /** A history of commands within one process. */
  ghost predicate IsHistory(states: seq<Manager>, commands: seq<Command>) {
    && |states| == |commands| + 1
    && forall k :: 0 <= k < |commands| ==> states[k + 1] == Execute(states[k], commands[k]).m
  }

  lemma SoundStep(base: Config, m: Manager, c: Command)
    requires Sound(base, m) && !Damaging(m, c)
    ensures Sound(base, Execute(m, c).m)
  {
    CoherentIff(m, c);
    KeepsRecord(base, m, c);
    StaysSaved(m, c);
  }

  lemma StaysSaved(m: Manager, c: Command)
    requires Coherent(m) && m.saved == m.delta && !Damaging(m, c)
    ensures Execute(m, c).m.saved == Execute(m, c).m.delta
  {
    KeepsSaved(m, c);
    if c.UpdatePipeline? {
      UpdatePipelineCoherentIff(m, c.pipeline);
    } else if c.UpdateTask? {
      UpdateTaskCoherentIff(m, c.task);
    } else if c.AddTask? {
      BuildEntryIs(m, c.task, c.autostart);
    }
  }

  /** While no damaging command comes, everything is in step. */
  lemma {:induction false} HistoryStaysSound(base: Config, states: seq<Manager>, commands: seq<Command>, k: nat)
    requires IsHistory(states, commands) && Sound(base, states[0]) && k < |states|
    requires forall j :: 0 <= j < k ==> !Damaging(states[j], commands[j])
    ensures Sound(base, states[k])
  {
    if k > 0 {
      HistoryStaysSound(base, states, commands, k - 1);
      SoundStep(base, states[k - 1], commands[k - 1]);
    }
  }

  /** A history is coherent throughout exactly when none of its commands is damaging. */
  lemma HistoryCoherentIff(base: Config, states: seq<Manager>, commands: seq<Command>)
    requires IsHistory(states, commands) && Sound(base, states[0])
    ensures (forall k :: 0 <= k < |states| ==> Coherent(states[k])) <==>
            (forall k :: 0 <= k < |commands| ==> !Damaging(states[k], commands[k]))
  {
    if forall k :: 0 <= k < |states| ==> Coherent(states[k]) {
      forall k | 0 <= k < |commands| ensures !Damaging(states[k], commands[k]) {
        assert Coherent(states[k + 1]);
        CoherentIff(states[k], commands[k]);
      }
    }
    if forall k :: 0 <= k < |commands| ==> !Damaging(states[k], commands[k]) {
      forall k | 0 <= k < |states| ensures Coherent(states[k]) {
        HistoryStaysSound(base, states, commands, k);
      }
    }
  }

  // ---------------------------------------------------------------- restarting

  function Reload(base: Config, d: Deltas): Config {
    Config(Reloaded(base.sources, d.sources), Reloaded(base.pipelines, d.pipelines),
           Reloaded(base.tasks, d.tasks), Reloaded(base.models, d.models))
  }

  ghost predicate ValidFile(base: Config) {
    OncePerId(base.sources) && OncePerId(base.pipelines) && OncePerId(base.tasks) && OncePerId(base.models)
  }

  /** `again` has exactly the live ids, each once: file records as in the file, others as they were live. */
  ghost predicate Restores<T(!new)>(file: seq<Item<T>>, live: seq<Item<T>>, again: seq<Item<T>>) {
    && OncePerId(again) && ToMap(again).Keys == ToMap(live).Keys
    && forall id :: id in ToMap(live) ==>
         ToMap(again)[id] == if id in ToMap(file) then ToMap(file)[id] else ToMap(live)[id]
  }

  /** What holds after every history whatsoever: the delta is a faithful record, and the file
      names the same records. */
  ghost predicate Recoverable(base: Config, m: Manager) {
    AllRecorded(base, m) && EntriesListed(m) && SavedIds(m)
  }

  /** `again` has exactly the live ids, each once: file records as in the file, others as saved. */
  ghost predicate RestoresIds<T(!new)>(file: seq<Item<T>>, live: seq<Item<T>>, saved: Delta<T>, again: seq<Item<T>>) {
    && OncePerId(again) && ToMap(again).Keys == ToMap(live).Keys
    && forall id :: id in ToMap(live) ==>
         if id in ToMap(file) then ToMap(again)[id] == ToMap(file)[id]
         else id in ToMap(saved.added) && ToMap(again)[id] == ToMap(saved.added)[id]
  }

  lemma {:induction false} SameKeys<T>(xs: seq<Item<T>>, ys: seq<Item<T>>)
    requires |xs| == |ys| && forall i :: 0 <= i < |xs| ==> xs[i].id == ys[i].id
    ensures ToMap(xs).Keys == ToMap(ys).Keys
  {
    if xs != [] {
      SameKeys(xs[1..], ys[1..]);
    }
  }

  /** Reloading a file that names the right records. */
  lemma RestartIds<T(!new)>(file: seq<Item<T>>, live: seq<Item<T>>, d: Delta<T>, saved: Delta<T>)
    requires OncePerId(file) && Recorded(ToMap(file), ToMap(live), d) && SameIds(saved, d)
    ensures RestoresIds(file, live, saved, Reloaded(file, saved))
    ensures saved == d ==> Restores(file, live, Reloaded(file, saved))
  {
    SameKeys(saved.added, d.added);
    EraseAllIs(file, saved.removed);
    AddMissingIs(EraseAll(file, saved.removed), saved.added);
  }

  ghost predicate RestoresAll(base: Config, live: Config, again: Config) {
    && Restores(base.sources, live.sources, again.sources) && Restores(base.pipelines, live.pipelines, again.pipelines)
    && Restores(base.tasks, live.tasks, again.tasks) && Restores(base.models, live.models, again.models)
  }

  /** The restarted process before its graphs are built. */
  function Rebooted(base: Config, d: Deltas): Manager { Manager(Reload(base, d), d, d, map[]) }

  function LoadAll(m: Manager): Reply { BuildAll(m.(entries := map[]), m.cfg.tasks) }

  lemma {:induction false} BuildAllSucceeds(m: Manager, ts: seq<Item<TaskBody>>)
    requires DistinctIds(ts) && forall i :: 0 <= i < |ts| ==> Buildable(m.cfg, ts[i])
    ensures BuildAll(m, ts) == BuildEach(m, ts)
  {
    if ts != [] {
      var k := |ts| - 1;
      assert forall i :: 0 <= i < k ==> ts[..k][i] == ts[i];
      BuildAllSucceeds(m, ts[..k]);
      BuildEachSucceeds(m, ts[..k]);
      BuildEntryIs(BuildEach(m, ts[..k]).m, ts[k], false);
      assert Buildable(m.cfg, ts[k]);
    }
  }

  /** Only buildable tasks get an entry. */
  lemma {:induction false} BuildAllEntries(m: Manager, ts: seq<Item<TaskBody>>)
    ensures BuildAll(m, ts).m == m.(entries := BuildAll(m, ts).m.entries)
    ensures forall id :: id in BuildAll(m, ts).m.entries ==>
      id in m.entries || exists i :: 0 <= i < |ts| && ts[i].id == id && Buildable(m.cfg, ts[i])
  {
    if ts != [] {
      var k := |ts| - 1;
      BuildAllEntries(m, ts[..k]);
      var before := BuildAll(m, ts[..k]);
      BuildEntryIs(before.m, ts[k], false);
      forall id | id in BuildAll(m, ts).m.entries
        ensures id in m.entries || exists i :: 0 <= i < |ts| && ts[i].id == id && Buildable(m.cfg, ts[i])
      {
        if id in before.m.entries && id !in m.entries {
          var i :| 0 <= i < k && ts[..k][i].id == id && Buildable(m.cfg, ts[..k][i]);
          assert ts[i].id == id && Buildable(m.cfg, ts[i]);
        }
      }
    }
  }

  ghost predicate AllBuildable(cfg: Config) {
    forall id :: id in ToMap(cfg.tasks) ==> GraphFor(cfg, id, ToMap(cfg.tasks)[id]).Some?
  }

  /** Loading is coherent exactly when every configured task can be built. */
  lemma LoadAllCoherentIff(m: Manager)
    requires OncePerId(m.cfg.tasks)
    ensures Coherent(LoadAll(m).m) <==> AllBuildable(m.cfg)
  {
    if AllBuildable(m.cfg) {
      LoadAllSucceeds(m);
    } else {
      LoadAllLeavesOut(m);
    }
  }

  lemma LoadAllSucceeds(m: Manager)
    requires OncePerId(m.cfg.tasks) && AllBuildable(m.cfg)
    ensures LoadAll(m).outcome.Done? && Coherent(LoadAll(m).m)
  {
    var empty, ts := m.(entries := map[]), m.cfg.tasks;
    OnceIsDistinct(ts);
    forall i | 0 <= i < |ts| ensures Buildable(m.cfg, ts[i]) {
      ListedIsMapped(ts, i);
    }
    BuildAllSucceeds(empty, ts);
    BuildEachSucceeds(empty, ts);
    LoadedCoherent(empty, BuildEach(empty, ts).m.entries);
  }

  lemma LoadAllLeavesOut(m: Manager)
    requires OncePerId(m.cfg.tasks) && !AllBuildable(m.cfg)
    ensures !Coherent(LoadAll(m).m)
  {
    var ts := m.cfg.tasks;
    var id :| id in ToMap(ts) && GraphFor(m.cfg, id, ToMap(ts)[id]).None?;
    BuildAllEntries(m.(entries := map[]), ts);
    forall i | 0 <= i < |ts| && ts[i].id == id ensures !Buildable(m.cfg, ts[i]) {
      ListedIsMapped(ts, i);
    }
    assert id !in LoadAll(m).m.entries;
    assert LoadAll(m).m.cfg == m.cfg;
  }

  lemma LoadedCoherent(m: Manager, entries: map<string, Entry>)
    requires OncePerId(m.cfg.tasks) && m.entries == map[] && BuiltEntries(m, m.cfg.tasks, entries)
    ensures Coherent(m.(entries := entries))
  {
    var ts := m.cfg.tasks;
    forall id ensures id in IdsOf(ts) <==> id in ToMap(ts) {
      if id in IdsOf(ts) {
        var i :| 0 <= i < |ts| && ts[i].id == id;
        ListedIsMapped(ts, i);
      }
      if id in ToMap(ts) {
        var i := MappedIsListed(ts, id);
      }
    }
    forall id | id in ToMap(ts) ensures GraphFor(m.cfg, id, ToMap(ts)[id]) == Some(entries[id].graph) {
      var i := MappedIsListed(ts, id);
      ListedIsMapped(ts, i);
    }
  }

  /** The task a restart brings back under a live id: as in the file, or else as last saved. */
  ghost function TaskAfter(base: Config, m: Manager, id: string): TaskBody
    requires Recoverable(base, m) && id in ToMap(m.cfg.tasks)
  {
    SameKeys(m.saved.tasks.added, m.delta.tasks.added);
    if id in ToMap(base.tasks) then ToMap(base.tasks)[id] else ToMap(m.saved.tasks.added)[id]
  }

  ghost predicate Refers(t: TaskBody, cfg: Config) {
    t.sourceId in ToMap(cfg.sources) && t.pipelineId in ToMap(cfg.pipelines)
  }

  ghost predicate AllRefer(cfg: Config) { forall id :: id in ToMap(cfg.tasks) ==> Refers(ToMap(cfg.tasks)[id], cfg) }

  /** What a restart brings back, as maps. */
  lemma RestartMaps(base: Config, m: Manager)
    requires ValidFile(base) && Recoverable(base, m)
    ensures var again := Reload(base, m.saved);
      && ToMap(again.sources).Keys == ToMap(m.cfg.sources).Keys
      && ToMap(again.pipelines).Keys == ToMap(m.cfg.pipelines).Keys
      && ToMap(again.tasks).Keys == ToMap(m.cfg.tasks).Keys
      && forall id :: id in ToMap(m.cfg.tasks) ==> ToMap(again.tasks)[id] == TaskAfter(base, m, id)
  {
    RestartIds(base.sources, m.cfg.sources, m.delta.sources, m.saved.sources);
    RestartIds(base.pipelines, m.cfg.pipelines, m.delta.pipelines, m.saved.pipelines);
    RestartIds(base.tasks, m.cfg.tasks, m.delta.tasks, m.saved.tasks);
  }

  /** After a restart every task's references exist exactly when the version of each task that the
      restart brings back names a source and a template that are still live. */
  lemma RestartReferencesIff(base: Config, m: Manager)
    requires ValidFile(base) && Recoverable(base, m)
    ensures AllRefer(Reload(base, m.saved)) <==>
      forall id :: id in ToMap(m.cfg.tasks) ==> Refers(TaskAfter(base, m, id), m.cfg)
  {
    RestartMaps(base, m);
    var again := Reload(base, m.saved);
    forall id | id in ToMap(m.cfg.tasks)
      ensures Refers(ToMap(again.tasks)[id], again) <==> Refers(TaskAfter(base, m, id), m.cfg)
    {
    }
  }

  /** If the live references exist and the file is up to date, only the tasks of the base file matter. */
  lemma FileReferencesIff(base: Config, m: Manager)
    requires ValidFile(base) && Recoverable(base, m) && AllRefer(m.cfg) && m.saved.tasks == m.delta.tasks
    ensures AllRefer(Reload(base, m.saved)) <==>
      forall id :: id in ToMap(m.cfg.tasks) && id in ToMap(base.tasks) ==> Refers(ToMap(base.tasks)[id], m.cfg)
  {
    RestartReferencesIff(base, m);
    forall id | id in ToMap(m.cfg.tasks) && id !in ToMap(base.tasks)
      ensures TaskAfter(base, m, id) == ToMap(m.cfg.tasks)[id]
    {
    }
  }

  function NoDelta<T>(): Delta<T> { Delta([], []) }

  const NO_DELTAS := Deltas(NoDelta(), NoDelta(), NoDelta(), NoDelta())

  /** The process as first started on a file. */
  function FirstStart(base: Config): Manager { LoadAll(Manager(base, NO_DELTAS, NO_DELTAS, map[])).m }

  lemma FreshRecorded(base: Config, m: Manager)
    requires m.cfg == base && m.delta == NO_DELTAS
    ensures AllRecorded(base, m)
  {
    FreshStart(ToMap(base.sources));
    FreshStart(ToMap(base.pipelines));
    FreshStart(ToMap(base.tasks));
    FreshStart(ToMap(base.models));
  }

  /** The first start from a file whose tasks can all be built. */
  lemma FirstStartSound(base: Config)
    requires ValidFile(base) && AllBuildable(base)
    ensures Sound(base, FirstStart(base))
  {
    var m := Manager(base, NO_DELTAS, NO_DELTAS, map[]);
    LoadAllCoherentIff(m);
    BuildAllEntries(m, base.tasks);
    FreshRecorded(base, FirstStart(base));
  }

  /** A restart whose tasks can all be built is sound again, so histories go on across it. */
  lemma RestartSound(base: Config, m: Manager)
    requires ValidFile(base) && Sound(base, m) && AllBuildable(Reload(base, m.saved))
    ensures Sound(base, LoadAll(Rebooted(base, m.saved)).m)
  {
    var n := Rebooted(base, m.saved);
    RestartKeepsRecord(base.sources, ToMap(m.cfg.sources), m.saved.sources);
    RestartKeepsRecord(base.pipelines, ToMap(m.cfg.pipelines), m.saved.pipelines);
    RestartKeepsRecord(base.tasks, ToMap(m.cfg.tasks), m.saved.tasks);
    RestartKeepsRecord(base.models, ToMap(m.cfg.models), m.saved.models);
    RestartMeaning(base.tasks, ToMap(m.cfg.tasks), m.saved.tasks);
    LoadAllSucceeds(n);
    BuildAllEntries(n, n.cfg.tasks);
  }

  // ---------------------------------------------------------------- two failures, concretely

  const PLAIN := Item("p", PipelineBody([], []))

  function Sample(sourceId: string): Item<TaskBody> { Item("t", TaskBody(sourceId, "p", 5, false)) }

  const SAMPLE_FILE := Config([Item("a", SourceBody("", [])), Item("b", SourceBody("", []))],
                                [PLAIN], [Sample("a")], [])

  const STARTED := Manager(SAMPLE_FILE, NO_DELTAS, NO_DELTAS, map["t" := Entry(PLAIN.body, false)])

  lemma SampleStarts()
    ensures FirstStart(SAMPLE_FILE) == STARTED
  {
    var empty := Manager(SAMPLE_FILE, NO_DELTAS, NO_DELTAS, map[]);
    assert Find(SAMPLE_FILE.sources, "a") == Some(SourceBody("", []));
    assert Find(SAMPLE_FILE.pipelines, "p") == Some(PLAIN.body);
    assert Instantiate(PLAIN.body, "t", "a") == Some(PLAIN.body);
    assert BuildEntry(empty, Sample("a"), false) == Reply(STARTED, Done);
    assert SAMPLE_FILE.tasks[..0] == [];
    assert BuildAll(empty, []) == Reply(empty, Done);
  }

  const MOVED := STARTED.(cfg := SAMPLE_FILE.(tasks := [Sample("b")]))

  lemma SampleMoves()
    ensures Execute(STARTED, UpdateTask(Sample("b"))) == Reply(MOVED, Done)
  {
    var m, t := STARTED, Sample("b");
    assert m.cfg.sources[1..] == [Item("b", SourceBody("", []))];
    assert Find(m.cfg.sources, "b") == Some(SourceBody("", []));
    assert Find(m.cfg.pipelines, "p") == Some(PLAIN.body);
    assert Instantiate(PLAIN.body, "t", "b") == Some(PLAIN.body);
    assert Replace(m.cfg.tasks, t) == [t] && RecordUpdate(m.delta.tasks, t) == m.delta.tasks;
    assert BuildEntry(MOVED.(entries := map[]), t, false) == Reply(MOVED, Done);
    assert m.entries - {"t"} == map[];
  }

  lemma SampleCut()
    ensures var cut := Execute(MOVED, RemoveSource("a"));
      cut.outcome.Done? && cut.m.saved == NO_DELTAS.(sources := Delta([], ["a"]))
  {
    assert Find(MOVED.cfg.sources, "a") == Some(SourceBody("", []));
  }

  lemma SampleReloads()
    ensures var again := Reload(SAMPLE_FILE, NO_DELTAS.(sources := Delta([], ["a"])));
      again.tasks == [Sample("a")] && Find(again.sources, "a").None?
  {
    var file := SAMPLE_FILE.sources;
    assert file[1..] == [Item("b", SourceBody("", []))];
    assert Erase(file, "a") == [Item("b", SourceBody("", []))];
    assert ["a"][..0] == [];
  }

  /** Moving a file task to another source and removing its old source is allowed, but the
      restart brings the task back without a source. */
  lemma RestartCanDangle()
    ensures var m := FirstStart(SAMPLE_FILE);
      var moved := Execute(m, UpdateTask(Sample("b")));
      var cut := Execute(moved.m, RemoveSource("a"));
      && moved.outcome.Done? && cut.outcome.Done?
      && var again := Reload(SAMPLE_FILE, cut.m.saved);
      && again.tasks == [Sample("a")] && Find(again.sources, "a").None?
  {
    SampleStarts();
    SampleMoves();
    SampleCut();
    SampleReloads();
  }

  const BAD := Item("p", PipelineBody([Node("n", SINK, map[URL := "{"])], []))

  /** Replacing the template of a stopped task by one with an open brace escapes past the
      rollback: the task stays configured but loses its graph. */
  lemma UpdateCanLoseGraph()
    ensures var m := FirstStart(SAMPLE_FILE);
      var r := Execute(m, UpdatePipeline(BAD));
      Coherent(m) && r.outcome.Threw? && "t" in ToMap(r.m.cfg.tasks) && !Coherent(r.m)
  {
    SampleStarts();
    var m := STARTED;
    assert ToMap(m.cfg.tasks) == map["t" := Sample("a").body] by { assert m.cfg.tasks[1..] == []; }
    assert ToMap(m.cfg.pipelines) == map["p" := PLAIN.body] by { assert m.cfg.pipelines[1..] == []; }
    assert "a" in ToMap(m.cfg.sources);
    assert Coherent(m);
    assert Instantiate(BAD.body, "t", "a").None? by {
      OpenBraceThrows("t", "a");
      assert InstantiateNode(BAD.body.nodes[0], "t", "a").None?;
    }
    assert m.cfg.tasks[0].body.pipelineId == BAD.id;
    assert Damaging(m, UpdatePipeline(BAD));
    UpdatePipelineCoherentIff(m, BAD);
    UpdatePipelineThrew(m, BAD);
  }

  lemma OpenBraceThrows(taskId: string, sourceId: string)
    ensures Placeholders.Interpolated("{", taskId, sourceId).None?
  {
    assert Placeholders.FindFrom("{", '{', 0) == 0;
    assert Placeholders.FindFrom("{", '}', 1) == 1;
  }
}
