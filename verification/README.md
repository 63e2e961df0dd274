# Verified model of the inference pipeline

A Dafny model of the hard parts of a multi-stream video inference server: the ByteTrack tracker,
the task manager with its restart and replay, the pipeline graph and its queues, SAHI tiling and
merging, inference dispatch and cascade merging, the YOLO decoders, and the frame archive with its
retention scan. `dafny verify dfyconfig.toml` checks all of it.

How the program is read:

- Floats are `real`; rounding is not modelled. C++ `int` is `int`: no modelled value comes near its
  limits, except where the text below says so. Casts, `std::round` and integer division are written out.
- A section under a mutex is one step. A protocol run by several threads is a list of steps, and a
  theorem about a protocol holds for every list of steps, hence for every schedule. Clocks decide
  deadlines and staleness, so such steps may occur at any time.
- Code that updates state in place is a class, a loop or an array algorithm, tied by its `ensures`
  to a function on values; the theorems are about those functions and about runs of them.
- A thrown exception or an error return is part of the result (`Threw`, `Refused`, `None`, `threw`).
- What an operation does is also said without the functions that compute it, over the fields of its
  inputs and results: which tracks survive a frame and with which record, which push is refused, what a
  deadline releases, which text replaces a placeholder, where a tile's detection lands.

| file | what it holds |
|---|---|
| `Geometry`, `Overlap`, `Permutations`, `Subsequences` | boxes and overlaps, overlaps as pixel counts, permutations and sums along them, subsequences |
| `Hungarian`, `Assignment` | the assignment loop and the gated matching built on it |
| `Tracker`, `TrackerUpdate` | tracks over frames and the tracker object |
| `Keyed`, `RuntimeState`, `Placeholders` | id-keyed lists, the persisted delta, URL placeholders |
| `Management`, `Commands`, `Coherence`, `Rollback` | the management commands, what each does, what they keep, how an update of a template ends |
| `Restart`, `Histories`, `TaskManager` | one restart, every history of commands and restarts, the object |
| `Replay`, `ReplayEngine`, `ReplayLimits`, `ReplayLives` | the sidecar's replay as a convergence argument and as code, the engines on which it fails, and lives that lead there |
| `PipelineGraph` | validation of a pipeline graph |
| `EdgeQueue`, `StreamGraph`, `GraphExecutor` | bounded queues, events under every schedule, adjacency tables and fan-out |
| `SahiTiling`, `SahiMerge`, `Nms`, `Decoders`, `DecoderLaws` | tiles, aggregation, suppression, tensor decoding and its layout |
| `ResultMerger`, `CascadeRouter` | joining secondary attributes, counting and handing out crops |
| `InferStage` | batching, in-flight table, emission |
| `Calendar`, `FrameLayout`, `ArchiveLaws`, `Directories`, `RetentionGc` | calendar time, directory names, what keys and names say, directory trees, the retention scan |

## Where the code falls short of a property

Each entry names the members that show the failure and those that say exactly when it does not occur.

- The tracker is built from unchecked options, since `validateByteTrackConfig` has no caller. With a limit
  of -1 lost frames one confident detection is already past the limit (`Tracker.LimitExceededAtOnce`);
  the limit is kept for all states and frames iff it is not negative (`Tracker.LostWithinIff`). Every
  other part of the tracker's invariant holds for all configurations.
- Replacing a pipeline or a task whose URL placeholders do not instantiate throws in the middle of
  the command and leaves a task without a graph (`Restart.UpdateCanLoseGraph`); coherence survives
  a command iff it is not of this kind (`Coherence.CoherentIff`), and a whole history iff none of its
  commands is (`Restart.HistoryCoherentIff`). Such a throw also skips the write, so the file stays
  behind the live configuration; it never loses an id (`Histories.RestartInEveryLife`). Nothing in
  src/server/UnixSocketServer.cpp:82-113 catches the exception, so it ends the process.
- A restart gives records of the base file their file content, so a file task can name a source or
  pipeline that was removed since (`Restart.RestartCanDangle`); `Restart.RestartReferencesIff` says when.
- On such an engine `updatePipeline`, which checks the template but not the sources of its tasks, is
  refused in the middle and rolls back. The rollback leaves a task whose source is missing without a
  graph, even one that had a graph from another record (`ReplayLives.RollbackTakesGraph`).
  `Rollback.UpdateEnds` says for every state when the command is refused and when it throws,
  `Rollback.RollbackLeaves` what the rollback leaves. From a coherent state it is never reached
  (`Coherence.UpdatePipelineCoherentIff`).
- On such an engine the sidecar's replay does not converge either: each attempt adds the record of the
  moved task again (`ReplayLives.RestartedPilesUp`), or a second attempt builds a graph that
  the first did not (`ReplayLives.RestartedPicksGraph`, and with one cut attempt `ReplayLives.CutPicksGraph`). An engine that lists each task once, as every
  engine just restarted does, converges under every harmless snapshot iff each task whose template
  is not in use has its source and its template (`ReplayLimits.ConvergesIff`). A snapshot is
  harmless iff none of its updates throws (`ReplayEngine.HarmlessIff`).
- A negative overlap ratio, which is not rejected, can leave pixels without a tile
  (`SahiTiling.NegativeOverlapLeavesGap`); `SahiTiling.CoversIff` says when an axis has no gap and
  `SahiTiling.FullPassCoversIff` when the frame has none.
- The cap on tiles per frame cuts the list from the end (`SahiTiling.CapOfOneLosesCorner`), and any cut
  loses the far corner of the frame; `SahiTiling.CoversFrameIff` is the condition for any ratio and cap.
- An entry of the tile merger that is swept as stale loses its tiles, and the frame is never emitted;
  `SahiMerge.EmittedExactlyOnce` is the condition.
- The decoders start the class search at zero. Without a positive threshold a wrong class can be
  reported (`Decoders.WrongClassReported`: scores -2 and -1, the first is reported); the class is a best
  one iff some score is positive or the first class is a best one (`Decoders.BestClassIff`). The
  confidence can be zero where the score is negative (`Decoders.NegativeScoreReported`); it is the
  score of the class iff some score is positive or the first is zero (`Decoders.ConfidenceIff`).
- A crop for a box that starts beyond the image lies outside it (`CascadeRouting.CropBeyondImage`) and
  makes the image library throw after the count was registered, so fewer crops are dispatched than
  were counted (`CascadeRouting.CascadeRouter.BoxBeyondImageThrows`); `CascadeRouting.CascadeRouter.AllFitIff`
  says when that cannot happen. Likewise a GPU picture in a build without GPU crops is counted but
  never dispatched, which is part of `CascadeRouting.CascadeRouter.Route`.
- `addAttribute` counts an attribute whose detection index is out of range, and `registerPrimary`
  ignores a second registration under a live key; both are part of `ResultMerging.Conservation`.
- A pipeline added at run time is not validated, so an edge may have capacity 0. With `drop_oldest` a
  push then takes the front of an empty queue, which C++ leaves undefined; the queue theorems hold for
  every other combination of capacity and policy.
- An edge that is listed twice, which no check rejects, delivers every event twice
  (`GraphExecutors.RepeatedEdgeRepeats`): its queue is offered an event exactly as often as the edge is
  listed (`GraphExecutors.GraphExecutor.EmitToDownstream`).

## Model

| member | source | states |
|---|---|---|
| `Geometry.TrackIou` | src/tracker/ByteTrackTracker.cpp:13-23 | the tracker's overlap lies between 0 and 1 for all boxes, inverted ones included |
| `Geometry.DecodeIou` | src/decoder/IYOLODecoder.cpp:7-15 | the decoders' overlap lies between 0 and 1 and never divides by zero |
| `Geometry.OverlapSymmetric` | src/pipeline/stages/SahiMergeStage.cpp:15-37 | all overlap measures, the tracker's, the decoders' and the merger's, are symmetric |
| `Overlaps.ApartIsZero` | src/pipeline/stages/SahiMergeStage.cpp:15-37 | boxes that do not meet have overlap 0, by all four measures |
| `Overlaps.InsideIsRatio` | src/tracker/ByteTrackTracker.cpp:13-23 | a box inside another overlaps it by the ratio of their areas, and fully relative to the smaller; a box overlaps itself by 1 |
| `Overlaps.OverlapIsCount` | src/decoder/IYOLODecoder.cpp:7-15 | for boxes with whole corners every measure is a count of pixels: shared by joined, or shared by the smaller box |
| `Hungarian.CertificateIsOptimal` | src/tracker/ByteTrackTracker.cpp:53-96 | feasible potentials that are tight on a permutation prove it cheapest among all permutations |
| `Hungarian.ScanColumns` | src/tracker/ByteTrackTracker.cpp:64-79 | the column scan keeps exact distances from the tree and finds a nearest outside column |
| `Hungarian.ShiftPotentials` | src/tracker/ByteTrackTracker.cpp:80-87 | rows and columns of the tree, and only those, move by the shift |
| `Hungarian.ShiftKeepsFeasible` | src/tracker/ByteTrackTracker.cpp:80-87 | a shift by the least distance keeps all slacks non-negative |
| `Hungarian.ShiftKeepsTree` | src/tracker/ByteTrackTracker.cpp:80-87 | tree edges keep zero slack and frontier distances stay exact |
| `Hungarian.GrowOnce` | src/tracker/ByteTrackTracker.cpp:61-89 | one round adds one column to the alternating tree and keeps all invariants |
| `Hungarian.FlipPath` | src/tracker/ByteTrackTracker.cpp:91-95 | following `way` back to column 0 terminates and yields a matching with one more row |
| `Hungarian.InsertRow` | src/tracker/ByteTrackTracker.cpp:56-96 | one outer turn matches one more row, feasible and tight |
| `Hungarian.PotentialBound` | src/tracker/ByteTrackTracker.cpp:59-78 | column potentials stay bounded, so every distance is below the initial maximum and the scan always finds a column |
| `Hungarian.Assign` | src/tracker/ByteTrackTracker.cpp:53-103 | for every cost matrix the loop ends with a permutation of least total cost over all permutations, with potentials that certify it |
| `Hungarian.SettledIsOptimal` | src/tracker/ByteTrackTracker.cpp:53-96 | a complete tight matching is an optimal permutation |
| `Assignment.BuildCost` | src/tracker/ByteTrackTracker.cpp:44-51 | the padded, gated cost matrix |
| `Assignment.CostSplits` | src/tracker/ByteTrackTracker.cpp:44-51 | the cost of a permutation is its padding, its gated pairs and its missing overlap |
| `Assignment.Extends` | src/tracker/ByteTrackTracker.cpp:40-51 | every threshold-respecting matching is contained in a permutation |
| `Assignment.GateOutweighs` | src/tracker/ByteTrackTracker.cpp:44-51 | below 10^6 tracks and detections one gated pair costs more than any overlap gained |
| `Assignment.CheapestIsBest` | src/tracker/ByteTrackTracker.cpp:98-114 | a cheapest permutation yields a matching of maximum cardinality, and of largest total overlap among those |
| `Assignment.LinearAssign` | src/tracker/ByteTrackTracker.cpp:30-115 | injective on both sides, all pairs reach the threshold, maximum cardinality, largest total overlap |
| `Tracker.HitVelocity` | src/tracker/ByteTrackTracker.cpp:141-164 | a matched track's velocity is the displacement between its last two observed centres |
| `Tracker.PairedBothWays` | src/tracker/ByteTrackTracker.cpp:157-177 | in an injective matching a track claims a detection exactly when that detection is claimed by it |
| `Tracker.FrameKeepsValid` | src/tracker/ByteTrackTracker.cpp:117-255 | for every configuration: ids distinct and below the counter, confirmed iff enough hits, lost within the limit unless just seen, hits + lost <= age, no removed track: kept by every frame |
| `Tracker.LostWithinIff` | src/pipeline/StageFactory.cpp:124-132 | every frame from every valid state leaves all tracks within the limit on lost frames iff the limit is not negative |
| `Tracker.LimitExceededAtOnce` | src/tracker/ByteTrackTracker.cpp:233-250 | with the limit -1 the first confident detection opens a track already past it |
| `Tracker.FrameIds` | src/tracker/ByteTrackTracker.cpp:233-255 | a frame keeps old ids and adds only fresh ones |
| `Tracker.OpenedBy` | src/tracker/ByteTrackTracker.cpp:233-250 | exactly the unmatched confident detections open tracks, one each, at their own box |
| `Tracker.FrameIs` | src/tracker/ByteTrackTracker.cpp:117-255 | a frame keeps, in order, exactly the tracks that were matched or are lost within the limit, each record spelled out field by field, and opens one spelled-out track per unclaimed confident detection |
| `Tracker.SurvivesIff` | src/tracker/ByteTrackTracker.cpp:157-231 | a track is there after the frame iff it was matched or one more lost frame stays within the limit, and then with that record |
| `Tracker.LivesWhileWithin` | src/tracker/ByteTrackTracker.cpp:215-231 | on every run: a track unmatched for k frames in a row is there iff k more lost frames stay within the limit, aged by k and moved by k times its velocity |
| `Tracker.WrittenIs` | src/tracker/ByteTrackTracker.cpp:172-174 | which id a detection carries away: that of its confirmed track, that of the new track it opens if confirmed at once, else its own |
| `Tracker.TagsDistinct` | src/tracker/ByteTrackTracker.cpp:172-174 | a frame never writes the same id on two detections, whatever ids they came with |
| `Tracker.RunStaysValid` | src/tracker/ByteTrackTracker.cpp:117-255 | the invariant holds after any sequence of frames |
| `Tracker.NeverReused` | src/tracker/ByteTrackTracker.cpp:237-255 | an id that is gone never comes back in any later frame |
| `TrackerUpdate.ByteTrackTracker.Split` | src/tracker/ByteTrackTracker.cpp:118-128 | confident and weak detections are told apart in order |
| `TrackerUpdate.BothListsFull` | src/tracker/ByteTrackTracker.cpp:118-128 | every detection at the higher threshold is on the first list, every other at the lower one on the second |
| `TrackerUpdate.ByteTrackTracker.PredictAll` | src/tracker/ByteTrackTracker.cpp:137-151 | every track moves by its velocity and ages |
| `TrackerUpdate.ByteTrackTracker.ApplyMatches` | src/tracker/ByteTrackTracker.cpp:157-177 | matched tracks take over their detections; confirmed ones tag them |
| `TrackerUpdate.ByteTrackTracker.MatchRound` | src/tracker/ByteTrackTracker.cpp:153-177 | one round is a best matching of the tracks and detections given to it |
| `TrackerUpdate.ByteTrackTracker.AgeUnmatched` | src/tracker/ByteTrackTracker.cpp:215-231 | an unmatched track becomes lost while its lost frames are within the limit, removed once past it, and nothing else of it changes; the others stay as matched |
| `TrackerUpdate.ByteTrackTracker.OpenTracks` | src/tracker/ByteTrackTracker.cpp:233-250 | new tracks and their tags, as the frame function says |
| `TrackerUpdate.ByteTrackTracker.EraseRemoved` | src/tracker/ByteTrackTracker.cpp:252-255 | exactly the removed tracks go |
| `TrackerUpdate.ByteTrackTracker.Update` | src/tracker/ByteTrackTracker.cpp:117-255 | two best matchings, confident then weak on the tracks left over; kept and opened tracks and every written id spelled out for their pairs; the invariant is kept |
| `Keyed.FindIsLookup` | src/common/Config.cpp:555-583 | searching a list by id is looking up its map |
| `Keyed.EraseIsRemove` | src/pipeline/TaskManager.cpp:358-359 | erasing by id removes that key and no other |
| `Keyed.ReplaceIsUpdate` | src/pipeline/TaskManager.cpp:410-413 | replacing the first record of an id updates that key |
| `RuntimeState.ApplyRuntimeState` | src/common/RuntimeState.cpp:295-320 | removals, then additions of ids still missing, in order |
| `RuntimeState.FreshStart` | src/pipeline/TaskManager.cpp:98-99 | an empty delta records an unchanged base file |
| `RuntimeState.AddRecorded` | src/pipeline/TaskManager.cpp:343-347 | an addition keeps the delta a faithful record |
| `RuntimeState.RemoveRecorded` | src/pipeline/TaskManager.cpp:358-364 | so does a removal |
| `RuntimeState.UpdateRecorded` | src/pipeline/TaskManager.cpp:410-413 | so does an update, which touches only added records |
| `RuntimeState.RestartMeaning` | src/common/RuntimeState.cpp:295-320 | reloading gives exactly the live ids, base ids with file content, all others with live content |
| `RuntimeState.RestartKeepsRecord` | src/common/RuntimeState.cpp:295-320 | the delta remains a faithful record across a restart |
| `RuntimeState.RestartExactIff` | src/common/RuntimeState.cpp:295-320 | a restart reproduces the live configuration iff no base record was changed |
| `Placeholders.Interpolate` | src/pipeline/TaskManager.cpp:36-72 | the scanning loop computes the rendering of the parsed template, or throws |
| `Placeholders.ParseWritten` | src/pipeline/TaskManager.cpp:36-72 | every brace-free template written as text is recovered by the scan |
| `Placeholders.ParsedIsWritten` | src/pipeline/TaskManager.cpp:36-72 | nothing else is accepted |
| `Placeholders.InterpolationExact` | src/pipeline/TaskManager.cpp:36-72 | a URL is accepted iff it is some brace-free template written out, and then it is that template rendered; what is put for each name is `Placeholders.PutsTaskId` and `Placeholders.PutsSourceId` |
| `Placeholders.PlainText` | src/pipeline/TaskManager.cpp:36-72 | a text without an opening brace stays as it is |
| `Placeholders.PutsTaskId` | src/pipeline/TaskManager.cpp:59-60 | after brace-free text "{task_id}" becomes the task id, and the rest is interpolated on; it throws iff the rest does |
| `Placeholders.PutsSourceId` | src/pipeline/TaskManager.cpp:61-62 | the same for "{source_id}" and the source id |
| `Placeholders.OtherNameThrows` | src/pipeline/TaskManager.cpp:63-68 | any other name in braces throws |
| `Placeholders.UnclosedThrows` | src/pipeline/TaskManager.cpp:52-57 | so does a brace that is not closed |
| `Coherence.BuildEntryIs` | src/pipeline/TaskManager.cpp:134-180 | a build is refused for missing references, throws for bad placeholders, else stores the instantiated template |
| `Commands.GraphIs` | src/pipeline/TaskManager.cpp:74-85 | a template is instantiated node by node: only URLs of stream sinks change, and it throws iff one of them does not interpolate |
| `Commands.SinkUrl` | src/pipeline/TaskManager.cpp:36-85 | such a sink publishes under the id of its task for "{task_id}" and under that of its source for "{source_id}" |
| `Commands.BuildIs` | src/pipeline/TaskManager.cpp:134-180 | a build is refused iff a reference is missing, throws iff a URL is bad, and else adds this one entry with that graph |
| `Commands.CommandDoes` | src/pipeline/TaskManager.cpp:182-526 | from every state, for all fourteen commands: who is refused, and what becomes of records, entries, graphs and running flags, without the functions that compute it |
| `Commands.InferModelIs` | src/pipeline/TaskManager.cpp:506-526 | the model of a template is that of its first inference node that names one |
| `Commands.ModelUse` | src/pipeline/TaskManager.cpp:506-526 | a model is in use iff the template of some running task infers with it |
| `Coherence.AddSourceCoherent` | src/pipeline/TaskManager.cpp:340-350 | adding a source keeps coherence |
| `Coherence.RemoveSourceCoherent` | src/pipeline/TaskManager.cpp:352-367 | removing an unused source keeps coherence; a used one is refused |
| `Coherence.AddPipelineCoherent` | src/pipeline/TaskManager.cpp:369-378 | adding a pipeline keeps coherence |
| `Coherence.RemovePipelineCoherent` | src/pipeline/TaskManager.cpp:380-393 | removing an unused pipeline keeps coherence; a used one is refused |
| `Coherence.AddTaskCoherent` | src/pipeline/TaskManager.cpp:465-475 | adding a task keeps coherence, throwing or not |
| `Coherence.RemoveTaskCoherent` | src/pipeline/TaskManager.cpp:477-493 | removing a task keeps coherence |
| `Coherence.UpdateTaskCoherentIff` | src/pipeline/TaskManager.cpp:448-463 | replacing a task keeps coherence iff it is not damaging; it throws iff it is |
| `Coherence.UpdatePipelineCoherentIff` | src/pipeline/TaskManager.cpp:395-446 | from a coherent state, replacing a template keeps coherence iff it is not damaging, throws iff it is, and never reaches the rollback |
| `Rollback.RebuildEnds` | src/pipeline/TaskManager.cpp:420-441 | a rebuild is refused iff some task lacks a reference and every earlier one can be built |
| `Rollback.UpdateEnds` | src/pipeline/TaskManager.cpp:395-446 | from any state: done iff each task can be rebuilt, refused or thrown as the first that cannot be lacks a reference or not, and as the rollback can restore |
| `Rollback.RollbackLeaves` | src/pipeline/TaskManager.cpp:422-441 | a rollback restores configuration and leaves the file; of the template's tasks exactly those that can be built have an entry |
| `Coherence.CoherentIff` | src/pipeline/TaskManager.cpp:214-526 | every command keeps references, entries and graphs in step iff it is not damaging |
| `Restart.RunningUntouched` | src/pipeline/TaskManager.cpp:352-493 | from any state whose graphs are of listed tasks, no command but its own removal, thrown or not, changes the graph, the record, the source or the template of a running task |
| `Histories.RunningInEveryLife` | src/pipeline/TaskManager.cpp:182-526 | so in every life, after any throws and restarts |
| `Restart.KeepsRecord` | src/pipeline/TaskManager.cpp:334-526 | from any state and on any outcome a command leaves the delta a faithful record of all four kinds |
| `Restart.KeepsSaved` | src/pipeline/TaskManager.cpp:334-526 | a command that succeeds leaves the file equal to the delta; a throw leaves it with the same ids |
| `Restart.HistoryStaysSound` | src/pipeline/TaskManager.cpp:334-526 | coherence, faithful record and up-to-date file hold up to the first damaging command of any history |
| `Restart.HistoryCoherentIff` | src/pipeline/TaskManager.cpp:334-526 | a history is coherent throughout iff none of its commands is damaging |
| `Restart.RestartIds` | src/common/RuntimeState.cpp:295-320 | a file with the ids of the delta restores exactly the live ids: file ids with file content, others as saved |
| `Restart.LoadAllCoherentIff` | src/pipeline/TaskManager.cpp:102-132 | loading ends coherent iff every configured task can be built |
| `Restart.RestartReferencesIff` | src/pipeline/TaskManager.cpp:89-132 | from any recoverable state: references exist after a restart iff the version of each task that comes back names live records |
| `Restart.FileReferencesIff` | src/pipeline/TaskManager.cpp:89-132 | with live references and an up-to-date file, iff the file's version of each file task names live records |
| `Histories.ReferencesInEveryLife` | src/pipeline/TaskManager.cpp:89-132 | the condition at every moment of every life |
| `Restart.FirstStartSound` | src/pipeline/TaskManager.cpp:89-132 | the first start from buildable tasks is sound |
| `Restart.RestartSound` | src/pipeline/TaskManager.cpp:89-132 | a restart with buildable tasks is sound again, so histories continue across it |
| `Restart.RestartCanDangle` | src/pipeline/TaskManager.cpp:448-463 | a concrete history after which a restart leaves a task without its source |
| `Restart.UpdateCanLoseGraph` | src/pipeline/TaskManager.cpp:415-446 | a concrete update that leaves a task without a graph |
| `Histories.ReferencesStay` | src/pipeline/TaskManager.cpp:340-493 | on any outcome of any command no task loses its source or template |
| `Histories.GraphsStay` | src/pipeline/TaskManager.cpp:134-493 | on any outcome of any command every graph that exists stays the current template instantiated for its task |
| `Histories.EveryLifeStands` | src/pipeline/TaskManager.cpp:89-526 | through any commands, thrown or not, and any restarts: the file records the live ids, entries belong to listed tasks, and every graph is its task's current template instantiated |
| `Histories.RestartInEveryLife` | src/common/RuntimeState.cpp:295-320 | at every moment of every life, throws and earlier restarts included, a restart restores exactly the live ids of all four kinds, and the live content of all but file records if the file is up to date |
| `Histories.FirstStartIsBoot` | src/pipeline/TaskManager.cpp:89-132 | the first start is the start from a file without a delta |
| `TaskManagers.InterpolatePipeline` | src/pipeline/TaskManager.cpp:74-85 | the loop over nodes is the instantiation function; brace-free URLs may be skipped |
| `TaskManagers.TaskManager.BuildEntry` | src/pipeline/TaskManager.cpp:134-180 | the object's build is the build function |
| `TaskManagers.TaskManager.LoadAll` | src/pipeline/TaskManager.cpp:102-132 | loading builds the tasks in order and is a restart of the life the object records |
| `TaskManagers.TaskManager.AlwaysStands` | src/pipeline/TaskManager.cpp:89-526 | whatever methods were called, the object is in a state of its life, so the file records the live ids and every graph is right |
| `TaskManagers.TaskManager.InStepIff` | src/pipeline/TaskManager.cpp:214-526 | a coherent object is coherent after its next command iff that command is not damaging |
| `TaskManagers.TaskManager.AddSource` | src/pipeline/TaskManager.cpp:340-350 | whole new state of the object: record added and delta extended, or refused and unchanged if the id exists; the command joins the object's history |
| `TaskManagers.TaskManager.RemoveSource` | src/pipeline/TaskManager.cpp:352-367 | whole new state: record and delta updated, or refused if absent or used by a task; the command joins the object's history |
| `TaskManagers.TaskManager.AddPipeline` | src/pipeline/TaskManager.cpp:369-378 | whole new state: template added, or refused if the id exists; the command joins the object's history |
| `TaskManagers.TaskManager.RemovePipeline` | src/pipeline/TaskManager.cpp:380-393 | whole new state: template removed, or refused if absent or used by a task; the command joins the object's history |
| `TaskManagers.TaskManager.UpdatePipeline` | src/pipeline/TaskManager.cpp:395-446 | template swap, rebuild of affected tasks, exception in the middle; the command joins the object's history |
| `TaskManagers.TaskManager.AddTask` | src/pipeline/TaskManager.cpp:465-475 | whole new state: entry built, then task and delta extended; refused, or thrown with nothing changed; the command joins the object's history |
| `TaskManagers.TaskManager.UpdateTask` | src/pipeline/TaskManager.cpp:448-463 | whole new state: task replaced and rebuilt; refused while running; thrown with the entry gone; the command joins the object's history |
| `TaskManagers.TaskManager.RemoveTask` | src/pipeline/TaskManager.cpp:477-493 | whole new state: entry, task and delta updated, or refused if absent; the command joins the object's history |
| `TaskManagers.TaskManager.Start` | src/pipeline/TaskManager.cpp:214-229 | the entry is running, nothing else changes; refused if absent; the command joins the object's history |
| `TaskManagers.TaskManager.Stop` | src/pipeline/TaskManager.cpp:231-246 | the entry is stopped, nothing else changes; refused if absent; the command joins the object's history |
| `TaskManagers.TaskManager.SwitchAll` | src/pipeline/TaskManager.cpp:182-212 | every entry is running, or stopped, and nothing else changes |
| `TaskManagers.TaskManager.LoadModel` | src/pipeline/TaskManager.cpp:495-504 | whole new state: model added and delta extended, or refused if the id exists |
| `TaskManagers.TaskManager.UnloadModel` | src/pipeline/TaskManager.cpp:506-526 | whole new state: model and delta updated, or refused if absent or inferred with by a running task |
| `Replay.CutIsOnTheWay` | tools/infer-server/store.go:223-269 | on an engine that fits the snapshot, coherent or not, an attempt cut off anywhere leaves the engine between its start and the common target |
| `Replay.UpdateGoesThrough` | tools/infer-server/store.go:240-251 | on the way every update of an idle template goes through, and none throws |
| `Replay.CompleteArrives` | tools/infer-server/store.go:223-269 | from any such point a complete attempt, in any order, arrives: everything placed, every accepted task added once, everything running that should |
| `Replay.ArrivedSame` | tools/infer-server/store.go:223-269 | arriving is arriving at the same task records, as often each, the same graphs and the same running tasks |
| `Replay.ReplayConverges` | tools/infer-server/store.go:209-221 | on an engine that fits, any cut attempts followed by a complete one end where a single complete attempt ends, in any orders |
| `ReplayEngine.ReplaySources` | tools/infer-server/store.go:226-232 | on any engine: the loop of calls, one of which may report failure after taking effect |
| `ReplayEngine.ReplayPipelines` | tools/infer-server/store.go:233-252 | on any engine: add, and update when it already exists; a throw ends the attempt |
| `ReplayEngine.HarmlessIff` | tools/infer-server/store.go:233-252 | with every template and source in place, no update of the snapshot throws iff every idle task instantiates the stored version of its template |
| `ReplayEngine.CoherentFits` | tools/infer-server/store.go:223-269 | every coherent engine fits every snapshot that is harmless to it |
| `ReplayEngine.ReplayTasks` | tools/infer-server/store.go:253-260 | on any engine: tasks are added stopped; a throw ends the attempt |
| `ReplayEngine.ReplayStarts` | tools/infer-server/store.go:261-267 | on any engine: the recorded running tasks are started |
| `ReplayEngine.ReplayOnce` | tools/infer-server/store.go:223-269 | one attempt on any engine is an attempt in the sense of the theorems; if it reports success it was complete and no command of it threw |
| `ReplayEngine.ReplayState` | tools/infer-server/store.go:209-221 | the retries leave any engine where their cuts lead; if they succeed on one that fits, that is where a single complete attempt in any order leads; coherence is kept |
| `ReplayLimits.ConvergesIff` | tools/infer-server/store.go:209-269 | an engine that lists each task once converges under every harmless snapshot iff each task of a template not in use has its source and template |
| `ReplayLimits.ReferencesConverge` | tools/infer-server/store.go:209-269 | an engine whose tasks all have their source and template converges under every harmless snapshot |
| `ReplayLimits.UnsteadyDiverges` | tools/infer-server/store.go:223-269 | for every other such engine, a harmless snapshot under which two complete attempts end elsewhere than one; none of their commands throws if loading the engine would not |
| `ReplayLimits.RestartedConvergesIff` | tools/infer-server/store.go:209-269 | the same for every engine just restarted, in every life; if its start did not throw, loading it would not |
| `ReplayLimits.PilesUp` | tools/infer-server/store.go:253-260 | where the source of an idle task is gone, each attempt adds its stored version again |
| `ReplayLimits.PicksGraph` | tools/infer-server/store.go:233-252 | where the template of an idle task is gone, a second attempt changes its graph |
| `ReplayLives.RestartedPilesUp` | tools/infer-server/store.go:223-269 | a concrete life: move a task, remove its old source, restart, replay twice |
| `ReplayLives.RestartedPicksGraph` | tools/infer-server/store.go:223-269 | a concrete life: move a task, remove its old template, restart, replay twice |
| `ReplayLives.CutPicksGraph` | tools/infer-server/store.go:223-269 | after the second life one snapshot ends with two records and the new template's graph, or, cut once and retried, with the old record and the old template's graph |
| `ReplayLives.RollbackTakesGraph` | src/pipeline/TaskManager.cpp:422-441 | after one such replay an update that is rolled back takes the task its graph |
| `PipelineGraph.FinishNode` | src/common/Config.cpp:148-151 | finishing a node lowers each in-degree by the node's parallel edges |
| `PipelineGraph.OrderMeansAcyclic` | src/common/Config.cpp:139-155 | a visiting order along all edges excludes cycles |
| `PipelineGraph.StuckMeansCycle` | src/common/Config.cpp:139-155 | unvisited nodes that all have unvisited predecessors contain a cycle |
| `PipelineGraph.FinishTargets` | src/common/Config.cpp:148-151 | remaining in-degree is the number of edges from unvisited nodes, and the queue holds exactly the cleared ones |
| `PipelineGraph.VisitsAll` | src/common/Config.cpp:130-155 | all nodes are visited iff the multigraph, self-loops and repeated edges included, is acyclic |
| `PipelineGraph.CheckNodes` | src/common/Config.cpp:75-131 | node ids present, non-empty, distinct, and the options of sinks in order |
| `PipelineGraph.CheckOptions` | src/common/Config.cpp:84-128 | a stream sink has a URL and a known protocol; a player's rate, queue size and policy are in range where given |
| `PipelineGraph.CheckEdges` | src/common/Config.cpp:132-138 | edge ends exist, capacities positive |
| `PipelineGraph.ValidatePipeline` | src/common/Config.cpp:75-157 | a pipeline passes iff nodes, sink options and edges are well formed and it is acyclic; the cycle error comes iff only that is wrong |
| `EdgeQueues.Pushed` | src/pipeline/EdgeQueue.cpp:10-28 | no policy lets the queue outgrow a capacity that is not negative; a negative one is no limit, because the code compares it as an unsigned number |
| `EdgeQueues.PushedIs` | src/pipeline/EdgeQueue.cpp:10-28 | the same for the push as a value, by policy, capacity and old content alone |
| `EdgeQueues.EdgeQueue.Push` | src/pipeline/EdgeQueue.cpp:10-28 | for any capacity, negative ones included: accepted = removed ++ queued; stopped refuses; room accepts; full drops the oldest and accepts under `drop_oldest`, refuses under the other two; each with the whole new content |
| `EdgeQueues.EdgeQueue.Pop` | src/pipeline/EdgeQueue.cpp:30-38 | the oldest event leaves, stopped or not |
| `EdgeQueues.EdgeQueue.Stop` | src/pipeline/EdgeQueue.cpp:40-44 | closes the queue and keeps its content |
| `EdgeQueues.EdgeQueue.Reopen` | src/pipeline/EdgeQueue.cpp:46-50 | reopens the queue and keeps its content |
| `StreamGraph.EdgeAlways` | src/pipeline/GraphExecutor.cpp:83-130 | on every run, for any capacities: popped ++ queued ++ still to offer is a subsequence of what the node emitted, queue within capacity |
| `StreamGraph.NodeAlways` | src/pipeline/GraphExecutor.cpp:83-115 | on every run: a single-input stage has emitted and holds a subsequence of what it took in |
| `StreamGraph.PathDelivers` | src/pipeline/GraphExecutor.cpp:83-130 | along any single-input path in any graph, what arrives is a subsequence of what the first node emitted, under every schedule, policy, stop and reopen |
| `StreamGraph.EdgeLossless` | src/pipeline/GraphExecutor.cpp:83-130 | on every run in which the queue was open and had room at each push, popped ++ queued ++ still to offer is all the node emitted |
| `StreamGraph.NodeLossless` | src/pipeline/GraphExecutor.cpp:83-115 | a single-input stage that discards nothing has emitted or still holds all it took in |
| `StreamGraph.PathLossless` | src/pipeline/GraphExecutor.cpp:83-130 | along such a path, once drained, exactly what the first node emitted has arrived |
| `GraphExecutors.TargetsExact` | src/pipeline/GraphExecutor.cpp:30-35 | the target table lists exactly the ends of the node's edges, each as often as it is listed |
| `GraphExecutors.SoleInputIff` | src/pipeline/GraphExecutor.cpp:30-35 | a node has a sole input iff its worker polls one queue |
| `GraphExecutors.GraphExecutor.Build` | src/pipeline/GraphExecutor.cpp:24-36 | fails iff a node lacks a stage; else, for any capacities and repeated edges, the tables are those of the edge list and each edge has its own empty queue |
| `GraphExecutors.GraphExecutor.ConfigIsLast` | src/pipeline/GraphExecutor.cpp:30-35 | of an edge listed several times the last configuration counts |
| `GraphExecutors.GraphExecutor.EmitToDownstream` | src/pipeline/GraphExecutor.cpp:117-130 | each queue of an edge leaving the node is offered the event as often as the edge is listed, one offer on top of the other; no other queue changes |
| `GraphExecutors.RepeatedEdgeRepeats` | src/pipeline/GraphExecutor.cpp:117-130 | with room in the queue, n offers of an event are n deliveries of it |
| `SahiTiling.MakeAxisStarts` | src/pipeline/stages/SahiSchedulerStage.cpp:16-27 | starts advance by the stride, the last pulled back to the edge |
| `SahiTiling.StrideIs` | src/pipeline/stages/SahiSchedulerStage.cpp:17-19 | neighbouring tiles share the ratio of a tile to within half a pixel, unless the stride would be below a pixel, and then it is one |
| `SahiTiling.RoundIs` | src/pipeline/stages/SahiSchedulerStage.cpp:18 | rounding moves by at most a half, and halves away from zero |
| `SahiTiling.SafeTileIs` | src/pipeline/stages/SahiSchedulerStage.cpp:17 | a tile is as long as configured, or as the frame where that is shorter, and never empty |
| `SahiTiling.StrideApart` | src/pipeline/stages/SahiSchedulerStage.cpp:20-26 | starts are exactly a stride apart, the last one at most |
| `SahiTiling.StartsIncrease` | src/pipeline/stages/SahiSchedulerStage.cpp:21-25 | starts strictly increase |
| `SahiTiling.StretchInOneTile` | src/pipeline/stages/SahiSchedulerStage.cpp:16-27 | any stretch up to tile - stride + 1 lies in one tile |
| `SahiTiling.CoversIff` | src/pipeline/stages/SahiSchedulerStage.cpp:16-27 | the tiles of an axis leave no gap iff the stated condition on stride, tile and size holds |
| `SahiTiling.NegativeOverlapLeavesGap` | src/pipeline/stages/SahiSchedulerStage.cpp:16-42 | ten pixels, tiles of two and ratio -1 leave pixel 2 bare |
| `SahiTiling.StrideWithinTile` | src/pipeline/stages/SahiSchedulerStage.cpp:17-19 | a ratio that is not negative never strides past a tile |
| `SahiTiling.EndsFlush` | src/pipeline/stages/SahiSchedulerStage.cpp:21-25 | with overlap the last start ends flush with the edge |
| `SahiTiling.MakeFullTiles` | src/pipeline/stages/SahiSchedulerStage.cpp:29-42 | the nested loops build the grid of the starts of both axes |
| `SahiTiling.GridAt` | src/pipeline/stages/SahiSchedulerStage.cpp:29-42 | one tile for each pair of starts, at its place row by row |
| `SahiTiling.TilesInside` | src/pipeline/stages/SahiSchedulerStage.cpp:29-42 | every tile lies inside the frame |
| `SahiTiling.BoxInOneTile` | src/pipeline/stages/SahiSchedulerStage.cpp:29-42 | any box up to tile - stride + 1 on each axis, a pixel included, lies wholly in one tile |
| `SahiTiling.FullPassCoversIff` | src/pipeline/stages/SahiSchedulerStage.cpp:16-42 | for every ratio the tiles cover the frame iff both axes are free of gaps |
| `SahiTiling.CoversFrameIff` | src/pipeline/stages/SahiSchedulerStage.cpp:164-167 | for any ratio and cap every pixel is covered iff both axes are free of gaps and the cap does not cut the list |
| `SahiTiling.CapOfOneLosesCorner` | src/pipeline/stages/SahiSchedulerStage.cpp:164-167 | a 4 by 4 frame with tiles of two and cap 1 loses its corner |
| `SahiMerge.ScheduleTiles` | src/pipeline/stages/SahiSchedulerStage.cpp:174-218 | the tiles of a frame announce their number, keep position, event and frame of each, and the first carries the parent frame |
| `SahiMerge.InferencePreservesPlan` | src/pipeline/stages/SahiSchedulerStage.cpp:174-218 | filling in detections keeps the tiles a plan |
| `SahiMerge.SahiMergeStage.SweepStale` | src/pipeline/stages/SahiMergeStage.cpp:66-82 | exactly the stale entries go |
| `SahiMerge.SahiMergeStage.Translated` | src/pipeline/stages/SahiMergeStage.cpp:124-131 | a tile's detections are appended in order, each coordinate moved by the tile corner's x or y, spelled out |
| `SahiMerge.MappedIs` | src/pipeline/stages/SahiMergeStage.cpp:124-131 | the four coordinates of each detection move by the tile corner's x or y, and class, confidence, attributes and track id stay |
| `SahiMerge.SeenTwice` | src/pipeline/stages/SahiMergeStage.cpp:124-131 | one box of the parent frame seen in two tiles comes out as the same box |
| `SahiMerge.SahiMergeStage.Process` | src/pipeline/stages/SahiMergeStage.cpp:84-174 | the stage's step is the delivery function, the template result carried whole; a completed frame goes through suppression |
| `SahiMerge.EmittedAtMostOnce` | src/pipeline/stages/SahiMergeStage.cpp:66-174 | in every interleaving with sweeps at any time, a parent is emitted at most once, and only after its last tile |
| `SahiMerge.HeldUntilLast` | src/pipeline/stages/SahiMergeStage.cpp:103-165 | while its entry is not swept away everything that arrived is held until the last tile |
| `SahiMerge.EmittedExactlyOnce` | src/pipeline/stages/SahiMergeStage.cpp:66-174 | one emission iff all tiles arrived and no sweep took the entry away, else none; on the parent frame and the first tile's result, with the multiset union of the tiles' detections, each moved by its own tile's corner, spelled out |
| `Nms.KeepsIsGreedy` | src/decoder/IYOLODecoder.cpp:31-41 | no kept pair suppresses, every dropped element is suppressed by an earlier kept one |
| `Nms.GreedyIsUnique` | src/decoder/IYOLODecoder.cpp:31-41 | no other selection has both properties |
| `Nms.RerunKeepsAll` | src/pipeline/stages/SahiMergeStage.cpp:39-64 | in one order, running on the result keeps everything, in order |
| `Nms.SortByConfidence` | src/decoder/IYOLODecoder.cpp:21-26 | a permutation by falling confidence |
| `Nms.NonMaxSuppression` | src/decoder/IYOLODecoder.cpp:17-43 | the flag loops compute the greedy survivors of that order |
| `Nms.KeptAreApart` | src/decoder/IYOLODecoder.cpp:31-41 | kept detections are distinct and pairwise overlap at most the threshold |
| `Nms.DroppedHasReason` | src/decoder/IYOLODecoder.cpp:31-41 | a dropped detection overlaps a kept one at least as confident |
| `Nms.KeptInOrder` | src/decoder/IYOLODecoder.cpp:21-41 | detections are kept by falling confidence |
| `Nms.SuppressAgainKeepsAll` | src/decoder/IYOLODecoder.cpp:17-43 | suppressing the kept detections again, however ties are sorted, keeps every one once |
| `Nms.RunNms` | src/pipeline/stages/SahiMergeStage.cpp:39-64 | the tile merger's routine computes the greedy survivors of a sort of its input |
| `Nms.MergedIsPart` | src/pipeline/stages/SahiMergeStage.cpp:39-64 | nothing is kept more often than it was given |
| `Nms.MergedAreApart` | src/pipeline/stages/SahiMergeStage.cpp:15-64 | two kept detections of one class overlap below both limits, in either order |
| `Nms.MergedAwayHasReason` | src/pipeline/stages/SahiMergeStage.cpp:39-64 | a merged-away detection reaches a limit with a kept one of its class that is at least as confident |
| `Nms.MergeAgainKeepsAll` | src/pipeline/stages/SahiMergeStage.cpp:39-64 | merging a merge result again, however ties are sorted, keeps the same multiset |
| `Decoders.BestIsArgmax` | src/decoder/YOLOv8Decoder.cpp:20-26 | the running maximum bounds all scores and, once positive, is the first class to reach it |
| `Decoders.BestClassIff` | src/decoder/YOLOv8Decoder.cpp:20-26 | the class found is a best one iff some score is positive or the first class is a best one |
| `Decoders.ConfidenceIff` | src/decoder/YOLOv8Decoder.cpp:20-27 | the confidence is the score of the class found iff some score is positive or the first is zero |
| `Decoders.ArgmaxIff` | src/decoder/YOLOv8Decoder.cpp:20-26 | class and confidence are a best class and its score iff some score is positive or the first is zero |
| `Decoders.WrongClassReported` | src/decoder/YOLOv8Decoder.cpp:12-53 | a concrete output tensor with scores -2 and -1, decoded with threshold 0, reports the first class |
| `Decoders.NegativeScoreReported` | src/decoder/YOLOv8Decoder.cpp:12-53 | a concrete output tensor with the one score -1, decoded with threshold 0, reports confidence 0 |
| `Decoders.SuppressionReturns` | src/decoder/IYOLODecoder.cpp:17-43 | the result lists distinct candidates by falling confidence, pairwise apart, and every candidate left out overlaps a kept one at least as confident |
| `Decoders.SliceFits` | src/decoder/YOLOv8Decoder.cpp:63-73 | the slices of a batch start at 0, follow one another and end inside the buffer, divisible or not |
| `Decoders.SlicesLargest` | src/decoder/YOLOv8Decoder.cpp:63-73 | one more row per image would not fit the buffer |
| `Decoders.DecodeSingleV8` | src/decoder/YOLOv8Decoder.cpp:12-53 | all reads are in range; the result is a run of the suppression routine on the candidates |
| `Decoders.DecodeV8` | src/decoder/YOLOv8Decoder.cpp:55-81 | each image is decoded from its own slice only |
| `Decoders.DetectionsAreArgmax` | src/decoder/YOLOv8Decoder.cpp:19-46 | every detection is found at an anchor with its own box and reaches the threshold; no class of its anchor scores higher than its confidence; when its class is a best one, and when with its own score, exactly as above |
| `DecoderLaws.CandidatesExact` | src/decoder/YOLOv8Decoder.cpp:19-46 | exactly the anchors with a class score at the threshold are candidates, in order; rows 0 to 3 are centre and size, row 4 + c the score of class c, box and class spelled out |
| `DecoderLaws.EveryAnchorAnswered` | src/decoder/YOLOv8Decoder.cpp:12-53 | each such anchor's detection is returned or overlaps a returned one at least as confident |
| `Decoders.DetectPixels` | src/decoder/YOLOv5Decoder.cpp:14-23 | whether any of the first 64 rows has a coordinate above 1.5 |
| `DecoderLaws.PixelsIff` | src/decoder/YOLOv5Decoder.cpp:14-23 | coordinates are pixels iff one of the first four numbers of the first 64 rows exceeds 1.5 |
| `Decoders.DecodeSingleV5` | src/decoder/YOLOv5Decoder.cpp:27-80 | all reads are in range; the result is a run of the suppression routine on the candidates |
| `Decoders.DecodeV5` | src/decoder/YOLOv5Decoder.cpp:82-106 | each image is decoded from its own slice only |
| `Decoders.DetectionsAreArgmaxV5` | src/decoder/YOLOv5Decoder.cpp:37-73 | the same, box included, for objectness times class probability |
| `DecoderLaws.CandidatesExactV5` | src/decoder/YOLOv5Decoder.cpp:37-73 | exactly the rows whose objectness and whose best product reach the threshold are candidates, in order, box scaled or not, spelled out |
| `DecoderLaws.EveryPredictionAnswered` | src/decoder/YOLOv5Decoder.cpp:27-80 | each such row's detection is returned or overlaps a returned one at least as confident |
| `ResultMerging.EveryRunAccounted` | src/pipeline/ResultMerger.cpp:11-75 | after any steps the table and the output are exactly what the history of each registration says |
| `ResultMerging.Conservation` | src/pipeline/ResultMerger.cpp:11-75 | each registration is exactly one of published once, waiting with what arrived for it, or ignored because its key was live |
| `ResultMerging.WaitingIsShort` | src/pipeline/ResultMerger.cpp:48-52 | a waiting entry has received fewer attributes than it expects |
| `ResultMerging.PublishedWhenAnswered` | src/pipeline/ResultMerger.cpp:29-53 | while its deadline does not pass, an entry leaves exactly at its last expected attribute |
| `ResultMerging.PublishedInFull` | src/pipeline/ResultMerger.cpp:29-53 | once all expected attributes came before the deadline it has been published exactly once, with all of them |
| `ResultMerging.AttributeStays` | src/pipeline/ResultMerger.cpp:36-46 | an attribute whose detection exists is in the result unless a later one has its name |
| `ResultMerging.AttributesExact` | src/pipeline/ResultMerger.cpp:36-46 | attributes change attributes alone: each name of each detection has the value given last, or its old one or none; class, confidence, box and track id stay |
| `ResultMerging.ResultMerger.RegisterPrimary` | src/pipeline/ResultMerger.cpp:11-27 | the object is in the state of its call history |
| `ResultMerging.ResultMerger.AddAttribute` | src/pipeline/ResultMerger.cpp:29-53 | the object is in the state of its call history |
| `ResultMerging.ResultMerger.FlushExpired` | src/pipeline/ResultMerger.cpp:55-68 | the expired entries, and only those, are published and gone |
| `CascadeRouting.CropInsideIff` | src/pipeline/CascadeRouter.cpp:32-47 | a crop lies in the image iff the expanded box starts in it |
| `CascadeRouting.CropIs` | src/pipeline/CascadeRouter.cpp:32-47 | each edge of a crop is the expanded box's, cut at the image on that side and truncated to a pixel, at least one pixel on |
| `CascadeRouting.CropHoldsBox` | src/pipeline/CascadeRouter.cpp:32-47 | a crop of a box in the image loses less than a pixel of it |
| `CascadeRouting.CropBeyondImage` | src/pipeline/CascadeRouter.cpp:32-47 | a concrete box right of a ten pixel image has its crop outside |
| `CascadeRouting.CascadeRouter.Count` | src/pipeline/CascadeRouter.cpp:68-86 | the count is the number of jobs |
| `CascadeRouting.CascadeRouter.HandOut` | src/pipeline/CascadeRouter.cpp:93-178 | crops leave in the order of the jobs, up to the first that is outside the picture |
| `CascadeRouting.CascadeRouter.JobsExact` | src/pipeline/CascadeRouter.cpp:76-110 | one job for each triggered detection of each served cascade, in order, none twice |
| `CascadeRouting.CascadeRouter.WantedAre` | src/pipeline/CascadeRouter.cpp:49-110 | in order, one job per due detection, with its crop and with height and width of its model's input, spelled out |
| `CascadeRouting.CascadeRouter.Dispatch` | src/pipeline/CascadeRouter.cpp:93-178 | all jobs leave, unless a crop outside the picture ends the phase |
| `CascadeRouting.CascadeRouter.AllFitIff` | src/pipeline/CascadeRouter.cpp:32-47 | no crop is outside iff every wanted box starts in the picture |
| `CascadeRouting.CascadeRouter.BoxBeyondImageThrows` | src/pipeline/CascadeRouter.cpp:93-178 | a wanted detection with that box is a crop outside the picture |
| `CascadeRouting.CascadeRouter.Route` | src/pipeline/CascadeRouter.cpp:59-179 | registration comes first and counts the wanted crops; on a picture in memory those leave in order, all of them iff no crop is outside |
| `CascadeRouting.CascadeRouter.RoutedIsPublished` | src/pipeline/ResultMerger.cpp:11-53 | a routed result whose crops are each answered once, with a free key and before the deadline, is published exactly once with all those attributes |
| `CascadeRouting.CascadeRouter.AnswersLand` | src/pipeline/ResultMerger.cpp:36-46 | every answer to a dispatched crop is for a detection of the result |
| `InferStage.QueueAlwaysInOrder` | src/pipeline/stages/InferEngineWorkerStage.cpp:154-348 | on every run the queue is shorter than a batch, batches ++ queue are the accepted frames in order, and nothing is dropped but by a stop |
| `InferStage.DeadlineReleases` | src/pipeline/stages/InferEngineWorkerStage.cpp:288-348 | on every run: after a step that meets the deadline every frame accepted until then has left the queue for good |
| `InferStage.EveryFrameInOnePlace` | src/pipeline/stages/InferEngineWorkerStage.cpp:117-348 | on every run each frame is in exactly one place, emitted at most once and under its own key |
| `InferStage.LossHasCause` | src/pipeline/stages/InferEngineWorkerStage.cpp:117-348 | on every run a lost frame was dropped by a stop, evicted under its own key, taken while draining, or replaced by another accepted frame of its key |
| `InferStage.FreeKeyNeverReplaced` | src/pipeline/stages/InferEngineWorkerStage.cpp:167-186 | if no frame is accepted under a key while that key is live, no frame of that key is ever replaced; a key may be used again later |
| `InferStage.NothingLost` | src/pipeline/stages/InferEngineWorkerStage.cpp:154-348 | a frame whose key is free when used is not lost unless there is a stop, a drain or an eviction of its own key, whatever happens to other frames |
| `InferStage.AcceptKeeps` | src/pipeline/stages/InferEngineWorkerStage.cpp:320-334 | the drop-oldest branch is unreachable |
| `InferStage.InferEngineWorkerStage.ExtractBatch` | src/pipeline/stages/InferEngineWorkerStage.cpp:154-165 | a batch is the front of the queue |
| `InferStage.InferEngineWorkerStage.Process` | src/pipeline/stages/InferEngineWorkerStage.cpp:315-348 | the object is in the state of its step history; batch ++ queue is the old queue and the new frame; the batch is its first max(1, batch size) frames if full, all of it if late, else nothing |
| `InferStage.InferEngineWorkerStage.FlushTick` | src/pipeline/stages/InferEngineWorkerStage.cpp:288-302 | a late tick hands over the whole queue, any other nothing |
| `InferStage.InferEngineWorkerStage.FlushToWorkers` | src/pipeline/stages/InferEngineWorkerStage.cpp:167-186 | every frame of a batch is in the table before the batch goes out: of several with one key the last, and no other key is touched |
| `InferStage.InferEngineWorkerStage.TakeInflight` | src/pipeline/stages/InferEngineWorkerStage.cpp:223-240 | a result takes out the frame filed under its key |
| `InferStage.InferEngineWorkerStage.Finish` | src/pipeline/stages/InferEngineWorkerStage.cpp:241-243 | it is emitted with its own envelope and emit function, unless draining |
| `InferStage.InferEngineWorkerStage.Sweep` | src/pipeline/stages/InferEngineWorkerStage.cpp:268-282 | exactly the stale entries are evicted |
| `InferStage.InferEngineWorkerStage.SetDraining` | src/pipeline/stages/InferEngineWorkerStage.cpp:152 | draining only changes what later results do |
| `InferStage.InferEngineWorkerStage.ClearPending` | src/pipeline/stages/InferEngineWorkerStage.cpp:125-133 | a stop drops the queue |
| `Calendar.YearLength` | include/archive/FrameLayout.h:28-42 | the epoch formula gives each year its 365 or 366 days |
| `Calendar.EpochOfGmTime` | include/archive/FrameLayout.h:84-90 | calendar fields of a time lead back to it |
| `Calendar.GmTimeOfEpoch` | include/archive/FrameLayout.h:28-42 | and valid fields from 1970 on are recovered from their seconds |
| `Calendar.FourDigitYear` | include/archive/FrameLayout.h:93-94 | a year has four digits iff the time is before the year 10000 |
| `ArchiveLaws.MonthByMonth` | include/archive/FrameLayout.h:28-42 | each month starts after the days of the one before, and January after December |
| `ArchiveLaws.WithinMonth` | include/archive/FrameLayout.h:28-42 | a time is its month's start and its days, hours, minutes and seconds from there; with `ArchiveLaws.FirstMonth`, time 0, this determines every time |
| `FrameLayout.PaddedReads` | include/archive/FrameLayout.h:92-100 | zero-padded numbers have the set width and read back |
| `FrameLayout.DayNameReads` | include/archive/FrameLayout.h:44-54 | a day's directory name parses to the start of the day |
| `ArchiveLaws.DayNameIff` | include/archive/FrameLayout.h:44-54 | a name is a day's iff it is eight digits with month and day in range, and it means the start of that day |
| `ArchiveLaws.HourAndMinuteIff` | include/archive/FrameLayout.h:56-74 | a name is an hour's or a minute's iff it is two digits up to 23 or 59, and it means that number |
| `FrameLayout.SplitJoin` | include/archive/FrameLayout.h:92-104 | a path splits into exactly its names |
| `FrameLayout.KeyReadsBack` | include/archive/FrameLayout.h:44-106 | from 1970 through 9999 a key has five names whose first three parse to the minute of capture |
| `ArchiveLaws.KeyIs` | include/archive/FrameLayout.h:80-106 | a key tells, digit by digit, date, hour and minute of capture, the stream, the millisecond of capture and the number of the frame |
| `FrameLayout.KeysDistinct` | include/archive/FrameLayout.h:80-106 | two frames share a key only if stream, millisecond of capture and frame number all agree |
| `RetentionGc.FrameRetentionGc.ScanHour` | src/archive/FrameRetentionGc.cpp:115-127 | the minute loop leaves what the flat check leaves and counts what it removes |
| `RetentionGc.FrameRetentionGc.ScanDay` | src/archive/FrameRetentionGc.cpp:102-130 | the hour loop, with pruning and empty directories removed |
| `RetentionGc.FrameRetentionGc.RunOnce` | src/archive/FrameRetentionGc.cpp:58-142 | one pass leaves the tree the directory functions describe and returns the number of entries removed, in any order of entries |
| `Directories.RemoveAll` | src/archive/FrameRetentionGc.cpp:67-77 | removing a tree counts every entry in it |
| `RetentionGc.EntriesAccounted` | src/archive/FrameRetentionGc.cpp:58-142 | entries before = entries left + entries counted as removed + directories pruned because they became empty |
| `RetentionGc.ScanIsFlatCheck` | src/archive/FrameRetentionGc.cpp:90-133 | in every tree a minute bucket goes, with all it holds, iff its end is not after the cutoff, and else keeps all it holds |
| `RetentionGc.FileSurvivesIff` | src/archive/FrameRetentionGc.cpp:90-133 | any file, stray or not, goes iff a directory above it names a period that has ended |
| `RetentionGc.StrayUntouched` | src/archive/FrameRetentionGc.cpp:90-95 | what is not under a directory named like a day is left alone |
| `RetentionGc.WriterAndScanAgree` | src/archive/FrameRetentionGc.cpp:58-133 | a frame up to the maximal age is never deleted, one a minute older always is |

## Left out

- CUDA, TensorRT, Ascend, ONNX, FFmpeg and OpenCV: their behaviour is not visible; a crop outside a picture is taken to throw.
- Kafka, Redis, gRPC, sockets, HTTP handlers, archive upload, command line and web tools: input and output only.
- Exceptions from `StageFactory::create` and the device options of `buildEntry`: builds fail only by missing references or placeholders.
- JSON and YAML conversion: the persisted delta is the delta itself.
- Pipelines added at run time are not validated by the program, so nothing is claimed about their acyclicity.
- The checks of pipeline ids and of models in the configuration: independent tests of single fields. `std::stof` and `std::stoi` are parameters.
- `ReplayEngine.ReplayState`: an exception in the engine ends the attempt; that it also ends the engine's process, whose next start is a restart, is not followed.
- `ReplayLimits.ConvergesIff`: of engines that list each task once; `Replay.ReplayConverges` allows an id listed more often as long as the replay updates one of its templates at most.
- The choice between a full pass and regions of interest, and the region tiles: tiles of either kind merge alike.
- `SahiTiling.CoversFrameIff`: caps below 0 are not covered; src/pipeline/StageFactory.cpp:147-155 rejects caps and tile sizes below 1.
- `EdgeQueues.EdgeQueue.Push`: capacity 0 with `drop_oldest` is left out, because the program then has undefined behaviour; the wait of a blocking push is seen when it ends.
- `StreamGraph.EdgeAlways`: of graphs in which no edge is listed twice; what a repeated edge does is `GraphExecutors.GraphExecutor.EmitToDownstream`.
- Edge keys: the program joins two node ids with an arrow; the model keeps the pair.
- Decoding with `output_count` 0, which falls back to fixed anchor counts.
- `ResultMerging.ResultMerger.FlushExpired`, `InferStage.InferEngineWorkerStage.Sweep`: which entries are due is a parameter.
- Keys of pending results: the text of stream and timestamp is one abstract string.
- `FrameLayout.KeyReadsBack`: capture times before 1970 are not covered; `timegm` and `gmtime_r` are the formula of POSIX.1-2017 and its inverse.
- File system errors during a retention pass.
- Metrics, stream health, batch policy and GPU device allocation: small state machines and counters.
