/**
 Batching, in-flight tracking and emission of the inference stage
 (src/pipeline/stages/InferEngineWorkerStage.cpp:154-244, 268-348).

 A run is a list of steps.  A step is a section under one of the two locks, or a single table
 operation of such a section, so every interleaving of the threads is a run.  Deadlines and
 staleness are decided by the clock and may come at any time.  `Run` numbers the frames in the
 order of acceptance; the program keeps no such number.
 */
module InferStage {
  import opened Geometry

  datatype Key = Key(stream: string, frameSeq: nat)

  /** An event that carries a frame, with the emit function it came with. */
  datatype Input = Input(key: Key, eventId: string, frame: nat, emit: nat)

  datatype Portion = Batch(tickets: seq<nat>) | Dropped(tickets: seq<nat>)

  datatype Reason = DroppedFromQueue | Replaced | Evicted | Drained

  datatype Emission = Emission(ticket: nat, key: Key)

  datatype State = State(
    accepted: seq<Input>, pending: seq<nat>, portions: seq<Portion>,
    waiting: set<nat>, inflight: map<Key, nat>, taken: set<nat>,
    emitted: seq<Emission>, lost: map<nat, Reason>, draining: bool)

  const START := State([], [], [], {}, map[], {}, [], map[], false)

  datatype Step =
    | Process(input: Option<Input>, late: bool)
    | Tick(late: bool)
    | Submit(ticket: nat)
    | Answer(key: Key)
    | Finish(ticket: nat)
    | Evict(key: Key)
    | Drop
    | Drain
    | Restart

  function EffectiveBatch(batchSize: int): nat { if batchSize > 1 then batchSize else 1 }

  function MaxPending(batchSize: int): nat { (if batchSize > 2 then batchSize else 2) * 2 }

  function Extract(s: State, k: nat): State
    requires k <= |s.pending|
  {
    s.(pending := s.pending[k..], portions := s.portions + [Batch(s.pending[..k])],
       waiting := s.waiting + set t | t in s.pending[..k])
  }

  function DropHead(s: State): State
    requires s.pending != []
  {
    s.(pending := s.pending[1..], portions := s.portions + [Dropped(s.pending[..1])],
       lost := s.lost[s.pending[0] := DroppedFromQueue])
  }

  function Accept(s: State, input: Input, batchSize: int): State {
    var t := if |s.pending| >= MaxPending(batchSize) then DropHead(s) else s;
    t.(accepted := t.accepted + [input], pending := t.pending + [|t.accepted|])
  }

  /** The size of the batch to hand over now; 0 for none. */
  function BatchNow(pending: nat, batchSize: int, full: bool, late: bool): (k: nat)
    ensures k <= pending
  {
    if pending > 0 && ((full && pending >= EffectiveBatch(batchSize)) || late)
    then if pending < EffectiveBatch(batchSize) then pending else EffectiveBatch(batchSize)
    else 0
  }

  function Release(s: State, batchSize: int, full: bool, late: bool): State {
    var k := BatchNow(|s.pending|, batchSize, full, late);
    if k == 0 then s else Extract(s, k)
  }

  function Next(s: State, step: Step, batchSize: int): State {
    match step
    case Process(input, late) =>
      Release(if input.Some? then Accept(s, input.value, batchSize) else s, batchSize, true, late)
    case Tick(late) => Release(s, batchSize, false, late)
    case Submit(t) => if t in s.waiting && t < |s.accepted| then Insert(s, t) else s
    case Answer(k) =>
      if k !in s.inflight then s
      else s.(inflight := s.inflight - {k}, taken := s.taken + {s.inflight[k]})
    case Finish(t) =>
      if t !in s.taken || t >= |s.accepted| then s
      else if s.draining then s.(taken := s.taken - {t}, lost := s.lost[t := Drained])
      else s.(taken := s.taken - {t}, emitted := s.emitted + [Emission(t, s.accepted[t].key)])
    case Evict(k) =>
      if k !in s.inflight then s
      else s.(inflight := s.inflight - {k}, lost := s.lost[s.inflight[k] := Evicted])
    case Drop => if s.pending == [] then s else DropHead(s)
    case Drain => s.(draining := true)
    case Restart => s.(draining := false)
  }

  /** A frame enters the in-flight table; one that is there under the same key is forgotten. */
  function Insert(s: State, t: nat): State
    requires t in s.waiting && t < |s.accepted|
  {
    var k := s.accepted[t].key;
    s.(waiting := s.waiting - {t}, inflight := s.inflight[k := t],
       lost := if k in s.inflight then s.lost[s.inflight[k] := Replaced] else s.lost)
  }

  function Run(steps: seq<Step>, batchSize: int): State {
    if steps == [] then START else Next(Run(steps[..|steps| - 1], batchSize), steps[|steps| - 1], batchSize)
  }

  // ---------------------------------------------------------------- order

  function Flat(portions: seq<Portion>): seq<nat> {
    if portions == [] then [] else Flat(portions[..|portions| - 1]) + portions[|portions| - 1].tickets
  }

  function Count(n: nat): (r: seq<nat>)
    ensures |r| == n && forall i :: 0 <= i < n ==> r[i] == i
  {
    seq(n, i requires 0 <= i < n => i)
  }

  ghost predicate InOrder(s: State) {
    Flat(s.portions) + s.pending == Count(|s.accepted|)
  }

  ghost predicate BatchesFit(portions: seq<Portion>, size: nat) {
    forall i :: 0 <= i < |portions| && portions[i].Batch? ==> 1 <= |portions[i].tickets| <= size
  }

  /** What holds between locked sections of the queue. */
  ghost predicate QueueInv(s: State, batchSize: int) {
    && InOrder(s)
    && |s.pending| < EffectiveBatch(batchSize)
    && BatchesFit(s.portions, EffectiveBatch(batchSize))
  }

  lemma FlatMore(portions: seq<Portion>, p: Portion)
    ensures Flat(portions + [p]) == Flat(portions) + p.tickets
  {
    assert (portions + [p])[..|portions|] == portions;
  }

  lemma ExtractInOrder(s: State, k: nat)
    requires InOrder(s) && k <= |s.pending|
    ensures InOrder(Extract(s, k))
  {
    FlatMore(s.portions, Batch(s.pending[..k]));
    var f, p := Flat(s.portions), s.pending;
    assert f + p[..k] + p[k..] == f + p;
  }

  lemma DropInOrder(s: State)
    requires InOrder(s) && s.pending != []
    ensures InOrder(DropHead(s))
  {
    FlatMore(s.portions, Dropped(s.pending[..1]));
    var f, p := Flat(s.portions), s.pending;
    assert f + p[..1] + p[1..] == f + p;
  }

  /** The queue has room, so nothing is dropped for a new frame. */
  lemma AcceptKeeps(s: State, input: Input, batchSize: int)
    requires QueueInv(s, batchSize)
    ensures var t := Accept(s, input, batchSize);
      && t == s.(accepted := s.accepted + [input], pending := s.pending + [|s.accepted|])
      && InOrder(t) && |t.pending| <= EffectiveBatch(batchSize)
  {
    var n := |s.accepted|;
    assert Count(n + 1) == Count(n) + [n];
    var f, p := Flat(s.portions), s.pending;
    assert f + (p + [n]) == (f + p) + [n];
  }

  lemma ReleaseKeeps(s: State, batchSize: int, full: bool, late: bool)
    requires InOrder(s) && BatchesFit(s.portions, EffectiveBatch(batchSize)) && |s.pending| <= EffectiveBatch(batchSize)
    requires full || |s.pending| < EffectiveBatch(batchSize)
    ensures QueueInv(Release(s, batchSize, full, late), batchSize)
    ensures DropsKept(s.portions, Release(s, batchSize, full, late).portions)
  {
    var k := BatchNow(|s.pending|, batchSize, full, late);
    if k > 0 {
      ExtractInOrder(s, k);
    }
  }

  predicate TouchesQueue(step: Step) { step.Process? || step.Tick? || step.Drop? }

  lemma ElsewhereKeeps(s: State, step: Step, batchSize: int)
    requires !TouchesQueue(step)
    ensures var t := Next(s, step, batchSize);
      t.accepted == s.accepted && t.pending == s.pending && t.portions == s.portions
  {}

  lemma DropKeeps(s: State, batchSize: int)
    requires QueueInv(s, batchSize) && s.pending != []
    ensures QueueInv(DropHead(s), batchSize)
  {
    DropInOrder(s);
  }

  lemma ProcessKeeps(s: State, input: Input, late: bool, batchSize: int)
    requires QueueInv(s, batchSize)
    ensures var t := Next(s, Process(Some(input), late), batchSize);
      QueueInv(t, batchSize) && DropsKept(s.portions, t.portions)
  {
    AcceptKeeps(s, input, batchSize);
    ReleaseKeeps(Accept(s, input, batchSize), batchSize, true, late);
  }

  lemma QueueStep(s: State, step: Step, batchSize: int)
    requires QueueInv(s, batchSize)
    ensures QueueInv(Next(s, step, batchSize), batchSize)
    ensures !step.Drop? ==> DropsKept(s.portions, Next(s, step, batchSize).portions)
  {
    if !TouchesQueue(step) {
      ElsewhereKeeps(s, step, batchSize);
      return;
    }
    match step
    case Process(input, late) =>
      if input.Some? {
        ProcessKeeps(s, input.value, late, batchSize);
      } else {
        ReleaseKeeps(s, batchSize, true, late);
      }
    case Tick(late) => ReleaseKeeps(s, batchSize, false, late);
    case Drop => if s.pending != [] { DropKeeps(s, batchSize); }
  }

  /** No portion was dropped in between. */
  ghost predicate DropsKept(before: seq<Portion>, after: seq<Portion>) {
    before <= after && forall i :: |before| <= i < |after| ==> after[i].Batch?
  }

  ghost predicate NoDrop(steps: seq<Step>) {
    forall i :: 0 <= i < |steps| ==> !steps[i].Drop?
  }

  /** On every run the queue stays short of a batch, the portions that left it and the queue
      together are the accepted frames in order, and nothing is dropped from it but by a stop. */
  lemma {:induction false} QueueAlwaysInOrder(steps: seq<Step>, batchSize: int)
    ensures QueueInv(Run(steps, batchSize), batchSize)
    ensures NoDrop(steps) ==> forall i :: 0 <= i < |Run(steps, batchSize).portions| ==>
      Run(steps, batchSize).portions[i].Batch?
  {
    if steps != [] {
      var k := |steps| - 1;
      QueueAlwaysInOrder(steps[..k], batchSize);
      QueueStep(Run(steps[..k], batchSize), steps[k], batchSize);
      var before, after := Run(steps[..k], batchSize).portions, Run(steps, batchSize).portions;
      if NoDrop(steps) {
        forall i | 0 <= i < |after| ensures after[i].Batch? {
          if i < |before| { assert after[i] == before[i]; }
        }
      }
    }
  }

  // ---------------------------------------------------------------- nothing waits past a deadline

  /** Ticket `t` has left the queue. */
  ghost predicate LeftQueue(s: State, t: nat) { exists i :: 0 <= i < |s.portions| && t in s.portions[i].tickets }

  lemma {:induction false} InFlat(portions: seq<Portion>, t: nat)
    requires t in Flat(portions)
    ensures exists i :: 0 <= i < |portions| && t in portions[i].tickets
  {
    var k := |portions| - 1;
    if t !in portions[k].tickets {
      InFlat(portions[..k], t);
      var i :| 0 <= i < k && t in portions[..k][i].tickets;
      assert portions[i] == portions[..k][i];
    }
  }

  /** A step at or past the deadline: of the flush thread, or of an incoming event. */
  predicate AtDeadline(step: Step) { (step.Tick? || step.Process?) && step.late }

  lemma EmptyMeansLeft(s: State, t: nat)
    requires InOrder(s) && s.pending == [] && t < |s.accepted|
    ensures LeftQueue(s, t)
  {
    assert Flat(s.portions) + s.pending == Flat(s.portions);
    assert Count(|s.accepted|)[t] == t;
    InFlat(s.portions, t);
  }

  lemma LateEmpties(s: State, step: Step, batchSize: int)
    requires QueueInv(s, batchSize) && AtDeadline(step)
    ensures Next(s, step, batchSize).pending == []
  {
    if step.Process? && step.input.Some? { AcceptKeeps(s, step.input.value, batchSize); }
  }

  /** What left the queue has left it for good. */
  lemma PortionsStay(s: State, step: Step, batchSize: int)
    ensures s.portions <= Next(s, step, batchSize).portions
  {}

  lemma StaysLeft(s: State, step: Step, batchSize: int, t: nat)
    requires LeftQueue(s, t)
    ensures LeftQueue(Next(s, step, batchSize), t)
  {
    var u := Next(s, step, batchSize);
    PortionsStay(s, step, batchSize);
    var x :| 0 <= x < |s.portions| && t in s.portions[x].tickets;
    assert u.portions[x] == s.portions[x];
  }

  lemma ReleasedNow(before: seq<Step>, step: Step, batchSize: int, t: nat)
    requires AtDeadline(step) && t < |Run(before + [step], batchSize).accepted|
    ensures LeftQueue(Run(before + [step], batchSize), t)
  {
    var steps := before + [step];
    assert steps[..|before|] == before;
    QueueAlwaysInOrder(before, batchSize);
    QueueAlwaysInOrder(steps, batchSize);
    LateEmpties(Run(before, batchSize), step, batchSize);
    EmptyMeansLeft(Run(steps, batchSize), t);
  }

  /** Once the deadline has been met by a step, every frame accepted until then has left the queue,
      whatever happens later. */
  lemma {:induction false} DeadlineReleases(steps: seq<Step>, batchSize: int, i: nat, t: nat)
    requires i < |steps| && AtDeadline(steps[i]) && t < |Run(steps[..i + 1], batchSize).accepted|
    ensures LeftQueue(Run(steps, batchSize), t)
  {
    var k := |steps| - 1;
    if i == k {
      assert steps[..k + 1] == steps == steps[..k] + [steps[k]];
      ReleasedNow(steps[..k], steps[k], batchSize, t);
    } else {
      assert steps[..k][..i + 1] == steps[..i + 1];
      DeadlineReleases(steps[..k], batchSize, i, t);
      StaysLeft(Run(steps[..k], batchSize), steps[k], batchSize, t);
    }
  }

  // ---------------------------------------------------------------- where every frame is

  datatype Place = Queued | Handed | InFlight | Answered | Out | Lost

  ghost predicate IsEmitted(emitted: seq<Emission>, t: nat) {
    exists i :: 0 <= i < |emitted| && emitted[i].ticket == t
  }

  ghost predicate At(s: State, t: nat, p: Place)
    requires t < |s.accepted|
  {
    match p
    case Queued => t in s.pending
    case Handed => t in s.waiting
    case InFlight => s.accepted[t].key in s.inflight && s.inflight[s.accepted[t].key] == t
    case Answered => t in s.taken
    case Out => IsEmitted(s.emitted, t)
    case Lost => t in s.lost
  }

  ghost predicate AtOnly(s: State, t: nat, p: Place)
    requires t < |s.accepted|
  {
    && (p.Queued? <==> At(s, t, Queued)) && (p.Handed? <==> At(s, t, Handed))
    && (p.InFlight? <==> At(s, t, InFlight)) && (p.Answered? <==> At(s, t, Answered))
    && (p.Out? <==> At(s, t, Out)) && (p.Lost? <==> At(s, t, Lost))
  }

  ghost predicate InOnePlace(s: State, t: nat)
    requires t < |s.accepted|
  {
    exists p :: AtOnly(s, t, p)
  }

  /** Only accepted frames are anywhere, and the table files each under its own key. */
  ghost predicate OwnKeys(s: State) {
    && (forall t :: t in s.pending || t in s.waiting || t in s.taken || t in s.lost ==> t < |s.accepted|)
    && (forall k :: k in s.inflight ==> s.inflight[k] < |s.accepted| && s.accepted[s.inflight[k]].key == k)
    && (forall i :: 0 <= i < |s.emitted| ==>
          s.emitted[i].ticket < |s.accepted| && s.accepted[s.emitted[i].ticket].key == s.emitted[i].key)
  }

  ghost predicate EmittedOnce(emitted: seq<Emission>) {
    forall i, j :: 0 <= i < j < |emitted| ==> emitted[i].ticket != emitted[j].ticket
  }

  ghost predicate PlaceInv(s: State) {
    && OwnKeys(s) && EmittedOnce(s.emitted)
    && forall t: nat :: t < |s.accepted| ==> InOnePlace(s, t)
  }

  lemma QueueTickets(s: State)
    requires InOrder(s)
    ensures |s.pending| <= |s.accepted|
    ensures forall i :: 0 <= i < |s.pending| ==> s.pending[i] == |s.accepted| - |s.pending| + i
  {
    var f := Flat(s.portions);
    forall i | 0 <= i < |s.pending| ensures s.pending[i] == |f| + i {
      assert (f + s.pending)[|f| + i] == s.pending[i];
    }
  }

  lemma PlaceOf(s: State, t: nat) returns (p: Place)
    requires PlaceInv(s) && t < |s.accepted|
    ensures AtOnly(s, t, p)
  {
    assert InOnePlace(s, t);
    p :| AtOnly(s, t, p);
  }

  lemma ExtractPlaces(s: State, k: nat)
    requires PlaceInv(s) && InOrder(s) && k <= |s.pending|
    ensures PlaceInv(Extract(s, k))
  {
    QueueTickets(s);
    var u := Extract(s, k);
    forall t: nat | t < |s.accepted| ensures InOnePlace(u, t) {
      var p := PlaceOf(s, t);
      assert AtOnly(u, t, if t in s.pending[..k] then Handed else p);
    }
  }

  lemma DropPlaces(s: State)
    requires PlaceInv(s) && InOrder(s) && s.pending != []
    ensures PlaceInv(DropHead(s))
  {
    QueueTickets(s);
    var u := DropHead(s);
    forall t: nat | t < |s.accepted| ensures InOnePlace(u, t) {
      var p := PlaceOf(s, t);
      assert AtOnly(u, t, if t == s.pending[0] then Lost else p);
    }
  }

  lemma AcceptPlaces(s: State, input: Input)
    requires PlaceInv(s)
    ensures PlaceInv(s.(accepted := s.accepted + [input], pending := s.pending + [|s.accepted|]))
  {
    var u := s.(accepted := s.accepted + [input], pending := s.pending + [|s.accepted|]);
    forall t: nat | t < |u.accepted| ensures InOnePlace(u, t) {
      if t == |s.accepted| {
        assert AtOnly(u, t, Queued);
      } else {
        var p := PlaceOf(s, t);
        assert AtOnly(u, t, p);
      }
    }
  }

  lemma InsertPlaces(s: State, n: nat)
    requires PlaceInv(s) && n in s.waiting && n < |s.accepted|
    ensures PlaceInv(Insert(s, n))
  {
    var u, k := Insert(s, n), s.accepted[n].key;
    forall t: nat | t < |s.accepted| ensures InOnePlace(u, t) {
      var p := PlaceOf(s, t);
      assert AtOnly(u, t, if t == n then InFlight else if k in s.inflight && s.inflight[k] == t then Lost else p);
    }
  }

  lemma AnswerPlaces(s: State, k: Key, batchSize: int)
    requires PlaceInv(s) && k in s.inflight
    ensures PlaceInv(Next(s, Answer(k), batchSize))
  {
    var u := Next(s, Answer(k), batchSize);
    forall t: nat | t < |s.accepted| ensures InOnePlace(u, t) {
      var p := PlaceOf(s, t);
      assert AtOnly(u, t, if t == s.inflight[k] then Answered else p);
    }
  }

  lemma EvictPlaces(s: State, k: Key, batchSize: int)
    requires PlaceInv(s) && k in s.inflight
    ensures PlaceInv(Next(s, Evict(k), batchSize))
  {
    var u := Next(s, Evict(k), batchSize);
    forall t: nat | t < |s.accepted| ensures InOnePlace(u, t) {
      var p := PlaceOf(s, t);
      assert AtOnly(u, t, if t == s.inflight[k] then Lost else p);
    }
  }

  lemma EmittedMore(emitted: seq<Emission>, e: Emission, t: nat)
    ensures IsEmitted(emitted + [e], t) <==> IsEmitted(emitted, t) || t == e.ticket
  {
    var more := emitted + [e];
    if t == e.ticket {
      assert more[|emitted|].ticket == t;
    } else if IsEmitted(emitted, t) {
      var i :| 0 <= i < |emitted| && emitted[i].ticket == t;
      assert more[i].ticket == t;
    }
  }

  lemma FinishPlaces(s: State, n: nat, batchSize: int)
    requires PlaceInv(s) && n in s.taken
    ensures PlaceInv(Next(s, Finish(n), batchSize))
  {
    var u := Next(s, Finish(n), batchSize);
    var q := PlaceOf(s, n);
    forall t: nat | t < |s.accepted| ensures InOnePlace(u, t) {
      var p := PlaceOf(s, t);
      if !s.draining {
        EmittedMore(s.emitted, Emission(n, s.accepted[n].key), t);
      }
      assert AtOnly(u, t, if t != n then p else if s.draining then Lost else Out);
    }
  }

  lemma ReleasePlaces(s: State, batchSize: int, full: bool, late: bool)
    requires PlaceInv(s) && InOrder(s)
    ensures PlaceInv(Release(s, batchSize, full, late))
  {
    var k := BatchNow(|s.pending|, batchSize, full, late);
    if k > 0 {
      ExtractPlaces(s, k);
    }
  }

  lemma ProcessPlaces(s: State, input: Input, late: bool, batchSize: int)
    requires PlaceInv(s) && QueueInv(s, batchSize)
    ensures PlaceInv(Next(s, Process(Some(input), late), batchSize))
  {
    AcceptKeeps(s, input, batchSize);
    AcceptPlaces(s, input);
    ReleasePlaces(Accept(s, input, batchSize), batchSize, true, late);
  }

  lemma PlaceStep(s: State, step: Step, batchSize: int)
    requires PlaceInv(s) && QueueInv(s, batchSize)
    ensures PlaceInv(Next(s, step, batchSize))
  {
    match step
    case Process(input, late) =>
      if input.Some? {
        ProcessPlaces(s, input.value, late, batchSize);
      } else {
        ReleasePlaces(s, batchSize, true, late);
      }
    case Tick(late) => ReleasePlaces(s, batchSize, false, late);
    case Submit(t) => if t in s.waiting { InsertPlaces(s, t); }
    case Answer(k) => if k in s.inflight { AnswerPlaces(s, k, batchSize); }
    case Finish(t) => if t in s.taken { FinishPlaces(s, t, batchSize); }
    case Evict(k) => if k in s.inflight { EvictPlaces(s, k, batchSize); }
    case Drop => if s.pending != [] { DropPlaces(s); }
    case Drain => FlagPlaces(s, true);
    case Restart => FlagPlaces(s, false);
  }

  lemma FlagPlaces(s: State, draining: bool)
    requires PlaceInv(s)
    ensures PlaceInv(s.(draining := draining))
  {
    var u := s.(draining := draining);
    forall t: nat | t < |s.accepted| ensures InOnePlace(u, t) {
      var p := PlaceOf(s, t);
      assert AtOnly(u, t, p);
    }
  }

  /** On every run each accepted frame is in exactly one place; what was emitted was emitted once,
      under its own key. */
  lemma {:induction false} EveryFrameInOnePlace(steps: seq<Step>, batchSize: int)
    ensures PlaceInv(Run(steps, batchSize))
  {
    if steps != [] {
      var k := |steps| - 1;
      EveryFrameInOnePlace(steps[..k], batchSize);
      QueueAlwaysInOrder(steps[..k], batchSize);
      PlaceStep(Run(steps[..k], batchSize), steps[k], batchSize);
    }
  }

  // ---------------------------------------------------------------- losses have a cause

  ghost predicate Occurs(steps: seq<Step>, step: Step) { step in steps }

  /** Another accepted frame carries the same key. */
  ghost predicate HasTwin(accepted: seq<Input>, t: nat)
    requires t < |accepted|
  {
    exists u: nat :: u < |accepted| && u != t && accepted[u].key == accepted[t].key
  }

  /** What a history must hold for frame `t` to be lost in this way. */
  ghost predicate Cause(steps: seq<Step>, accepted: seq<Input>, t: nat, why: Reason)
    requires t < |accepted|
  {
    match why
    case DroppedFromQueue => Occurs(steps, Drop)
    case Evicted => Occurs(steps, Evict(accepted[t].key))
    case Drained => Occurs(steps, Drain)
    case Replaced => HasTwin(accepted, t)
  }

  ghost predicate AllCaused(steps: seq<Step>, s: State) {
    && (s.draining ==> Occurs(steps, Drain))
    && forall t :: t in s.lost ==> t < |s.accepted| && Cause(steps, s.accepted, t, s.lost[t])
  }

  lemma AcceptedGrows(s: State, step: Step, batchSize: int)
    ensures s.accepted <= Next(s, step, batchSize).accepted
  {}

  lemma CauseStays(steps: seq<Step>, step: Step, accepted: seq<Input>, more: seq<Input>, t: nat, why: Reason)
    requires accepted <= more && t < |accepted| && Cause(steps, accepted, t, why)
    ensures Cause(steps + [step], more, t, why)
  {
    if why.Replaced? {
      var u: nat :| u < |accepted| && u != t && accepted[u].key == accepted[t].key;
      assert more[u].key == more[t].key;
    }
  }

  /** What one step adds to the losses, and why. */
  lemma LossOfStep(s: State, step: Step, batchSize: int, t: nat)
    requires QueueInv(s, batchSize) && PlaceInv(s) && t in Next(s, step, batchSize).lost
    ensures t < |Next(s, step, batchSize).accepted|
    ensures (t in s.lost && Next(s, step, batchSize).lost[t] == s.lost[t])
      || (s.accepted == Next(s, step, batchSize).accepted && NewLoss(s, step, t, Next(s, step, batchSize).lost[t]))
  {
    PlaceStep(s, step, batchSize);
    match step
    case Process(input, late) => if input.Some? { AcceptKeeps(s, input.value, batchSize); }
    case Submit(n) => if n in s.waiting && n < |s.accepted| { InsertLoses(s, n, t); }
    case _ =>
  }

  ghost predicate NewLoss(s: State, step: Step, t: nat, why: Reason) {
    t < |s.accepted| &&
    match why
    case DroppedFromQueue => step == Drop
    case Evicted => step == Evict(s.accepted[t].key)
    case Drained => s.draining
    case Replaced => HasTwin(s.accepted, t)
  }

  lemma InsertLoses(s: State, n: nat, t: nat)
    requires PlaceInv(s) && n in s.waiting && n < |s.accepted| && t in Insert(s, n).lost
    ensures (t in s.lost && Insert(s, n).lost[t] == s.lost[t])
      || (t < |s.accepted| && Insert(s, n).lost[t] == Replaced && HasTwin(s.accepted, t))
  {
    var k := s.accepted[n].key;
    if k in s.inflight && s.inflight[k] == t {
      var p := PlaceOf(s, n);
      assert n != t && s.accepted[n].key == s.accepted[t].key;
    }
  }

  lemma {:induction false} EveryLossCaused(steps: seq<Step>, batchSize: int)
    ensures AllCaused(steps, Run(steps, batchSize))
  {
    if steps != [] {
      var k := |steps| - 1;
      var before, step := steps[..k], steps[k];
      var s, u := Run(before, batchSize), Run(steps, batchSize);
      assert steps == before + [step];
      EveryLossCaused(before, batchSize);
      QueueAlwaysInOrder(before, batchSize);
      EveryFrameInOnePlace(before, batchSize);
      AcceptedGrows(s, step, batchSize);
      forall t | t in u.lost ensures t < |u.accepted| && Cause(steps, u.accepted, t, u.lost[t]) {
        LossOfStep(s, step, batchSize, t);
        if t in s.lost && u.lost[t] == s.lost[t] {
          CauseStays(before, step, s.accepted, u.accepted, t, s.lost[t]);
        }
      }
    }
  }

  /** On every run: a lost frame was dropped by a stop, evicted under its own key, discarded after
      a drain, or pushed out by another frame with its key. */
  lemma LossHasCause(steps: seq<Step>, batchSize: int, t: nat)
    requires t in Run(steps, batchSize).lost
    ensures t < |Run(steps, batchSize).accepted|
    ensures Cause(steps, Run(steps, batchSize).accepted, t, Run(steps, batchSize).lost[t])
  {
    EveryLossCaused(steps, batchSize);
  }

  // ---------------------------------------------------------------- keys in use

  /** Frame `t` is in the queue, in a batch or in the table. */
  ghost predicate IsLive(s: State, t: nat)
    requires t < |s.accepted|
  {
    At(s, t, Queued) || At(s, t, Handed) || At(s, t, InFlight)
  }

  ghost predicate KeyLive(s: State, k: Key) {
    exists t: nat :: t < |s.accepted| && s.accepted[t].key == k && IsLive(s, t)
  }

  /** No frame with key `k` was accepted while another one was live. */
  ghost predicate KeyFree(steps: seq<Step>, batchSize: int, k: Key) {
    forall i :: 0 <= i < |steps| && steps[i].Process? && steps[i].input.Some? && steps[i].input.value.key == k ==>
      !KeyLive(Run(steps[..i], batchSize), k)
  }

  ghost predicate OneLive(s: State, k: Key) {
    forall t: nat, u: nat :: t < u < |s.accepted| && s.accepted[t].key == k && s.accepted[u].key == k ==>
      !(IsLive(s, t) && IsLive(s, u))
  }

  /** No step brings a frame back to life. */
  lemma LiveOnlyBefore(s: State, step: Step, batchSize: int, t: nat)
    requires QueueInv(s, batchSize) && t < |s.accepted|
    ensures t < |Next(s, step, batchSize).accepted| && Next(s, step, batchSize).accepted[t] == s.accepted[t]
    ensures IsLive(Next(s, step, batchSize), t) ==> IsLive(s, t)
  {
    match step
    case Process(input, late) =>
      if input.Some? {
        AcceptKeeps(s, input.value, batchSize);
        var a := Accept(s, input.value, batchSize);
        ReleaseLives(a, batchSize, true, late, t);
        assert t in a.pending ==> t in s.pending;
      } else {
        ReleaseLives(s, batchSize, true, late, t);
      }
    case Tick(late) => ReleaseLives(s, batchSize, false, late, t);
    case _ =>
  }

  lemma ReleaseLives(s: State, batchSize: int, full: bool, late: bool, t: nat)
    requires t < |s.accepted|
    ensures IsLive(Release(s, batchSize, full, late), t) ==> IsLive(s, t)
  {}

  lemma OneLiveStep(s: State, step: Step, batchSize: int, k: Key)
    requires QueueInv(s, batchSize) && OneLive(s, k)
    requires step.Process? && step.input.Some? && step.input.value.key == k ==> !KeyLive(s, k)
    ensures OneLive(Next(s, step, batchSize), k)
  {
    var n := Next(s, step, batchSize);
    if step.Process? && step.input.Some? {
      AcceptKeeps(s, step.input.value, batchSize);
    }
    forall t: nat, u: nat | t < u < |n.accepted| && n.accepted[t].key == k && n.accepted[u].key == k
      ensures !(IsLive(n, t) && IsLive(n, u))
    {
      LiveOnlyBefore(s, step, batchSize, t);
      if u < |s.accepted| {
        LiveOnlyBefore(s, step, batchSize, u);
      }
    }
  }

  ghost predicate NoneReplaced(s: State, k: Key) {
    forall t :: t in s.lost && t < |s.accepted| && s.accepted[t].key == k ==> !s.lost[t].Replaced?
  }

  lemma NoneReplacedStep(s: State, step: Step, batchSize: int, k: Key)
    requires QueueInv(s, batchSize) && PlaceInv(s) && OneLive(s, k) && NoneReplaced(s, k)
    ensures NoneReplaced(Next(s, step, batchSize), k)
  {
    var u := Next(s, step, batchSize);
    AcceptedGrows(s, step, batchSize);
    forall t | t in u.lost && t < |u.accepted| && u.accepted[t].key == k ensures !u.lost[t].Replaced? {
      LossOfStep(s, step, batchSize, t);
      if step.Submit? && step.ticket in s.waiting && step.ticket < |s.accepted| {
        NotPushedOut(s, step.ticket, t, k);
      }
    }
  }

  lemma NotPushedOut(s: State, n: nat, t: nat, k: Key)
    requires PlaceInv(s) && OneLive(s, k) && n in s.waiting && n < |s.accepted|
    requires t in Insert(s, n).lost && t < |s.accepted| && s.accepted[t].key == k
    ensures t in s.lost && Insert(s, n).lost[t] == s.lost[t]
  {
    var p := PlaceOf(s, n);
    var k' := s.accepted[n].key;
    if k' in s.inflight && s.inflight[k'] == t {
      assert IsLive(s, n) && IsLive(s, t);
      assert false;
    }
  }

  /** A key that is never accepted while it is in use never costs a frame its place. */
  lemma {:induction false} FreeKeyNeverReplaced(steps: seq<Step>, batchSize: int, k: Key)
    requires KeyFree(steps, batchSize, k)
    ensures OneLive(Run(steps, batchSize), k) && NoneReplaced(Run(steps, batchSize), k)
  {
    if steps != [] {
      var n := |steps| - 1;
      var before := steps[..n];
      forall i | 0 <= i < n && before[i].Process? && before[i].input.Some? && before[i].input.value.key == k
        ensures !KeyLive(Run(before[..i], batchSize), k)
      {
        assert before[i] == steps[i] && before[..i] == steps[..i];
      }
      FreeKeyNeverReplaced(before, batchSize, k);
      QueueAlwaysInOrder(before, batchSize);
      EveryFrameInOnePlace(before, batchSize);
      OneLiveStep(Run(before, batchSize), steps[n], batchSize, k);
      NoneReplacedStep(Run(before, batchSize), steps[n], batchSize, k);
    }
  }

  /** A frame whose key is free when accepted, and that no stop, drain or eviction of its own key
      hits, is not lost, whatever happens to the others. */
  lemma NothingLost(steps: seq<Step>, batchSize: int, t: nat)
    requires t < |Run(steps, batchSize).accepted|
    requires KeyFree(steps, batchSize, Run(steps, batchSize).accepted[t].key)
    requires !Occurs(steps, Drop) && !Occurs(steps, Drain)
    requires !Occurs(steps, Evict(Run(steps, batchSize).accepted[t].key))
    ensures t !in Run(steps, batchSize).lost
  {
    var s := Run(steps, batchSize);
    FreeKeyNeverReplaced(steps, batchSize, s.accepted[t].key);
    if t in s.lost {
      LossHasCause(steps, batchSize, t);
    }
  }

  // ---------------------------------------------------------------- the stage as an object

  /** The inputs behind some tickets. */
  ghost predicate Holds(inputs: seq<Input>, tickets: seq<nat>, accepted: seq<Input>) {
    && |inputs| == |tickets|
    && forall i :: 0 <= i < |inputs| ==> tickets[i] < |accepted| && inputs[i] == accepted[tickets[i]]
  }

  ghost predicate TableHolds(inflight: map<Key, Input>, tickets: map<Key, nat>, accepted: seq<Input>) {
    && inflight.Keys == tickets.Keys
    && forall k :: k in inflight ==> tickets[k] < |accepted| && inflight[k] == accepted[tickets[k]]
  }

  ghost predicate Image(pending: seq<Input>, inflight: map<Key, Input>, draining: bool, s: State) {
    && Holds(pending, s.pending, s.accepted) && TableHolds(inflight, s.inflight, s.accepted) && draining == s.draining
  }

  ghost predicate Rising(tickets: seq<nat>) {
    forall i, j :: 0 <= i < j < |tickets| ==> tickets[i] < tickets[j]
  }

  /** A batch and the frames behind its tickets, handed to a thread that has yet to submit them. */
  ghost predicate InHand(batch: seq<Input>, tickets: seq<nat>, s: State) {
    Holds(batch, tickets, s.accepted) && Rising(tickets) && forall t :: t in tickets ==> t in s.waiting
  }

  /** The part of a batch from `i` on is still to be submitted. */
  ghost predicate LeftInHand(batch: seq<Input>, tickets: seq<nat>, i: nat, s: State) {
    && Holds(batch, tickets, s.accepted) && Rising(tickets)
    && forall j :: i <= j < |tickets| ==> tickets[j] in s.waiting
  }

  lemma NextInHand(batch: seq<Input>, tickets: seq<nat>, i: nat, s: State)
    requires i < |batch| && LeftInHand(batch, tickets, i, s)
    ensures forall t: State :: t.accepted == s.accepted && t.waiting == s.waiting - {tickets[i]} ==>
      LeftInHand(batch, tickets, i + 1, t)
  {}

  /** The table `now` is `before` with the first `n` of a batch entered in their order: of several with one
      key the last one stays, and no other key is touched. */
  ghost predicate Filed(batch: seq<Input>, n: nat, before: map<Key, Input>, now: map<Key, Input>) {
    && (forall i :: 0 <= i < n && i < |batch| ==> batch[i].key in now)
    && (forall i :: 0 <= i < n && LastOfKey(batch, n, i) ==> batch[i].key in now && now[batch[i].key] == batch[i])
    && (forall k :: k in now && k !in before ==> Uses(batch, n, k))
    && (forall k :: k in before && !Uses(batch, n, k) ==> k in now && now[k] == before[k])
  }

  ghost predicate Uses(batch: seq<Input>, n: nat, k: Key) {
    exists i :: 0 <= i < n && i < |batch| && batch[i].key == k
  }

  ghost predicate LastOfKey(batch: seq<Input>, n: nat, i: nat) {
    && i < |batch|
    && forall j :: i < j < n && j < |batch| ==> batch[j].key != batch[i].key
  }

  lemma FiledMore(batch: seq<Input>, n: nat, before: map<Key, Input>, now: map<Key, Input>)
    requires n < |batch| && Filed(batch, n, before, now)
    ensures Filed(batch, n + 1, before, now[batch[n].key := batch[n]])
  {
    var next := now[batch[n].key := batch[n]];
    forall i | 0 <= i < n + 1 && LastOfKey(batch, n + 1, i)
      ensures batch[i].key in next && next[batch[i].key] == batch[i]
    {
      assert LastOfKey(batch, n, i);
    }
    forall k | k in next && k !in before ensures Uses(batch, n + 1, k) {
      if k != batch[n].key {
        var i :| 0 <= i < n && i < |batch| && batch[i].key == k;
        assert batch[i].key == k;
      }
    }
    forall k | k in before && !Uses(batch, n + 1, k) ensures k in next && next[k] == before[k] {
      assert k != batch[n].key;
      assert !Uses(batch, n, k);
    }
  }

  lemma ImageAccept(pending: seq<Input>, inflight: map<Key, Input>, draining: bool, s: State, input: Input,
                    batchSize: int)
    requires Image(pending, inflight, draining, s) && QueueInv(s, batchSize)
    ensures Room(pending, MaxPending(batchSize)) == pending
    ensures Image(pending + [input], inflight, draining, Accept(s, input, batchSize))
    ensures InOrder(Accept(s, input, batchSize))
  {
    AcceptKeeps(s, input, batchSize);
  }

  lemma ImageExtract(batch: seq<Input>, rest: seq<Input>, inflight: map<Key, Input>, draining: bool, s: State)
    requires Image(batch + rest, inflight, draining, s) && InOrder(s)
    ensures Image(rest, inflight, draining, Extract(s, |batch|))
    ensures InHand(batch, s.pending[..|batch|], Extract(s, |batch|))
  {
    QueueTickets(s);
    var all := batch + rest;
    assert forall i :: 0 <= i < |batch| ==> all[i] == batch[i];
    assert forall i :: 0 <= i < |rest| ==> all[|batch| + i] == rest[i];
  }

  lemma RunMore(steps: seq<Step>, step: Step, batchSize: int)
    ensures Run(steps + [step], batchSize) == Next(Run(steps, batchSize), step, batchSize)
  {
    assert (steps + [step])[..|steps|] == steps;
  }

  function Room(pending: seq<Input>, maxPending: nat): seq<Input> {
    if |pending| >= maxPending && pending != [] then pending[1..] else pending
  }

  class InferEngineWorkerStage {
    const batchSize: int
    const maxPending: nat
    var pending: seq<Input>
    var inflight: map<Key, Input>
    var draining: bool
    ghost var history: seq<Step>

    ghost function Now(): State reads this { Run(history, batchSize) }

    /** The fields are those of the run so far. */
    ghost predicate Valid() reads this {
      && maxPending == MaxPending(batchSize)
      && Image(pending, inflight, draining, Now())
    }

    constructor (batchSize: int)
      ensures Valid() && history == [] && this.batchSize == batchSize
    {
      this.batchSize, maxPending := batchSize, MaxPending(batchSize);
      pending, inflight, draining, history := [], map[], false, [];
    }

    ghost method Record(step: Step)
      modifies this`history
      ensures history == old(history) + [step] && Now() == Next(old(Now()), step, batchSize)
    {
      RunMore(history, step, batchSize);
      history := history + [step];
    }

    /** `extractBatch` */
    method ExtractBatch(count: nat) returns (batch: seq<Input>)
      modifies this`pending
      ensures batch + pending == old(pending)
      ensures |batch| == if count < |old(pending)| then count else |old(pending)|
    {
      var n := if count < |pending| then count else |pending|;
      batch := [];
      while |batch| < n
        invariant |batch| <= n && batch + pending == old(pending)
        decreases n - |batch|
      {
        batch := batch + [pending[0]];
        pending := pending[1..];
      }
    }

    /** How many of `n` queued frames leave now: a batch, or what there is of one, if it is late or a
        full one is looked for and there. */
    ghost function Due(n: nat, full: bool, late: bool): nat {
      var size := if batchSize > 1 then batchSize else 1;
      if late || (full && n >= size) then (if n < size then n else size) else 0
    }

    /** The end of both locked sections: a full or a late batch leaves the queue. */
    method ReleaseBatch(full: bool, late: bool, ghost s: State) returns (batch: seq<Input>, ghost tickets: seq<nat>)
      requires Image(pending, inflight, draining, s) && InOrder(s)
      modifies this`pending
      ensures Image(pending, inflight, draining, Release(s, batchSize, full, late))
      ensures InHand(batch, tickets, Release(s, batchSize, full, late))
      ensures batch + pending == old(pending)
      ensures |batch| == Due(|old(pending)|, full, late)
    {
      batch, tickets := [], [];
      if pending != [] {
        var size := EffectiveBatch(batchSize);
        if (full && |pending| >= size) || late {
          batch := ExtractBatch(if |pending| < size then |pending| else size);
          tickets := s.pending[..|batch|];
          ImageExtract(batch, pending, inflight, draining, s);
        }
      }
    }

    /** The locked section of `process`; the caller then submits the batch. */
    method Process(input: Option<Input>, late: bool) returns (batch: seq<Input>, ghost tickets: seq<nat>)
      requires Valid()
      modifies this
      ensures Valid() && history == old(history) + [Step.Process(input, late)]
      ensures batch + pending == old(pending) + if input.Some? then [input.value] else []
      ensures var n, size := |old(pending)| + (if input.Some? then 1 else 0), if batchSize > 1 then batchSize else 1;
        |batch| == if n >= size then size else if late then n else 0
      ensures InHand(batch, tickets, Now())
    {
      QueueAlwaysInOrder(history, batchSize);
      ghost var s := Now();
      Record(Step.Process(input, late));
      if input.Some? {
        ImageAccept(pending, inflight, draining, s, input.value, batchSize);
        pending := Room(pending, maxPending) + [input.value];
        s := Accept(s, input.value, batchSize);
      }
      batch, tickets := ReleaseBatch(true, late, s);
    }

    /** The locked section of one turn of `flushLoop`. */
    method FlushTick(late: bool) returns (batch: seq<Input>, ghost tickets: seq<nat>)
      requires Valid()
      modifies this
      ensures Valid() && history == old(history) + [Tick(late)]
      ensures if late then batch == old(pending) && pending == [] else batch == [] && pending == old(pending)
      ensures InHand(batch, tickets, Now())
    {
      QueueAlwaysInOrder(history, batchSize);
      ghost var s := Now();
      Record(Tick(late));
      batch, tickets := ReleaseBatch(false, late, s);
    }

    method InsertOne(input: Input, ghost ticket: nat)
      requires Valid() && ticket in Now().waiting && ticket < |Now().accepted| && input == Now().accepted[ticket]
      modifies this`inflight, this`history
      ensures Valid() && history == old(history) + [Submit(ticket)]
      ensures inflight == old(inflight)[input.key := input]
      ensures Now().accepted == old(Now().accepted) && Now().waiting == old(Now().waiting) - {ticket}
    {
      Record(Submit(ticket));
      inflight := inflight[input.key := input];
    }

    method FileNext(batch: seq<Input>, ghost tickets: seq<nat>, i: nat, ghost start: seq<Step>,
                    ghost before: map<Key, Input>)
      requires Valid() && i < |batch| && LeftInHand(batch, tickets, i, Now()) && Filed(batch, i, before, inflight)
      requires i < |tickets| && history == start + Submissions(tickets[..i])
      modifies this`inflight, this`history
      ensures Valid() && history == start + Submissions(tickets[..i + 1])
      ensures LeftInHand(batch, tickets, i + 1, Now()) && Filed(batch, i + 1, before, inflight)
    {
      NextInHand(batch, tickets, i, Now());
      FiledMore(batch, i, before, inflight);
      OneMoreSubmission(tickets, i);
      InsertOne(batch[i], tickets[i]);
    }

    /** The locked section of `flushToWorkers`: every frame of the batch is in the table before
        the batch goes to the workers. */
    method FlushToWorkers(batch: seq<Input>, ghost tickets: seq<nat>)
      requires Valid() && InHand(batch, tickets, Now())
      modifies this`inflight, this`history
      ensures Valid() && history == old(history) + Submissions(tickets)
      ensures Filed(batch, |batch|, old(inflight), inflight)
    {
      ghost var start, before := history, inflight;
      var i := 0;
      while i < |batch|
        invariant 0 <= i <= |batch| == |tickets| && Valid()
        invariant history == start + Submissions(tickets[..i])
        invariant LeftInHand(batch, tickets, i, Now()) && Filed(batch, i, before, inflight)
      {
        FileNext(batch, tickets, i, start, before);
        i := i + 1;
      }
      assert tickets[..i] == tickets;
    }

    /** The locked section of `onInferResult`. */
    method TakeInflight(key: Key) returns (taken: Option<Input>, ghost ticket: nat)
      requires Valid()
      modifies this
      ensures Valid() && history == old(history) + [Answer(key)] && inflight == old(inflight) - {key}
      ensures taken == if key in old(inflight) then Some(old(inflight)[key]) else None
      ensures taken.Some? ==>
        ticket in Now().taken && ticket < |Now().accepted| && taken.value == Now().accepted[ticket]
    {
      ghost var s := Now();
      Record(Answer(key));
      taken, ticket := None, 0;
      if key in inflight {
        taken, ticket := Some(inflight[key]), s.inflight[key];
        inflight := inflight - {key};
      }
    }

    /** The rest of `onInferResult`: the envelope leaves through its own emit function, unless
        the graph is draining. */
    method Finish(input: Input, ghost ticket: nat) returns (emitted: Option<Input>)
      requires Valid() && ticket in Now().taken && ticket < |Now().accepted| && input == Now().accepted[ticket]
      modifies this
      ensures Valid() && history == old(history) + [Step.Finish(ticket)]
      ensures emitted == if old(draining) then None else Some(input)
      ensures Now().emitted == old(Now().emitted) + if emitted.Some? then [Emission(ticket, input.key)] else []
    {
      Record(Step.Finish(ticket));
      emitted := if draining then None else Some(input);
    }

    method EraseOne(key: Key)
      requires Valid() && key in inflight
      modifies this`inflight, this`history
      ensures Valid() && inflight == old(inflight) - {key} && history == old(history) + [Evict(key)]
    {
      Record(Evict(key));
      inflight := inflight - {key};
    }

    /** `sweepStaleInflightLocked`, and the clearing of the table in `stop` with every key. */
    method Sweep(stale: set<Key>) returns (ghost order: seq<Key>)
      requires Valid()
      modifies this`inflight, this`history
      ensures Valid() && inflight == old(inflight) - stale && history == old(history) + Evictions(order)
    {
      order := [];
      var left := inflight.Keys;
      while left != {}
        invariant Valid() && left <= old(inflight.Keys) && Swept(inflight, old(inflight), left, stale)
        invariant history == old(history) + Evictions(order)
        decreases left
      {
        var k :| k in left;
        if k in stale {
          EraseOne(k);
          OneMoreEviction(order, k);
          order := order + [k];
        }
        left := left - {k};
      }
    }

    /** The clearing of the queue in `stop`. */
    method ClearPending()
      requires Valid()
      modifies this
      ensures Valid() && pending == []
      ensures history == old(history) + seq(|old(pending)|, _ => Drop)
    {
      while pending != []
        invariant Valid() && |pending| <= |old(pending)|
        invariant history == old(history) + seq(|old(pending)| - |pending|, _ => Drop)
        decreases |pending|
      {
        ghost var done := |old(pending)| - |pending|;
        Record(Drop);
        assert seq(done + 1, _ => Drop) == seq(done, _ => Drop) + [Drop];
        pending := pending[1..];
      }
    }

    /** `onGraphExecutorDraining`, and its reset in `start`. */
    method SetDraining(value: bool)
      requires Valid()
      modifies this
      ensures Valid() && draining == value && history == old(history) + [if value then Drain else Restart]
    {
      Record(if value then Drain else Restart);
      draining := value;
    }
  }

  /** The stale keys that have been visited are gone. */
  ghost predicate Swept(now: map<Key, Input>, before: map<Key, Input>, left: set<Key>, stale: set<Key>) {
    && (forall k :: k in now <==> k in before && (k in left || k !in stale))
    && (forall k :: k in now ==> now[k] == before[k])
  }

  lemma OneMoreEviction(keys: seq<Key>, k: Key)
    ensures Evictions(keys + [k]) == Evictions(keys) + [Evict(k)]
  {}

  lemma OneMoreSubmission(tickets: seq<nat>, i: nat)
    requires i < |tickets|
    ensures Submissions(tickets[..i + 1]) == Submissions(tickets[..i]) + [Submit(tickets[i])]
  {}

  ghost function Submissions(tickets: seq<nat>): seq<Step> {
    seq(|tickets|, i requires 0 <= i < |tickets| => Submit(tickets[i]))
  }

  ghost function Evictions(keys: seq<Key>): seq<Step> {
    seq(|keys|, i requires 0 <= i < |keys| => Evict(keys[i]))
  }
}
