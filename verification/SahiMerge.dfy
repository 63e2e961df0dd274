/**
 Aggregation of tile results (src/pipeline/stages/SahiMergeStage.cpp:66-174), fed by the tiles
 the scheduler emits (src/pipeline/stages/SahiSchedulerStage.cpp:164-218).  Each locked section
 is one step; staleness is decided by the clock, so a sweep may drop any set of entries.
 */
module SahiMerge {
  import opened Geometry
  import opened Permutations
  import opened Nms

  datatype Key = Key(stream: string, parentSeq: nat)

  /** One tile result; `index` is its place in the scheduler's list and is not looked at; `rest`
      stands for the fields of the inference result other than detections and frame number. */
  datatype Tile = Tile(
    key: Key, index: nat, expected: int, x: int, y: int,
    dets: seq<Detection>, rest: nat, parentFrame: Option<nat>, frame: nat, eventId: string)

  datatype Pending = Pending(
    received: int, expected: int, dets: seq<Detection>, rest: nat, parentFrame: Option<nat>, eventId: string)

  /** A completed parent frame before suppression; its frame number is that of the key. */
  datatype Merged = Merged(key: Key, eventId: string, rest: nat, frame: nat, raw: seq<Detection>)

  function Translate(d: Detection, x: int, y: int): Detection {
    var b := d.bbox;
    d.(bbox := BBox(b.x1 + x as real, b.y1 + y as real, b.x2 + x as real, b.y2 + y as real))
  }

  function Mapped(ds: seq<Detection>, x: int, y: int): seq<Detection> {
    if ds == [] then [] else Mapped(ds[..|ds| - 1], x, y) + [Translate(ds[|ds| - 1], x, y)]
  }

  function OfTile(t: Tile): seq<Detection> { Mapped(t.dets, t.x, t.y) }

  /** `r` is `d` with its box moved right by `x` and down by `y`. */
  ghost predicate MovedTo(d: Detection, x: int, y: int, r: Detection) {
    && r.classId == d.classId && r.confidence == d.confidence && r.attributes == d.attributes && r.trackId == d.trackId
    && r.bbox.x1 == d.bbox.x1 + x as real && r.bbox.x2 == d.bbox.x2 + x as real
    && r.bbox.y1 == d.bbox.y1 + y as real && r.bbox.y2 == d.bbox.y2 + y as real
  }

  /** The detections of a tile, each moved by the tile's corner. */
  ghost predicate PlacedBy(t: Tile, rs: seq<Detection>) {
    |rs| == |t.dets| && forall i :: 0 <= i < |rs| ==> MovedTo(t.dets[i], t.x, t.y, rs[i])
  }

  lemma {:induction false} MappedIs(ds: seq<Detection>, x: int, y: int)
    ensures |Mapped(ds, x, y)| == |ds| && forall i :: 0 <= i < |ds| ==> MovedTo(ds[i], x, y, Mapped(ds, x, y)[i])
  {
    if ds != [] {
      MappedIs(ds[..|ds| - 1], x, y);
    }
  }

  /** What a tile with its corner at (`x`, `y`) sees of a box of the parent frame. */
  ghost function SeenFrom(box: BBox, x: int, y: int): BBox {
    BBox(box.x1 - x as real, box.y1 - y as real, box.x2 - x as real, box.y2 - y as real)
  }

  /** The same box of the parent frame, seen in two tiles, comes out as the same box. */
  lemma SeenTwice(t: Tile, u: Tile, i: nat, j: nat, box: BBox)
    requires i < |t.dets| && j < |u.dets|
    requires t.dets[i].bbox == SeenFrom(box, t.x, t.y) && u.dets[j].bbox == SeenFrom(box, u.x, u.y)
    ensures |OfTile(t)| == |t.dets| && |OfTile(u)| == |u.dets|
    ensures OfTile(t)[i].bbox == box == OfTile(u)[j].bbox
  {
    MappedIs(t.dets, t.x, t.y);
    MappedIs(u.dets, u.x, u.y);
  }

  const EMPTY := Pending(0, 0, [], 0, None, "")

  /** The pending state with one more tile. */
  function Absorb(s: Pending, t: Tile): Pending {
    var first := s.received == 0;
    Pending(
      s.received + 1,
      if first then if t.expected < 1 then 1 else t.expected else s.expected,
      s.dets + OfTile(t),
      if first then t.rest else s.rest,
      if t.parentFrame.Some? && s.parentFrame.None? then t.parentFrame else s.parentFrame,
      if first then t.eventId else s.eventId)
  }

  datatype Outcome = Outcome(pending: map<Key, Pending>, done: Option<Merged>)

  function Deliver(pending: map<Key, Pending>, t: Tile): Outcome {
    var s := Absorb(if t.key in pending then pending[t.key] else EMPTY, t);
    if s.received >= s.expected
    then Outcome(pending - {t.key}, Some(Merged(t.key, s.eventId, s.rest,
         if s.parentFrame.Some? then s.parentFrame.value else t.frame, s.dets)))
    else Outcome(pending[t.key := s], None)
  }

  // ---------------------------------------------------------------- the stage as an object

  class SahiMergeStage {
    const cfg: MergeConfig
    var pending: map<Key, Pending>

    constructor (cfg: MergeConfig)
      ensures this.cfg == cfg && pending == map[]
    {
      this.cfg := cfg;
      pending := map[];
    }

    /** `sweepStale`: erases the entries the clock calls stale. */
    method SweepStale(stale: set<Key>)
      modifies this`pending
      ensures pending == old(pending) - stale
    {
      var left := pending.Keys;
      while left != {}
        invariant left <= old(pending.Keys)
        invariant pending == old(pending) - ((old(pending.Keys) - left) * stale)
        decreases left
      {
        var k :| k in left;
        if k in stale {
          pending := pending - {k};
        }
        left := left - {k};
      }
    }

    /** The loop that moves a tile's detections to the parent's coordinates. */
    method Translated(before: seq<Detection>, t: Tile) returns (dets: seq<Detection>)
      ensures dets == before + OfTile(t) && PlacedBy(t, dets[|before|..])
    {
      MappedIs(t.dets, t.x, t.y);
      dets := before;
      var i := 0;
      while i < |t.dets|
        invariant 0 <= i <= |t.dets| && dets == before + Mapped(t.dets[..i], t.x, t.y)
      {
        assert t.dets[..i + 1][..i] == t.dets[..i];
        dets := dets + [Translate(t.dets[i], t.x, t.y)];
        i := i + 1;
      }
      assert t.dets[..i] == t.dets;
    }

    /** The second locked section of `process`: the translated detections join the parent's,
        and the last tile releases them through suppression. */
    method Process(t: Tile) returns (merged: Option<Merged>, kept: seq<Detection>)
      modifies this`pending
      ensures Outcome(pending, merged) == Deliver(old(pending), t)
      ensures merged.Some? ==> IsMerge(cfg, merged.value.raw, kept)
    {
      merged, kept := None, [];
      var s := if t.key in pending then pending[t.key] else EMPTY;
      if s.received == 0 {
        s := s.(expected := if t.expected < 1 then 1 else t.expected, rest := t.rest, eventId := t.eventId);
      }
      if t.parentFrame.Some? && s.parentFrame.None? {
        s := s.(parentFrame := t.parentFrame);
      }
      var dets := Translated(s.dets, t);
      s := s.(dets := dets, received := s.received + 1);
      if s.received >= s.expected {
        var frame := if s.parentFrame.Some? then s.parentFrame.value else t.frame;
        pending := pending - {t.key};
        merged := Some(Merged(t.key, s.eventId, s.rest, frame, s.dets));
        kept := RunNms(cfg, s.dets);
      } else {
        pending := pending[t.key := s];
      }
    }
  }

  // ---------------------------------------------------------------- every interleaving

  datatype Step = Sweep(stale: set<Key>) | Arrive(tile: Tile)

  datatype State = State(pending: map<Key, Pending>, out: seq<Merged>)

  function Next(s: State, step: Step): State {
    match step
    case Sweep(stale) => State(s.pending - stale, s.out)
    case Arrive(t) =>
      var r := Deliver(s.pending, t);
      State(r.pending, match r.done case Some(m) => s.out + [m] case None => s.out)
  }

  function Run(steps: seq<Step>): State {
    if steps == [] then State(map[], []) else Next(Run(steps[..|steps| - 1]), steps[|steps| - 1])
  }

  /** The tiles of one parent, in order of arrival. */
  ghost function Arrivals(steps: seq<Step>, key: Key): seq<Tile> {
    if steps == [] then [] else
    var k := |steps| - 1;
    var before := Arrivals(steps[..k], key);
    if steps[k].Arrive? && steps[k].tile.key == key then before + [steps[k].tile] else before
  }

  ghost function Emissions(out: seq<Merged>, key: Key): seq<Merged> {
    if out == [] then [] else
    var k := |out| - 1;
    var before := Emissions(out[..k], key);
    if out[k].key == key then before + [out[k]] else before
  }

  /** The scheduler's tiles for one parent: numbered, all announcing the same count, the first
      carrying the parent frame. */
  ghost predicate IsPlan(tiles: seq<Tile>, key: Key) {
    && |tiles| >= 1
    && (forall i :: 0 <= i < |tiles| ==>
          tiles[i].key == key && tiles[i].index == i && tiles[i].expected == |tiles|)
    && (forall i :: 0 <= i < |tiles| ==> (tiles[i].parentFrame.Some? <==> i == 0))
  }

  /** Every arrival is one of the plan's tiles and none arrives twice. */
  ghost predicate FromPlan(arrivals: seq<Tile>, plan: seq<Tile>) {
    && (forall i :: 0 <= i < |arrivals| ==> arrivals[i].index < |plan| && arrivals[i] == plan[arrivals[i].index])
    && (forall i, j :: 0 <= i < j < |arrivals| ==> arrivals[i].index != arrivals[j].index)
  }

  ghost function Indexes(tiles: seq<Tile>): (r: seq<nat>)
    ensures |r| == |tiles| && forall i :: 0 <= i < |tiles| ==> r[i] == tiles[i].index
  {
    seq(|tiles|, i requires 0 <= i < |tiles| => tiles[i].index)
  }

  lemma ArrivalsFit(arrivals: seq<Tile>, plan: seq<Tile>)
    requires FromPlan(arrivals, plan)
    ensures |arrivals| <= |plan|
    ensures |arrivals| == |plan| ==> IsPerm(Indexes(arrivals), |plan|)
  {
    PigeonHole(Indexes(arrivals), |plan|);
  }

  /** Whatever is swept in between: a parent that was emitted has had all its tiles, and a
      pending one has had at least the tiles it counts. */
  ghost predicate AtMostOnce(s: State, arrivals: seq<Tile>, plan: seq<Tile>, key: Key) {
    && |Emissions(s.out, key)| <= 1
    && (|Emissions(s.out, key)| == 1 ==> |arrivals| == |plan| && key !in s.pending)
    && (key in s.pending ==>
          1 <= s.pending[key].received < s.pending[key].expected == |plan| && s.pending[key].received <= |arrivals|)
  }

  lemma {:induction false} EmittedAtMostOnce(steps: seq<Step>, plan: seq<Tile>, key: Key)
    requires IsPlan(plan, key) && FromPlan(Arrivals(steps, key), plan)
    ensures AtMostOnce(Run(steps), Arrivals(steps, key), plan, key)
  {
    if steps != [] {
      var k := |steps| - 1;
      var before, step := Run(steps[..k]), steps[k];
      ArrivalsFit(Arrivals(steps, key), plan);
      PrefixFromPlan(steps, plan, key);
      EmittedAtMostOnce(steps[..k], plan, key);
      match step
      case Sweep(_) =>
      case Arrive(t) =>
        EmissionsGrow(before, t, key);
        if t.key == key {
          assert Arrivals(steps, key)[|Arrivals(steps[..k], key)|] == t;
        }
    }
  }

  lemma PrefixFromPlan(steps: seq<Step>, plan: seq<Tile>, key: Key)
    requires steps != [] && FromPlan(Arrivals(steps, key), plan)
    ensures FromPlan(Arrivals(steps[..|steps| - 1], key), plan)
  {
    var a, b := Arrivals(steps, key), Arrivals(steps[..|steps| - 1], key);
    assert forall i :: 0 <= i < |b| ==> a[i] == b[i];
  }

  lemma EmissionsGrow(s: State, t: Tile, key: Key)
    ensures Emissions(Next(s, Arrive(t)).out, key) ==
      match Deliver(s.pending, t).done {
        case Some(m) => if m.key == key then Emissions(s.out, key) + [m] else Emissions(s.out, key)
        case None => Emissions(s.out, key)
      }
  {
    var r := Deliver(s.pending, t);
    if r.done.Some? {
      assert (s.out + [r.done.value])[..|s.out|] == s.out;
    }
  }

  // ---------------------------------------------------------------- runs that evict the parent, or not

  /** Some sweep takes the parent's entry away. */
  ghost predicate SweptAway(steps: seq<Step>, key: Key) {
    exists i :: 0 <= i < |steps| && SweepsAt(steps, i, key)
  }

  ghost predicate SweepsAt(steps: seq<Step>, i: nat, key: Key)
    requires i < |steps|
  {
    steps[i].Sweep? && key in steps[i].stale && key in Run(steps[..i]).pending
  }

  lemma SweptAwayMore(steps: seq<Step>, key: Key)
    requires steps != []
    ensures SweptAway(steps, key) <==> SweptAway(steps[..|steps| - 1], key) || SweepsAt(steps, |steps| - 1, key)
  {
    var k := |steps| - 1;
    forall i | 0 <= i < k ensures SweepsAt(steps, i, key) <==> SweepsAt(steps[..k], i, key) {
      assert steps[..k][..i] == steps[..i] && steps[..k][i] == steps[i];
    }
  }

  /** A tile was lost: nothing was emitted, and what is pending is short of what arrived. */
  ghost predicate Short(s: State, arrivals: seq<Tile>, plan: seq<Tile>, key: Key) {
    && Emissions(s.out, key) == [] && arrivals != []
    && (key in s.pending ==> s.pending[key].expected == |plan| && 1 <= s.pending[key].received < |arrivals|)
  }

  lemma ShortStays(s: State, t: Tile, arrivals: seq<Tile>, plan: seq<Tile>, key: Key)
    requires IsPlan(plan, key) && FromPlan(arrivals + [t], plan) && t.key == key && Short(s, arrivals, plan, key)
    ensures Short(Next(s, Arrive(t)), arrivals + [t], plan, key)
  {
    var now := arrivals + [t];
    ArrivalsFit(now, plan);
    assert t.expected == |plan| by { assert now[|arrivals|] == t; }
    EmissionsGrow(s, t, key);
  }

  lemma {:induction false} SweptIsShort(steps: seq<Step>, plan: seq<Tile>, key: Key)
    requires IsPlan(plan, key) && FromPlan(Arrivals(steps, key), plan) && SweptAway(steps, key)
    ensures Short(Run(steps), Arrivals(steps, key), plan, key)
  {
    var k := |steps| - 1;
    var before, step := Run(steps[..k]), steps[k];
    PrefixFromPlan(steps, plan, key);
    SweptAwayMore(steps, key);
    if SweptAway(steps[..k], key) {
      SweptIsShort(steps[..k], plan, key);
      if step.Arrive? {
        if step.tile.key == key {
          ShortStays(before, step.tile, Arrivals(steps[..k], key), plan, key);
        } else {
          EmissionsGrow(before, step.tile, key);
        }
      }
    } else {
      HeldUntilLast(steps[..k], plan, key);
    }
  }

  ghost function Collected(arrivals: seq<Tile>): seq<Detection> {
    if arrivals == [] then [] else Collected(arrivals[..|arrivals| - 1]) + OfTile(arrivals[|arrivals| - 1])
  }

  ghost function ParentOf(arrivals: seq<Tile>): Option<nat> {
    if arrivals == [] then None else
    var before := ParentOf(arrivals[..|arrivals| - 1]);
    if before.Some? then before else arrivals[|arrivals| - 1].parentFrame
  }

  ghost function Held(arrivals: seq<Tile>, plan: seq<Tile>): Pending
    requires arrivals != []
  {
    Pending(|arrivals|, |plan|, Collected(arrivals), arrivals[0].rest, ParentOf(arrivals), arrivals[0].eventId)
  }

  ghost function Released(arrivals: seq<Tile>, plan: seq<Tile>, key: Key): Merged
    requires arrivals != [] && IsPlan(plan, key)
  {
    Merged(key, arrivals[0].eventId, arrivals[0].rest, plan[0].parentFrame.value, Collected(arrivals))
  }

  /** Before the last tile everything that arrived is held; at the last tile it is emitted, once. */
  ghost predicate Progress(s: State, arrivals: seq<Tile>, plan: seq<Tile>, key: Key)
    requires IsPlan(plan, key)
  {
    && (key in s.pending <==> 0 < |arrivals| < |plan|)
    && (0 < |arrivals| < |plan| ==> s.pending[key] == Held(arrivals, plan))
    && Emissions(s.out, key) == if |arrivals| >= |plan| then [Released(arrivals, plan, key)] else []
  }

  /** The parent frame travels with tile 0, whenever that arrives. */
  lemma {:induction false} ParentSeen(arrivals: seq<Tile>, plan: seq<Tile>, key: Key)
    requires IsPlan(plan, key) && FromPlan(arrivals, plan)
    ensures ParentOf(arrivals) == if 0 in Indexes(arrivals) then plan[0].parentFrame else None
  {
    if arrivals != [] {
      var k := |arrivals| - 1;
      var before := arrivals[..k];
      ParentSeen(before, plan, key);
      assert Indexes(arrivals) == Indexes(before) + [arrivals[k].index];
    }
  }

  lemma LastArrival(arrivals: seq<Tile>, plan: seq<Tile>, key: Key)
    requires IsPlan(plan, key) && FromPlan(arrivals, plan) && |arrivals| == |plan|
    ensures ParentOf(arrivals) == plan[0].parentFrame
  {
    ArrivalsFit(arrivals, plan);
    PermHits(Indexes(arrivals), |plan|, 0);
    ParentSeen(arrivals, plan, key);
  }

  lemma AbsorbNext(t: Tile, arrivals: seq<Tile>, plan: seq<Tile>)
    requires t.expected == |plan| >= 1
    ensures Absorb(if arrivals == [] then EMPTY else Held(arrivals, plan), t) == Held(arrivals + [t], plan)
  {
    var now := arrivals + [t];
    assert now[..|arrivals|] == arrivals;
    assert Collected(now) == Collected(arrivals) + OfTile(t);
    assert [] + OfTile(t) == OfTile(t);
    assert now[0] == if arrivals == [] then t else arrivals[0];
    assert ParentOf(now) == if ParentOf(arrivals).Some? then ParentOf(arrivals) else t.parentFrame;
  }

  /** One tile of the parent, delivered to what the earlier ones left. */
  lemma DeliverNext(s: State, t: Tile, arrivals: seq<Tile>, plan: seq<Tile>, key: Key)
    requires IsPlan(plan, key) && FromPlan(arrivals + [t], plan) && t.key == key
    requires Progress(s, arrivals, plan, key)
    ensures Progress(Next(s, Arrive(t)), arrivals + [t], plan, key)
  {
    var now := arrivals + [t];
    ArrivalsFit(now, plan);
    assert t.expected == |plan| by { assert now[|arrivals|] == t; }
    AbsorbNext(t, arrivals, plan);
    if |now| == |plan| {
      LastArrival(now, plan, key);
    }
    Delivered(s, t, now, plan, key);
  }

  lemma Delivered(s: State, t: Tile, now: seq<Tile>, plan: seq<Tile>, key: Key)
    requires IsPlan(plan, key) && 1 <= |now| <= |plan| && t.key == key
    requires Emissions(s.out, key) == []
    requires Absorb(if key in s.pending then s.pending[key] else EMPTY, t) == Held(now, plan)
    requires |now| == |plan| ==> ParentOf(now) == plan[0].parentFrame
    ensures Progress(Next(s, Arrive(t)), now, plan, key)
  {
    EmissionsGrow(s, t, key);
  }

  lemma {:induction false} HeldUntilLast(steps: seq<Step>, plan: seq<Tile>, key: Key)
    requires IsPlan(plan, key) && FromPlan(Arrivals(steps, key), plan) && !SweptAway(steps, key)
    ensures Progress(Run(steps), Arrivals(steps, key), plan, key)
  {
    if steps != [] {
      var k := |steps| - 1;
      var before, step := Run(steps[..k]), steps[k];
      PrefixFromPlan(steps, plan, key);
      SweptAwayMore(steps, key);
      HeldUntilLast(steps[..k], plan, key);
      if step.Arrive? {
        if step.tile.key == key {
          DeliverNext(before, step.tile, Arrivals(steps[..k], key), plan, key);
        } else {
          EmissionsGrow(before, step.tile, key);
        }
      }
    }
  }

  ghost function TileSets(plan: seq<Tile>): (r: seq<multiset<Detection>>)
    ensures |r| == |plan| && forall i :: 0 <= i < |plan| ==> r[i] == multiset(OfTile(plan[i]))
  {
    seq(|plan|, i requires 0 <= i < |plan| => multiset(OfTile(plan[i])))
  }

  lemma Joined<T>(a: seq<T>, b: seq<T>)
    ensures multiset(a + b) == multiset(a) + multiset(b)
  {}

  lemma AllButLast(arrivals: seq<Tile>, plan: seq<Tile>)
    requires arrivals != [] && FromPlan(arrivals, plan)
    ensures FromPlan(arrivals[..|arrivals| - 1], plan)
    ensures arrivals[|arrivals| - 1].index < |plan|
    ensures TileSets(plan)[arrivals[|arrivals| - 1].index] == multiset(OfTile(arrivals[|arrivals| - 1]))
  {}

  lemma UnionGrows(arrivals: seq<Tile>, ms: seq<multiset<Detection>>)
    requires arrivals != [] && Below(Indexes(arrivals), |ms|)
    ensures UnionAt(ms, Indexes(arrivals)) ==
      UnionAt(ms, Indexes(arrivals[..|arrivals| - 1])) + ms[arrivals[|arrivals| - 1].index]
  {
    var before, last := arrivals[..|arrivals| - 1], arrivals[|arrivals| - 1];
    assert Indexes(arrivals) == Indexes(before) + [last.index];
    UnionAtMore(ms, Indexes(before), last.index);
  }

  lemma {:induction false} CollectedIsUnion(arrivals: seq<Tile>, plan: seq<Tile>)
    requires FromPlan(arrivals, plan)
    ensures multiset(Collected(arrivals)) == UnionAt(TileSets(plan), Indexes(arrivals))
  {
    if arrivals != [] {
      var before, last := arrivals[..|arrivals| - 1], arrivals[|arrivals| - 1];
      AllButLast(arrivals, plan);
      CollectedIsUnion(before, plan);
      UnionGrows(arrivals, TileSets(plan));
      Joined(Collected(before), OfTile(last));
    }
  }

  lemma AllCollected(arrivals: seq<Tile>, plan: seq<Tile>)
    requires FromPlan(arrivals, plan) && |arrivals| == |plan|
    ensures multiset(Collected(arrivals)) == Union(TileSets(plan))
  {
    ArrivalsFit(arrivals, plan);
    CollectedIsUnion(arrivals, plan);
    UnionAtPerm(TileSets(plan), Indexes(arrivals), |plan|);
    assert TileSets(plan)[..|plan|] == TileSets(plan);
  }

  /** One emission exactly when all tiles were delivered, in any order and among anything else, and
      no sweep took the parent's entry away; otherwise none.  It is on the parent frame, with exactly
      the tiles' detections. */
  lemma EmittedExactlyOnce(steps: seq<Step>, plan: seq<Tile>, key: Key)
    requires IsPlan(plan, key) && FromPlan(Arrivals(steps, key), plan)
    ensures |Emissions(Run(steps).out, key)| ==
      if |Arrivals(steps, key)| == |plan| && !SweptAway(steps, key) then 1 else 0
    ensures Emissions(Run(steps).out, key) != [] ==>
      Arrivals(steps, key) != [] && MergesPlan(Emissions(Run(steps).out, key)[0], plan, Arrivals(steps, key)[0])
  {
    var arrivals := Arrivals(steps, key);
    ArrivalsFit(arrivals, plan);
    if SweptAway(steps, key) {
      SweptIsShort(steps, plan, key);
    } else {
      HeldUntilLast(steps, plan, key);
      if |arrivals| == |plan| {
        AllCollected(arrivals, plan);
        PartsArePlaced(plan);
      }
    }
  }

  /** On the parent frame, under the event and with the result of the first tile to arrive, with
      exactly the detections of all tiles. */
  ghost predicate MergesPlan(m: Merged, plan: seq<Tile>, first: Tile) {
    && m.eventId == first.eventId && m.rest == first.rest && plan != [] && plan[0].parentFrame == Some(m.frame)
    && exists parts :: PlacedPlan(plan, parts) && multiset(m.raw) == Union(SetsOf(parts))
  }

  /** Part `i` is the detections of tile `i`, moved by that tile's corner. */
  ghost predicate PlacedPlan(plan: seq<Tile>, parts: seq<seq<Detection>>) {
    |parts| == |plan| && forall i :: 0 <= i < |plan| ==> PlacedBy(plan[i], parts[i])
  }

  ghost function SetsOf(parts: seq<seq<Detection>>): (r: seq<multiset<Detection>>)
    ensures |r| == |parts| && forall i :: 0 <= i < |r| ==> r[i] == multiset(parts[i])
  {
    seq(|parts|, i requires 0 <= i < |parts| => multiset(parts[i]))
  }

  ghost function PlanParts(plan: seq<Tile>): (r: seq<seq<Detection>>)
    ensures |r| == |plan| && forall i :: 0 <= i < |r| ==> r[i] == OfTile(plan[i])
  {
    seq(|plan|, i requires 0 <= i < |plan| => OfTile(plan[i]))
  }

  lemma PartsArePlaced(plan: seq<Tile>)
    ensures PlacedPlan(plan, PlanParts(plan)) && TileSets(plan) == SetsOf(PlanParts(plan))
  {
    forall i | 0 <= i < |plan| ensures PlacedBy(plan[i], PlanParts(plan)[i]) {
      MappedIs(plan[i].dets, plan[i].x, plan[i].y);
    }
  }

  // ---------------------------------------------------------------- the scheduler's side

  /** The tile events of one frame (SahiSchedulerStage.cpp:174-218), before inference fills in
      detections. */
  method ScheduleTiles(key: Key, parentFrame: nat, rects: seq<(int, int)>, eventIds: seq<string>, frames: seq<nat>)
    returns (tiles: seq<Tile>)
    requires |eventIds| == |rects| == |frames|
    ensures |tiles| == |rects|
    ensures rects != [] ==> IsPlan(tiles, key) && tiles[0].parentFrame == Some(parentFrame)
    ensures forall i :: 0 <= i < |rects| ==> (tiles[i].x, tiles[i].y) == rects[i] && tiles[i].dets == []
    ensures forall i :: 0 <= i < |rects| ==> tiles[i].frame == frames[i] && tiles[i].eventId == eventIds[i]
  {
    tiles := [];
    for i := 0 to |rects|
      invariant |tiles| == i
      invariant forall j :: 0 <= j < i ==> tiles[j].key == key && tiles[j].index == j && tiles[j].expected == |rects|
      invariant forall j :: 0 <= j < i ==> (tiles[j].x, tiles[j].y) == rects[j] && tiles[j].dets == []
      invariant forall j :: 0 <= j < i ==> tiles[j].frame == frames[j] && tiles[j].eventId == eventIds[j]
      invariant forall j :: 0 <= j < i ==> tiles[j].parentFrame == if j == 0 then Some(parentFrame) else None
    {
      var parent := if i == 0 then Some(parentFrame) else None;
      tiles := tiles + [Tile(key, i, |rects|, rects[i].0, rects[i].1, [], 0, parent, frames[i], eventIds[i])];
    }
  }

  /** Inference adds its result to a tile and leaves the tile itself alone. */
  lemma InferencePreservesPlan(tiles: seq<Tile>, results: seq<Tile>, key: Key)
    requires IsPlan(tiles, key) && |results| == |tiles|
    requires forall i :: 0 <= i < |tiles| ==> results[i] == tiles[i].(dets := results[i].dets, rest := results[i].rest)
    ensures IsPlan(results, key)
  {
    forall i | 0 <= i < |tiles|
      ensures results[i].key == key && results[i].index == i && results[i].expected == |tiles|
      ensures results[i].parentFrame == tiles[i].parentFrame
    {
      assert results[i] == tiles[i].(dets := results[i].dets, rest := results[i].rest);
    }
  }
}
