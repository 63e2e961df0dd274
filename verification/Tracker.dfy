/**
 The ByteTrack state machine (src/tracker/ByteTrackTracker.cpp:117-255): predict every
 track, match confident detections first and weak ones second, age what is left over,
 and open a track for every confident detection nobody claimed.
 */
module Tracker {
  import opened Geometry
  import opened Assignment
  import opened Permutations

  datatype Status = Tracked | Lost | Removed

  datatype Track = Track(
    id: int, bbox: BBox, vx: real, vy: real,
    age: int, hits: int, lost: int, confirmed: bool, status: Status)

  /** The options as given; the program does not check them when it builds a tracker
      (src/pipeline/StageFactory.cpp:124-132). */
  datatype Config = Config(highThresh: real, lowThresh: real, matchIou: real, minHits: int, maxLost: int)

  datatype State = State(nextId: int, tracks: seq<Track>)

  // ---------------------------------------------------------------- one track

  function CenterX(b: BBox): real { (b.x1 + b.x2) * 0.5 }
  function CenterY(b: BBox): real { (b.y1 + b.y2) * 0.5 }

  /** Constant-velocity prediction. */
  function Predict(t: Track): Track {
    t.(bbox := BBox(t.bbox.x1 + t.vx, t.bbox.y1 + t.vy, t.bbox.x2 + t.vx, t.bbox.y2 + t.vy),
       age := t.age + 1, lost := t.lost + 1)
  }

  /** A predicted track claims a detection. */
  function Hit(cfg: Config, t: Track, box: BBox): Track {
    t.(vx := CenterX(box) - (CenterX(t.bbox) - t.vx),
       vy := CenterY(box) - (CenterY(t.bbox) - t.vy),
       bbox := box, hits := t.hits + 1, lost := 0, status := Tracked,
       confirmed := t.confirmed || t.hits + 1 >= cfg.minHits)
  }

  /** A predicted track goes unmatched. */
  function Miss(cfg: Config, t: Track): Track {
    t.(status := if t.lost > cfg.maxLost then Removed else Lost)
  }

  function Open(cfg: Config, id: int, box: BBox): Track {
    Track(id, box, 0.0, 0.0, 1, 1, 0, cfg.minHits <= 1, Tracked)
  }

  /** The velocity after a hit is the displacement of the box centre since the previous frame. */
  lemma HitVelocity(cfg: Config, t: Track, box: BBox)
    ensures var h := Hit(cfg, Predict(t), box);
      && h.vx == CenterX(box) - CenterX(t.bbox) && h.vy == CenterY(box) - CenterY(t.bbox)
      && h.bbox == box && h.lost == 0
  {
    assert CenterX(Predict(t).bbox) == CenterX(t.bbox) + t.vx;
    assert CenterY(Predict(t).bbox) == CenterY(t.bbox) + t.vy;
  }

  // ---------------------------------------------------------------- one frame, as a value

  /** The detection that track `i` claims, if any. */
  function Claim(pairs: seq<Pair>, i: nat): Option<nat> {
    if pairs == [] then None
    else if pairs[|pairs| - 1].0 == i then Some(pairs[|pairs| - 1].1)
    else Claim(pairs[..|pairs| - 1], i)
  }

  /** The track that claims detection `d`, if any. */
  function Claimant(pairs: seq<Pair>, d: nat): Option<nat> {
    if pairs == [] then None
    else if pairs[|pairs| - 1].1 == d then Some(pairs[|pairs| - 1].0)
    else Claimant(pairs[..|pairs| - 1], d)
  }

  ghost predicate OneToOne(pairs: seq<Pair>, n: nat, m: nat) {
    && (forall k :: 0 <= k < |pairs| ==> pairs[k].0 < n && pairs[k].1 < m)
    && (forall k, l :: 0 <= k < l < |pairs| ==> pairs[k].0 != pairs[l].0 && pairs[k].1 != pairs[l].1)
  }

  function Matched(cfg: Config, tracks: seq<Track>, ds: seq<Detection>, pairs: seq<Pair>, i: nat): (r: Track)
    requires i < |tracks| && forall k :: 0 <= k < |pairs| ==> pairs[k].1 < |ds|
    ensures r.id == tracks[i].id
  {
    ClaimIsPaired(pairs, i);
    match Claim(pairs, i)
    case Some(d) => Hit(cfg, Predict(tracks[i]), ds[d].bbox)
    case None => Predict(tracks[i])
  }

  /** Track `i` at the end of the frame. */
  function Aged(cfg: Config, tracks: seq<Track>, ds: seq<Detection>, pairs: seq<Pair>, i: nat): (r: Track)
    requires i < |tracks| && forall k :: 0 <= k < |pairs| ==> pairs[k].1 < |ds|
    ensures r.id == tracks[i].id
  {
    var t := Matched(cfg, tracks, ds, pairs, i);
    if Claim(pairs, i).Some? then t else Miss(cfg, t)
  }

  /** The first `k` tracks after the frame, without the removed ones. */
  function Survivors(cfg: Config, tracks: seq<Track>, ds: seq<Detection>, pairs: seq<Pair>, k: nat): seq<Track>
    requires k <= |tracks| && forall x :: 0 <= x < |pairs| ==> pairs[x].1 < |ds|
  {
    if k == 0 then [] else
    var rest := Survivors(cfg, tracks, ds, pairs, k - 1);
    var t := Aged(cfg, tracks, ds, pairs, k - 1);
    if t.status.Removed? then rest else rest + [t]
  }

  predicate IsHigh(cfg: Config, d: Detection) { d.confidence >= cfg.highThresh }
  predicate IsLow(cfg: Config, d: Detection) { !IsHigh(cfg, d) && d.confidence >= cfg.lowThresh }

  /** A confident detection that no track claimed. */
  predicate OpensTrack(cfg: Config, ds: seq<Detection>, pairs: seq<Pair>, d: nat)
    requires d < |ds|
  {
    IsHigh(cfg, ds[d]) && Claimant(pairs, d).None?
  }

  /** The tracks opened by the first `k` detections, ids counted up from `nextId`. */
  function Opened(cfg: Config, nextId: int, ds: seq<Detection>, pairs: seq<Pair>, k: nat): seq<Track>
    requires k <= |ds|
  {
    if k == 0 then [] else
    var rest := Opened(cfg, nextId, ds, pairs, k - 1);
    if OpensTrack(cfg, ds, pairs, k - 1) then rest + [Open(cfg, nextId + |rest|, ds[k - 1].bbox)] else rest
  }

  /** The track id detection `d` carries away, if its track is confirmed. */
  function Tag(cfg: Config, st: State, ds: seq<Detection>, pairs: seq<Pair>, d: nat): Option<int>
    requires d < |ds| && InBounds(pairs, |st.tracks|, |ds|)
  {
    ClaimantIsPaired(pairs, d);
    match Claimant(pairs, d)
    case Some(i) =>
      var t := Matched(cfg, st.tracks, ds, pairs, i);
      if t.confirmed then Some(t.id) else ds[d].trackId
    case None =>
      if OpensTrack(cfg, ds, pairs, d) && cfg.minHits <= 1
      then Some(st.nextId + |Opened(cfg, st.nextId, ds, pairs, d)|)
      else ds[d].trackId
  }

  predicate InBounds(pairs: seq<Pair>, n: nat, m: nat) {
    forall k :: 0 <= k < |pairs| ==> pairs[k].0 < n && pairs[k].1 < m
  }

  function After(cfg: Config, st: State, ds: seq<Detection>, pairs: seq<Pair>): State
    requires InBounds(pairs, |st.tracks|, |ds|)
  {
    var newcomers := Opened(cfg, st.nextId, ds, pairs, |ds|);
    State(st.nextId + |newcomers|, Survivors(cfg, st.tracks, ds, pairs, |st.tracks|) + newcomers)
  }

  lemma {:induction false} ClaimIsPaired(pairs: seq<Pair>, i: nat)
    ensures Claim(pairs, i).Some? ==> (i, Claim(pairs, i).value) in pairs
    ensures Claim(pairs, i).None? ==> forall k :: 0 <= k < |pairs| ==> pairs[k].0 != i
  {
    if pairs != [] {
      var k := |pairs| - 1;
      ClaimIsPaired(pairs[..k], i);
      assert pairs[k] in pairs;
    }
  }

  lemma {:induction false} ClaimantIsPaired(pairs: seq<Pair>, d: nat)
    ensures Claimant(pairs, d).Some? ==> (Claimant(pairs, d).value, d) in pairs
    ensures Claimant(pairs, d).None? ==> forall k :: 0 <= k < |pairs| ==> pairs[k].1 != d
  {
    if pairs != [] {
      var k := |pairs| - 1;
      ClaimantIsPaired(pairs[..k], d);
      assert pairs[k] in pairs;
    }
  }

  lemma PairedBothWays(pairs: seq<Pair>, n: nat, m: nat, i: nat, d: nat)
    requires OneToOne(pairs, n, m) && (i, d) in pairs
    ensures Claim(pairs, i) == Some(d) && Claimant(pairs, d) == Some(i)
  {
    ClaimIsPaired(pairs, i);
    ClaimantIsPaired(pairs, d);
    var k :| 0 <= k < |pairs| && pairs[k] == (i, d);
    assert Claim(pairs, i).Some? && Claimant(pairs, d).Some?;
    var x :| 0 <= x < |pairs| && pairs[x] == (i, Claim(pairs, i).value);
    var y :| 0 <= y < |pairs| && pairs[y] == (Claimant(pairs, d).value, d);
  }

  // ---------------------------------------------------------------- what every frame keeps

  ghost predicate TrackOk(cfg: Config, t: Track) {
    && !t.status.Removed?
    && (t.confirmed <==> t.hits >= cfg.minHits)
    && t.hits >= 1 && t.hits + t.lost <= t.age && (0 == t.lost || 0 < t.lost <= cfg.maxLost)
    && (t.status.Tracked? <==> t.lost == 0)
  }

  ghost predicate AllOk(cfg: Config, tracks: seq<Track>) {
    forall i :: 0 <= i < |tracks| ==> TrackOk(cfg, tracks[i])
  }

  ghost predicate NumberedFrom(tracks: seq<Track>, id: int) {
    forall i :: 0 <= i < |tracks| ==> tracks[i].id == id + i
  }

  ghost predicate Increasing(tracks: seq<Track>) {
    forall i, j :: 0 <= i < j < |tracks| ==> tracks[i].id < tracks[j].id
  }

  ghost predicate Valid(cfg: Config, st: State) {
    && st.nextId >= 1 && Increasing(st.tracks)
    && (forall i :: 0 <= i < |st.tracks| ==> 1 <= st.tracks[i].id < st.nextId && TrackOk(cfg, st.tracks[i]))
  }

  ghost function Ids(st: State): set<int> {
    set i | 0 <= i < |st.tracks| :: st.tracks[i].id
  }

  lemma AgedOk(cfg: Config, tracks: seq<Track>, ds: seq<Detection>, pairs: seq<Pair>, i: nat)
    requires InBounds(pairs, |tracks|, |ds|) && i < |tracks| && TrackOk(cfg, tracks[i])
    ensures var t := Aged(cfg, tracks, ds, pairs, i); t.status.Removed? || TrackOk(cfg, t)
  {
  }

  lemma {:induction false} SurvivorsOk(cfg: Config, st: State, ds: seq<Detection>, pairs: seq<Pair>, k: nat)
    requires Valid(cfg, st) && InBounds(pairs, |st.tracks|, |ds|) && k <= |st.tracks|
    ensures var s := Survivors(cfg, st.tracks, ds, pairs, k);
      && Increasing(s)
      && (forall x :: 0 <= x < |s| ==> TrackOk(cfg, s[x]) && s[x].id < st.nextId && s[x].id in Ids(st))
      && (forall x :: 0 <= x < |s| ==> k < |st.tracks| ==> s[x].id < st.tracks[k].id)
  {
    if k > 0 {
      SurvivorsOk(cfg, st, ds, pairs, k - 1);
      AgedOk(cfg, st.tracks, ds, pairs, k - 1);
      assert st.tracks[k - 1].id in Ids(st);
    }
  }

  lemma {:induction false} OpenedIds(cfg: Config, nextId: int, ds: seq<Detection>, pairs: seq<Pair>, k: nat)
    requires k <= |ds|
    ensures NumberedFrom(Opened(cfg, nextId, ds, pairs, k), nextId)
    ensures AllOk(cfg, Opened(cfg, nextId, ds, pairs, k))
  {
    if k > 0 {
      OpenedIds(cfg, nextId, ds, pairs, k - 1);
    }
  }

  /** Every frame, whatever its detections and matching, keeps the tracker valid. */
  lemma FrameKeepsValid(cfg: Config, st: State, ds: seq<Detection>, pairs: seq<Pair>)
    requires Valid(cfg, st) && InBounds(pairs, |st.tracks|, |ds|)
    ensures Valid(cfg, After(cfg, st, ds, pairs))
  {
    SurvivorsOk(cfg, st, ds, pairs, |st.tracks|);
    OpenedIds(cfg, st.nextId, ds, pairs, |ds|);
    var s, o := Survivors(cfg, st.tracks, ds, pairs, |st.tracks|), Opened(cfg, st.nextId, ds, pairs, |ds|);
    var next := After(cfg, st, ds, pairs);
    assert forall i :: 0 <= i < |next.tracks| ==> next.tracks[i] == if i < |s| then s[i] else o[i - |s|];
    forall i | 0 <= i < |s| ensures 1 <= s[i].id {
      assert s[i].id in Ids(st);
    }
  }

  ghost predicate LostWithin(cfg: Config, st: State) {
    forall i :: 0 <= i < |st.tracks| ==> st.tracks[i].lost <= cfg.maxLost
  }

  function Confident(cfg: Config): Detection {
    Detection(0, cfg.highThresh, BBox(0.0, 0.0, 1.0, 1.0), map[], None)
  }

  /** Every frame leaves all tracks within the limit of lost frames exactly when that limit is
      not negative: a new track starts with none lost. */
  lemma LostWithinIff(cfg: Config)
    ensures (forall st, ds, pairs :: Valid(cfg, st) && InBounds(pairs, |st.tracks|, |ds|) ==>
               LostWithin(cfg, After(cfg, st, ds, pairs)))
      <==> cfg.maxLost >= 0
  {
    if cfg.maxLost >= 0 {
      forall st, ds, pairs | Valid(cfg, st) && InBounds(pairs, |st.tracks|, |ds|)
        ensures LostWithin(cfg, After(cfg, st, ds, pairs))
      {
        FrameKeepsValid(cfg, st, ds, pairs);
      }
    } else {
      var st, ds := State(1, []), [Confident(cfg)];
      OneConfident(cfg);
      assert Valid(cfg, st) && InBounds([], |st.tracks|, |ds|);
    }
  }

  /** The first confident detection opens a track with nothing lost, whatever the limit. */
  lemma OneConfident(cfg: Config)
    ensures After(cfg, State(1, []), [Confident(cfg)], []) == State(2, [Open(cfg, 1, BBox(0.0, 0.0, 1.0, 1.0))])
  {
    assert Opened(cfg, 1, [Confident(cfg)], [], 0) == [];
  }

  /** A limit of -1 is exceeded by the first track of the first frame. */
  lemma LimitExceededAtOnce(cfg: Config)
    requires cfg.maxLost == -1
    ensures var st := After(cfg, State(1, []), [Confident(cfg)], []);
      |st.tracks| == 1 && st.tracks[0].lost == 0 > cfg.maxLost
  {
    OneConfident(cfg);
  }

  /** A frame keeps some old ids and adds ids never handed out before. */
  lemma FrameIds(cfg: Config, st: State, ds: seq<Detection>, pairs: seq<Pair>)
    requires Valid(cfg, st) && InBounds(pairs, |st.tracks|, |ds|)
    ensures var next := After(cfg, st, ds, pairs);
      && st.nextId <= next.nextId
      && forall x :: x in Ids(next) ==> x in Ids(st) || st.nextId <= x < next.nextId
  {
    SurvivorsOk(cfg, st, ds, pairs, |st.tracks|);
    OpenedIds(cfg, st.nextId, ds, pairs, |ds|);
    var s := Survivors(cfg, st.tracks, ds, pairs, |st.tracks|);
    var next := After(cfg, st, ds, pairs);
    forall x | x in Ids(next) ensures x in Ids(st) || st.nextId <= x < next.nextId {
      var i :| 0 <= i < |next.tracks| && next.tracks[i].id == x;
      if i < |s| {
        assert next.tracks[i] == s[i];
      } else {
        assert next.tracks[i] == Opened(cfg, st.nextId, ds, pairs, |ds|)[i - |s|];
      }
    }
  }

  /** Exactly the unclaimed confident detections open tracks, one each, at their own box. */
  lemma {:induction false} OpenedBy(cfg: Config, nextId: int, ds: seq<Detection>, pairs: seq<Pair>, k: nat)
    returns (from: seq<nat>)
    requires k <= |ds|
    ensures |from| == |Opened(cfg, nextId, ds, pairs, k)| && Below(from, k)
    ensures forall x, y :: 0 <= x < y < |from| ==> from[x] < from[y]
    ensures forall x :: 0 <= x < |from| ==> OpensTrack(cfg, ds, pairs, from[x])
    ensures forall x :: 0 <= x < |from| ==> Opened(cfg, nextId, ds, pairs, k)[x].bbox == ds[from[x]].bbox
    ensures forall d :: 0 <= d < k && OpensTrack(cfg, ds, pairs, d) ==> d in from
  {
    if k == 0 {
      from := [];
    } else {
      from := OpenedBy(cfg, nextId, ds, pairs, k - 1);
      if OpensTrack(cfg, ds, pairs, k - 1) {
        var longer := from + [k - 1];
        assert longer[|from|] == k - 1;
        assert forall d :: d in from ==> d in longer;
        from := longer;
      }
    }
  }

  lemma {:induction false} OpenedGrows(cfg: Config, nextId: int, ds: seq<Detection>, pairs: seq<Pair>, d: nat, e: nat)
    requires d < e <= |ds| && OpensTrack(cfg, ds, pairs, d)
    ensures |Opened(cfg, nextId, ds, pairs, d)| < |Opened(cfg, nextId, ds, pairs, e)|
    decreases e
  {
    if e > d + 1 {
      OpenedGrows(cfg, nextId, ds, pairs, d, e - 1);
    }
  }

  /** The track id the frame writes on detection `d`, if it writes one. */
  function Written(cfg: Config, st: State, ds: seq<Detection>, pairs: seq<Pair>, d: nat): Option<int>
    requires d < |ds| && InBounds(pairs, |st.tracks|, |ds|)
  {
    ClaimantIsPaired(pairs, d);
    match Claimant(pairs, d)
    case Some(i) =>
      var t := Matched(cfg, st.tracks, ds, pairs, i);
      if t.confirmed then Some(t.id) else None
    case None =>
      if OpensTrack(cfg, ds, pairs, d) && cfg.minHits <= 1
      then Some(st.nextId + |Opened(cfg, st.nextId, ds, pairs, d)|) else None
  }

  /** A frame never writes the same track id on two detections, whatever ids they came with; what
      it does not write on keeps its id. */
  lemma TagsDistinct(cfg: Config, st: State, ds: seq<Detection>, pairs: seq<Pair>, d: nat, e: nat)
    requires Valid(cfg, st) && OneToOne(pairs, |st.tracks|, |ds|) && d < e < |ds|
    ensures Written(cfg, st, ds, pairs, d).Some? && Written(cfg, st, ds, pairs, e).Some? ==>
      Written(cfg, st, ds, pairs, d) != Written(cfg, st, ds, pairs, e)
    ensures var id := Written(cfg, st, ds, pairs, d);
      Tag(cfg, st, ds, pairs, d) == if id.Some? then id else ds[d].trackId
    ensures var id := Written(cfg, st, ds, pairs, e);
      Tag(cfg, st, ds, pairs, e) == if id.Some? then id else ds[e].trackId
  {
    ClaimantIsPaired(pairs, d);
    ClaimantIsPaired(pairs, e);
    if OpensTrack(cfg, ds, pairs, d) {
      OpenedGrows(cfg, st.nextId, ds, pairs, d, e);
    }
    if Claimant(pairs, d).Some? && Claimant(pairs, e).Some? {
      var i, j := Claimant(pairs, d).value, Claimant(pairs, e).value;
      var x :| 0 <= x < |pairs| && pairs[x] == (i, d);
      var y :| 0 <= y < |pairs| && pairs[y] == (j, e);
      assert x != y && i != j;
    }
  }

  // ---------------------------------------------------------------- what a frame leaves, spelled out

  /** Track `t`, seen again in `box`. */
  ghost predicate SeenAgain(cfg: Config, t: Track, box: BBox, u: Track) {
    && u.id == t.id && u.bbox == box && u.status == Tracked && u.lost == 0
    && u.vx == (box.x1 + box.x2) / 2.0 - (t.bbox.x1 + t.bbox.x2) / 2.0
    && u.vy == (box.y1 + box.y2) / 2.0 - (t.bbox.y1 + t.bbox.y2) / 2.0
    && u.age == t.age + 1 && u.hits == t.hits + 1
    && (u.confirmed <==> t.confirmed || t.hits + 1 >= cfg.minHits)
  }

  /** Track `t`, not seen but kept: it moves on and counts one more lost frame. */
  ghost predicate Missing(t: Track, u: Track) {
    && u.id == t.id && u.status == Lost && u.lost == t.lost + 1
    && u.bbox == BBox(t.bbox.x1 + t.vx, t.bbox.y1 + t.vy, t.bbox.x2 + t.vx, t.bbox.y2 + t.vy)
    && u.vx == t.vx && u.vy == t.vy && u.age == t.age + 1 && u.hits == t.hits && u.confirmed == t.confirmed
  }

  /** A track opened for a detection at `box`. */
  ghost predicate FirstSeen(cfg: Config, id: int, box: BBox, u: Track) {
    && u.id == id && u.bbox == box && u.vx == 0.0 && u.vy == 0.0
    && u.age == 1 && u.hits == 1 && u.lost == 0 && u.status == Tracked && (u.confirmed <==> 1 >= cfg.minHits)
  }

  ghost predicate Paired(pairs: seq<Pair>, i: nat) { exists p :: p in pairs && p.0 == i }
  ghost predicate Claimed(pairs: seq<Pair>, d: nat) { exists p :: p in pairs && p.1 == d }

  ghost predicate Rising(s: seq<nat>) { forall x, y :: 0 <= x < y < |s| ==> s[x] < s[y] }

  /** Exactly the tracks of `st` that were matched or whose lost frames stay within the limit. */
  ghost predicate AreKept(cfg: Config, st: State, pairs: seq<Pair>, kept: seq<nat>) {
    && Rising(kept)
    && forall i: nat :: i in kept <==>
         i < |st.tracks| && (Paired(pairs, i) || st.tracks[i].lost + 1 <= cfg.maxLost)
  }

  /** Exactly the confident detections that no track claimed. */
  ghost predicate AreNew(cfg: Config, ds: seq<Detection>, pairs: seq<Pair>, from: seq<nat>) {
    && Rising(from)
    && forall d: nat :: d in from <==> d < |ds| && ds[d].confidence >= cfg.highThresh && !Claimed(pairs, d)
  }

  ghost predicate KeptAs(cfg: Config, t: Track, i: nat, ds: seq<Detection>, pairs: seq<Pair>, u: Track) {
    if Paired(pairs, i) then exists d: nat :: d < |ds| && (i, d) in pairs && SeenAgain(cfg, t, ds[d].bbox, u)
    else Missing(t, u)
  }

  ghost predicate KeptAre(cfg: Config, st: State, ds: seq<Detection>, pairs: seq<Pair>, kept: seq<nat>, us: seq<Track>)
    requires Below(kept, |st.tracks|)
  {
    |us| == |kept| && forall x :: 0 <= x < |us| ==> KeptAs(cfg, st.tracks[kept[x]], kept[x], ds, pairs, us[x])
  }

  ghost predicate NewAre(cfg: Config, nextId: int, ds: seq<Detection>, from: seq<nat>, us: seq<Track>)
    requires Below(from, |ds|)
  {
    |us| == |from| && forall x :: 0 <= x < |us| ==> FirstSeen(cfg, nextId + x, ds[from[x]].bbox, us[x])
  }

  /** The state after a frame, track by track: those kept, in their order, then the new ones. */
  ghost predicate FrameLeaves(cfg: Config, st: State, ds: seq<Detection>, pairs: seq<Pair>, next: State,
                              kept: seq<nat>, from: seq<nat>)
  {
    && AreKept(cfg, st, pairs, kept) && AreNew(cfg, ds, pairs, from)
    && Below(kept, |st.tracks|) && Below(from, |ds|)
    && |next.tracks| == |kept| + |from| && next.nextId == st.nextId + |from|
    && KeptAre(cfg, st, ds, pairs, kept, next.tracks[..|kept|])
    && NewAre(cfg, st.nextId, ds, from, next.tracks[|kept|..])
  }

  lemma ClaimIff(pairs: seq<Pair>, i: nat)
    ensures Claim(pairs, i).Some? <==> Paired(pairs, i)
    ensures Claim(pairs, i).Some? ==> (i, Claim(pairs, i).value) in pairs
  {
    ClaimIsPaired(pairs, i);
    if Paired(pairs, i) {
      var p :| p in pairs && p.0 == i;
    }
  }

  lemma ClaimantIff(pairs: seq<Pair>, d: nat)
    ensures Claimant(pairs, d).Some? <==> Claimed(pairs, d)
    ensures Claimant(pairs, d).Some? ==> (Claimant(pairs, d).value, d) in pairs
  {
    ClaimantIsPaired(pairs, d);
    if Claimed(pairs, d) {
      var p :| p in pairs && p.1 == d;
    }
  }

  /** Track `i` at the end of the frame. */
  lemma AgedIs(cfg: Config, st: State, ds: seq<Detection>, pairs: seq<Pair>, i: nat)
    requires Valid(cfg, st) && InBounds(pairs, |st.tracks|, |ds|) && i < |st.tracks|
    ensures var u := Aged(cfg, st.tracks, ds, pairs, i);
      && (u.status.Removed? <==> !Paired(pairs, i) && st.tracks[i].lost + 1 > cfg.maxLost)
      && (!u.status.Removed? ==> KeptAs(cfg, st.tracks[i], i, ds, pairs, u))
  {
    ClaimIff(pairs, i);
    if Paired(pairs, i) {
      var d := Claim(pairs, i).value;
      HitVelocity(cfg, st.tracks[i], ds[d].bbox);
      assert SeenAgain(cfg, st.tracks[i], ds[d].bbox, Aged(cfg, st.tracks, ds, pairs, i));
    }
  }

  lemma LongerRising(s: seq<nat>, k: nat)
    requires Rising(s) && Below(s, k)
    ensures Rising(s + [k]) && Below(s + [k], k + 1)
    ensures forall i: nat :: i in s + [k] <==> i in s || i == k
  {
  }

  lemma LongerKept(cfg: Config, st: State, ds: seq<Detection>, pairs: seq<Pair>, kept: seq<nat>, us: seq<Track>, k: nat,
                   u: Track)
    requires Below(kept, k) && k < |st.tracks| && KeptAre(cfg, st, ds, pairs, kept, us)
    requires KeptAs(cfg, st.tracks[k], k, ds, pairs, u)
    ensures Below(kept + [k], |st.tracks|) && KeptAre(cfg, st, ds, pairs, kept + [k], us + [u])
  {
  }

  lemma LongerNew(cfg: Config, nextId: int, ds: seq<Detection>, from: seq<nat>, us: seq<Track>, k: nat, u: Track)
    requires Below(from, k) && k < |ds| && NewAre(cfg, nextId, ds, from, us)
    requires FirstSeen(cfg, nextId + |from|, ds[k].bbox, u)
    ensures Below(from + [k], |ds|) && NewAre(cfg, nextId, ds, from + [k], us + [u])
  {
  }

  lemma {:induction false} SurvivorsAre(cfg: Config, st: State, ds: seq<Detection>, pairs: seq<Pair>, k: nat)
    returns (kept: seq<nat>)
    requires Valid(cfg, st) && InBounds(pairs, |st.tracks|, |ds|) && k <= |st.tracks|
    ensures Rising(kept) && Below(kept, k)
    ensures forall i: nat :: i in kept <==> i < k && (Paired(pairs, i) || st.tracks[i].lost + 1 <= cfg.maxLost)
    ensures KeptAre(cfg, st, ds, pairs, kept, Survivors(cfg, st.tracks, ds, pairs, k))
  {
    kept := [];
    if k > 0 {
      kept := SurvivorsAre(cfg, st, ds, pairs, k - 1);
      AgedIs(cfg, st, ds, pairs, k - 1);
      var u := Aged(cfg, st.tracks, ds, pairs, k - 1);
      if !u.status.Removed? {
        LongerRising(kept, k - 1);
        LongerKept(cfg, st, ds, pairs, kept, Survivors(cfg, st.tracks, ds, pairs, k - 1), k - 1, u);
        kept := kept + [k - 1];
      }
    }
  }

  lemma {:induction false} OpenedAre(cfg: Config, nextId: int, ds: seq<Detection>, pairs: seq<Pair>, k: nat)
    returns (from: seq<nat>)
    requires k <= |ds|
    ensures Rising(from) && Below(from, k)
    ensures forall d: nat :: d in from <==> d < k && ds[d].confidence >= cfg.highThresh && !Claimed(pairs, d)
    ensures NewAre(cfg, nextId, ds, from, Opened(cfg, nextId, ds, pairs, k))
    ensures OpenedInTurn(cfg, nextId, ds, pairs, from)
  {
    from := [];
    if k > 0 {
      from := OpenedAre(cfg, nextId, ds, pairs, k - 1);
      ClaimantIff(pairs, k - 1);
      if OpensTrack(cfg, ds, pairs, k - 1) {
        var before := Opened(cfg, nextId, ds, pairs, k - 1);
        LongerRising(from, k - 1);
        LongerNew(cfg, nextId, ds, from, before, k - 1, Open(cfg, nextId + |before|, ds[k - 1].bbox));
        from := from + [k - 1];
      }
    }
  }

  /** Detection `from[x]` opens the track number `x` of the frame. */
  ghost predicate OpenedInTurn(cfg: Config, nextId: int, ds: seq<Detection>, pairs: seq<Pair>, from: seq<nat>) {
    forall x :: 0 <= x < |from| ==> from[x] < |ds| && |Opened(cfg, nextId, ds, pairs, from[x])| == x
  }

  /** A frame keeps exactly the tracks that were matched or are lost within the limit, each with the
      record spelled out above, and opens exactly one track for each confident detection left over. */
  lemma FrameIs(cfg: Config, st: State, ds: seq<Detection>, pairs: seq<Pair>) returns (kept: seq<nat>, from: seq<nat>)
    requires Valid(cfg, st) && InBounds(pairs, |st.tracks|, |ds|)
    ensures FrameLeaves(cfg, st, ds, pairs, After(cfg, st, ds, pairs), kept, from)
    ensures OpenedInTurn(cfg, st.nextId, ds, pairs, from)
  {
    kept := SurvivorsAre(cfg, st, ds, pairs, |st.tracks|);
    from := OpenedAre(cfg, st.nextId, ds, pairs, |ds|);
    var next := After(cfg, st, ds, pairs);
    assert next.tracks[..|kept|] == Survivors(cfg, st.tracks, ds, pairs, |st.tracks|);
    assert next.tracks[|kept|..] == Opened(cfg, st.nextId, ds, pairs, |ds|);
  }

  /** A track is there after the frame exactly when it was matched or its lost frames stay within
      the limit. */
  lemma SurvivesIff(cfg: Config, st: State, ds: seq<Detection>, pairs: seq<Pair>, i: nat)
    requires Valid(cfg, st) && InBounds(pairs, |st.tracks|, |ds|) && i < |st.tracks|
    ensures var next := After(cfg, st, ds, pairs);
      && (st.tracks[i].id in Ids(next) <==> Paired(pairs, i) || st.tracks[i].lost + 1 <= cfg.maxLost)
      && forall u :: u in next.tracks && u.id == st.tracks[i].id ==> KeptAs(cfg, st.tracks[i], i, ds, pairs, u)
  {
    var next := After(cfg, st, ds, pairs);
    var kept, from := FrameIs(cfg, st, ds, pairs);
    if i in kept {
      var x :| 0 <= x < |kept| && kept[x] == i;
      assert KeptAs(cfg, st.tracks[i], i, ds, pairs, next.tracks[..|kept|][x]);
    }
    forall y | |kept| <= y < |next.tracks| ensures next.tracks[y].id >= st.nextId {
      var x := y - |kept|;
      assert FirstSeen(cfg, st.nextId + x, ds[from[x]].bbox, next.tracks[|kept|..][x]);
    }
    forall y | 0 <= y < |kept| && next.tracks[y].id == st.tracks[i].id
      ensures i in kept && KeptAs(cfg, st.tracks[i], i, ds, pairs, next.tracks[y])
    {
      assert KeptAs(cfg, st.tracks[kept[y]], kept[y], ds, pairs, next.tracks[..|kept|][y]);
      assert st.tracks[kept[y]].id == st.tracks[i].id;
      assert kept[y] == i;
    }
  }

  /** What a frame writes on detection `d`: the id of the track that was matched with it once that
      track is confirmed, or of the track opened for it if one hit confirms; nothing else. */
  ghost predicate Writes(cfg: Config, st: State, ds: seq<Detection>, pairs: seq<Pair>, next: State, d: nat,
                         id: Option<int>)
    requires d < |ds|
  {
    && (forall i: nat :: i < |st.tracks| && (i, d) in pairs ==> id == OwnId(cfg, st.tracks[i]))
    && (!Claimed(pairs, d) && !(ds[d].confidence >= cfg.highThresh && 1 >= cfg.minHits) ==> id == None)
    && (!Claimed(pairs, d) && ds[d].confidence >= cfg.highThresh && 1 >= cfg.minHits ==>
          id.Some? && id.value >= st.nextId && HasNew(cfg, next, id.value, ds[d].bbox))
  }

  /** A track opened for this box has this id. */
  ghost predicate HasNew(cfg: Config, next: State, id: int, box: BBox) {
    exists u :: u in next.tracks && FirstSeen(cfg, id, box, u)
  }

  ghost function OwnId(cfg: Config, t: Track): Option<int> {
    if t.confirmed || t.hits + 1 >= cfg.minHits then Some(t.id) else None
  }

  lemma WrittenIs(cfg: Config, st: State, ds: seq<Detection>, pairs: seq<Pair>, d: nat)
    requires Valid(cfg, st) && OneToOne(pairs, |st.tracks|, |ds|) && d < |ds|
    ensures Writes(cfg, st, ds, pairs, After(cfg, st, ds, pairs), d, Written(cfg, st, ds, pairs, d))
    ensures var id := Written(cfg, st, ds, pairs, d);
      Tag(cfg, st, ds, pairs, d) == if id.Some? then id else ds[d].trackId
  {
    ClaimantIff(pairs, d);
    forall i: nat | (i, d) in pairs
      ensures i < |st.tracks| && Claimant(pairs, d) == Some(i) && Claim(pairs, i) == Some(d)
    {
      PairedBothWays(pairs, |st.tracks|, |ds|, i, d);
    }
    if !Claimed(pairs, d) && ds[d].confidence >= cfg.highThresh && 1 >= cfg.minHits {
      WrittenOnNew(cfg, st, ds, pairs, d);
    }
  }

  lemma WrittenOnNew(cfg: Config, st: State, ds: seq<Detection>, pairs: seq<Pair>, d: nat)
    requires Valid(cfg, st) && InBounds(pairs, |st.tracks|, |ds|) && d < |ds|
    requires !Claimed(pairs, d) && ds[d].confidence >= cfg.highThresh && 1 >= cfg.minHits
    ensures var id := Written(cfg, st, ds, pairs, d);
      id.Some? && id.value >= st.nextId && HasNew(cfg, After(cfg, st, ds, pairs), id.value, ds[d].bbox)
  {
    ClaimantIff(pairs, d);
    var kept, from := FrameIs(cfg, st, ds, pairs);
    var x :| 0 <= x < |from| && from[x] == d;
    NewTrackIs(cfg, st, ds, pairs, After(cfg, st, ds, pairs), kept, from, x);
  }

  lemma NewTrackIs(cfg: Config, st: State, ds: seq<Detection>, pairs: seq<Pair>, next: State, kept: seq<nat>,
                   from: seq<nat>, x: nat)
    requires FrameLeaves(cfg, st, ds, pairs, next, kept, from) && x < |from|
    ensures from[x] < |ds| && HasNew(cfg, next, st.nextId + x, ds[from[x]].bbox)
  {
    var u := next.tracks[|kept|..][x];
    assert u in next.tracks;
  }

  /** The outcome of a frame, without the functions that compute it. */
  ghost predicate FrameOutcome(cfg: Config, st: State, ds: seq<Detection>, pairs: seq<Pair>, next: State) {
    exists kept, from :: FrameLeaves(cfg, st, ds, pairs, next, kept, from)
  }

  // ---------------------------------------------------------------- whole runs

  datatype Frame = Frame(ds: seq<Detection>, pairs: seq<Pair>)

  ghost predicate IsRun(cfg: Config, states: seq<State>, frames: seq<Frame>) {
    && |states| == |frames| + 1
    && Valid(cfg, states[0])
    && forall k :: 0 <= k < |frames| ==>
         && InBounds(frames[k].pairs, |states[k].tracks|, |frames[k].ds|)
         && states[k + 1] == After(cfg, states[k], frames[k].ds, frames[k].pairs)
  }

  lemma {:induction false} RunStaysValid(cfg: Config, states: seq<State>, frames: seq<Frame>, k: nat)
    requires IsRun(cfg, states, frames) && k < |states|
    ensures Valid(cfg, states[k])
  {
    if k > 0 {
      RunStaysValid(cfg, states, frames, k - 1);
      FrameKeepsValid(cfg, states[k - 1], frames[k - 1].ds, frames[k - 1].pairs);
    }
  }

  /** An id once handed out and gone never comes back, in any run. */
  lemma {:induction false} NeverReused(cfg: Config, states: seq<State>, frames: seq<Frame>, i: nat, j: nat, id: int)
    requires IsRun(cfg, states, frames) && i <= j < |states|
    requires id < states[i].nextId && id !in Ids(states[i])
    ensures id !in Ids(states[j]) && id < states[j].nextId
    decreases j
  {
    if i < j {
      NeverReused(cfg, states, frames, i, j - 1, id);
      RunStaysValid(cfg, states, frames, j - 1);
      FrameIds(cfg, states[j - 1], frames[j - 1].ds, frames[j - 1].pairs);
    }
  }

  /** No pair of the frame is of the track with this id. */
  ghost predicate Unmatched(st: State, pairs: seq<Pair>, id: int) {
    forall p :: p in pairs && p.0 < |st.tracks| ==> st.tracks[p.0].id != id
  }

  /** Track `t` after `k` frames without a match. */
  ghost predicate Drifted(t: Track, k: nat, u: Track) {
    && u.id == t.id && u.hits == t.hits && u.confirmed == t.confirmed && u.vx == t.vx && u.vy == t.vy
    && u.lost == t.lost + k && u.age == t.age + k && (k > 0 ==> u.status == Lost)
    && u.bbox == BBox(t.bbox.x1 + k as real * t.vx, t.bbox.y1 + k as real * t.vy,
                      t.bbox.x2 + k as real * t.vx, t.bbox.y2 + k as real * t.vy)
  }

  lemma DriftOn(t: Track, k: nat, u: Track, w: Track)
    requires Drifted(t, k, u) && Missing(u, w)
    ensures Drifted(t, k + 1, w)
  {
    assert (k + 1) as real * t.vx == k as real * t.vx + t.vx;
    assert (k + 1) as real * t.vy == k as real * t.vy + t.vy;
  }

  lemma UnmatchedFrame(cfg: Config, st: State, ds: seq<Detection>, pairs: seq<Pair>, u: Track)
    requires Valid(cfg, st) && InBounds(pairs, |st.tracks|, |ds|) && u in st.tracks && Unmatched(st, pairs, u.id)
    ensures var next := After(cfg, st, ds, pairs);
      && (u.id in Ids(next) <==> u.lost + 1 <= cfg.maxLost)
      && forall w :: w in next.tracks && w.id == u.id ==> Missing(u, w)
  {
    var i :| 0 <= i < |st.tracks| && st.tracks[i] == u;
    SurvivesIff(cfg, st, ds, pairs, i);
    assert !Paired(pairs, i);
  }

  /** A track that goes unmatched for `k` frames in a row is still there exactly while its lost
      frames are within the limit, and has moved on by its velocity. */
  lemma {:induction false} LivesWhileWithin(cfg: Config, states: seq<State>, frames: seq<Frame>, i: nat, k: nat,
                                            t: Track)
    requires IsRun(cfg, states, frames) && i + k < |states| && t in states[i].tracks
    requires forall j :: i <= j < i + k ==> Unmatched(states[j], frames[j].pairs, t.id)
    ensures t.id in Ids(states[i + k]) <==> k == 0 || t.lost + k <= cfg.maxLost
    ensures forall u :: u in states[i + k].tracks && u.id == t.id ==> Drifted(t, k, u)
  {
    if k == 0 {
      RunStaysValid(cfg, states, frames, i);
      var x :| 0 <= x < |states[i].tracks| && states[i].tracks[x] == t;
    } else {
      var j := i + k - 1;
      LivesWhileWithin(cfg, states, frames, i, k - 1, t);
      HandedOut(cfg, states, frames, i, j, t);
      OneMoreUnmatched(cfg, states, frames, j, k - 1, t);
    }
  }

  lemma OneMoreUnmatched(cfg: Config, states: seq<State>, frames: seq<Frame>, j: nat, k: nat, t: Track)
    requires IsRun(cfg, states, frames) && j < |frames| && Unmatched(states[j], frames[j].pairs, t.id)
    requires t.id < states[j].nextId && (t.id in Ids(states[j]) <==> k == 0 || t.lost + k <= cfg.maxLost)
    requires forall u :: u in states[j].tracks && u.id == t.id ==> Drifted(t, k, u)
    ensures t.id in Ids(states[j + 1]) <==> t.lost + k + 1 <= cfg.maxLost
    ensures forall u :: u in states[j + 1].tracks && u.id == t.id ==> Drifted(t, k + 1, u)
  {
    RunStaysValid(cfg, states, frames, j);
    if t.id in Ids(states[j]) {
      var y :| 0 <= y < |states[j].tracks| && states[j].tracks[y].id == t.id;
      var u := states[j].tracks[y];
      UnmatchedFrame(cfg, states[j], frames[j].ds, frames[j].pairs, u);
      forall w | w in states[j + 1].tracks && w.id == t.id ensures Drifted(t, k + 1, w) {
        DriftOn(t, k, u, w);
      }
    } else {
      NeverReused(cfg, states, frames, j, j + 1, t.id);
      NotListed(states[j + 1], t.id);
    }
  }

  lemma NotListed(st: State, id: int)
    requires id !in Ids(st)
    ensures forall u :: u in st.tracks ==> u.id != id
  {
  }

  /** An id once handed out stays below the counter. */
  lemma {:induction false} HandedOut(cfg: Config, states: seq<State>, frames: seq<Frame>, i: nat, j: nat, t: Track)
    requires IsRun(cfg, states, frames) && i <= j < |states| && t in states[i].tracks
    ensures t.id < states[j].nextId
    decreases j
  {
    RunStaysValid(cfg, states, frames, j);
    if i < j {
      HandedOut(cfg, states, frames, i, j - 1, t);
      RunStaysValid(cfg, states, frames, j - 1);
      FrameIds(cfg, states[j - 1], frames[j - 1].ds, frames[j - 1].pairs);
    }
  }
}
