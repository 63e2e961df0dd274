/**
 `ByteTrackTracker::update` on a mutable tracker: the loops of
 src/tracker/ByteTrackTracker.cpp:117-255, proved to compute `Tracker.After`.
 */
module TrackerUpdate {
  import opened Geometry
  import opened Assignment
  import opened Tracker

  // ---------------------------------------------------------------- lists the frame works with

  function HighIdx(cfg: Config, ds: seq<Detection>, k: nat): (r: seq<nat>)
    requires k <= |ds|
    ensures forall x :: 0 <= x < |r| ==> r[x] < k && ds[r[x]].confidence >= cfg.highThresh
    ensures forall x, y :: 0 <= x < y < |r| ==> r[x] < r[y]
  {
    if k == 0 then [] else
    var r := HighIdx(cfg, ds, k - 1);
    if IsHigh(cfg, ds[k - 1]) then r + [k - 1] else r
  }

  function LowIdx(cfg: Config, ds: seq<Detection>, k: nat): (r: seq<nat>)
    requires k <= |ds|
    ensures forall x :: 0 <= x < |r| ==> r[x] < k && cfg.lowThresh <= ds[r[x]].confidence < cfg.highThresh
    ensures forall x, y :: 0 <= x < y < |r| ==> r[x] < r[y]
  {
    if k == 0 then [] else
    var r := LowIdx(cfg, ds, k - 1);
    if IsLow(cfg, ds[k - 1]) then r + [k - 1] else r
  }

  /** Every detection at the higher threshold is on the one list, every other at the lower one on the other. */
  lemma {:induction false} BothListsFull(cfg: Config, ds: seq<Detection>, k: nat, d: nat)
    requires d < k <= |ds|
    ensures ds[d].confidence >= cfg.highThresh ==> d in HighIdx(cfg, ds, k)
    ensures cfg.lowThresh <= ds[d].confidence < cfg.highThresh ==> d in LowIdx(cfg, ds, k)
  {
    if d < k - 1 {
      BothListsFull(cfg, ds, k - 1, d);
    } else {
      var high, low := HighIdx(cfg, ds, k - 1), LowIdx(cfg, ds, k - 1);
      assert (high + [d])[|high|] == d && (low + [d])[|low|] == d;
    }
  }

  /** The tracks below `k` that claimed nothing so far. */
  function Unclaimed(pairs: seq<Pair>, k: nat): (r: seq<nat>)
    ensures forall x :: 0 <= x < |r| ==> r[x] < k && Claim(pairs, r[x]).None?
    ensures forall x, y :: 0 <= x < y < |r| ==> r[x] < r[y]
    ensures forall i :: 0 <= i < k && Claim(pairs, i).None? ==> i in r
  {
    if k == 0 then [] else
    var r := Unclaimed(pairs, k - 1);
    if Claim(pairs, k - 1).None? then r + [k - 1] else r
  }

  ghost predicate Ascending(s: seq<nat>, n: nat) {
    && (forall x :: 0 <= x < |s| ==> s[x] < n)
    && (forall x, y :: 0 <= x < y < |s| ==> s[x] < s[y])
  }

  function TrackBoxes(tracks: seq<Track>, rows: seq<nat>): (r: seq<BBox>)
    requires forall x :: 0 <= x < |rows| ==> rows[x] < |tracks|
    ensures |r| == |rows| && forall x :: 0 <= x < |r| ==> r[x] == tracks[rows[x]].bbox
  {
    seq(|rows|, x requires 0 <= x < |rows| => tracks[rows[x]].bbox)
  }

  function DetBoxes(ds: seq<Detection>, cols: seq<nat>): (r: seq<BBox>)
    requires forall x :: 0 <= x < |cols| ==> cols[x] < |ds|
    ensures |r| == |cols| && forall x :: 0 <= x < |r| ==> r[x] == ds[cols[x]].bbox
  {
    seq(|cols|, x requires 0 <= x < |cols| => ds[cols[x]].bbox)
  }

  ghost predicate InRangeOf(m: seq<Pair>, rows: seq<nat>, cols: seq<nat>) {
    forall k :: 0 <= k < |m| ==> m[k].0 < |rows| && m[k].1 < |cols|
  }

  /** Detection `d` after the frame: with the id the frame writes on it, or else its own. */
  ghost predicate TaggedAs(cfg: Config, st: State, ds: seq<Detection>, pairs: seq<Pair>, next: State, d: nat,
                           after: Detection)
    requires d < |ds|
  {
    exists id :: Writes(cfg, st, ds, pairs, next, d, id)
      && after == ds[d].(trackId := if id.Some? then id else ds[d].trackId)
  }

  lemma OutcomeOf(cfg: Config, st: State, ds: seq<Detection>, pairs: seq<Pair>)
    requires Tracker.Valid(cfg, st) && InBounds(pairs, |st.tracks|, |ds|)
    ensures FrameOutcome(cfg, st, ds, pairs, After(cfg, st, ds, pairs))
  {
    var kept, from := FrameIs(cfg, st, ds, pairs);
  }

  /** Matches between two lists, as track and detection indexes. */
  function Lift(m: seq<Pair>, rows: seq<nat>, cols: seq<nat>): (r: seq<Pair>)
    requires forall k :: 0 <= k < |m| ==> m[k].0 < |rows| && m[k].1 < |cols|
    ensures |r| == |m| && forall k :: 0 <= k < |r| ==> r[k] == (rows[m[k].0], cols[m[k].1])
  {
    seq(|m|, k requires 0 <= k < |m| => (rows[m[k].0], cols[m[k].1]))
  }

  ghost predicate MovedBy(b: BBox, dx: real, dy: real, r: BBox) {
    r.x1 == b.x1 + dx && r.y1 == b.y1 + dy && r.x2 == b.x2 + dx && r.y2 == b.y2 + dy
  }

  /** Every track moved on by its velocity. */
  function Predicted(tracks: seq<Track>): (r: seq<Track>)
    ensures |r| == |tracks|
    ensures forall i :: 0 <= i < |r| ==> MovedBy(tracks[i].bbox, tracks[i].vx, tracks[i].vy, r[i].bbox)
  {
    seq(|tracks|, i requires 0 <= i < |tracks| => Predict(tracks[i]))
  }

  function AllRows(n: nat): (r: seq<nat>)
    ensures |r| == n && forall x :: 0 <= x < n ==> r[x] == x
  {
    seq(n, x requires 0 <= x < n => x as nat)
  }

  /** One round of matching: best possible between the listed predicted tracks and detections. */
  ghost predicate Stage(cfg: Config, tracks: seq<Track>, ds: seq<Detection>, rows: seq<nat>, cols: seq<nat>,
                        m: seq<Pair>)
    requires Ascending(rows, |tracks|) && Ascending(cols, |ds|)
  {
    var a, b := TrackBoxes(Predicted(tracks), rows), DetBoxes(ds, cols);
    && Respects(m, a, b, cfg.matchIou)
    && (MinNat(|rows|, |cols|) < 1000000 ==> IsBest(m, a, b, cfg.matchIou))
  }

  /** The two rounds: confident detections against every track, then weak detections
      against the tracks the first round left over. */
  ghost predicate TwoStage(cfg: Config, tracks: seq<Track>, ds: seq<Detection>, hm: seq<Pair>, lm: seq<Pair>,
                           pairs: seq<Pair>) {
    var high, low, rows := HighIdx(cfg, ds, |ds|), LowIdx(cfg, ds, |ds|), AllRows(|tracks|);
    && Stage(cfg, tracks, ds, rows, high, hm)
    && var first := Lift(hm, rows, high);
    var rest := Unclaimed(first, |tracks|);
    && Stage(cfg, tracks, ds, rest, low, lm)
    && pairs == first + Lift(lm, rest, low)
  }

  lemma LiftOneToOne(m: seq<Pair>, rows: seq<nat>, cols: seq<nat>, n: nat, k: nat)
    requires OneToOne(m, |rows|, |cols|) && Ascending(rows, n) && Ascending(cols, k)
    ensures OneToOne(Lift(m, rows, cols), n, k)
  {
    var r := Lift(m, rows, cols);
    forall x, y | 0 <= x < y < |r| ensures r[x].0 != r[y].0 && r[x].1 != r[y].1 {
      Injective(rows, n, m[x].0, m[y].0);
      Injective(cols, k, m[x].1, m[y].1);
    }
  }

  lemma Injective(s: seq<nat>, n: nat, x: nat, y: nat)
    requires Ascending(s, n) && x < |s| && y < |s| && x != y
    ensures s[x] != s[y]
  {
    assert if x < y then s[x] < s[y] else s[y] < s[x];
  }

  lemma Append(a: seq<Pair>, b: seq<Pair>, n: nat, m: nat)
    requires OneToOne(a, n, m) && OneToOne(b, n, m)
    requires forall x, y :: 0 <= x < |a| && 0 <= y < |b| ==> a[x].0 != b[y].0 && a[x].1 != b[y].1
    ensures OneToOne(a + b, n, m)
  {
  }

  // ---------------------------------------------------------------- the frame under way

  ghost predicate IsMatched(cur: seq<Track>, cfg: Config, tracks: seq<Track>, ds: seq<Detection>, pairs: seq<Pair>)
    requires InBounds(pairs, |tracks|, |ds|)
  {
    |cur| == |tracks| && forall i :: 0 <= i < |tracks| ==> cur[i] == Matched(cfg, tracks, ds, pairs, i)
  }

  /** The id detection `d` has been given by a matched track so far. */
  ghost function MatchTag(cfg: Config, tracks: seq<Track>, ds: seq<Detection>, pairs: seq<Pair>, d: nat): Option<int>
    requires d < |ds| && InBounds(pairs, |tracks|, |ds|)
  {
    ClaimantIsPaired(pairs, d);
    match Claimant(pairs, d)
    case Some(i) =>
      var t := Matched(cfg, tracks, ds, pairs, i);
      if t.confirmed then Some(t.id) else ds[d].trackId
    case None => ds[d].trackId
  }

  ghost predicate IsTagged(cur: seq<Detection>, cfg: Config, tracks: seq<Track>, ds: seq<Detection>, pairs: seq<Pair>)
    requires InBounds(pairs, |tracks|, |ds|)
  {
    |cur| == |ds| && forall d :: 0 <= d < |ds| ==> cur[d] == ds[d].(trackId := MatchTag(cfg, tracks, ds, pairs, d))
  }

  /** The tags while new tracks open: those of the first `d` detections are final. */
  ghost predicate TaggedUpTo(cur: seq<Detection>, cfg: Config, st: State, ds: seq<Detection>, pairs: seq<Pair>, d: nat)
    requires InBounds(pairs, |st.tracks|, |ds|)
  {
    && |cur| == |ds|
    && (forall e :: 0 <= e < d && e < |ds| ==> cur[e] == ds[e].(trackId := Tag(cfg, st, ds, pairs, e)))
    && (forall e :: d <= e < |ds| ==> cur[e] == ds[e].(trackId := MatchTag(cfg, st.tracks, ds, pairs, e)))
  }

  /** What detection `d` carries once it has been looked at, from what it carried before. */
  ghost function NewTag(cfg: Config, st: State, ds: seq<Detection>, pairs: seq<Pair>, d: nat,
                        was: Option<int>): Option<int>
    requires d < |ds|
  {
    if OpensTrack(cfg, ds, pairs, d) && cfg.minHits <= 1
    then Some(st.nextId + |Opened(cfg, st.nextId, ds, pairs, d)|) else was
  }

  lemma TagIsNew(cfg: Config, st: State, ds: seq<Detection>, pairs: seq<Pair>, d: nat)
    requires InBounds(pairs, |st.tracks|, |ds|) && d < |ds|
    ensures Tag(cfg, st, ds, pairs, d) == NewTag(cfg, st, ds, pairs, d, MatchTag(cfg, st.tracks, ds, pairs, d))
  {}

  lemma OneMoreTag(cur: seq<Detection>, cfg: Config, st: State, ds: seq<Detection>, pairs: seq<Pair>, d: nat)
    requires InBounds(pairs, |st.tracks|, |ds|) && d < |ds| && TaggedUpTo(cur, cfg, st, ds, pairs, d)
    ensures cur[d].bbox == ds[d].bbox && cur[d].confidence == ds[d].confidence
    ensures TaggedUpTo(cur[d := cur[d].(trackId := NewTag(cfg, st, ds, pairs, d, cur[d].trackId))],
                       cfg, st, ds, pairs, d + 1)
  {
    TagIsNew(cfg, st, ds, pairs, d);
  }

  /** Applying one more pair changes its own track and detection and nothing else. */
  lemma OneMorePair(cfg: Config, tracks: seq<Track>, ds: seq<Detection>, pairs: seq<Pair>, p: Pair)
    requires OneToOne(pairs + [p], |tracks|, |ds|) && InBounds(pairs, |tracks|, |ds|)
    requires InBounds(pairs + [p], |tracks|, |ds|)
    ensures forall i :: 0 <= i < |tracks| && i != p.0 ==>
      Matched(cfg, tracks, ds, pairs + [p], i) == Matched(cfg, tracks, ds, pairs, i)
    ensures p.0 < |tracks| && p.1 < |ds|
    ensures Matched(cfg, tracks, ds, pairs, p.0) == Predict(tracks[p.0])
    ensures Matched(cfg, tracks, ds, pairs + [p], p.0) == Hit(cfg, Predict(tracks[p.0]), ds[p.1].bbox)
    ensures forall d :: 0 <= d < |ds| && d != p.1 ==>
      MatchTag(cfg, tracks, ds, pairs + [p], d) == MatchTag(cfg, tracks, ds, pairs, d)
  {
    var longer := pairs + [p];
    assert longer[..|pairs|] == pairs && longer[|pairs|] == p;
    assert forall k :: 0 <= k < |pairs| ==> longer[k] == pairs[k];
    ClaimIsPaired(pairs, p.0);
    forall d | 0 <= d < |ds| && d != p.1
      ensures MatchTag(cfg, tracks, ds, longer, d) == MatchTag(cfg, tracks, ds, pairs, d)
    {
      ClaimantIsPaired(pairs, d);
      if Claimant(pairs, d).Some? {
        var k :| 0 <= k < |pairs| && pairs[k] == (Claimant(pairs, d).value, d);
        assert longer[k].0 != longer[|pairs|].0;
      }
    }
  }

  // ---------------------------------------------------------------- ending the frame

  function KeepLive(tracks: seq<Track>): seq<Track> {
    if tracks == [] then [] else
    var k := |tracks| - 1;
    if tracks[k].status.Removed? then KeepLive(tracks[..k]) else KeepLive(tracks[..k]) + [tracks[k]]
  }

  lemma {:induction false} KeepLiveAppend(a: seq<Track>, b: seq<Track>)
    requires forall i :: 0 <= i < |b| ==> !b[i].status.Removed?
    ensures KeepLive(a + b) == KeepLive(a) + b
  {
    if b == [] {
      assert a + b == a;
    } else {
      var k := |b| - 1;
      KeepLiveAppend(a, b[..k]);
      assert (a + b)[..|a| + k] == a + b[..k];
    }
  }

  lemma {:induction false} KeepLiveAged(cur: seq<Track>, cfg: Config, tracks: seq<Track>, ds: seq<Detection>,
                                        pairs: seq<Pair>, k: nat)
    requires InBounds(pairs, |tracks|, |ds|) && k <= |cur| == |tracks|
    requires forall i :: 0 <= i < |tracks| ==> cur[i] == Aged(cfg, tracks, ds, pairs, i)
    ensures KeepLive(cur[..k]) == Survivors(cfg, tracks, ds, pairs, k)
  {
    if k > 0 {
      KeepLiveAged(cur, cfg, tracks, ds, pairs, k - 1);
      assert cur[..k][..k - 1] == cur[..k - 1];
    }
  }

  /** The detection of one more pair carries the track's id once the track is confirmed. */
  lemma TagOfPair(cfg: Config, tracks: seq<Track>, ds: seq<Detection>, pairs: seq<Pair>, p: Pair)
    requires OneToOne(pairs + [p], |tracks|, |ds|) && p.0 < |tracks| && p.1 < |ds|
    requires InBounds(pairs, |tracks|, |ds|) && InBounds(pairs + [p], |tracks|, |ds|)
    ensures MatchTag(cfg, tracks, ds, pairs, p.1) == ds[p.1].trackId
    ensures var t := Matched(cfg, tracks, ds, pairs + [p], p.0);
      MatchTag(cfg, tracks, ds, pairs + [p], p.1) == if t.confirmed then Some(t.id) else ds[p.1].trackId
  {
    var longer := pairs + [p];
    assert longer[..|pairs|] == pairs && longer[|pairs|] == p;
    assert Claimant(longer, p.1) == Some(p.0);
    assert forall k :: 0 <= k < |pairs| ==> longer[k] == pairs[k];
    ClaimantIsPaired(pairs, p.1);
  }

  /** Writing the track's id, or not, tags the detection of one more pair. */
  lemma TagApplied(cur': seq<Detection>, cur: seq<Detection>, cfg: Config, tracks: seq<Track>, ds: seq<Detection>,
                   pairs: seq<Pair>, p: Pair, t: Track)
    requires OneToOne(pairs + [p], |tracks|, |ds|) && p.0 < |tracks| && p.1 < |ds|
    requires InBounds(pairs, |tracks|, |ds|) && InBounds(pairs + [p], |tracks|, |ds|)
    requires IsTagged(cur, cfg, tracks, ds, pairs) && t == Matched(cfg, tracks, ds, pairs + [p], p.0)
    requires cur' == if t.confirmed then cur[p.1 := cur[p.1].(trackId := Some(t.id))] else cur
    ensures IsTagged(cur', cfg, tracks, ds, pairs + [p])
  {
    OneMorePair(cfg, tracks, ds, pairs, p);
    TagOfPair(cfg, tracks, ds, pairs, p);
  }

  lemma TakenTracks(pairs: seq<Pair>, taken: set<nat>)
    requires taken == set p | p in pairs :: p.0
    ensures forall i: nat :: i in taken <==> Claim(pairs, i).Some?
  {
    forall i: nat ensures i in taken <==> Claim(pairs, i).Some? {
      ClaimIsPaired(pairs, i);
      if i in taken {
        var p :| p in pairs && p.0 == i;
      }
      if Claim(pairs, i).Some? {
        assert (i, Claim(pairs, i).value).0 in taken;
      }
    }
  }

  /** The first round claims confident detections only. */
  lemma WeakUnclaimed(cfg: Config, ds: seq<Detection>, m: seq<Pair>, rows: seq<nat>, pairs: seq<Pair>)
    requires forall k :: 0 <= k < |m| ==> m[k].0 < |rows| && m[k].1 < |HighIdx(cfg, ds, |ds|)|
    requires pairs == Lift(m, rows, HighIdx(cfg, ds, |ds|))
    ensures forall x :: 0 <= x < |LowIdx(cfg, ds, |ds|)| ==> Claimant(pairs, LowIdx(cfg, ds, |ds|)[x]).None?
  {
    var high, low := HighIdx(cfg, ds, |ds|), LowIdx(cfg, ds, |ds|);
    forall x | 0 <= x < |low| ensures Claimant(pairs, low[x]).None? {
      ClaimantIsPaired(pairs, low[x]);
      assert IsLow(cfg, ds[low[x]]);
      assert forall k :: 0 <= k < |pairs| ==> pairs[k].1 == high[m[k].1] && IsHigh(cfg, ds[pairs[k].1]);
    }
  }

  /** Whether a confident detection is claimed was settled in the first round. */
  lemma HighClaims(cfg: Config, ds: seq<Detection>, first: seq<Pair>, second: seq<Pair>, claimed: set<nat>,
                   lm: seq<Pair>, rest: seq<nat>)
    requires forall k :: 0 <= k < |lm| ==> lm[k].0 < |rest| && lm[k].1 < |LowIdx(cfg, ds, |ds|)|
    requires second == Lift(lm, rest, LowIdx(cfg, ds, |ds|))
    requires claimed == set p | p in first :: p.1
    ensures forall d: nat :: d < |ds| && IsHigh(cfg, ds[d]) ==> (d in claimed <==> Claimant(first + second, d).Some?)
  {
    var low := LowIdx(cfg, ds, |ds|);
    var pairs := first + second;
    forall d: nat | d < |ds| && IsHigh(cfg, ds[d]) ensures d in claimed <==> Claimant(pairs, d).Some? {
      ClaimantIsPaired(pairs, d);
      if d in claimed {
        var p :| p in first && p.1 == d;
        assert p in pairs;
      }
      if Claimant(pairs, d).Some? {
        var p := (Claimant(pairs, d).value, d);
        assert forall k :: 0 <= k < |second| ==> second[k].1 == low[lm[k].1] && IsLow(cfg, ds[second[k].1]);
        assert p in first;
        assert p.1 in claimed;
      }
    }
  }

  lemma FrameEnd(cfg: Config, st: State, ds: seq<Detection>, pairs: seq<Pair>, aged: seq<Track>)
    requires Tracker.Valid(cfg, st) && InBounds(pairs, |st.tracks|, |ds|)
    requires |aged| == |st.tracks| && forall i :: 0 <= i < |aged| ==> aged[i] == Aged(cfg, st.tracks, ds, pairs, i)
    ensures KeepLive(aged + Opened(cfg, st.nextId, ds, pairs, |ds|)) == After(cfg, st, ds, pairs).tracks
    ensures Tracker.Valid(cfg, After(cfg, st, ds, pairs))
  {
    OpenedIds(cfg, st.nextId, ds, pairs, |ds|);
    KeepLiveAppend(aged, Opened(cfg, st.nextId, ds, pairs, |ds|));
    assert aged[..|aged|] == aged;
    KeepLiveAged(aged, cfg, st.tracks, ds, pairs, |aged|);
    FrameKeepsValid(cfg, st, ds, pairs);
  }

  class ByteTrackTracker {
    const cfg: Config
    var nextId: int
    var tracks: seq<Track>

    ghost function Value(): State
      reads this
    {
      State(nextId, tracks)
    }

    constructor (cfg: Config)
      ensures this.cfg == cfg && Value() == State(1, []) && Tracker.Valid(cfg, Value())
    {
      this.cfg := cfg;
      nextId, tracks := 1, [];
    }

    /** Splits the detections into confident and weak ones. */
    method Split(ds: seq<Detection>) returns (high: seq<nat>, low: seq<nat>)
      ensures high == HighIdx(cfg, ds, |ds|) && low == LowIdx(cfg, ds, |ds|)
    {
      high, low := [], [];
      var i := 0;
      while i < |ds|
        invariant 0 <= i <= |ds|
        invariant high == HighIdx(cfg, ds, i) && low == LowIdx(cfg, ds, i)
      {
        if ds[i].confidence >= cfg.highThresh {
          high := high + [i];
        } else if ds[i].confidence >= cfg.lowThresh {
          low := low + [i];
        }
        i := i + 1;
      }
    }

    method PredictAll()
      requires forall i :: 0 <= i < |tracks| ==> !tracks[i].status.Removed?
      modifies this`tracks
      ensures tracks == Predicted(old(tracks))
    {
      var i := 0;
      while i < |tracks|
        invariant 0 <= i <= |tracks| == |old(tracks)|
        invariant forall k :: 0 <= k < |tracks| ==>
          tracks[k] == if k < i then Predict(old(tracks)[k]) else old(tracks)[k]
      {
        var t := tracks[i];
        tracks := tracks[i := t.(bbox := BBox(t.bbox.x1 + t.vx, t.bbox.y1 + t.vy, t.bbox.x2 + t.vx, t.bbox.y2 + t.vy),
                                 age := t.age + 1, lost := t.lost + 1)];
        i := i + 1;
      }
    }

    /** The matched tracks take over their detections; confirmed ones write their id. */
    method ApplyMatches(dets: array<Detection>, pairs: seq<Pair>, ghost was: seq<Track>, ghost ds: seq<Detection>,
                        ghost before: seq<Pair>)
      requires OneToOne(before + pairs, |was|, |ds|) && InBounds(before, |was|, |ds|)
      requires IsMatched(tracks, cfg, was, ds, before) && IsTagged(dets[..], cfg, was, ds, before)
      modifies this`tracks, dets
      ensures InBounds(before + pairs, |was|, |ds|)
      ensures IsMatched(tracks, cfg, was, ds, before + pairs) && IsTagged(dets[..], cfg, was, ds, before + pairs)
    {
      var k := 0;
      ghost var sofar := before;
      assert before + pairs[..0] == before;
      while k < |pairs|
        invariant 0 <= k <= |pairs| && sofar == before + pairs[..k]
        invariant InBounds(sofar, |was|, |ds|)
        invariant IsMatched(tracks, cfg, was, ds, sofar) && IsTagged(dets[..], cfg, was, ds, sofar)
      {
        var ti, di := pairs[k].0, pairs[k].1;
        ghost var longer := sofar + [pairs[k]];
        assert longer == before + pairs[..k + 1];
        assert longer <= before + pairs;
        OneMorePair(cfg, was, ds, sofar, pairs[k]);
        ghost var cur := dets[..];
        var box := dets[di].bbox;
        assert box == cur[di].bbox == ds[di].bbox;
        var t := tracks[ti];
        t := t.(vx := CenterX(box) - (CenterX(t.bbox) - t.vx), vy := CenterY(box) - (CenterY(t.bbox) - t.vy),
                bbox := box, hits := t.hits + 1, lost := 0, status := Tracked);
        if !t.confirmed && t.hits >= cfg.minHits {
          t := t.(confirmed := true);
        }
        tracks := tracks[ti := t];
        if t.confirmed {
          dets[di] := dets[di].(trackId := Some(t.id));
        }
        TagApplied(dets[..], cur, cfg, was, ds, sofar, pairs[k], t);
        sofar := longer;
        k := k + 1;
      }
      assert pairs[..k] == pairs;
    }

    /** One round of matching between the listed tracks and detections, all unclaimed so far. */
    method MatchRound(dets: array<Detection>, rows: seq<nat>, cols: seq<nat>, ghost was: seq<Track>,
                      ghost ds: seq<Detection>, ghost before: seq<Pair>)
      returns (ghost m: seq<Pair>, lifted: seq<Pair>)
      requires Ascending(rows, |was|) && Ascending(cols, |ds|)
      requires OneToOne(before, |was|, |ds|) && InBounds(before, |was|, |ds|)
      requires forall x :: 0 <= x < |rows| ==> Claim(before, rows[x]).None?
      requires forall x :: 0 <= x < |cols| ==> Claimant(before, cols[x]).None?
      requires IsMatched(tracks, cfg, was, ds, before) && IsTagged(dets[..], cfg, was, ds, before)
      modifies this`tracks, dets
      ensures Stage(cfg, was, ds, rows, cols, m) && lifted == Lift(m, rows, cols)
      ensures OneToOne(before + lifted, |was|, |ds|) && InBounds(before + lifted, |was|, |ds|)
      ensures IsMatched(tracks, cfg, was, ds, before + lifted) && IsTagged(dets[..], cfg, was, ds, before + lifted)
    {
      ghost var cur := dets[..];
      assert forall x :: 0 <= x < |cols| ==> cur[cols[x]].bbox == ds[cols[x]].bbox;
      assert TrackBoxes(tracks, rows) == TrackBoxes(Predicted(was), rows);
      assert DetBoxes(cur, cols) == DetBoxes(ds, cols);
      var matches := LinearAssign(TrackBoxes(tracks, rows), DetBoxes(dets[..], cols), cfg.matchIou);
      m := matches;
      lifted := Lift(matches, rows, cols);
      LiftOneToOne(m, rows, cols, |was|, |ds|);
      forall x, y | 0 <= x < |before| && 0 <= y < |lifted|
        ensures before[x].0 != lifted[y].0 && before[x].1 != lifted[y].1
      {
        ClaimIsPaired(before, rows[m[y].0]);
        ClaimantIsPaired(before, cols[m[y].1]);
      }
      Append(before, lifted, |was|, |ds|);
      ApplyMatches(dets, lifted, was, ds, before);
    }

    /** The tracks left over after the first round. */
    method LeftOver(taken: set<nat>, n: nat, ghost pairs: seq<Pair>) returns (rest: seq<nat>)
      requires forall i: nat :: i in taken <==> Claim(pairs, i).Some?
      ensures rest == Unclaimed(pairs, n)
    {
      rest := [];
      var i := 0;
      while i < n
        invariant 0 <= i <= n && rest == Unclaimed(pairs, i)
      {
        if i !in taken {
          rest := rest + [i];
        }
        i := i + 1;
      }
    }

    /** Unmatched tracks become lost, or removed when lost for too long. */
    method AgeUnmatched(taken: set<nat>, ghost was: seq<Track>, ghost ds: seq<Detection>, ghost pairs: seq<Pair>)
      requires InBounds(pairs, |was|, |ds|) && IsMatched(tracks, cfg, was, ds, pairs)
      requires forall i: nat :: i in taken <==> Claim(pairs, i).Some?
      requires forall i :: 0 <= i < |was| ==> !was[i].status.Removed?
      modifies this`tracks
      ensures |tracks| == |was| && forall i :: 0 <= i < |was| ==> tracks[i] == Aged(cfg, was, ds, pairs, i)
      ensures forall i :: 0 <= i < |was| && i in taken ==> tracks[i] == old(tracks)[i]
      ensures forall i :: 0 <= i < |was| && i !in taken ==> tracks[i] == old(tracks)[i].(status := tracks[i].status)
      ensures forall i :: 0 <= i < |was| && i !in taken ==>
        tracks[i].status == if old(tracks)[i].lost <= cfg.maxLost then Lost else Removed
    {
      var i := 0;
      while i < |tracks|
        invariant 0 <= i <= |tracks| == |was|
        invariant forall k :: 0 <= k < |was| ==>
          tracks[k] == if k < i then Aged(cfg, was, ds, pairs, k) else Matched(cfg, was, ds, pairs, k)
      {
        if i !in taken {
          var t := tracks[i];
          tracks := tracks[i := t.(status := if t.lost > cfg.maxLost then Removed else Lost)];
        }
        i := i + 1;
      }
    }

    /** A new track for every confident detection that no track claimed. */
    method OpenTracks(dets: array<Detection>, claimed: set<nat>,
                      ghost st: State, ghost ds: seq<Detection>, ghost pairs: seq<Pair>)
      requires InBounds(pairs, |st.tracks|, |ds|) && nextId == st.nextId
      requires IsTagged(dets[..], cfg, st.tracks, ds, pairs)
      requires forall d: nat :: d < |ds| && IsHigh(cfg, ds[d]) ==> (d in claimed <==> Claimant(pairs, d).Some?)
      modifies this, dets
      ensures tracks == old(tracks) + Opened(cfg, st.nextId, ds, pairs, |ds|)
      ensures nextId == st.nextId + |Opened(cfg, st.nextId, ds, pairs, |ds|)|
      ensures forall d :: 0 <= d < |ds| ==> dets[d] == ds[d].(trackId := Tag(cfg, st, ds, pairs, d))
    {
      var d := 0;
      while d < dets.Length
        invariant 0 <= d <= dets.Length == |ds|
        invariant tracks == old(tracks) + Opened(cfg, st.nextId, ds, pairs, d)
        invariant nextId == st.nextId + |Opened(cfg, st.nextId, ds, pairs, d)|
        invariant TaggedUpTo(dets[..], cfg, st, ds, pairs, d)
      {
        ghost var was := dets[..];
        OneMoreTag(was, cfg, st, ds, pairs, d);
        if dets[d].confidence >= cfg.highThresh && d !in claimed {
          var t := Track(nextId, dets[d].bbox, 0.0, 0.0, 1, 1, 0, cfg.minHits <= 1, Tracked);
          nextId := nextId + 1;
          if t.confirmed {
            dets[d] := dets[d].(trackId := Some(t.id));
          }
          tracks := tracks + [t];
        }
        assert dets[..] == was[d := dets[d]];
        d := d + 1;
      }
    }

    method EraseRemoved()
      modifies this`tracks
      ensures tracks == KeepLive(old(tracks))
    {
      var live: seq<Track> := [];
      var i := 0;
      while i < |tracks|
        invariant 0 <= i <= |tracks| && live == KeepLive(tracks[..i])
      {
        assert tracks[..i + 1][..i] == tracks[..i];
        if tracks[i].status != Removed {
          live := live + [tracks[i]];
        }
        i := i + 1;
      }
      assert tracks[..i] == tracks;
      tracks := live;
    }

    /** Both rounds of matching. */
    method MatchBoth(dets: array<Detection>, ghost was: seq<Track>, ghost ds: seq<Detection>)
      returns (ghost hm: seq<Pair>, ghost lm: seq<Pair>, first: seq<Pair>, second: seq<Pair>, ghost rest: seq<nat>)
      requires tracks == was && dets[..] == ds
      requires forall i :: 0 <= i < |was| ==> !was[i].status.Removed?
      modifies this`tracks, dets
      ensures TwoStage(cfg, was, ds, hm, lm, first + second)
      ensures rest == Unclaimed(first, |was|) && InRangeOf(lm, rest, LowIdx(cfg, ds, |ds|))
      ensures second == Lift(lm, rest, LowIdx(cfg, ds, |ds|))
      ensures OneToOne(first + second, |was|, |ds|) && InBounds(first + second, |was|, |ds|)
      ensures IsMatched(tracks, cfg, was, ds, first + second) && IsTagged(dets[..], cfg, was, ds, first + second)
    {
      var high, low := Split(dets[..]);
      PredictAll();
      hm, first := FirstRound(dets, high, was, ds);
      var taken := set p | p in first :: p.0;
      TakenTracks(first, taken);
      var left := LeftOver(taken, |tracks|, first);
      rest := left;
      WeakUnclaimed(cfg, ds, hm, AllRows(|was|), first);
      lm, second := SecondRound(dets, left, low, was, ds, first);
    }

    method FirstRound(dets: array<Detection>, high: seq<nat>, ghost was: seq<Track>, ghost ds: seq<Detection>)
      returns (ghost m: seq<Pair>, first: seq<Pair>)
      requires high == HighIdx(cfg, ds, |ds|)
      requires IsMatched(tracks, cfg, was, ds, []) && IsTagged(dets[..], cfg, was, ds, [])
      modifies this`tracks, dets
      ensures Stage(cfg, was, ds, AllRows(|was|), high, m) && first == Lift(m, AllRows(|was|), high)
      ensures OneToOne(first, |was|, |ds|) && InBounds(first, |was|, |ds|)
      ensures IsMatched(tracks, cfg, was, ds, first) && IsTagged(dets[..], cfg, was, ds, first)
    {
      m, first := MatchRound(dets, AllRows(|tracks|), high, was, ds, []);
      assert [] + first == first;
    }

    method SecondRound(dets: array<Detection>, left: seq<nat>, low: seq<nat>, ghost was: seq<Track>,
                       ghost ds: seq<Detection>, ghost first: seq<Pair>)
      returns (ghost m: seq<Pair>, second: seq<Pair>)
      requires low == LowIdx(cfg, ds, |ds|) && left == Unclaimed(first, |was|)
      requires OneToOne(first, |was|, |ds|) && InBounds(first, |was|, |ds|)
      requires forall x :: 0 <= x < |low| ==> Claimant(first, low[x]).None?
      requires IsMatched(tracks, cfg, was, ds, first) && IsTagged(dets[..], cfg, was, ds, first)
      modifies this`tracks, dets
      ensures Stage(cfg, was, ds, left, low, m) && second == Lift(m, left, low)
      ensures OneToOne(first + second, |was|, |ds|) && InBounds(first + second, |was|, |ds|)
      ensures IsMatched(tracks, cfg, was, ds, first + second) && IsTagged(dets[..], cfg, was, ds, first + second)
    {
      m, second := MatchRound(dets, left, low, was, ds, first);
    }

    /** `update`: one frame.  The detections are tagged in place. */
    method Update(dets: array<Detection>) returns (ghost hm: seq<Pair>, ghost lm: seq<Pair>, ghost pairs: seq<Pair>)
      requires Tracker.Valid(cfg, Value())
      modifies this, dets
      ensures TwoStage(cfg, old(tracks), old(dets[..]), hm, lm, pairs)
      ensures OneToOne(pairs, |old(tracks)|, dets.Length) && InBounds(pairs, |old(tracks)|, dets.Length)
      ensures Value() == After(cfg, old(Value()), old(dets[..]), pairs)
      ensures Tracker.Valid(cfg, Value())
      ensures FrameOutcome(cfg, old(Value()), old(dets[..]), pairs, Value())
      ensures forall d :: 0 <= d < dets.Length ==>
        dets[d] == old(dets[d]).(trackId := Tag(cfg, old(Value()), old(dets[..]), pairs, d))
      ensures forall d :: 0 <= d < dets.Length ==>
        TaggedAs(cfg, old(Value()), old(dets[..]), pairs, Value(), d, dets[d])
    {
      ghost var st, ds := Value(), dets[..];
      var first, second;
      ghost var rest;
      hm, lm, first, second, rest := MatchBoth(dets, tracks, ds);
      pairs := first + second;
      EndFrame(dets, first, second, st, ds, lm, rest);
      OutcomeOf(cfg, st, ds, pairs);
      forall d | 0 <= d < dets.Length ensures TaggedAs(cfg, st, ds, pairs, Value(), d, dets[d]) {
        WrittenIs(cfg, st, ds, pairs, d);
      }
    }

    /** Ageing, opening and erasing tracks once the matching is done. */
    method EndFrame(dets: array<Detection>, first: seq<Pair>, second: seq<Pair>, ghost st: State,
                    ghost ds: seq<Detection>, ghost lm: seq<Pair>, ghost rest: seq<nat>)
      requires Tracker.Valid(cfg, st) && nextId == st.nextId
      requires InRangeOf(lm, rest, LowIdx(cfg, ds, |ds|)) && second == Lift(lm, rest, LowIdx(cfg, ds, |ds|))
      requires InBounds(first + second, |st.tracks|, |ds|)
      requires IsMatched(tracks, cfg, st.tracks, ds, first + second)
      requires IsTagged(dets[..], cfg, st.tracks, ds, first + second)
      modifies this, dets
      ensures Value() == After(cfg, st, ds, first + second) && Tracker.Valid(cfg, Value())
      ensures dets.Length == |ds| &&
        forall d :: 0 <= d < |ds| ==> dets[d] == ds[d].(trackId := Tag(cfg, st, ds, first + second, d))
    {
      ghost var pairs := first + second;
      var taken := set p | p in first + second :: p.0;
      TakenTracks(pairs, taken);
      AgeUnmatched(taken, st.tracks, ds, pairs);
      ghost var aged := tracks;
      var claimed := set p | p in first :: p.1;
      HighClaims(cfg, ds, first, second, claimed, lm, rest);
      OpenTracks(dets, claimed, st, ds, pairs);
      EraseRemoved();
      FrameEnd(cfg, st, ds, pairs, aged);
    }
  }
}
