/**
 Gated assignment of tracks to detections (src/tracker/ByteTrackTracker.cpp:30-115):
 pairs below the IoU threshold cost LARGE_COST, the matrix is padded to a square with
 cost 1, and the cheapest permutation is read back without its gated and padding pairs.
 */
module Assignment {
  import opened Geometry
  import opened Permutations
  import opened Hungarian

  /** A track index and a position in the list of detections. */
  type Pair = (nat, nat)

  /** A matching in which no track or detection repeats and every pair reaches the threshold. */
  ghost predicate Respects(m: seq<Pair>, tracks: seq<BBox>, dets: seq<BBox>, thresh: real) {
    && (forall k :: 0 <= k < |m| ==>
          m[k].0 < |tracks| && m[k].1 < |dets| && TrackIou(tracks[m[k].0], dets[m[k].1]) >= thresh)
    && (forall k, l :: 0 <= k < l < |m| ==> m[k].0 != m[l].0 && m[k].1 != m[l].1)
  }

  ghost predicate InRange(m: seq<Pair>, tracks: seq<BBox>, dets: seq<BBox>) {
    forall k :: 0 <= k < |m| ==> m[k].0 < |tracks| && m[k].1 < |dets|
  }

  ghost function TotalIou(m: seq<Pair>, tracks: seq<BBox>, dets: seq<BBox>): (r: real)
    requires InRange(m, tracks, dets)
    ensures r >= 0.0
  {
    if m == [] then 0.0 else
    var k := |m| - 1;
    TotalIou(m[..k], tracks, dets) + TrackIou(tracks[m[k].0], dets[m[k].1])
  }

  function MinNat(a: nat, b: nat): nat { if b < a then b else a }
  function MaxNat(a: nat, b: nat): nat { if a < b then b else a }

  /** One entry of the padded cost matrix. */
  function Entry(tracks: seq<BBox>, dets: seq<BBox>, thresh: real, i: nat, j: nat): (r: real)
    ensures 0.0 <= r <= LARGE_COST
  {
    if i < |tracks| && j < |dets| then
      var score := TrackIou(tracks[i], dets[j]);
      if score >= thresh then 1.0 - score else LARGE_COST
    else 1.0
  }

  ghost predicate IsCostOf(c: Matrix, tracks: seq<BBox>, dets: seq<BBox>, thresh: real, n: nat) {
    && IsCostMatrix(c, n) && n == MaxNat(|tracks|, |dets|)
    && (forall i, j :: 0 <= i < n && 0 <= j < n ==> c[i][j] == Entry(tracks, dets, thresh, i, j))
  }

  /** Filling the padded matrix. */
  method BuildCost(tracks: seq<BBox>, dets: seq<BBox>, thresh: real) returns (c: Matrix)
    ensures IsCostOf(c, tracks, dets, thresh, MaxNat(|tracks|, |dets|))
  {
    var n, m := |tracks|, |dets|;
    var size := MaxNat(n, m);
    c := seq(size, _ => seq(size, _ => 1.0));
    var i := 0;
    while i < n
      invariant 0 <= i <= n && |c| == size && forall k :: 0 <= k < size ==> |c[k]| == size
      invariant forall k, j :: 0 <= k < size && 0 <= j < size ==>
        c[k][j] == if k < i then Entry(tracks, dets, thresh, k, j) else 1.0
    {
      var j := 0;
      while j < m
        invariant 0 <= j <= m && |c| == size && forall k :: 0 <= k < size ==> |c[k]| == size
        invariant forall k, l :: 0 <= k < size && 0 <= l < size ==>
          c[k][l] == if k < i || (k == i && l < j) then Entry(tracks, dets, thresh, k, l) else 1.0
      {
        var score := TrackIou(tracks[i], dets[j]);
        c := c[i := c[i][j := if score >= thresh then 1.0 - score else LARGE_COST]];
        j := j + 1;
      }
      i := i + 1;
    }
  }

  // ---------------------------------------------------------------- cost of a permutation

  /** Column `j` pairs a real track with a real detection. */
  predicate Real(s: seq<nat>, n: nat, m: nat, j: nat)
    requires j < |s|
  {
    s[j] < n && j < m
  }

  predicate Good(s: seq<nat>, tracks: seq<BBox>, dets: seq<BBox>, thresh: real, j: nat)
    requires j < |s|
  {
    Real(s, |tracks|, |dets|, j) && TrackIou(tracks[s[j]], dets[j]) >= thresh
  }

  /** The pairs that survive the gate among the first `k` columns. */
  ghost function Extract(s: seq<nat>, tracks: seq<BBox>, dets: seq<BBox>, thresh: real, k: nat): (r: seq<Pair>)
    requires k <= |s|
    ensures InRange(r, tracks, dets)
  {
    if k == 0 then [] else
    var before := Extract(s, tracks, dets, thresh, k - 1);
    if Good(s, tracks, dets, thresh, k - 1) then before + [(s[k - 1], k - 1)] else before
  }

  /** The pairs of the columns in `good`. */
  ghost function Chosen(s: seq<nat>, good: set<nat>, k: nat): seq<Pair>
    requires k <= |s|
  {
    if k == 0 then [] else Chosen(s, good, k - 1) + if k - 1 in good then [(s[k - 1], k - 1)] else []
  }

  /** `r` lists the columns of `good` below `k`, in order, with their rows. */
  ghost predicate Lists(s: seq<nat>, good: set<nat>, k: nat, r: seq<Pair>) {
    && k <= |s|
    && (forall x :: 0 <= x < |r| ==> r[x].1 < k && r[x].1 in good && s[r[x].1] == r[x].0)
    && (forall x, y :: 0 <= x < y < |r| ==> r[x].1 < r[y].1)
    && (forall j {:trigger HasColumn(r, j)} :: 0 <= j < k && j in good ==> HasColumn(r, j))
  }

  ghost predicate HasColumn(r: seq<Pair>, j: nat) { exists x :: 0 <= x < |r| && r[x].1 == j }

  lemma {:induction false} ChosenIs(s: seq<nat>, good: set<nat>, k: nat)
    requires k <= |s|
    ensures Lists(s, good, k, Chosen(s, good, k))
  {
    if k > 0 {
      ChosenIs(s, good, k - 1);
      OneMoreColumn(s, good, k - 1, Chosen(s, good, k - 1));
    }
  }

  lemma OneMoreColumn(s: seq<nat>, good: set<nat>, k: nat, r: seq<Pair>)
    requires k < |s| && Lists(s, good, k, r)
    ensures Lists(s, good, k + 1, r + if k in good then [(s[k], k)] else [])
  {
    var more := r + if k in good then [(s[k], k)] else [];
    assert forall x :: 0 <= x < |r| ==> more[x] == r[x];
    forall j | 0 <= j < k + 1 && j in good ensures HasColumn(more, j) {
      if j == k {
        assert more[|r|].1 == j;
      } else {
        assert HasColumn(r, j);
        var x :| 0 <= x < |r| && r[x].1 == j;
        assert more[x].1 == j;
      }
    }
  }

  lemma {:induction false} ExtractIsChosen(s: seq<nat>, tracks: seq<BBox>, dets: seq<BBox>, thresh: real,
                                           good: set<nat>, k: nat)
    requires k <= |s| && forall j: nat :: j < |s| ==> (j in good <==> Good(s, tracks, dets, thresh, j))
    ensures Extract(s, tracks, dets, thresh, k) == Chosen(s, good, k)
  {
    if k > 0 {
      ExtractIsChosen(s, tracks, dets, thresh, good, k - 1);
      assert k - 1 in good <==> Good(s, tracks, dets, thresh, k - 1);
    }
  }

  /** They are exactly the good columns, in ascending column order. */
  lemma ExtractIs(s: seq<nat>, tracks: seq<BBox>, dets: seq<BBox>, thresh: real, k: nat)
    requires k <= |s|
    ensures var r := Extract(s, tracks, dets, thresh, k);
      && (forall x :: 0 <= x < |r| ==> r[x].1 < k)
      && (forall x :: 0 <= x < |r| ==> s[r[x].1] == r[x].0)
      && (forall x :: 0 <= x < |r| ==> TrackIou(tracks[r[x].0], dets[r[x].1]) >= thresh)
      && (forall x, y :: 0 <= x < y < |r| ==> r[x].1 < r[y].1)
      && (forall j :: 0 <= j < k && Good(s, tracks, dets, thresh, j) ==> (s[j], j) in r)
  {
    var good := set j: nat | j < |s| && Good(s, tracks, dets, thresh, j);
    ExtractIsChosen(s, tracks, dets, thresh, good, k);
    ChosenIs(s, good, k);
    var r := Chosen(s, good, k);
    forall j | 0 <= j < k && Good(s, tracks, dets, thresh, j) ensures (s[j], j) in r {
      assert j in good && HasColumn(r, j);
      var x :| 0 <= x < |r| && r[x].1 == j;
      assert r[x] == (s[j], j);
    }
    forall x | 0 <= x < |r| ensures Good(s, tracks, dets, thresh, r[x].1) {
      assert r[x].1 in good;
    }
  }

  /** Real pairs rejected by the gate among the first `k` columns. */
  ghost function Gated(s: seq<nat>, tracks: seq<BBox>, dets: seq<BBox>, thresh: real, k: nat): nat
    requires k <= |s|
  {
    if k == 0 then 0 else
    Gated(s, tracks, dets, thresh, k - 1)
    + if Real(s, |tracks|, |dets|, k - 1) && !Good(s, tracks, dets, thresh, k - 1) then 1 else 0
  }

  ghost function RealPairs(s: seq<nat>, n: nat, m: nat, k: nat): nat
    requires k <= |s|
  {
    if k == 0 then 0 else RealPairs(s, n, m, k - 1) + if Real(s, n, m, k - 1) then 1 else 0
  }

  lemma {:induction false} CostSplits(c: Matrix, s: seq<nat>, tracks: seq<BBox>, dets: seq<BBox>, thresh: real, n: nat,
                                      k: nat)
    requires IsCostOf(c, tracks, dets, thresh, n) && Below(s, n) && |s| == n && k <= n
    ensures var e := Extract(s, tracks, dets, thresh, k); var g := Gated(s, tracks, dets, thresh, k);
      && Total(c, s[..k]) == k as real - TotalIou(e, tracks, dets) + (LARGE_COST - 1.0) * g as real
      && |e| + g == RealPairs(s, |tracks|, |dets|, k)
  {
    if k > 0 {
      CostSplits(c, s, tracks, dets, thresh, n, k - 1);
      assert s[..k][..k - 1] == s[..k - 1];
      assert c[s[k - 1]][k - 1] == Entry(tracks, dets, thresh, s[k - 1], k - 1);
      var before := Extract(s, tracks, dets, thresh, k - 1);
      if Good(s, tracks, dets, thresh, k - 1) {
        assert (before + [(s[k - 1], k - 1)])[..|before|] == before;
      }
    }
  }

  /** A permutation of the padded square holds exactly min(tracks, detections) real pairs. */
  lemma RealPairCount(s: seq<nat>, n: nat, m: nat)
    requires IsPerm(s, MaxNat(n, m))
    ensures RealPairs(s, n, m, |s|) == MinNat(n, m)
  {
    if n <= m {
      var f := seq(m, r => if r < n then 1.0 else 0.0);
      CountRows(s, n, m, f, m);
      assert s[..m] == s;
      SumAtPerm(f, s, m);
      assert f[..m] == f;
      SumOnes(f, n, m);
    } else {
      CountColumns(s, n, m, n);
    }
  }

  lemma {:induction false} CountRows(s: seq<nat>, n: nat, m: nat, f: seq<real>, k: nat)
    requires Below(s, m) && |s| == |f| == m && k <= m
    requires forall r :: 0 <= r < m ==> f[r] == if r < n then 1.0 else 0.0
    ensures RealPairs(s, n, m, k) as real == SumAt(f, s[..k])
  {
    if k > 0 {
      CountRows(s, n, m, f, k - 1);
      assert s[..k][..k - 1] == s[..k - 1];
    }
  }

  lemma {:induction false} SumOnes(f: seq<real>, n: nat, k: nat)
    requires k <= |f| && forall r :: 0 <= r < |f| ==> f[r] == if r < n then 1.0 else 0.0
    ensures Sum(f[..k]) == MinNat(n, k) as real
  {
    if k > 0 {
      SumOnes(f, n, k - 1);
      assert f[..k][..k - 1] == f[..k - 1];
    }
  }

  lemma {:induction false} CountColumns(s: seq<nat>, n: nat, m: nat, k: nat)
    requires Below(s, n) && k <= |s|
    ensures RealPairs(s, n, m, k) == MinNat(k, m)
  {
    if k > 0 {
      CountColumns(s, n, m, k - 1);
    }
  }

  // ---------------------------------------------------------------- every matching extends

  /** A matching as a partial column assignment. */
  lemma {:induction false} Slots(m: seq<Pair>, tracks: seq<BBox>, dets: seq<BBox>, thresh: real, n: nat)
    returns (f: seq<Slot>)
    requires Respects(m, tracks, dets, thresh) && n == MaxNat(|tracks|, |dets|)
    ensures PartialInjection(f, n)
    ensures forall k :: 0 <= k < |m| ==> f[m[k].1] == Row(m[k].0)
    ensures forall j :: 0 <= j < n && f[j].Row? ==> (f[j].row, j) in m
  {
    if m == [] {
      f := seq(n, _ => Free);
    } else {
      var k := |m| - 1;
      var g := Slots(m[..k], tracks, dets, thresh, n);
      f := g[m[k].1 := Row(m[k].0)];
      AddSlot(m, g, n);
    }
  }

  /** The last pair of a matching takes a free column and an unused row. */
  lemma AddSlot(m: seq<Pair>, g: seq<Slot>, n: nat)
    requires m != [] && PartialInjection(g, n)
    requires forall k :: 0 <= k < |m| ==> m[k].0 < n && m[k].1 < n
    requires forall k, l :: 0 <= k < l < |m| ==> m[k].0 != m[l].0 && m[k].1 != m[l].1
    requires forall k :: 0 <= k < |m| - 1 ==> g[m[k].1] == Row(m[k].0)
    requires forall j :: 0 <= j < n && g[j].Row? ==> (g[j].row, j) in m[..|m| - 1]
    ensures var f := g[m[|m| - 1].1 := Row(m[|m| - 1].0)];
      && PartialInjection(f, n)
      && (forall k :: 0 <= k < |m| ==> f[m[k].1] == Row(m[k].0))
      && (forall j :: 0 <= j < n && f[j].Row? ==> (f[j].row, j) in m)
  {
    var last := m[|m| - 1];
    var f := g[last.1 := Row(last.0)];
    forall j | 0 <= j < n && j != last.1 && g[j].Row? ensures g[j].row != last.0 {
      var x :| 0 <= x < |m| - 1 && m[x] == (g[j].row, j);
    }
    assert last in m;
    forall j | 0 <= j < n && f[j].Row? ensures (f[j].row, j) in m {
      if j != last.1 {
        var x :| 0 <= x < |m| - 1 && m[x] == (g[j].row, j);
      }
    }
  }

  ghost function SumOver(m: seq<Pair>, f: Pair -> real): real {
    if m == [] then 0.0 else SumOver(m[..|m| - 1], f) + f(m[|m| - 1])
  }

  lemma SumOverMore(m: seq<Pair>, p: Pair, f: Pair -> real)
    ensures SumOver(m + [p], f) == SumOver(m, f) + f(p)
  {
    assert (m + [p])[..|m|] == m;
  }

  lemma {:induction false} SumWithout(m: seq<Pair>, f: Pair -> real, x: nat)
    requires x < |m|
    ensures SumOver(m, f) == SumOver(m[..x] + m[x + 1..], f) + f(m[x])
  {
    var k := |m| - 1;
    var rest := m[..x] + m[x + 1..];
    if x == k {
      assert rest == m[..k];
    } else {
      var before := m[..k][..x] + m[..k][x + 1..];
      SumWithout(m[..k], f, x);
      assert rest == before + [m[k]];
      SumOverMore(before, m[k], f);
    }
  }

  ghost function IouOf(tracks: seq<BBox>, dets: seq<BBox>): Pair -> real {
    (p: Pair) => if p.0 < |tracks| && p.1 < |dets| then TrackIou(tracks[p.0], dets[p.1]) else 0.0
  }

  lemma {:induction false} TotalIsSum(m: seq<Pair>, tracks: seq<BBox>, dets: seq<BBox>)
    requires InRange(m, tracks, dets)
    ensures TotalIou(m, tracks, dets) == SumOver(m, IouOf(tracks, dets))
  {
    if m != [] {
      TotalIsSum(m[..|m| - 1], tracks, dets);
    }
  }

  lemma TotalWithout(e: seq<Pair>, tracks: seq<BBox>, dets: seq<BBox>, x: nat)
    requires InRange(e, tracks, dets) && x < |e|
    ensures InRange(e[..x] + e[x + 1..], tracks, dets)
    ensures TotalIou(e, tracks, dets) ==
            TotalIou(e[..x] + e[x + 1..], tracks, dets) + TrackIou(tracks[e[x].0], dets[e[x].1])
  {
    TotalIsSum(e, tracks, dets);
    TotalIsSum(e[..x] + e[x + 1..], tracks, dets);
    SumWithout(e, IouOf(tracks, dets), x);
  }

  /** A matching contained in another has no more pairs and no more total IoU. */
  lemma {:induction false} ContainedIsLess(m: seq<Pair>, e: seq<Pair>, tracks: seq<BBox>, dets: seq<BBox>)
    requires InRange(m, tracks, dets) && InRange(e, tracks, dets)
    requires forall k :: 0 <= k < |m| ==> m[k] in e
    requires Distinct(m)
    ensures |m| <= |e| && TotalIou(m, tracks, dets) <= TotalIou(e, tracks, dets)
  {
    if m != [] {
      var k := |m| - 1;
      var x :| 0 <= x < |e| && e[x] == m[k];
      var rest := e[..x] + e[x + 1..];
      forall y | 0 <= y < k ensures m[..k][y] in rest {
        var z :| 0 <= z < |e| && e[z] == m[y];
        assert z != x;
        assert if z < x then rest[z] == e[z] else rest[z - 1] == e[z];
      }
      TotalWithout(e, tracks, dets, x);
      ContainedIsLess(m[..k], rest, tracks, dets);
    }
  }

  /** Every threshold-respecting matching is part of some permutation's surviving pairs. */
  lemma Extends(m: seq<Pair>, tracks: seq<BBox>, dets: seq<BBox>, thresh: real, n: nat) returns (t: seq<nat>)
    requires Respects(m, tracks, dets, thresh) && n == MaxNat(|tracks|, |dets|)
    ensures IsPerm(t, n)
    ensures var e := Extract(t, tracks, dets, thresh, n);
      |m| <= |e| && TotalIou(m, tracks, dets) <= TotalIou(e, tracks, dets)
  {
    var f := Slots(m, tracks, dets, thresh, n);
    t := Complete(f, n);
    var e := Extract(t, tracks, dets, thresh, n);
    ExtractIs(t, tracks, dets, thresh, n);
    forall k | 0 <= k < |m| ensures m[k] in e {
      assert t[m[k].1] == m[k].0;
      assert Good(t, tracks, dets, thresh, m[k].1);
    }
    ContainedIsLess(m, e, tracks, dets);
  }

  lemma {:induction false} IouAtMostOneEach(m: seq<Pair>, tracks: seq<BBox>, dets: seq<BBox>)
    requires InRange(m, tracks, dets)
    ensures TotalIou(m, tracks, dets) <= |m| as real
  {
    if m != [] {
      IouAtMostOneEach(m[..|m| - 1], tracks, dets);
    }
  }

  /** No matching has more pairs, and none with as many pairs overlaps more in total. */
  ghost predicate IsBest(best: seq<Pair>, tracks: seq<BBox>, dets: seq<BBox>, thresh: real) {
    && Respects(best, tracks, dets, thresh)
    && forall m :: Respects(m, tracks, dets, thresh) ==>
         && |m| <= |best|
         && (|m| == |best| ==> TotalIou(m, tracks, dets) <= TotalIou(best, tracks, dets))
  }

  /** A cheaper permutation gates no more pairs: one gated pair outweighs everything
      that fewer than 10^6 good pairs can save. */
  lemma GateOutweighs(best: nat, w: real, g: nat, other: nat, w': real, g': nat, pairs: nat, n: nat)
    requires pairs < 1000000 && best + g == pairs && other + g' == pairs
    requires 0.0 <= w <= best as real && 0.0 <= w'
    requires n as real - w + (LARGE_COST - 1.0) * g as real <= n as real - w' + (LARGE_COST - 1.0) * g' as real
    ensures other <= best && (other == best ==> w' <= w)
  {
    GateCost(g - g');
  }

  lemma GateCost(d: int)
    ensures d >= 1 ==> (LARGE_COST - 1.0) * d as real >= LARGE_COST - 1.0
  {
    assert d >= 1 ==> d as real >= 1.0;
  }

  /** The surviving pairs of one permutation beat those of a dearer one. */
  lemma CheaperIsBetter(c: Matrix, s: seq<nat>, t: seq<nat>, tracks: seq<BBox>, dets: seq<BBox>, thresh: real, n: nat)
    requires IsCostOf(c, tracks, dets, thresh, n) && IsPerm(s, n) && IsPerm(t, n)
    requires Total(c, s) <= Total(c, t)
    requires MinNat(|tracks|, |dets|) < 1000000
    ensures var e := Extract(s, tracks, dets, thresh, n); var e' := Extract(t, tracks, dets, thresh, n);
      |e'| <= |e| && (|e'| == |e| ==> TotalIou(e', tracks, dets) <= TotalIou(e, tracks, dets))
  {
    var e := Extract(s, tracks, dets, thresh, n);
    var e' := Extract(t, tracks, dets, thresh, n);
    assert s[..n] == s && t[..n] == t;
    CostSplits(c, s, tracks, dets, thresh, n, n);
    CostSplits(c, t, tracks, dets, thresh, n, n);
    RealPairCount(s, |tracks|, |dets|);
    RealPairCount(t, |tracks|, |dets|);
    IouAtMostOneEach(e, tracks, dets);
    GateOutweighs(|e|, TotalIou(e, tracks, dets), Gated(s, tracks, dets, thresh, n),
                  |e'|, TotalIou(e', tracks, dets), Gated(t, tracks, dets, thresh, n), MinNat(|tracks|, |dets|), n);
  }

  lemma ExtractRespects(s: seq<nat>, tracks: seq<BBox>, dets: seq<BBox>, thresh: real, k: nat)
    requires k <= |s| && Distinct(s)
    ensures Respects(Extract(s, tracks, dets, thresh, k), tracks, dets, thresh)
    ensures var e := Extract(s, tracks, dets, thresh, k); forall x, y :: 0 <= x < y < |e| ==> e[x].1 < e[y].1
  {
    var e := Extract(s, tracks, dets, thresh, k);
    ExtractIs(s, tracks, dets, thresh, k);
    forall x, y | 0 <= x < y < |e| ensures e[x].0 != e[y].0 && e[x].1 != e[y].1 {
      var j, l := e[x].1, e[y].1;
      assert j < k && l < k && s[j] == e[x].0 && s[l] == e[y].0;
    }
  }

  lemma CheapestIsBest(c: Matrix, s: seq<nat>, tracks: seq<BBox>, dets: seq<BBox>, thresh: real, n: nat)
    requires IsCostOf(c, tracks, dets, thresh, n) && Optimal(c, s, n)
    requires MinNat(|tracks|, |dets|) < 1000000
    ensures IsBest(Extract(s, tracks, dets, thresh, n), tracks, dets, thresh)
  {
    var e := Extract(s, tracks, dets, thresh, n);
    ExtractRespects(s, tracks, dets, thresh, n);
    forall m | Respects(m, tracks, dets, thresh)
      ensures |m| <= |e| && (|m| == |e| ==> TotalIou(m, tracks, dets) <= TotalIou(e, tracks, dets))
    {
      var t := Extends(m, tracks, dets, thresh, n);
      CheaperIsBetter(c, s, t, tracks, dets, thresh, n);
    }
  }

  /** An entry below the large cost marks a real pair that reaches the threshold. */
  lemma CheapIsGood(cost: Matrix, s: seq<nat>, tracks: seq<BBox>, dets: seq<BBox>, thresh: real, size: nat, k: nat)
    requires IsCostOf(cost, tracks, dets, thresh, size) && IsPerm(s, size) && k < |dets| <= size && |tracks| <= size
    ensures s[k] < |tracks| && cost[s[k]][k] < LARGE_COST <==> Good(s, tracks, dets, thresh, k)
  {}

  /** Reading the matches off the permutation. */
  method ReadMatches(cost: Matrix, s: seq<nat>, tracks: seq<BBox>, dets: seq<BBox>, thresh: real, size: nat)
    returns (matches: seq<Pair>)
    requires IsCostOf(cost, tracks, dets, thresh, size) && IsPerm(s, size) && |dets| <= size && |tracks| <= size
    ensures matches == Extract(s, tracks, dets, thresh, |dets|)
  {
    matches := [];
    var k := 0;
    while k < |dets|
      invariant 0 <= k <= |dets|
      invariant matches == Extract(s, tracks, dets, thresh, k)
    {
      CheapIsGood(cost, s, tracks, dets, thresh, size, k);
      var row := s[k];
      if row < |tracks| && cost[row][k] < LARGE_COST {
        matches := matches + [(row, k)];
      }
      k := k + 1;
    }
  }

  /** `linearAssign`: matches are given in ascending detection order. */
  method LinearAssign(tracks: seq<BBox>, dets: seq<BBox>, thresh: real) returns (matches: seq<Pair>)
    ensures Respects(matches, tracks, dets, thresh)
    ensures MinNat(|tracks|, |dets|) < 1000000 ==> IsBest(matches, tracks, dets, thresh)
    ensures forall x, y :: 0 <= x < y < |matches| ==> matches[x].1 < matches[y].1
  {
    matches := [];
    if |tracks| == 0 || |dets| == 0 {
      NothingToMatch(tracks, dets, thresh);
      return;
    }
    var n, m := |tracks|, |dets|;
    var size := MaxNat(n, m);
    var cost := BuildCost(tracks, dets, thresh);
    var s, u, v := Assign(cost, size);
    matches := ReadMatches(cost, s, tracks, dets, thresh, size);
    PaddingAddsNothing(s, tracks, dets, thresh, size);
    ExtractRespects(s, tracks, dets, thresh, size);
    if MinNat(n, m) < 1000000 {
      CheapestIsBest(cost, s, tracks, dets, thresh, size);
    }
  }

  lemma NothingToMatch(tracks: seq<BBox>, dets: seq<BBox>, thresh: real)
    requires |tracks| == 0 || |dets| == 0
    ensures IsBest([], tracks, dets, thresh)
  {
    forall m: seq<Pair> | Respects(m, tracks, dets, thresh) ensures m == [] {
      NeedsBoth(m, tracks, dets, thresh);
    }
  }

  lemma NeedsBoth(m: seq<Pair>, tracks: seq<BBox>, dets: seq<BBox>, thresh: real)
    requires Respects(m, tracks, dets, thresh)
    ensures m != [] ==> |tracks| > 0 && |dets| > 0
  {
    assert m != [] ==> m[0].0 < |tracks| && m[0].1 < |dets|;
  }

  lemma {:induction false} PaddingAddsNothing(s: seq<nat>, tracks: seq<BBox>, dets: seq<BBox>, thresh: real, k: nat)
    requires |dets| <= k <= |s|
    ensures Extract(s, tracks, dets, thresh, k) == Extract(s, tracks, dets, thresh, |dets|)
  {
    if k > |dets| {
      PaddingAddsNothing(s, tracks, dets, thresh, k - 1);
    }
  }
}
