/**
 Greedy non-maximum suppression, as the decoders (src/decoder/IYOLODecoder.cpp:17-43) and
 the tile merger (src/pipeline/stages/SahiMergeStage.cpp:39-64) run it: sort by confidence,
 then let every detection not yet suppressed suppress the ones after it.
 */
module Nms {
  import opened Geometry
  import opened Permutations

  // ---------------------------------------------------------------- what greedy suppression means

  /** Element `i` is kept unless a kept element before it suppresses it. */
  ghost predicate Keeps<T(!new)>(s: seq<T>, sup: (T, T) -> bool, i: nat)
    requires i < |s|
    decreases i
  {
    forall j :: 0 <= j < i && Keeps(s, sup, j) ==> !sup(s[j], s[i])
  }

  ghost function Survivors<T(!new)>(s: seq<T>, sup: (T, T) -> bool, k: nat): seq<T>
    requires k <= |s|
  {
    if k == 0 then [] else
    var before := Survivors(s, sup, k - 1);
    if Keeps(s, sup, k - 1) then before + [s[k - 1]] else before
  }

  /** The two clauses that characterise a greedy result `kept`. */
  ghost predicate IsGreedy<T(!new)>(s: seq<T>, sup: (T, T) -> bool, kept: set<nat>) {
    && (forall i, j :: 0 <= i < j < |s| && i in kept && j in kept ==> !sup(s[i], s[j]))
    && (forall j :: 0 <= j < |s| && j !in kept ==> exists i :: 0 <= i < j && i in kept && sup(s[i], s[j]))
  }

  lemma KeepsIsGreedy<T(!new)>(s: seq<T>, sup: (T, T) -> bool)
    ensures IsGreedy(s, sup, set i: nat | i < |s| && Keeps(s, sup, i))
  {
    var kept := set i: nat | i < |s| && Keeps(s, sup, i);
    forall j | 0 <= j < |s| && j !in kept ensures exists i :: 0 <= i < j && i in kept && sup(s[i], s[j]) {
      var i :| 0 <= i < j && Keeps(s, sup, i) && sup(s[i], s[j]);
      assert i in kept;
    }
  }

  /** No other selection has both clauses. */
  lemma {:induction false} GreedyIsUnique<T(!new)>(s: seq<T>, sup: (T, T) -> bool, kept: set<nat>, i: nat)
    requires IsGreedy(s, sup, kept) && i < |s|
    ensures i in kept <==> Keeps(s, sup, i)
    decreases i
  {
    forall j: nat | j < i ensures j in kept <==> Keeps(s, sup, j) {
      GreedyIsUnique(s, sup, kept, j);
    }
  }

  /** The elements at the places in `kept`. */
  ghost function Pick<T>(s: seq<T>, kept: set<nat>, k: nat): seq<T>
    requires k <= |s|
  {
    if k == 0 then [] else Pick(s, kept, k - 1) + if k - 1 in kept then [s[k - 1]] else []
  }

  /** `at` lists the places below `k` in `kept`, in order, and `picked` what stands there. */
  ghost predicate Picks<T>(s: seq<T>, kept: set<nat>, k: nat, picked: seq<T>, at: seq<nat>) {
    && |at| == |picked| && k <= |s|
    && (forall x, y :: 0 <= x < y < |at| ==> at[x] < at[y])
    && (forall x {:trigger picked[x]} :: 0 <= x < |at| ==> at[x] < k && at[x] in kept && picked[x] == s[at[x]])
    && (forall i :: 0 <= i < k && i in kept ==> i in at)
  }

  lemma {:induction false} PickAt<T>(s: seq<T>, kept: set<nat>, k: nat) returns (at: seq<nat>)
    requires k <= |s|
    ensures Picks(s, kept, k, Pick(s, kept, k), at)
  {
    if k == 0 {
      at := [];
    } else {
      at := PickAt(s, kept, k - 1);
      if k - 1 in kept {
        PickMore(s, kept, k - 1, Pick(s, kept, k - 1), at);
        at := at + [k - 1];
      } else {
        PickSkip(s, kept, k - 1, Pick(s, kept, k - 1), at);
      }
    }
  }

  lemma PickSkip<T>(s: seq<T>, kept: set<nat>, k: nat, picked: seq<T>, at: seq<nat>)
    requires k < |s| && k !in kept && Picks(s, kept, k, picked, at)
    ensures Picks(s, kept, k + 1, picked + [], at)
  {
    assert picked + [] == picked;
    forall x | 0 <= x < |at| ensures at[x] < k && at[x] in kept {
      var there := picked[x];
      assert there == s[at[x]];
    }
  }

  lemma PickMore<T>(s: seq<T>, kept: set<nat>, k: nat, picked: seq<T>, at: seq<nat>)
    requires k < |s| && k in kept && Picks(s, kept, k, picked, at)
    ensures Picks(s, kept, k + 1, picked + [s[k]], at + [k])
  {
    var longer := at + [k];
    forall x | 0 <= x < |at| ensures at[x] < k && at[x] in kept {
      var there := picked[x];
      assert there == s[at[x]];
    }
    forall i | 0 <= i < k + 1 && i in kept ensures i in longer {
      assert longer[|at|] == k;
      if i < k {
        var x :| 0 <= x < |at| && at[x] == i;
        assert longer[x] == i;
      }
    }
  }

  lemma {:induction false} SurvivorsArePicked<T(!new)>(s: seq<T>, sup: (T, T) -> bool, kept: set<nat>, k: nat)
    requires k <= |s| && forall i: nat :: i < |s| ==> (i in kept <==> Keeps(s, sup, i))
    ensures Survivors(s, sup, k) == Pick(s, kept, k)
  {
    if k > 0 {
      SurvivorsArePicked(s, sup, kept, k - 1);
      assert k - 1 in kept <==> Keeps(s, sup, k - 1);
    }
  }

  /** Where the kept elements stand. */
  lemma SurvivorsAt<T(!new)>(s: seq<T>, sup: (T, T) -> bool, k: nat) returns (at: seq<nat>)
    requires k <= |s|
    ensures |at| == |Survivors(s, sup, k)| && Below(at, k)
    ensures forall x, y :: 0 <= x < y < |at| ==> at[x] < at[y]
    ensures forall x :: 0 <= x < |at| ==> Keeps(s, sup, at[x]) && Survivors(s, sup, k)[x] == s[at[x]]
    ensures forall i :: 0 <= i < k && Keeps(s, sup, i) ==> i in at
  {
    var kept := set i: nat | i < |s| && Keeps(s, sup, i);
    SurvivorsArePicked(s, sup, kept, k);
    at := PickAt(s, kept, k);
    forall x | 0 <= x < |at| ensures at[x] < k && Keeps(s, sup, at[x]) {
      var there := Pick(s, kept, k)[x];
      assert there == s[at[x]];
    }
  }

  /** No survivor is suppressed by an earlier one. */
  lemma SurvivorsApart<T(!new)>(s: seq<T>, sup: (T, T) -> bool, x: nat, y: nat)
    requires x < y < |Survivors(s, sup, |s|)|
    ensures !sup(Survivors(s, sup, |s|)[x], Survivors(s, sup, |s|)[y])
  {
    var at := SurvivorsAt(s, sup, |s|);
    assert Keeps(s, sup, at[y]) && Keeps(s, sup, at[x]) && at[x] < at[y];
  }

  lemma {:induction false} ApartKeepsAll<T(!new)>(s: seq<T>, sup: (T, T) -> bool, k: nat)
    requires k <= |s| && forall x, y :: 0 <= x < y < |s| ==> !sup(s[x], s[y])
    ensures Survivors(s, sup, k) == s[..k]
  {
    if k > 0 {
      ApartKeepsAll(s, sup, k - 1);
      assert s[..k] == s[..k - 1] + [s[k - 1]];
    }
  }

  /** Running again on the result keeps everything. */
  lemma RerunKeepsAll<T(!new)>(s: seq<T>, sup: (T, T) -> bool)
    ensures var r := Survivors(s, sup, |s|); Survivors(r, sup, |r|) == r
  {
    var r := Survivors(s, sup, |s|);
    forall x, y | 0 <= x < y < |r| ensures !sup(r[x], r[y]) {
      SurvivorsApart(s, sup, x, y);
    }
    ApartKeepsAll(r, sup, |r|);
    assert r[..|r|] == r;
  }

  // ---------------------------------------------------------------- sorting

  ghost predicate Descending(ds: seq<Detection>, idx: seq<nat>)
    requires Below(idx, |ds|)
  {
    forall i, j :: 0 <= i < j < |idx| ==> ds[idx[i]].confidence >= ds[idx[j]].confidence
  }

  /** `std::sort` by falling confidence; callers rely only on what any such sort gives. */
  method SortByConfidence(ds: seq<Detection>) returns (idx: seq<nat>)
    ensures IsPerm(idx, |ds|) && Descending(ds, idx)
  {
    idx := [];
    var n := 0;
    while n < |ds|
      invariant 0 <= n <= |ds| && IsPerm(idx, n) && Descending(ds, idx)
    {
      var k := 0;
      while k < n && ds[idx[k]].confidence >= ds[n].confidence
        invariant 0 <= k <= n
        invariant forall j :: 0 <= j < k ==> ds[idx[j]].confidence >= ds[n].confidence
      {
        k := k + 1;
      }
      InsertKeepsOrder(ds, idx, n, k);
      idx := idx[..k] + [n] + idx[k..];
      n := n + 1;
    }
  }

  lemma InsertKeepsOrder(ds: seq<Detection>, idx: seq<nat>, n: nat, k: nat)
    requires IsPerm(idx, n) && n < |ds| && Descending(ds, idx) && k <= n
    requires forall j :: 0 <= j < k ==> ds[idx[j]].confidence >= ds[n].confidence
    requires k < n ==> ds[idx[k]].confidence < ds[n].confidence
    ensures IsPerm(idx[..k] + [n] + idx[k..], n + 1) && Descending(ds, idx[..k] + [n] + idx[k..])
  {
    var r := idx[..k] + [n] + idx[k..];
    assert forall i :: 0 <= i < |r| ==> r[i] == if i < k then idx[i] else if i == k then n else idx[i - 1];
  }

  // ---------------------------------------------------------------- the two routines

  predicate Overlaps(ds: seq<Detection>, thresh: real, a: nat, b: nat) {
    a < |ds| && b < |ds| && DecodeIou(ds[a].bbox, ds[b].bbox) > thresh
  }

  function OverlapOf(ds: seq<Detection>, thresh: real): (nat, nat) -> bool {
    (a: nat, b: nat) => Overlaps(ds, thresh, a, b)
  }

  ghost predicate Suppressed<T(!new)>(s: seq<T>, sup: (T, T) -> bool, i: nat, j: nat)
    requires j < |s|
  {
    exists a :: 0 <= a < i && a < |s| && Keeps(s, sup, a) && sup(s[a], s[j])
  }

  lemma SuppressedNext<T(!new)>(s: seq<T>, sup: (T, T) -> bool, i: nat, j: nat)
    requires i < |s| && j < |s|
    ensures Suppressed(s, sup, i + 1, j) <==> Suppressed(s, sup, i, j) || (Keeps(s, sup, i) && sup(s[i], s[j]))
    ensures i == j ==> (Keeps(s, sup, i) <==> !Suppressed(s, sup, i, i))
  {
  }

  /** Flags after element `i` has had its turn. */
  ghost predicate Flagged<T(!new)>(s: seq<T>, sup: (T, T) -> bool, i: nat, flags: seq<bool>) {
    && |flags| == |s|
    && forall j {:trigger Suppressed(s, sup, i, j)} :: i <= j < |s| ==> (flags[j] <==> Suppressed(s, sup, i, j))
  }

  lemma FlagsNext<T(!new)>(s: seq<T>, sup: (T, T) -> bool, i: nat, flags: seq<bool>, flags': seq<bool>)
    requires i < |s| && Flagged(s, sup, i, flags) && |flags'| == |s|
    requires if flags[i] then flags' == flags
             else forall j :: i < j < |s| ==> (flags'[j] <==> flags[j] || sup(s[i], s[j]))
    ensures Flagged(s, sup, i + 1, flags') && (Keeps(s, sup, i) <==> !flags[i])
  {
    SuppressedNext(s, sup, i, i);
    forall j | i + 1 <= j < |s| ensures flags'[j] <==> Suppressed(s, sup, i + 1, j) {
      SuppressedNext(s, sup, i, j);
    }
  }

  ghost function AlongOrder(order: seq<nat>, suppressed: seq<bool>): (r: seq<bool>)
    requires Below(order, |suppressed|)
    ensures |r| == |order| && forall j :: 0 <= j < |order| ==> r[j] == suppressed[order[j]]
  {
    seq(|order|, j requires 0 <= j < |order| => suppressed[order[j]])
  }

  /** The inner loop: detection `order[i]` suppresses what it overlaps further down. */
  method SuppressBelow(ds: seq<Detection>, thresh: real, order: seq<nat>, i: nat, suppressed: array<bool>)
    requires IsPerm(order, |ds|) && i < |order| && suppressed.Length == |ds|
    modifies suppressed
    ensures forall j :: i < j < |order| ==>
      (suppressed[order[j]] <==> old(suppressed[order[j]]) || Overlaps(ds, thresh, order[i], order[j]))
  {
    var a := order[i];
    var j := i + 1;
    while j < |order|
      invariant i + 1 <= j <= |order|
      invariant forall k :: i < k < |order| ==>
        (suppressed[order[k]] <==> old(suppressed[order[k]]) || (k < j && Overlaps(ds, thresh, a, order[k])))
    {
      var b := order[j];
      if !suppressed[b] && DecodeIou(ds[a].bbox, ds[b].bbox) > thresh {
        suppressed[b] := true;
      }
      j := j + 1;
    }
  }

  lemma NoneFlagged(order: seq<nat>, sup: (nat, nat) -> bool, flags: seq<bool>)
    requires |flags| == |order| && forall j :: 0 <= j < |flags| ==> !flags[j]
    ensures Flagged(order, sup, 0, flags)
  {
    forall j | 0 <= j < |order| ensures !Suppressed(order, sup, 0, j) {}
  }

  /** One turn of the outer loop. */
  method Visit(ds: seq<Detection>, thresh: real, order: seq<nat>, i: nat, suppressed: array<bool>,
               ghost sup: (nat, nat) -> bool)
    returns (kept: bool)
    requires IsPerm(order, |ds|) && i < |order| && suppressed.Length == |ds|
    requires sup == OverlapOf(ds, thresh)
    requires Flagged(order, sup, i, AlongOrder(order, suppressed[..]))
    modifies suppressed
    ensures Flagged(order, sup, i + 1, AlongOrder(order, suppressed[..])) && (kept <==> Keeps(order, sup, i))
  {
    ghost var before := AlongOrder(order, suppressed[..]);
    kept := !suppressed[order[i]];
    if kept {
      SuppressBelow(ds, thresh, order, i, suppressed);
    }
    FlagsNext(order, sup, i, before, AlongOrder(order, suppressed[..]));
  }

  lemma SurvivorsBelow(idx: seq<nat>, sup: (nat, nat) -> bool, n: nat)
    requires Below(idx, n)
    ensures Below(Survivors(idx, sup, |idx|), n)
  {
    var at := SurvivorsAt(idx, sup, |idx|);
  }

  ghost predicate KeptFrom(ds: seq<Detection>, thresh: real, idx: seq<nat>, keep: seq<nat>) {
    && IsPerm(idx, |ds|) && Descending(ds, idx)
    && keep == Survivors(idx, OverlapOf(ds, thresh), |idx|) && Below(keep, |ds|)
  }

  /** The greedy survivors of some order by falling confidence. */
  ghost predicate IsNms(ds: seq<Detection>, thresh: real, keep: seq<nat>) {
    exists idx :: KeptFrom(ds, thresh, idx, keep)
  }

  /** The flag loops along an order. */
  method SuppressAlong(ds: seq<Detection>, thresh: real, order: seq<nat>, ghost sup: (nat, nat) -> bool)
    returns (keep: seq<nat>)
    requires IsPerm(order, |ds|)
    requires sup == OverlapOf(ds, thresh)
    ensures keep == Survivors(order, sup, |order|)
  {
    var suppressed := new bool[|ds|](_ => false);
    keep := [];
    NoneFlagged(order, sup, AlongOrder(order, suppressed[..]));
    var i := 0;
    while i < |order|
      invariant 0 <= i <= |order| && keep == Survivors(order, sup, i)
      invariant Flagged(order, sup, i, AlongOrder(order, suppressed[..]))
    {
      var kept := Visit(ds, thresh, order, i, suppressed, sup);
      if kept {
        keep := keep + [order[i]];
      }
      i := i + 1;
    }
  }

  /** `nonMaxSuppression`: kept detection indexes, most confident first. */
  method NonMaxSuppression(ds: seq<Detection>, thresh: real) returns (keep: seq<nat>)
    ensures IsNms(ds, thresh, keep)
  {
    var order := SortByConfidence(ds);
    keep := SuppressAlong(ds, thresh, order, OverlapOf(ds, thresh));
    SurvivorsBelow(order, OverlapOf(ds, thresh), |ds|);
    assert KeptFrom(ds, thresh, order, keep);
  }

  /** What the decoders get from it. */
  lemma KeptAreApart(ds: seq<Detection>, thresh: real, keep: seq<nat>, x: nat, y: nat)
    requires IsNms(ds, thresh, keep)
    requires x < |keep| && y < |keep| && x != y
    ensures keep[x] < |ds| && keep[y] < |ds| && keep[x] != keep[y]
    ensures DecodeIou(ds[keep[x]].bbox, ds[keep[y]].bbox) <= thresh
  {
    var idx :| KeptFrom(ds, thresh, idx, keep);
    var sup := OverlapOf(ds, thresh);
    var at := SurvivorsAt(idx, sup, |idx|);
    assert keep[x] == idx[at[x]] && keep[y] == idx[at[y]];
    OverlapSymmetric(ds[keep[x]].bbox, ds[keep[y]].bbox);
    if x < y {
      assert at[x] < at[y];
      SurvivorsApart(idx, sup, x, y);
    } else {
      assert at[y] < at[x];
      SurvivorsApart(idx, sup, y, x);
    }
  }

  /** They come in order of falling confidence. */
  lemma KeptInOrder(ds: seq<Detection>, thresh: real, keep: seq<nat>, x: nat, y: nat)
    requires IsNms(ds, thresh, keep) && x < y < |keep|
    ensures ds[keep[x]].confidence >= ds[keep[y]].confidence
  {
    var idx :| KeptFrom(ds, thresh, idx, keep);
    var at := SurvivorsAt(idx, OverlapOf(ds, thresh), |idx|);
    assert keep[x] == idx[at[x]] && keep[y] == idx[at[y]] && at[x] < at[y];
  }

  /** Every dropped detection overlaps a kept one that is at least as confident. */
  lemma DroppedHasReason(ds: seq<Detection>, thresh: real, keep: seq<nat>, d: nat) returns (x: nat)
    requires IsNms(ds, thresh, keep) && d < |ds| && d !in keep
    ensures x < |keep| && keep[x] < |ds|
    ensures DecodeIou(ds[keep[x]].bbox, ds[d].bbox) > thresh && ds[keep[x]].confidence >= ds[d].confidence
  {
    var idx :| KeptFrom(ds, thresh, idx, keep);
    var sup := OverlapOf(ds, thresh);
    var at := SurvivorsAt(idx, sup, |idx|);
    PermHits(idx, |ds|, d);
    var j: nat :| j < |idx| && idx[j] == d;
    assert forall y :: 0 <= y < |at| ==> keep[y] == idx[at[y]] && keep[y] != d;
    assert !Keeps(idx, sup, j);
    var i: nat :| i < j && Keeps(idx, sup, i) && sup(idx[i], idx[j]);
    x :| 0 <= x < |at| && at[x] == i;
    assert keep[x] == idx[i];
  }

  // ---------------------------------------------------------------- the tile merger's routine

  datatype MergeConfig = MergeConfig(iou: real, ios: real)

  predicate Duplicates(cfg: MergeConfig, a: Detection, b: Detection) {
    a.classId == b.classId && (MergeIou(a.bbox, b.bbox) >= cfg.iou || MergeIos(a.bbox, b.bbox) >= cfg.ios)
  }

  function DuplicateOf(cfg: MergeConfig): (Detection, Detection) -> bool {
    (a: Detection, b: Detection) => Duplicates(cfg, a, b)
  }

  ghost predicate FallingConfidence(ds: seq<Detection>) {
    forall i, j :: 0 <= i < j < |ds| ==> ds[i].confidence >= ds[j].confidence
  }

  /** Some order of `ds` by falling confidence. */
  ghost predicate SortOf(sorted: seq<Detection>, ds: seq<Detection>) {
    multiset(sorted) == multiset(ds) && FallingConfidence(sorted)
  }

  method InsertDetection(sorted: seq<Detection>, x: Detection, ghost ds: seq<Detection>) returns (r: seq<Detection>)
    requires SortOf(sorted, ds)
    ensures SortOf(r, ds + [x])
  {
    var k := 0;
    while k < |sorted| && sorted[k].confidence >= x.confidence
      invariant 0 <= k <= |sorted|
      invariant forall j :: 0 <= j < k ==> sorted[j].confidence >= x.confidence
    {
      k := k + 1;
    }
    InsertSorted(sorted, ds, x, k);
    r := sorted[..k] + [x] + sorted[k..];
  }

  method SortDetections(ds: seq<Detection>) returns (sorted: seq<Detection>)
    ensures SortOf(sorted, ds)
  {
    sorted := [];
    var n := 0;
    while n < |ds|
      invariant 0 <= n <= |ds| && SortOf(sorted, ds[..n])
    {
      sorted := InsertDetection(sorted, ds[n], ds[..n]);
      assert ds[..n] + [ds[n]] == ds[..n + 1];
      n := n + 1;
    }
    assert ds[..n] == ds;
  }

  lemma InsertSorted(sorted: seq<Detection>, ds: seq<Detection>, x: Detection, k: nat)
    requires SortOf(sorted, ds) && k <= |sorted|
    requires forall j :: 0 <= j < k ==> sorted[j].confidence >= x.confidence
    requires k < |sorted| ==> sorted[k].confidence < x.confidence
    ensures SortOf(sorted[..k] + [x] + sorted[k..], ds + [x])
  {
    InsertContents(sorted[..k], sorted[k..], x);
    assert sorted == sorted[..k] + sorted[k..];
    InsertFalling(sorted, x, k);
  }

  lemma InsertContents(a: seq<Detection>, b: seq<Detection>, x: Detection)
    ensures multiset(a + [x] + b) == multiset(a + b) + multiset{x}
  {
  }

  lemma InsertFalling(sorted: seq<Detection>, x: Detection, k: nat)
    requires FallingConfidence(sorted) && k <= |sorted|
    requires forall j :: 0 <= j < k ==> sorted[j].confidence >= x.confidence
    requires k < |sorted| ==> sorted[k].confidence < x.confidence
    ensures FallingConfidence(sorted[..k] + [x] + sorted[k..])
  {
    var r := sorted[..k] + [x] + sorted[k..];
    assert forall i :: 0 <= i < |r| ==> r[i] == if i < k then sorted[i] else if i == k then x else sorted[i - 1];
  }

  method SuppressDuplicates(cfg: MergeConfig, sorted: seq<Detection>, i: nat, removed: array<bool>)
    requires i < |sorted| && removed.Length == |sorted|
    modifies removed
    ensures removed[..i + 1] == old(removed[..i + 1])
    ensures forall j :: i < j < |sorted| ==> (removed[j] <==> old(removed[j]) || Duplicates(cfg, sorted[i], sorted[j]))
  {
    var j := i + 1;
    while j < |sorted|
      invariant i + 1 <= j <= |sorted| && removed[..i + 1] == old(removed[..i + 1])
      invariant forall k :: i < k < |sorted| ==>
        (removed[k] <==> old(removed[k]) || (k < j && Duplicates(cfg, sorted[i], sorted[k])))
    {
      if !removed[j] && sorted[i].classId == sorted[j].classId {
        if MergeIou(sorted[i].bbox, sorted[j].bbox) >= cfg.iou || MergeIos(sorted[i].bbox, sorted[j].bbox) >= cfg.ios {
          removed[j] := true;
        }
      }
      j := j + 1;
    }
  }

  ghost predicate MergedFrom(cfg: MergeConfig, ds: seq<Detection>, sorted: seq<Detection>, kept: seq<Detection>) {
    SortOf(sorted, ds) && kept == Survivors(sorted, DuplicateOf(cfg), |sorted|)
  }

  /** The greedy survivors of some sort of `ds` by falling confidence. */
  ghost predicate IsMerge(cfg: MergeConfig, ds: seq<Detection>, kept: seq<Detection>) {
    exists sorted :: MergedFrom(cfg, ds, sorted, kept)
  }

  /** `runNms`. */
  method RunNms(cfg: MergeConfig, ds: seq<Detection>) returns (kept: seq<Detection>)
    ensures IsMerge(cfg, ds, kept)
  {
    var list := SortDetections(ds);
    ghost var sup := DuplicateOf(cfg);
    kept := [];
    var removed := new bool[|list|](_ => false);
    var i := 0;
    while i < |list|
      invariant 0 <= i <= |list| && kept == Survivors(list, sup, i)
      invariant Flagged(list, sup, i, removed[..])
    {
      ghost var before := removed[..];
      if !removed[i] {
        kept := kept + [list[i]];
        SuppressDuplicates(cfg, list, i, removed);
      }
      FlagsNext(list, sup, i, before, removed[..]);
      i := i + 1;
    }
    assert MergedFrom(cfg, ds, list, kept);
  }

  // ---------------------------------------------------------------- what the tile merger gets, and running again

  lemma DuplicatesSymmetric(cfg: MergeConfig, a: Detection, b: Detection)
    ensures Duplicates(cfg, a, b) <==> Duplicates(cfg, b, a)
  {
    OverlapSymmetric(a.bbox, b.bbox);
  }

  /** No two merged detections are duplicates, in either order. */
  lemma MergedAreApart(cfg: MergeConfig, ds: seq<Detection>, kept: seq<Detection>, x: nat, y: nat)
    requires IsMerge(cfg, ds, kept) && x < |kept| && y < |kept| && x != y
    ensures !Duplicates(cfg, kept[x], kept[y])
    ensures kept[x].classId == kept[y].classId ==>
      MergeIou(kept[x].bbox, kept[y].bbox) < cfg.iou && MergeIos(kept[x].bbox, kept[y].bbox) < cfg.ios
  {
    var sorted :| MergedFrom(cfg, ds, sorted, kept);
    DuplicatesSymmetric(cfg, kept[x], kept[y]);
    if x < y {
      SurvivorsApart(sorted, DuplicateOf(cfg), x, y);
    } else {
      SurvivorsApart(sorted, DuplicateOf(cfg), y, x);
    }
  }

  lemma CountLast(s: seq<Detection>, k: nat, d: Detection)
    requires k < |s|
    ensures multiset(s[..k + 1])[d] == multiset(s[..k])[d] + if s[k] == d then 1 else 0
  {
    assert s[..k + 1] == s[..k] + [s[k]];
  }

  /** If every occurrence of `d` is kept, none is missing among the survivors; never are there more. */
  lemma {:induction false} CountSurvivors(s: seq<Detection>, sup: (Detection, Detection) -> bool, k: nat, d: Detection)
    requires k <= |s|
    ensures multiset(Survivors(s, sup, k))[d] <= multiset(s[..k])[d]
    ensures (forall i :: 0 <= i < k && s[i] == d ==> Keeps(s, sup, i)) ==>
      multiset(Survivors(s, sup, k))[d] == multiset(s[..k])[d]
  {
    if k > 0 {
      CountSurvivors(s, sup, k - 1, d);
      CountLast(s, k - 1, d);
    }
  }

  /** Every detection that was merged away is a duplicate of a kept one at least as confident. */
  lemma MergedAwayHasReason(cfg: MergeConfig, ds: seq<Detection>, kept: seq<Detection>, d: Detection) returns (x: nat)
    requires IsMerge(cfg, ds, kept) && multiset(kept)[d] < multiset(ds)[d]
    ensures x < |kept| && kept[x].classId == d.classId && kept[x].confidence >= d.confidence
    ensures MergeIou(kept[x].bbox, d.bbox) >= cfg.iou || MergeIos(kept[x].bbox, d.bbox) >= cfg.ios
  {
    var sorted :| MergedFrom(cfg, ds, sorted, kept);
    var sup := DuplicateOf(cfg);
    CountSurvivors(sorted, sup, |sorted|, d);
    assert sorted[..|sorted|] == sorted;
    var j: nat :| j < |sorted| && sorted[j] == d && !Keeps(sorted, sup, j);
    var i: nat :| i < j && Keeps(sorted, sup, i) && sup(sorted[i], sorted[j]);
    var at := SurvivorsAt(sorted, sup, |sorted|);
    x :| 0 <= x < |at| && at[x] == i;
  }

  /** Nothing is added. */
  lemma MergedIsPart(cfg: MergeConfig, ds: seq<Detection>, kept: seq<Detection>)
    requires IsMerge(cfg, ds, kept)
    ensures multiset(kept) <= multiset(ds)
  {
    var sorted :| MergedFrom(cfg, ds, sorted, kept);
    assert sorted[..|sorted|] == sorted;
    forall d ensures multiset(kept)[d] <= multiset(ds)[d] {
      CountSurvivors(sorted, DuplicateOf(cfg), |sorted|, d);
    }
  }

  /** Merging what was merged changes nothing, however ties are sorted the second time. */
  lemma MergeAgainKeepsAll(cfg: MergeConfig, ds: seq<Detection>, kept: seq<Detection>, again: seq<Detection>)
    requires IsMerge(cfg, ds, kept) && IsMerge(cfg, kept, again)
    ensures multiset(again) == multiset(kept)
  {
    var sorted :| MergedFrom(cfg, kept, sorted, again);
    forall x, y | 0 <= x < y < |sorted| ensures !Duplicates(cfg, sorted[x], sorted[y]) {
      SortedApart(cfg, ds, kept, sorted, x, y);
    }
    ApartKeepsAll(sorted, DuplicateOf(cfg), |sorted|);
    assert sorted[..|sorted|] == sorted;
  }

  lemma SortedApart(cfg: MergeConfig, ds: seq<Detection>, kept: seq<Detection>, sorted: seq<Detection>, x: nat, y: nat)
    requires IsMerge(cfg, ds, kept) && multiset(sorted) == multiset(kept) && x < y < |sorted|
    ensures !Duplicates(cfg, sorted[x], sorted[y])
  {
    var i, j := TwoPlaces(sorted, kept, x, y);
    MergedAreApart(cfg, ds, kept, i, j);
  }

  /** Two places of a rearrangement are two places of the original. */
  lemma TwoPlaces(s: seq<Detection>, t: seq<Detection>, x: nat, y: nat) returns (i: nat, j: nat)
    requires multiset(s) == multiset(t) && x < y < |s|
    ensures i < |t| && j < |t| && i != j && t[i] == s[x] && t[j] == s[y]
  {
    assert s[x] in multiset(t) && s[y] in multiset(t);
    i :| 0 <= i < |t| && t[i] == s[x];
    if s[x] != s[y] {
      j :| 0 <= j < |t| && t[j] == s[y];
    } else {
      AtLeastTwo(s, x, y);
      j := Another(t, i);
    }
  }

  lemma AtLeastTwo(s: seq<Detection>, x: nat, y: nat)
    requires x < y < |s| && s[x] == s[y]
    ensures multiset(s)[s[x]] >= 2
  {
    assert s == s[..y] + [s[y]] + s[y + 1..];
    assert s[..y][x] == s[x];
    assert s[x] in multiset(s[..y]);
  }

  lemma Another(t: seq<Detection>, i: nat) returns (j: nat)
    requires i < |t| && multiset(t)[t[i]] >= 2
    ensures j < |t| && j != i && t[j] == t[i]
  {
    var rest := t[..i] + t[i + 1..];
    assert t == t[..i] + [t[i]] + t[i + 1..];
    assert t[i] in multiset(rest);
    var k :| 0 <= k < |rest| && rest[k] == t[i];
    j := if k < i then k else k + 1;
  }

  /** The detections a decoder keeps. */
  ghost function Kept(ds: seq<Detection>, keep: seq<nat>): (r: seq<Detection>)
    requires Below(keep, |ds|)
    ensures |r| == |keep| && forall x :: 0 <= x < |keep| ==> r[x] == ds[keep[x]]
  {
    seq(|keep|, x requires 0 <= x < |keep| => ds[keep[x]])
  }

  /** Suppressing what was suppressed keeps every detection, however ties are sorted the second time. */
  lemma SuppressAgainKeepsAll(ds: seq<Detection>, thresh: real, keep: seq<nat>, again: seq<nat>)
    requires IsNms(ds, thresh, keep) && IsNms(Kept(ds, keep), thresh, again)
    ensures IsPerm(again, |keep|)
  {
    var r := Kept(ds, keep);
    var idx :| KeptFrom(r, thresh, idx, again);
    var sup := OverlapOf(r, thresh);
    forall x, y | 0 <= x < y < |idx| ensures !sup(idx[x], idx[y]) {
      KeptStayApart(ds, thresh, keep, idx, x, y);
    }
    ApartKeepsAll(idx, sup, |idx|);
    assert idx[..|idx|] == idx;
  }

  lemma KeptStayApart(ds: seq<Detection>, thresh: real, keep: seq<nat>, idx: seq<nat>, x: nat, y: nat)
    requires IsNms(ds, thresh, keep) && IsPerm(idx, |keep|) && x < y < |idx|
    ensures !Overlaps(Kept(ds, keep), thresh, idx[x], idx[y])
  {
    KeptAreApart(ds, thresh, keep, idx[x], idx[y]);
  }
}
