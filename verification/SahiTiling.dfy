/**
 Overlapping tiles of a full pass (src/pipeline/stages/SahiSchedulerStage.cpp:16-42).
 */
module SahiTiling {

  function MinInt(a: int, b: int): int { if b < a then b else a }
  function MaxInt(a: int, b: int): int { if a < b then b else a }

  /** `std::round`: halves go away from zero. */
  function Round(x: real): int {
    if x >= 0.0 then (x + 0.5).Floor else -((-x + 0.5).Floor)
  }

  function SafeTile(full: int, tile: int): int { MaxInt(1, MinInt(tile, full)) }

  function Stride(full: int, tile: int, overlap: real): (r: int)
    ensures r >= 1
  {
    MaxInt(1, SafeTile(full, tile) - Round(SafeTile(full, tile) as real * overlap))
  }

  /** Rounding moves by at most a half, and halves away from zero. */
  lemma RoundIs(x: real)
    ensures -0.5 <= Round(x) as real - x <= 0.5
    ensures (x >= 0.0 ==> Round(x) as real - x > -0.5) && (x <= 0.0 ==> Round(x) as real - x < 0.5)
  {
  }

  /** A tile is as long as configured, or as the picture if that is shorter, and never empty. */
  lemma SafeTileIs(full: int, tile: int)
    ensures var safe := SafeTile(full, tile);
      && safe >= 1 && (full >= 1 ==> safe <= full) && (full >= 1 && tile >= 1 ==> safe <= tile)
      && (safe == full || safe == tile || safe == 1) && (1 <= tile <= full ==> safe == tile)
      && (1 <= full <= tile ==> safe == full)
  {
  }

  /** Neighbouring tiles overlap by the ratio of a tile, to within half a pixel, unless the stride would
      be less than a pixel. */
  lemma StrideIs(full: int, tile: int, overlap: real)
    ensures var safe, stride := SafeTile(full, tile), Stride(full, tile, overlap);
      var shared := safe as real * overlap;
      && (safe as real - shared >= 1.5 ==> -0.5 <= (safe - stride) as real - shared <= 0.5)
      && (safe as real - shared < 0.5 ==> stride == 1)
      && (0.5 <= safe as real - shared < 1.5 ==> 1 <= stride <= 2)
  {
    RoundIs(SafeTile(full, tile) as real * overlap);
  }

  /** Starts are a stride apart, the last one at most. */
  lemma StrideApart(s: seq<int>, full: int, tile: int, stride: int, i: nat)
    requires Starts(s, full, tile, stride) && stride >= 1 && tile >= 1 && i + 1 < |s|
    ensures 1 <= s[i + 1] - s[i] <= stride && (i + 2 < |s| ==> s[i + 1] - s[i] == stride)
  {
    assert StepAt(s, full, tile, stride, i);
    if i + 2 < |s| { assert StepAt(s, full, tile, stride, i + 1); }
  }

  /** A ratio that is not negative never strides past a tile. */
  lemma StrideWithinTile(full: int, tile: int, overlap: real)
    requires overlap >= 0.0
    ensures Stride(full, tile, overlap) <= SafeTile(full, tile)
  {
    var px := SafeTile(full, tile) as real * overlap;
    assert px >= 0.0;
    assert (px + 0.5).Floor >= 0;
  }

  /** The start after start `i`. */
  ghost predicate StepAt(s: seq<int>, full: int, tile: int, stride: int, i: int)
    requires 0 <= i < |s| - 1
  {
    s[i] + tile < full && s[i] + stride < full && s[i + 1] == MinInt(s[i] + stride, full - tile)
  }

  /** Starts advance by the stride, the last one pulled back to the edge, until a tile
      reaches the edge or the stride leaps over it. */
  ghost predicate Starts(s: seq<int>, full: int, tile: int, stride: int) {
    && |s| >= 1 && s[0] == 0
    && (forall i {:trigger StepAt(s, full, tile, stride, i)} :: 0 <= i < |s| - 1 ==> StepAt(s, full, tile, stride, i))
    && (s[|s| - 1] + tile == full || s[|s| - 1] + stride >= full)
    && (forall i :: 0 <= i < |s| ==> 0 <= s[i] <= full - tile)
  }

  /** The starts while the last of them does not reach the edge yet. */
  ghost predicate Unfinished(starts: seq<int>, full: int, safe: int, stride: int) {
    && starts != [] && starts[0] == 0 && starts[|starts| - 1] + safe < full
    && (forall i {:trigger StepAt(starts, full, safe, stride, i)} ::
         0 <= i < |starts| - 1 ==> StepAt(starts, full, safe, stride, i))
    && (forall i :: 0 <= i < |starts| ==> 0 <= starts[i] <= full - safe)
  }

  lemma OneMoreStart(starts: seq<int>, full: int, safe: int, stride: int)
    requires Unfinished(starts, full, safe, stride) && stride >= 1 && starts[|starts| - 1] + stride < full
    ensures var start := MinInt(starts[|starts| - 1] + stride, full - safe);
      && start != starts[|starts| - 1]
      && if start + safe >= full then Starts(starts + [start], full, safe, stride)
         else start == starts[|starts| - 1] + stride && Unfinished(starts + [start], full, safe, stride)
  {
    var start := MinInt(starts[|starts| - 1] + stride, full - safe);
    var more := starts + [start];
    forall i | 0 <= i < |more| - 1 ensures StepAt(more, full, safe, stride, i) {
      if i < |starts| - 1 {
        assert StepAt(starts, full, safe, stride, i);
      }
    }
  }

  method MakeAxisStarts(full: int, tile: int, overlap: real) returns (starts: seq<int>)
    ensures full <= 0 ==> starts == []
    ensures full >= 1 ==> Starts(starts, full, SafeTile(full, tile), Stride(full, tile, overlap))
  {
    var safe := SafeTile(full, tile);
    var stride := Stride(full, tile, overlap);
    starts := [];
    var x := 0;
    while x < full
      invariant starts == [] ==> x == 0
      invariant starts != [] ==> x == starts[|starts| - 1] + stride && Unfinished(starts, full, safe, stride)
      decreases full - x
    {
      var start := MinInt(x, full - safe);
      if starts != [] {
        OneMoreStart(starts, full, safe, stride);
      }
      if starts == [] || starts[|starts| - 1] != start {
        starts := starts + [start];
      }
      if start + safe >= full {
        return;
      }
      x := x + stride;
    }
  }

  /** Starts strictly increase, at most a stride apart. */
  lemma {:induction false} StartsIncrease(s: seq<int>, full: int, tile: int, stride: int, i: nat, j: nat)
    requires Starts(s, full, tile, stride) && stride >= 1 && i < j < |s|
    ensures s[i] < s[j]
    decreases j
  {
    assert StepAt(s, full, tile, stride, j - 1);
    if i < j - 1 {
      StartsIncrease(s, full, tile, stride, i, j - 1);
    }
  }

  /** The last start before or at `p`. */
  lemma {:induction false} LastStartBefore(s: seq<int>, full: int, tile: int, stride: int, p: int, n: nat)
    returns (i: nat)
    requires Starts(s, full, tile, stride) && stride >= 1 && 0 <= p && 1 <= n <= |s|
    ensures i < n && s[i] <= p && (i + 1 < n ==> p < s[i + 1])
  {
    if n == 1 || s[n - 1] <= p {
      i := n - 1;
    } else {
      i := LastStartBefore(s, full, tile, stride, p, n - 1);
    }
  }

  /** Any stretch no longer than tile - stride + 1 lies wholly in one tile. */
  lemma StretchInOneTile(s: seq<int>, full: int, tile: int, stride: int, a: int, w: int) returns (i: nat)
    requires Starts(s, full, tile, stride) && 1 <= stride <= tile <= full
    requires 0 <= a && 1 <= w <= tile - stride + 1 && a + w <= full
    ensures i < |s| && s[i] <= a && a + w <= s[i] + tile
  {
    i := LastStartBefore(s, full, tile, stride, a, |s|);
    if i + 1 < |s| {
      assert StepAt(s, full, tile, stride, i);
    }
  }

  ghost predicate Covers(s: seq<int>, tile: int, p: int) {
    exists i :: 0 <= i < |s| && s[i] <= p < s[i] + tile
  }

  predicate NoGap(full: int, tile: int, stride: int) {
    stride <= tile || full <= tile || (full <= 2 * tile && stride < full)
  }

  /** The tiles of an axis leave no gap exactly when the stride does not exceed the tile, or
      one tile spans the axis, or two tiles do and the stride still reaches a second one. */
  lemma CoversIff(s: seq<int>, full: int, tile: int, stride: int)
    requires Starts(s, full, tile, stride) && 1 <= stride && 1 <= tile <= full
    ensures (forall p :: 0 <= p < full ==> Covers(s, tile, p)) <==> NoGap(full, tile, stride)
  {
    if stride <= tile {
      forall p | 0 <= p < full ensures Covers(s, tile, p) {
        var i := StretchInOneTile(s, full, tile, stride, p, 1);
      }
    } else if full <= tile {
      forall p | 0 <= p < full ensures Covers(s, tile, p) {
        assert s[0] <= p < s[0] + tile;
      }
    } else if full <= 2 * tile && stride < full {
      assert |s| >= 2;
      assert StepAt(s, full, tile, stride, 0);
      forall p | 0 <= p < full ensures Covers(s, tile, p) {
        assert (s[0] <= p < s[0] + tile) || (s[1] <= p < s[1] + tile);
      }
    } else {
      GapAfterFirst(s, full, tile, stride);
      assert !Covers(s, tile, tile);
    }
  }

  lemma GapAfterFirst(s: seq<int>, full: int, tile: int, stride: int)
    requires Starts(s, full, tile, stride) && tile < stride && 1 <= tile < full
    requires full > 2 * tile || stride >= full
    ensures !Covers(s, tile, tile)
  {
    forall i | 0 <= i < |s| ensures !(s[i] <= tile < s[i] + tile) {
      if i > 0 {
        assert StepAt(s, full, tile, stride, 0);
        if i > 1 { StartsIncrease(s, full, tile, stride, 1, i); }
      }
    }
  }

  // ---------------------------------------------------------------- two axes

  datatype Rect = Rect(x: int, y: int, w: int, h: int)

  datatype TileConfig = TileConfig(width: int, height: int, xOverlap: real, yOverlap: real)

  function Row(xs: seq<int>, y: int, w: int, h: int): (r: seq<Rect>)
    ensures |r| == |xs|
  {
    seq(|xs|, i requires 0 <= i < |xs| => Rect(xs[i], y, w, h))
  }

  /** A full pass: one tile per pair of starts, row by row. */
  function Grid(xs: seq<int>, ys: seq<int>, w: int, h: int): seq<Rect> {
    if ys == [] then [] else Grid(xs, ys[..|ys| - 1], w, h) + Row(xs, ys[|ys| - 1], w, h)
  }

  lemma {:induction false} GridHas(xs: seq<int>, ys: seq<int>, w: int, h: int, t: Rect)
    ensures t in Grid(xs, ys, w, h) <==> exists i, j :: 0 <= i < |xs| && 0 <= j < |ys| && t == Rect(xs[i], ys[j], w, h)
  {
    if ys != [] {
      var k := |ys| - 1;
      GridHas(xs, ys[..k], w, h, t);
      if i, j :| 0 <= i < |xs| && 0 <= j < |ys| && t == Rect(xs[i], ys[j], w, h) {
        if j == k {
          assert Row(xs, ys[k], w, h)[i] == t;
        } else {
          assert ys[..k][j] == ys[j];
        }
      }
      if t in Row(xs, ys[k], w, h) {
        var i :| 0 <= i < |xs| && Row(xs, ys[k], w, h)[i] == t;
      }
      if i, j :| 0 <= i < |xs| && 0 <= j < k && t == Rect(xs[i], ys[..k][j], w, h) {
        assert t == Rect(xs[i], ys[j], w, h);
      }
    }
  }

  /** As many tiles as there are pairs of starts. */
  lemma {:induction false} GridSize(xs: seq<int>, ys: seq<int>, w: int, h: int)
    ensures |Grid(xs, ys, w, h)| == |ys| * |xs|
  {
    if ys != [] {
      var n := |ys| - 1;
      GridSize(xs, ys[..n], w, h);
      OneMoreRow(n, |xs|);
      assert |Grid(xs, ys, w, h)| == |Grid(xs, ys[..n], w, h)| + |Row(xs, ys[n], w, h)|;
    }
  }

  lemma OneMoreRow(rows: nat, columns: nat)
    ensures (rows + 1) * columns == rows * columns + columns
  {}

  /** Row by row from the top, each from the left: the tile of column `i` and row `j` at its place. */
  lemma {:induction false} GridAt(xs: seq<int>, ys: seq<int>, w: int, h: int, i: nat, j: nat)
    requires i < |xs| && j < |ys|
    ensures 0 <= j * |xs| + i < |Grid(xs, ys, w, h)| == |ys| * |xs|
    ensures Grid(xs, ys, w, h)[j * |xs| + i] == Rect(xs[i], ys[j], w, h)
  {
    var n := |ys| - 1;
    GridSize(xs, ys, w, h);
    GridSize(xs, ys[..n], w, h);
    var above, row := Grid(xs, ys[..n], w, h), Row(xs, ys[n], w, h);
    if j < n {
      GridAt(xs, ys[..n], w, h, i, j);
      assert (above + row)[j * |xs| + i] == above[j * |xs| + i];
    } else {
      assert (above + row)[|above| + i] == row[i];
    }
  }

  ghost predicate TilesFrom(cfg: TileConfig, fullW: int, fullH: int, xs: seq<int>, ys: seq<int>, tiles: seq<Rect>) {
    && Starts(xs, fullW, SafeTile(fullW, cfg.width), Stride(fullW, cfg.width, cfg.xOverlap))
    && Starts(ys, fullH, SafeTile(fullH, cfg.height), Stride(fullH, cfg.height, cfg.yOverlap))
    && tiles == Grid(xs, ys, SafeTile(fullW, cfg.width), SafeTile(fullH, cfg.height))
  }

  /** The tiles of a full pass over a frame. */
  ghost predicate FullTiles(cfg: TileConfig, fullW: int, fullH: int, tiles: seq<Rect>) {
    exists xs, ys :: TilesFrom(cfg, fullW, fullH, xs, ys, tiles)
  }

  method MakeFullTiles(cfg: TileConfig, fullW: int, fullH: int) returns (tiles: seq<Rect>)
    requires cfg.width >= 1 && cfg.height >= 1 && fullW >= 1 && fullH >= 1
    ensures FullTiles(cfg, fullW, fullH, tiles)
  {
    var xs := MakeAxisStarts(fullW, cfg.width, cfg.xOverlap);
    var ys := MakeAxisStarts(fullH, cfg.height, cfg.yOverlap);
    tiles := [];
    var j := 0;
    while j < |ys|
      invariant 0 <= j <= |ys|
      invariant tiles == Grid(xs, ys[..j], SafeTile(fullW, cfg.width), SafeTile(fullH, cfg.height))
    {
      var row := MakeRow(cfg, fullW, fullH, xs, ys[j]);
      assert ys[..j + 1][..j] == ys[..j];
      tiles := tiles + row;
      j := j + 1;
    }
    assert ys[..j] == ys;
    assert TilesFrom(cfg, fullW, fullH, xs, ys, tiles);
  }

  method MakeRow(cfg: TileConfig, fullW: int, fullH: int, cols: seq<int>, y: int) returns (row: seq<Rect>)
    requires cfg.width >= 1 && cfg.height >= 1
    requires 0 <= y <= fullH - SafeTile(fullH, cfg.height)
    requires forall i :: 0 <= i < |cols| ==> 0 <= cols[i] <= fullW - SafeTile(fullW, cfg.width)
    ensures row == Row(cols, y, SafeTile(fullW, cfg.width), SafeTile(fullH, cfg.height))
  {
    var h := MinInt(cfg.height, fullH - y);
    row := [];
    var i := 0;
    while i < |cols|
      invariant 0 <= i <= |cols| && |row| == i
      invariant forall k :: 0 <= k < i ==>
        row[k] == Rect(cols[k], y, SafeTile(fullW, cfg.width), SafeTile(fullH, cfg.height))
    {
      row := row + [Rect(cols[i], y, MinInt(cfg.width, fullW - cols[i]), h)];
      i := i + 1;
    }
  }

  predicate Holds(t: Rect, x: int, y: int, w: int, h: int) {
    t.x <= x && t.y <= y && x + w <= t.x + t.w && y + h <= t.y + t.h
  }

  /** Every tile of a full pass lies inside the frame. */
  lemma TilesInside(cfg: TileConfig, fullW: int, fullH: int, tiles: seq<Rect>, t: Rect)
    requires FullTiles(cfg, fullW, fullH, tiles) && t in tiles
    ensures 0 <= t.x && 0 <= t.y && t.x + t.w <= fullW && t.y + t.h <= fullH
  {
    var xs, ys :| TilesFrom(cfg, fullW, fullH, xs, ys, tiles);
    GridHas(xs, ys, SafeTile(fullW, cfg.width), SafeTile(fullH, cfg.height), t);
  }

  ghost predicate Overlapping(cfg: TileConfig, fullW: int, fullH: int) {
    cfg.width >= 1 && cfg.height >= 1 && fullW >= 1 && fullH >= 1 && cfg.xOverlap >= 0.0 && cfg.yOverlap >= 0.0
  }

  /** With ratios that are not negative, any box no larger than tile - stride + 1 on each axis
      lies wholly in one tile; a single pixel is such a box. */
  lemma BoxInOneTile(cfg: TileConfig, fullW: int, fullH: int, tiles: seq<Rect>, x: int, y: int, bw: int, bh: int)
    returns (t: Rect)
    requires Overlapping(cfg, fullW, fullH) && FullTiles(cfg, fullW, fullH, tiles)
    requires 0 <= x && 1 <= bw <= SafeTile(fullW, cfg.width) - Stride(fullW, cfg.width, cfg.xOverlap) + 1
    requires x + bw <= fullW
    requires 0 <= y && 1 <= bh <= SafeTile(fullH, cfg.height) - Stride(fullH, cfg.height, cfg.yOverlap) + 1
    requires y + bh <= fullH
    ensures t in tiles && Holds(t, x, y, bw, bh)
  {
    var xs, ys :| TilesFrom(cfg, fullW, fullH, xs, ys, tiles);
    var w, h := SafeTile(fullW, cfg.width), SafeTile(fullH, cfg.height);
    StrideWithinTile(fullW, cfg.width, cfg.xOverlap);
    StrideWithinTile(fullH, cfg.height, cfg.yOverlap);
    var i := StretchInOneTile(xs, fullW, w, Stride(fullW, cfg.width, cfg.xOverlap), x, bw);
    var j := StretchInOneTile(ys, fullH, h, Stride(fullH, cfg.height, cfg.yOverlap), y, bh);
    t := Rect(xs[i], ys[j], w, h);
    GridHas(xs, ys, w, h, t);
  }

  // ---------------------------------------------------------------- the cap on tiles

  /** `tiles.resize` when there are more than the cap. */
  function Capped(tiles: seq<Rect>, cap: nat): (r: seq<Rect>)
    ensures r <= tiles && |r| == if |tiles| < cap then |tiles| else cap
  {
    if |tiles| > cap then tiles[..cap] else tiles
  }

  ghost predicate CoversFrame(tiles: seq<Rect>, fullW: int, fullH: int) {
    forall x, y :: 0 <= x < fullW && 0 <= y < fullH ==> CoversPixel(tiles, x, y)
  }

  ghost predicate CoversPixel(tiles: seq<Rect>, x: int, y: int) {
    exists i :: 0 <= i < |tiles| && Holds(tiles[i], x, y, 1, 1)
  }

  /** Without a gap the last tile ends flush with the edge. */
  lemma EndsFlush(s: seq<int>, full: int, tile: int, stride: int)
    requires Starts(s, full, tile, stride) && stride <= tile
    ensures s[|s| - 1] + tile == full
  {}

  /** Only the last tile of the grid stands in the far corner. */
  lemma CornerTile(xs: seq<int>, ys: seq<int>, w: int, h: int, k: nat)
    requires xs != [] && ys != []
    requires forall i, j :: 0 <= i < j < |xs| ==> xs[i] < xs[j]
    requires forall i, j :: 0 <= i < j < |ys| ==> ys[i] < ys[j]
    requires k < |Grid(xs, ys, w, h)| && Grid(xs, ys, w, h)[k] == Rect(xs[|xs| - 1], ys[|ys| - 1], w, h)
    ensures k == |Grid(xs, ys, w, h)| - 1
  {
    var n := |ys| - 1;
    var above, last := Grid(xs, ys[..n], w, h), Row(xs, ys[n], w, h);
    RowsAbove(xs, ys, w, h);
    assert forall i :: 0 <= i < |above| ==> Grid(xs, ys, w, h)[i] == above[i];
    assert forall i :: 0 <= i < |last| ==> Grid(xs, ys, w, h)[|above| + i] == last[i];
    assert k >= |above|;
    assert last[k - |above|].x == xs[|xs| - 1];
  }

  ghost predicate AllAbove(tiles: seq<Rect>, y: int) {
    forall k :: 0 <= k < |tiles| ==> tiles[k].y < y
  }

  lemma RowsAbove(xs: seq<int>, ys: seq<int>, w: int, h: int)
    requires ys != [] && forall i, j :: 0 <= i < j < |ys| ==> ys[i] < ys[j]
    ensures AllAbove(Grid(xs, ys[..|ys| - 1], w, h), ys[|ys| - 1])
  {
    var n := |ys| - 1;
    var above := Grid(xs, ys[..n], w, h);
    forall k | 0 <= k < |above| ensures above[k].y < ys[n] {
      GridHas(xs, ys[..n], w, h, above[k]);
      var i, j :| 0 <= i < |xs| && 0 <= j < n && above[k] == Rect(xs[i], ys[..n][j], w, h);
      assert ys[..n][j] == ys[j];
    }
  }

  lemma CapLosesCorner(cfg: TileConfig, fullW: int, fullH: int, tiles: seq<Rect>, cap: nat)
    requires fullW >= 1 && fullH >= 1 && FullTiles(cfg, fullW, fullH, tiles) && cap < |tiles|
    ensures !CoversPixel(Capped(tiles, cap), fullW - 1, fullH - 1)
  {
    var xs, ys :| TilesFrom(cfg, fullW, fullH, xs, ys, tiles);
    var w, h := SafeTile(fullW, cfg.width), SafeTile(fullH, cfg.height);
    var sx, sy := Stride(fullW, cfg.width, cfg.xOverlap), Stride(fullH, cfg.height, cfg.yOverlap);
    forall i, j | 0 <= i < j < |xs| ensures xs[i] < xs[j] { StartsIncrease(xs, fullW, w, sx, i, j); }
    forall i, j | 0 <= i < j < |ys| ensures ys[i] < ys[j] { StartsIncrease(ys, fullH, h, sy, i, j); }
    forall k | 0 <= k < |tiles| && Holds(tiles[k], fullW - 1, fullH - 1, 1, 1) ensures k == |tiles| - 1 {
      GridHas(xs, ys, w, h, tiles[k]);
      var i, j :| 0 <= i < |xs| && 0 <= j < |ys| && tiles[k] == Rect(xs[i], ys[j], w, h);
      assert i == |xs| - 1 && j == |ys| - 1;
      CornerTile(xs, ys, w, h, k);
    }
  }

  // ---------------------------------------------------------------- any ratio

  lemma PixelCovered(cfg: TileConfig, fullW: int, fullH: int, xs: seq<int>, ys: seq<int>, tiles: seq<Rect>, x: int,
                     y: int)
    requires TilesFrom(cfg, fullW, fullH, xs, ys, tiles)
    ensures CoversPixel(tiles, x, y) <==>
      Covers(xs, SafeTile(fullW, cfg.width), x) && Covers(ys, SafeTile(fullH, cfg.height), y)
  {
    var w, h := SafeTile(fullW, cfg.width), SafeTile(fullH, cfg.height);
    if CoversPixel(tiles, x, y) {
      var k :| 0 <= k < |tiles| && Holds(tiles[k], x, y, 1, 1);
      GridHas(xs, ys, w, h, tiles[k]);
    }
    if Covers(xs, w, x) && Covers(ys, h, y) {
      var i :| 0 <= i < |xs| && xs[i] <= x < xs[i] + w;
      var j :| 0 <= j < |ys| && ys[j] <= y < ys[j] + h;
      var t := Rect(xs[i], ys[j], w, h);
      GridHas(xs, ys, w, h, t);
      var k :| 0 <= k < |tiles| && tiles[k] == t;
    }
  }

  /** Whatever the ratios: a full pass covers every pixel exactly when neither axis has a gap. */
  lemma FullPassCoversIff(cfg: TileConfig, fullW: int, fullH: int, tiles: seq<Rect>)
    requires fullW >= 1 && fullH >= 1 && FullTiles(cfg, fullW, fullH, tiles)
    ensures CoversFrame(tiles, fullW, fullH) <==>
      && NoGap(fullW, SafeTile(fullW, cfg.width), Stride(fullW, cfg.width, cfg.xOverlap))
      && NoGap(fullH, SafeTile(fullH, cfg.height), Stride(fullH, cfg.height, cfg.yOverlap))
  {
    var xs, ys :| TilesFrom(cfg, fullW, fullH, xs, ys, tiles);
    var w, h := SafeTile(fullW, cfg.width), SafeTile(fullH, cfg.height);
    CoversIff(xs, fullW, w, Stride(fullW, cfg.width, cfg.xOverlap));
    CoversIff(ys, fullH, h, Stride(fullH, cfg.height, cfg.yOverlap));
    forall x, y | 0 <= x < fullW && 0 <= y < fullH
      ensures CoversPixel(tiles, x, y) <==> Covers(xs, w, x) && Covers(ys, h, y)
    {
      PixelCovered(cfg, fullW, fullH, xs, ys, tiles, x, y);
    }
    if CoversFrame(tiles, fullW, fullH) {
      forall x | 0 <= x < fullW ensures Covers(xs, w, x) { assert CoversPixel(tiles, x, 0); }
      forall y | 0 <= y < fullH ensures Covers(ys, h, y) { assert CoversPixel(tiles, 0, y); }
    }
  }

  /** Whatever the ratio and the cap: every pixel is in a tile exactly when both axes are free of gaps
      and the cap does not cut the list. */
  lemma CoversFrameIff(cfg: TileConfig, fullW: int, fullH: int, tiles: seq<Rect>, cap: nat)
    requires fullW >= 1 && fullH >= 1 && FullTiles(cfg, fullW, fullH, tiles)
    ensures CoversFrame(Capped(tiles, cap), fullW, fullH) <==>
      && NoGap(fullW, SafeTile(fullW, cfg.width), Stride(fullW, cfg.width, cfg.xOverlap))
      && NoGap(fullH, SafeTile(fullH, cfg.height), Stride(fullH, cfg.height, cfg.yOverlap))
      && |tiles| <= cap
  {
    FullPassCoversIff(cfg, fullW, fullH, tiles);
    if |tiles| > cap {
      CapLosesCorner(cfg, fullW, fullH, tiles, cap);
    }
  }

  // ---------------------------------------------------------------- two failures, concretely

  /** Tiles of 2 by 2 with a ratio of -1 over a frame of 10 by 10 stand four pixels apart: the pixel
      at (2, 0) is in none. */
  lemma NegativeOverlapLeavesGap(tiles: seq<Rect>)
    requires FullTiles(TileConfig(2, 2, -1.0, -1.0), 10, 10, tiles)
    ensures !CoversPixel(tiles, 2, 0)
  {
    var cfg := TileConfig(2, 2, -1.0, -1.0);
    var xs, ys :| TilesFrom(cfg, 10, 10, xs, ys, tiles);
    assert SafeTile(10, 2) == 2 && Stride(10, 2, -1.0) == 4;
    GapAfterFirst(xs, 10, 2, 4);
    PixelCovered(cfg, 10, 10, xs, ys, tiles, 2, 0);
  }

  /** Tiles of 2 by 2 over a frame of 4 by 4, capped at one tile: the pixel at (3, 3) is lost. */
  lemma CapOfOneLosesCorner(tiles: seq<Rect>)
    requires FullTiles(TileConfig(2, 2, 0.0, 0.0), 4, 4, tiles)
    ensures !CoversPixel(Capped(tiles, 1), 3, 3)
  {
    var cfg := TileConfig(2, 2, 0.0, 0.0);
    assert SafeTile(4, 2) == 2 && Stride(4, 2, 0.0) == 2;
    var first := BoxInOneTile(cfg, 4, 4, tiles, 0, 0, 1, 1);
    var last := BoxInOneTile(cfg, 4, 4, tiles, 3, 3, 1, 1);
    var xs, ys :| TilesFrom(cfg, 4, 4, xs, ys, tiles);
    GridHas(xs, ys, 2, 2, first);
    assert first != last;
    assert |tiles| > 1;
    CapLosesCorner(cfg, 4, 4, tiles, 1);
  }
}
