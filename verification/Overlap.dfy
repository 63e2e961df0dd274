/**
 What the overlap measures measure (src/tracker/ByteTrackTracker.cpp:13-23,
 src/decoder/IYOLODecoder.cpp:7-15, src/pipeline/stages/SahiMergeStage.cpp:15-37): of boxes on the
 pixel grid, shared pixels against pixels in either, or against those of the smaller box.
 */
module Overlaps {
  import opened Geometry

  // ---------------------------------------------------------------- any boxes

  ghost predicate Upright(b: BBox) { b.x1 < b.x2 && b.y1 < b.y2 }

  /** No point is inside both. */
  ghost predicate Apart(a: BBox, b: BBox) { a.x2 <= b.x1 || b.x2 <= a.x1 || a.y2 <= b.y1 || b.y2 <= a.y1 }

  ghost predicate Within(a: BBox, b: BBox) { b.x1 <= a.x1 && b.y1 <= a.y1 && a.x2 <= b.x2 && a.y2 <= b.y2 }

  /** Boxes that do not meet have no overlap, by any measure. */
  lemma ApartIsZero(a: BBox, b: BBox)
    requires Upright(a) && Upright(b) && Apart(a, b)
    ensures TrackIou(a, b) == 0.0 && DecodeIou(a, b) == 0.0 && MergeIou(a, b) == 0.0 && MergeIos(a, b) == 0.0
  {
    var w, h := Max(0.0, Min(a.x2, b.x2) - Max(a.x1, b.x1)), Max(0.0, Min(a.y2, b.y2) - Max(a.y1, b.y1));
    assert w * h == 0.0 by { if w == 0.0 { assert w * h == 0.0; } else { assert h == 0.0; } }
    assert Inter(a, b) == 0.0;
    AreaPositive(a);
    AreaPositive(b);
    NothingIsZero(Max(0.000001, Area(a) + Area(b)));
    NothingIsZero(Area(a) + Area(b));
    NothingIsZero(Min(Area(a), Area(b)));
  }

  lemma NothingIsZero(y: real)
    requires y > 0.0
    ensures 0.0 / y == 0.0
  {
  }

  lemma AreaPositive(b: BBox)
    requires Upright(b)
    ensures Area(b) > 0.0
  {
  }

  lemma SharesAll(a: BBox, b: BBox)
    requires Upright(a) && Upright(b) && Within(a, b)
    ensures Inter(a, b) == Area(a) && 0.0 < Area(a) <= Area(b)
  {
    AreaPositive(a);
    assert Inter(a, b) == Area(a);
    InterFits(a, b);
  }

  /** A box inside another shares all it has: the overlap is the ratio of the areas, and one relative
      to the smaller box.  In particular a box has overlap one with itself. */
  lemma InsideIsRatio(a: BBox, b: BBox)
    requires Upright(a) && Upright(b) && Within(a, b) && Area(b) >= 0.000001
    ensures Area(a) <= Area(b)
    ensures TrackIou(a, b) == DecodeIou(a, b) == MergeIou(a, b) == Area(a) / Area(b)
    ensures MergeIos(a, b) == 1.0
    ensures TrackIou(b, b) == 1.0
  {
    SharesAll(a, b);
    SharesAll(b, b);
  }

  // ---------------------------------------------------------------- boxes on the pixel grid

  datatype Cells = Cells(x1: int, y1: int, x2: int, y2: int)

  ghost predicate Proper(c: Cells) { c.x1 < c.x2 && c.y1 < c.y2 }

  ghost function BoxOf(c: Cells): BBox { BBox(c.x1 as real, c.y1 as real, c.x2 as real, c.y2 as real) }

  /** The pixels of a box. */
  ghost function Pixels(c: Cells): set<(int, int)> {
    set x, y | c.x1 <= x < c.x2 && c.y1 <= y < c.y2 :: (x, y)
  }

  ghost function Column(x: int, y1: int, y2: int): set<(int, int)> { set y | y1 <= y < y2 :: (x, y) }

  lemma {:induction false} ColumnCount(x: int, y1: int, y2: int)
    requires y1 <= y2
    ensures |Column(x, y1, y2)| == y2 - y1
    decreases y2 - y1
  {
    if y1 < y2 {
      ColumnCount(x, y1, y2 - 1);
      assert Column(x, y1, y2) == Column(x, y1, y2 - 1) + {(x, y2 - 1)};
    }
  }

  lemma Disjoint(a: set<(int, int)>, b: set<(int, int)>)
    requires a !! b
    ensures |a + b| == |a| + |b|
  {
  }

  lemma LastColumn(c: Cells)
    requires c.x1 < c.x2
    ensures |Pixels(c)| == |Pixels(c.(x2 := c.x2 - 1))| + |Column(c.x2 - 1, c.y1, c.y2)|
  {
    var rest, column := Pixels(c.(x2 := c.x2 - 1)), Column(c.x2 - 1, c.y1, c.y2);
    assert Pixels(c) == rest + column;
    Disjoint(rest, column);
  }

  lemma OneMoreColumn(w: int, h: int)
    ensures w * h == (w - 1) * h + h
  {}

  lemma {:induction false} PixelCount(c: Cells)
    requires c.x1 <= c.x2 && c.y1 <= c.y2
    ensures |Pixels(c)| == (c.x2 - c.x1) * (c.y2 - c.y1)
    decreases c.x2 - c.x1
  {
    if c.x1 == c.x2 {
      assert Pixels(c) == {};
    } else {
      PixelCount(c.(x2 := c.x2 - 1));
      ColumnCount(c.x2 - 1, c.y1, c.y2);
      LastColumn(c);
      OneMoreColumn(c.x2 - c.x1, c.y2 - c.y1);
    }
  }

  function MaxInt(a: int, b: int): int { if a < b then b else a }
  function MinInt(a: int, b: int): int { if b < a then b else a }

  /** The box of the pixels in both. */
  ghost function Common(a: Cells, b: Cells): Cells {
    var x1, y1 := MaxInt(a.x1, b.x1), MaxInt(a.y1, b.y1);
    Cells(x1, y1, MaxInt(x1, MinInt(a.x2, b.x2)), MaxInt(y1, MinInt(a.y2, b.y2)))
  }

  lemma CommonPixels(a: Cells, b: Cells)
    ensures Pixels(a) * Pixels(b) == Pixels(Common(a, b))
  {
    forall x, y ensures (x, y) in Pixels(a) * Pixels(b) <==> (x, y) in Pixels(Common(a, b)) {
    }
  }

  lemma ProductIsReal(w: int, h: int)
    ensures (w * h) as real == w as real * h as real
  {
  }

  lemma AreaIsCount(c: Cells)
    requires c.x1 <= c.x2 && c.y1 <= c.y2
    ensures Area(BoxOf(c)) == |Pixels(c)| as real
  {
    PixelCount(c);
    ProductIsReal(c.x2 - c.x1, c.y2 - c.y1);
  }

  ghost function Stretch(a1: int, a2: int, b1: int, b2: int): int {
    MaxInt(MaxInt(a1, b1), MinInt(a2, b2)) - MaxInt(a1, b1)
  }

  lemma StretchIs(a1: int, a2: int, b1: int, b2: int)
    ensures Max(0.0, Min(a2 as real, b2 as real) - Max(a1 as real, b1 as real)) == Stretch(a1, a2, b1, b2) as real
  {
  }

  lemma InterOfSides(a: BBox, b: BBox, w: real, h: real)
    requires Max(0.0, Min(a.x2, b.x2) - Max(a.x1, b.x1)) == w && Max(0.0, Min(a.y2, b.y2) - Max(a.y1, b.y1)) == h
    ensures Inter(a, b) == w * h
  {
  }

  /** The shared area is the number of shared pixels. */
  lemma InterIsCount(a: Cells, b: Cells)
    ensures Inter(BoxOf(a), BoxOf(b)) == |Pixels(a) * Pixels(b)| as real
  {
    StretchIs(a.x1, a.x2, b.x1, b.x2);
    StretchIs(a.y1, a.y2, b.y1, b.y2);
    CommonPixels(a, b);
    CommonCount(a, b);
    SidesCount(a, b, Stretch(a.x1, a.x2, b.x1, b.x2), Stretch(a.y1, a.y2, b.y1, b.y2));
  }

  lemma SidesCount(a: Cells, b: Cells, w: int, h: int)
    requires var p, q := BoxOf(a), BoxOf(b);
      && Max(0.0, Min(p.x2, q.x2) - Max(p.x1, q.x1)) == w as real
      && Max(0.0, Min(p.y2, q.y2) - Max(p.y1, q.y1)) == h as real
    ensures Inter(BoxOf(a), BoxOf(b)) == (w * h) as real
  {
    InterOfSides(BoxOf(a), BoxOf(b), w as real, h as real);
    ProductIsReal(w, h);
  }

  lemma CommonCount(a: Cells, b: Cells)
    ensures |Pixels(Common(a, b))| == Stretch(a.x1, a.x2, b.x1, b.x2) * Stretch(a.y1, a.y2, b.y1, b.y2)
  {
    PixelCount(Common(a, b));
  }

  lemma JoinedCount(p: set<(int, int)>, q: set<(int, int)>)
    ensures |p + q| == |p| + |q| - |p * q|
  {
    assert p + q == p + (q - p) && q == (q - p) + p * q;
    Disjoint(p, q - p);
    Disjoint(q - p, p * q);
  }

  lemma HasPixel(c: Cells)
    requires Proper(c)
    ensures |Pixels(c)| >= 1
  {
    assert (c.x1, c.y1) in Pixels(c);
  }

  /** Pixels in both, against pixels in either, or against those of the smaller box. */
  lemma OverlapIsCount(a: Cells, b: Cells)
    requires Proper(a) && Proper(b)
    ensures |Pixels(a) + Pixels(b)| >= 1 && |Pixels(a)| >= 1 && |Pixels(b)| >= 1
    ensures var shared, joined := |Pixels(a) * Pixels(b)| as real, |Pixels(a) + Pixels(b)| as real;
      && TrackIou(BoxOf(a), BoxOf(b)) == shared / joined
      && DecodeIou(BoxOf(a), BoxOf(b)) == shared / joined
      && MergeIou(BoxOf(a), BoxOf(b)) == shared / joined
    ensures MergeIos(BoxOf(a), BoxOf(b)) ==
      |Pixels(a) * Pixels(b)| as real / MinInt(|Pixels(a)|, |Pixels(b)|) as real
  {
    HasPixel(a);
    HasPixel(b);
    assert Pixels(a) <= Pixels(a) + Pixels(b);
    JoinedCount(Pixels(a), Pixels(b));
    AreaIsCount(a);
    AreaIsCount(b);
    InterIsCount(a, b);
    assert |Pixels(a) + Pixels(b)| >= 1 by { assert (a.x1, a.y1) in Pixels(a) + Pixels(b); }
  }
}
