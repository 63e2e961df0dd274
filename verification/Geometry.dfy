/**
 Boxes and detections (include/common/Types.h), with floats read as reals, and the
 overlap measures of the tracker, the decoders and the tile merger.
 */
module Geometry {

  datatype Option<T> = None | Some(value: T)

  datatype BBox = BBox(x1: real, y1: real, x2: real, y2: real)

  datatype Detection = Detection(
    classId: int,
    confidence: real,
    bbox: BBox,
    attributes: map<string, string>,
    trackId: Option<int>)

  function Max(a: real, b: real): real { if a < b then b else a }
  function Min(a: real, b: real): real { if b < a then b else a }

  function Area(b: BBox): real { (b.x2 - b.x1) * (b.y2 - b.y1) }

  /** The area two boxes share. */
  function Inter(a: BBox, b: BBox): (r: real)
    ensures r >= 0.0
  {
    Max(0.0, Min(a.x2, b.x2) - Max(a.x1, b.x1)) * Max(0.0, Min(a.y2, b.y2) - Max(a.y1, b.y1))
  }

  lemma ProductGrows(w: real, h: real, w': real, h': real)
    requires 0.0 <= w <= w' && 0.0 <= h <= h'
    ensures w * h <= w' * h'
  {
    assert w * h <= w' * h by { assert (w' - w) * h >= 0.0; }
    assert w' * h <= w' * h' by { assert w' * (h' - h) >= 0.0; }
  }

  /** Boxes that share area are upright, and share no more than either of them has. */
  lemma InterFits(a: BBox, b: BBox)
    requires Inter(a, b) > 0.0
    ensures Inter(a, b) <= Area(a) && Inter(a, b) <= Area(b)
  {
    var w := Max(0.0, Min(a.x2, b.x2) - Max(a.x1, b.x1));
    var h := Max(0.0, Min(a.y2, b.y2) - Max(a.y1, b.y1));
    assert w > 0.0 && h > 0.0;
    ProductGrows(w, h, a.x2 - a.x1, a.y2 - a.y1);
    ProductGrows(w, h, b.x2 - b.x1, b.y2 - b.y1);
  }

  lemma RatioInUnit(x: real, y: real)
    requires 0.0 <= x <= y && y > 0.0
    ensures 0.0 <= x / y <= 1.0
  {
    var q := x / y;
    assert q * y == x;
    assert (1.0 - q) * y >= 0.0;
  }

  /** The tracker's overlap: the union is kept away from zero
      (src/tracker/ByteTrackTracker.cpp:13-23). */
  function TrackIou(a: BBox, b: BBox): (r: real)
    ensures 0.0 <= r <= 1.0
  {
    var inter := Inter(a, b);
    var uni := Max(0.000001, Area(a) + Area(b) - inter);
    assert inter <= uni by { if inter > 0.0 { InterFits(a, b); } }
    RatioInUnit(inter, uni);
    inter / uni
  }

  /** The decoders' overlap (src/decoder/IYOLODecoder.cpp:7-15). */
  function DecodeIou(a: BBox, b: BBox): (r: real)
    ensures 0.0 <= r <= 1.0
  {
    var inter := Inter(a, b);
    if inter == 0.0 then 0.0 else
    InterFits(a, b);
    RatioInUnit(inter, Area(a) + Area(b) - inter);
    inter / (Area(a) + Area(b) - inter)
  }

  /** The tile merger's overlap (src/pipeline/stages/SahiMergeStage.cpp:15-25). */
  function MergeIou(a: BBox, b: BBox): real {
    var inter := Inter(a, b);
    var uni := Area(a) + Area(b) - inter;
    if uni <= 0.0 then 0.0 else inter / uni
  }

  /** Overlap relative to the smaller box (src/pipeline/stages/SahiMergeStage.cpp:27-37). */
  function MergeIos(a: BBox, b: BBox): real {
    var smaller := Min(Area(a), Area(b));
    if smaller <= 0.0 then 0.0 else Inter(a, b) / smaller
  }

  lemma OverlapSymmetric(a: BBox, b: BBox)
    ensures Inter(a, b) == Inter(b, a)
    ensures TrackIou(a, b) == TrackIou(b, a) && DecodeIou(a, b) == DecodeIou(b, a)
    ensures MergeIou(a, b) == MergeIou(b, a) && MergeIos(a, b) == MergeIos(b, a)
  {
  }
}
