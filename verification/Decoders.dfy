/**
 Decoding raw network output into detections: YOLOv8's channel-major layout
 (src/decoder/YOLOv8Decoder.cpp:12-76) and YOLOv5's row-major one
 (src/decoder/YOLOv5Decoder.cpp:14-105).  The output buffer holds exactly
 `output_count` floats, so every index below is a read the C++ code makes.
 */
module Decoders {
  import opened Geometry
  import opened Permutations
  import opened Nms

  // ---------------------------------------------------------------- the best class

  function At(data: seq<real>, i: int): real { if 0 <= i < |data| then data[i] else 0.0 }

  /** The running maximum the class loop keeps, starting from zero. */
  function BestProb(f: nat -> real, n: nat): real {
    if n == 0 then 0.0 else if f(n - 1) > BestProb(f, n - 1) then f(n - 1) else BestProb(f, n - 1)
  }

  function BestClass(f: nat -> real, n: nat): nat {
    if n == 0 then 0 else if f(n - 1) > BestProb(f, n - 1) then n - 1 else BestClass(f, n - 1)
  }

  /** It is the first class of greatest probability, as soon as any probability is positive. */
  lemma {:induction false} BestIsArgmax(f: nat -> real, n: nat)
    ensures BestProb(f, n) >= 0.0 && forall c: nat :: c < n ==> f(c) <= BestProb(f, n)
    ensures BestProb(f, n) > 0.0 ==>
      && BestClass(f, n) < n && f(BestClass(f, n)) == BestProb(f, n)
      && forall c: nat :: c < BestClass(f, n) ==> f(c) < BestProb(f, n)
  {
    if n > 0 {
      BestIsArgmax(f, n - 1);
    }
  }

  /** `k` is a class of greatest score, and `p` that score. */
  ghost predicate IsArgmax(f: nat -> real, n: nat, k: int, p: real) {
    0 <= k < n && f(k) == p && forall c: nat :: c < n ==> f(c) <= p
  }

  /** Some score lifts the running maximum off its start, or the first one equals it. */
  ghost predicate HasScore(f: nat -> real, n: nat) {
    (exists c: nat :: c < n && f(c) > 0.0) || (n >= 1 && f(0) == 0.0)
  }

  lemma {:induction false} StaysAtStart(f: nat -> real, n: nat)
    requires forall c: nat :: c < n ==> f(c) <= 0.0
    ensures BestProb(f, n) == 0.0 && BestClass(f, n) == 0
  {
    if n > 0 {
      StaysAtStart(f, n - 1);
    }
  }

  /** Class `k` has a greatest score. */
  ghost predicate IsBest(f: nat -> real, n: nat, k: int) { 0 <= k < n && forall c: nat :: c < n ==> f(c) <= f(k) }

  /** Some score lifts the running maximum off its start, or the first class is a best one. */
  ghost predicate FindsBest(f: nat -> real, n: nat) { (exists c: nat :: c < n && f(c) > 0.0) || IsBest(f, n, 0) }

  /** The loop ends on a best class exactly when some score is positive or the first class is one. */
  lemma BestClassIff(f: nat -> real, n: nat)
    ensures IsBest(f, n, BestClass(f, n)) <==> FindsBest(f, n)
  {
    BestIsArgmax(f, n);
    if forall c: nat :: c < n ==> f(c) <= 0.0 {
      StaysAtStart(f, n);
    }
  }

  /** Its running maximum is the score of the class it ends on exactly when some score is positive
      or the first is zero. */
  lemma ConfidenceIff(f: nat -> real, n: nat)
    requires n >= 1
    ensures BestClass(f, n) < n && (BestProb(f, n) == f(BestClass(f, n)) <==> HasScore(f, n))
  {
    BestIsArgmax(f, n);
    if forall c: nat :: c < n ==> f(c) <= 0.0 {
      StaysAtStart(f, n);
    }
  }

  /** It ends on a best class with that class's score exactly when some score is positive or the
      first is zero. */
  lemma ArgmaxIff(f: nat -> real, n: nat)
    ensures IsArgmax(f, n, BestClass(f, n), BestProb(f, n)) <==> HasScore(f, n)
    ensures BestProb(f, n) > 0.0 ==> HasScore(f, n)
  {
    BestIsArgmax(f, n);
    if forall c: nat :: c < n ==> f(c) <= 0.0 {
      StaysAtStart(f, n);
    }
  }

  function Clamped(cx: real, cy: real, w: real, h: real, imgW: int, imgH: int): BBox {
    BBox(Max(0.0, cx - w * 0.5), Max(0.0, cy - h * 0.5),
         Min(imgW as real, cx + w * 0.5), Min(imgH as real, cy + h * 0.5))
  }

  function Found(f: nat -> real, classes: nat, box: BBox): Detection {
    Detection(BestClass(f, classes), BestProb(f, classes), box, map[], None)
  }

  // ---------------------------------------------------------------- after suppression

  /** `r` lists the candidates whose places the suppression keeps. */
  ghost predicate Suppression(cands: seq<Detection>, nms: real, r: seq<Detection>) {
    exists keep :: IsNms(cands, nms, keep) && r == Kept(cands, keep)
  }

  method Suppress(cands: seq<Detection>, nms: real) returns (r: seq<Detection>)
    ensures Suppression(cands, nms, r)
  {
    var keep := NonMaxSuppression(cands, nms);
    r := [];
    var i := 0;
    while i < |keep|
      invariant 0 <= i <= |keep| && |r| == i && forall x :: 0 <= x < i ==> r[x] == cands[keep[x]]
    {
      r := r + [cands[keep[i]]];
      i := i + 1;
    }
    assert r == Kept(cands, keep);
  }

  /** What a decoder returns: places of candidates, none twice, in order of falling confidence,
      pairwise at most `nms` apart; every candidate left out overlaps a returned one at least as
      confident. */
  ghost predicate Returns(cands: seq<Detection>, nms: real, keep: seq<nat>) {
    && Below(keep, |cands|) && Distinct(keep)
    && (forall x, y :: 0 <= x < y < |keep| ==> cands[keep[x]].confidence >= cands[keep[y]].confidence)
    && (forall x, y :: 0 <= x < |keep| && 0 <= y < |keep| && x != y ==>
          DecodeIou(cands[keep[x]].bbox, cands[keep[y]].bbox) <= nms)
    && (forall d :: 0 <= d < |cands| && d !in keep ==> HasReason(cands, nms, keep, d))
  }

  ghost predicate HasReason(cands: seq<Detection>, nms: real, keep: seq<nat>, d: nat)
    requires Below(keep, |cands|) && d < |cands|
  {
    exists x :: 0 <= x < |keep| && DecodeIou(cands[keep[x]].bbox, cands[d].bbox) > nms
             && cands[keep[x]].confidence >= cands[d].confidence
  }

  lemma SuppressionReturns(cands: seq<Detection>, nms: real, r: seq<Detection>) returns (keep: seq<nat>)
    requires Suppression(cands, nms, r)
    ensures Returns(cands, nms, keep) && r == Kept(cands, keep)
  {
    keep :| IsNms(cands, nms, keep) && r == Kept(cands, keep);
    forall x, y | 0 <= x < |keep| && 0 <= y < |keep| && x != y
      ensures keep[x] != keep[y] && DecodeIou(cands[keep[x]].bbox, cands[keep[y]].bbox) <= nms
    {
      KeptAreApart(cands, nms, keep, x, y);
    }
    forall x, y | 0 <= x < y < |keep| ensures cands[keep[x]].confidence >= cands[keep[y]].confidence {
      KeptInOrder(cands, nms, keep, x, y);
    }
    forall d | 0 <= d < |cands| && d !in keep ensures HasReason(cands, nms, keep, d) {
      var x := DroppedHasReason(cands, nms, keep, d);
    }
  }

  // ---------------------------------------------------------------- YOLOv8: [4 + classes, anchors]

  function ProbV8(data: seq<real>, anchors: nat, a: nat, c: nat): real { At(data, (4 + c) * anchors + a) }

  function ScoreV8(data: seq<real>, anchors: nat, a: nat): nat -> real {
    (c: nat) => ProbV8(data, anchors, a, c)
  }

  function DetectionV8(data: seq<real>, anchors: nat, classes: nat, a: nat, imgW: int, imgH: int): Detection {
    Found(ScoreV8(data, anchors, a), classes, BoxV8(data, anchors, a, imgW, imgH))
  }

  function BoxV8(data: seq<real>, anchors: nat, a: nat, imgW: int, imgH: int): BBox {
    Clamped(At(data, a), At(data, anchors + a), At(data, 2 * anchors + a), At(data, 3 * anchors + a), imgW, imgH)
  }

  /** The detections of the anchors that reach the confidence threshold, in anchor order. */
  function CandidatesV8(data: seq<real>, anchors: nat, classes: nat, conf: real, imgW: int, imgH: int,
                        k: nat): seq<Detection> {
    if k == 0 then [] else
    var before := CandidatesV8(data, anchors, classes, conf, imgW, imgH, k - 1);
    if BestProb(ScoreV8(data, anchors, k - 1), classes) < conf then before
    else before + [DetectionV8(data, anchors, classes, k - 1, imgW, imgH)]
  }

  /** Row `r` of a channel-major slice of `rows` rows. */
  lemma RowInSlice(r: nat, rows: nat, anchors: nat, a: nat)
    requires r < rows && a < anchors
    ensures r * anchors + a < rows * anchors
  {
    PredictionInSlice(r, rows, anchors);
  }

  method BestClassV8(data: seq<real>, anchors: nat, classes: nat, a: nat) returns (cls: nat, prob: real)
    requires |data| == (4 + classes) * anchors && a < anchors
    ensures cls == BestClass(ScoreV8(data, anchors, a), classes) && prob == BestProb(ScoreV8(data, anchors, a), classes)
  {
    cls, prob := 0, 0.0;
    ghost var f := ScoreV8(data, anchors, a);
    var c := 0;
    while c < classes
      invariant 0 <= c <= classes && cls == BestClass(f, c) && prob == BestProb(f, c)
    {
      RowInSlice(4 + c, 4 + classes, anchors, a);
      var p := data[(4 + c) * anchors + a];
      assert p == f(c);
      if p > prob {
        prob, cls := p, c;
      }
      c := c + 1;
    }
  }

  method ReadBoxV8(data: seq<real>, anchors: nat, classes: nat, a: nat, imgW: int, imgH: int) returns (box: BBox)
    requires |data| == (4 + classes) * anchors && a < anchors
    ensures box == BoxV8(data, anchors, a, imgW, imgH)
  {
    RowInSlice(0, 4 + classes, anchors, a);
    RowInSlice(1, 4 + classes, anchors, a);
    RowInSlice(2, 4 + classes, anchors, a);
    RowInSlice(3, 4 + classes, anchors, a);
    var cx, cy, w, h := data[0 * anchors + a], data[1 * anchors + a], data[2 * anchors + a], data[3 * anchors + a];
    box := BBox(Max(0.0, cx - w * 0.5), Max(0.0, cy - h * 0.5),
                Min(imgW as real, cx + w * 0.5), Min(imgH as real, cy + h * 0.5));
  }

  method DecodeSingleV8(data: seq<real>, anchors: nat, classes: nat, conf: real, nms: real, imgW: int, imgH: int)
    returns (r: seq<Detection>)
    requires |data| == (4 + classes) * anchors
    ensures Suppression(CandidatesV8(data, anchors, classes, conf, imgW, imgH, anchors), nms, r)
  {
    var ds: seq<Detection> := [];
    var a := 0;
    while a < anchors
      invariant 0 <= a <= anchors && ds == CandidatesV8(data, anchors, classes, conf, imgW, imgH, a)
    {
      var cls, prob := BestClassV8(data, anchors, classes, a);
      if prob >= conf {
        var box := ReadBoxV8(data, anchors, classes, a, imgW, imgH);
        ds := ds + [Detection(cls, prob, box, map[], None)];
      }
      a := a + 1;
    }
    r := Suppress(ds, nms);
  }

  // ---------------------------------------------------------------- slices of a batch

  /** The number of rows per image that the buffer size yields. */
  function PerImage(count: nat, batch: nat, step: nat): nat
    requires step > 0
  {
    if count > 0 && batch > 0 then count / batch / step else 0
  }

  lemma QuotientFits(a: nat, b: nat)
    requires b > 0
    ensures b * (a / b) <= a
  {
  }

  lemma ProductGrows(x: nat, y: nat, z: nat)
    requires x <= y
    ensures x * z <= y * z && z * x <= z * y
  {
    assert (y - x) * z >= 0;
  }

  /** Slices of consecutive images lie inside the buffer, one after the other. */
  lemma SliceFits(count: nat, batch: nat, step: nat, b: nat)
    requires step > 0 && count > 0 && b < batch
    ensures Offset(b, step * PerImage(count, batch, step)) + step * PerImage(count, batch, step)
         == Offset(b + 1, step * PerImage(count, batch, step)) <= count
    ensures Offset(0, step * PerImage(count, batch, step)) == 0
  {
    var per := count / batch;
    var size := step * (per / step);
    QuotientFits(per, step);
    ProductGrows(b + 1, batch, size);
    ProductGrows(size, per, batch);
    QuotientFits(count, batch);
    assert (b + 1) * size == b * size + size;
  }

  function Offset(b: nat, size: nat): nat { b * size }

  /** One more row for each image would not fit: no image loses a row that is its own. */
  lemma SlicesLargest(count: nat, batch: nat, step: nat)
    requires step > 0 && count > 0 && batch > 0
    ensures count < Offset(batch, step * (PerImage(count, batch, step) + 1))
  {
    var per := count / batch;
    var rows := per / step + 1;
    QuotientNext(per, step);
    QuotientNext(count, batch);
    ProductGrows(per + 1, step * rows, batch);
  }

  lemma QuotientNext(a: nat, b: nat)
    requires b > 0
    ensures a + 1 <= b * (a / b + 1)
  {
    assert a == b * (a / b) + a % b;
    assert b * (a / b + 1) == b * (a / b) + b;
  }

  ghost predicate SlicesFit(count: nat, batch: nat, size: nat) {
    forall b: nat :: b < batch ==> Offset(b, size) + size <= count
  }

  lemma SlicesWithin(count: nat, batch: nat, size: nat)
    requires Offset(batch, size) <= count
    ensures SlicesFit(count, batch, size)
  {
    forall b: nat | b < batch ensures Offset(b, size) + size <= Offset(batch, size) {
      ProductGrows(b + 1, batch, size);
    }
  }

  lemma AllSlicesFit(count: nat, batch: nat, step: nat)
    requires step > 0 && count > 0 && batch > 0
    ensures SlicesFit(count, batch, step * PerImage(count, batch, step))
  {
    SliceFits(count, batch, step, batch - 1);
    SlicesWithin(count, batch, step * PerImage(count, batch, step));
  }

  /** Image `b` was decoded from its own slice of the buffer and nothing else. */
  ghost predicate ImageV8(output: seq<real>, anchors: nat, classes: nat, conf: real, nms: real, imgW: int, imgH: int,
                          b: nat, r: seq<Detection>) {
    var size := (4 + classes) * anchors;
    && Offset(b, size) + size <= |output|
    && Suppression(CandidatesV8(output[Offset(b, size)..Offset(b, size) + size],
                                anchors, classes, conf, imgW, imgH, anchors), nms, r)
  }

  method DecodeImageV8(output: seq<real>, anchors: nat, classes: nat, conf: real, nms: real, imgW: int, imgH: int,
                       b: nat, size: nat)
    returns (r: seq<Detection>)
    requires size == (4 + classes) * anchors && Offset(b, size) + size <= |output|
    ensures ImageV8(output, anchors, classes, conf, nms, imgW, imgH, b, r)
  {
    var at := Offset(b, size);
    r := DecodeSingleV8(output[at..at + size], anchors, classes, conf, nms, imgW, imgH);
  }

  method DecodeImagesV8(output: seq<real>, batch: nat, anchors: nat, classes: nat, imgW: int, imgH: int, conf: real,
                        nms: real, size: nat)
    returns (results: seq<seq<Detection>>)
    requires size == (4 + classes) * anchors && SlicesFit(|output|, batch, size)
    ensures |results| == batch
    ensures forall b :: 0 <= b < batch ==> ImageV8(output, anchors, classes, conf, nms, imgW, imgH, b, results[b])
  {
    results := [];
    var b := 0;
    while b < batch
      invariant 0 <= b <= batch && |results| == b
      invariant forall k :: 0 <= k < b ==> ImageV8(output, anchors, classes, conf, nms, imgW, imgH, k, results[k])
    {
      var one := DecodeImageV8(output, anchors, classes, conf, nms, imgW, imgH, b, size);
      results := results + [one];
      b := b + 1;
    }
  }

  /** Every image is decoded from its own slice of the buffer, whatever the buffer size. */
  method DecodeV8(output: seq<real>, batch: nat, classes: nat, imgW: int, imgH: int, conf: real, nms: real)
    returns (results: seq<seq<Detection>>)
    requires |output| > 0
    ensures |results| == batch
    ensures forall b :: 0 <= b < batch ==>
      ImageV8(output, PerImage(|output|, batch, 4 + classes), classes, conf, nms, imgW, imgH, b, results[b])
  {
    var anchors := 8400;
    if batch > 0 {
      anchors := |output| / batch / (4 + classes);
      AllSlicesFit(|output|, batch, 4 + classes);
    }
    results := DecodeImagesV8(output, batch, anchors, classes, imgW, imgH, conf, nms, (4 + classes) * anchors);
  }

  // ---------------------------------------------------------------- YOLOv5: [predictions, 5 + classes]

  function ProbV5(data: seq<real>, step: nat, i: nat, c: nat): real {
    At(data, i * step + 4) * At(data, i * step + 5 + c)
  }

  function ScoreV5(data: seq<real>, step: nat, i: nat): nat -> real {
    (c: nat) => ProbV5(data, step, i, c)
  }

  predicate LooksPixel(data: seq<real>, step: nat, i: nat) {
    var p := i * step;
    At(data, p) > 1.5 || At(data, p + 1) > 1.5 || At(data, p + 2) > 1.5 || At(data, p + 3) > 1.5
  }

  /** Coordinates are pixels if one of the first 64 predictions says so. */
  predicate UsesPixels(data: seq<real>, preds: nat, step: nat) {
    exists i :: 0 <= i < preds && i < 64 && LooksPixel(data, step, i)
  }

  function BoxV5(data: seq<real>, step: nat, pixels: bool, i: nat, imgW: int, imgH: int): BBox {
    var p := i * step;
    var sx, sy := if pixels then 1.0 else imgW as real, if pixels then 1.0 else imgH as real;
    Clamped(At(data, p) * sx, At(data, p + 1) * sy, At(data, p + 2) * sx, At(data, p + 3) * sy, imgW, imgH)
  }

  predicate PassesV5(data: seq<real>, step: nat, classes: nat, conf: real, i: nat) {
    At(data, i * step + 4) >= conf && BestProb(ScoreV5(data, step, i), classes) >= conf
  }

  function CandidatesV5(data: seq<real>, step: nat, classes: nat, pixels: bool, conf: real, imgW: int, imgH: int,
                        k: nat): seq<Detection> {
    if k == 0 then [] else
    var before := CandidatesV5(data, step, classes, pixels, conf, imgW, imgH, k - 1);
    if PassesV5(data, step, classes, conf, k - 1)
    then before + [Found(ScoreV5(data, step, k - 1), classes, BoxV5(data, step, pixels, k - 1, imgW, imgH))]
    else before
  }

  lemma PredictionInSlice(i: nat, preds: nat, step: nat)
    requires i < preds
    ensures i * step + step <= preds * step
  {
    ProductGrows(i + 1, preds, step);
    assert (i + 1) * step == i * step + step;
  }

  method DetectPixels(data: seq<real>, preds: nat, step: nat) returns (pixels: bool)
    requires |data| == preds * step && step >= 5
    ensures pixels == UsesPixels(data, preds, step)
  {
    var sample := if preds < 64 then preds else 64;
    var i := 0;
    while i < sample
      invariant 0 <= i <= sample && forall k :: 0 <= k < i ==> !LooksPixel(data, step, k)
    {
      PredictionInSlice(i, preds, step);
      var p := i * step;
      if data[p] > 1.5 || data[p + 1] > 1.5 || data[p + 2] > 1.5 || data[p + 3] > 1.5 {
        assert LooksPixel(data, step, i);
        return true;
      }
      i := i + 1;
    }
    pixels := false;
  }

  method BestClassV5(data: seq<real>, preds: nat, step: nat, classes: nat, i: nat) returns (cls: nat, prob: real)
    requires |data| == preds * step && step == 5 + classes && i < preds
    ensures cls == BestClass(ScoreV5(data, step, i), classes) && prob == BestProb(ScoreV5(data, step, i), classes)
  {
    cls, prob := 0, 0.0;
    PredictionInSlice(i, preds, step);
    var p := i * step;
    var obj := data[p + 4];
    ghost var f := ScoreV5(data, step, i);
    var c := 0;
    while c < classes
      invariant 0 <= c <= classes && cls == BestClass(f, c) && prob == BestProb(f, c)
    {
      var q := obj * data[p + 5 + c];
      assert q == f(c);
      if q > prob {
        prob, cls := q, c;
      }
      c := c + 1;
    }
  }

  /** One prediction's box, scaled to pixels when the tensor is normalised. */
  method ReadBoxV5(data: seq<real>, preds: nat, step: nat, pixels: bool, i: nat, imgW: int, imgH: int)
    returns (box: BBox)
    requires |data| == preds * step && step >= 5 && i < preds
    ensures box == BoxV5(data, step, pixels, i, imgW, imgH)
  {
    PredictionInSlice(i, preds, step);
    var p := i * step;
    var cx, cy, bw, bh := data[p], data[p + 1], data[p + 2], data[p + 3];
    if !pixels {
      cx, cy, bw, bh := cx * imgW as real, cy * imgH as real, bw * imgW as real, bh * imgH as real;
    }
    box := BBox(cx - bw / 2.0, cy - bh / 2.0, cx + bw / 2.0, cy + bh / 2.0);
    box := BBox(Max(0.0, box.x1), Max(0.0, box.y1), Min(imgW as real, box.x2), Min(imgH as real, box.y2));
  }

  method DecodeSingleV5(data: seq<real>, preds: nat, classes: nat, conf: real, nms: real, imgW: int, imgH: int)
    returns (r: seq<Detection>)
    requires |data| == preds * (5 + classes)
    ensures Suppression(CandidatesV5(data, 5 + classes, classes, UsesPixels(data, preds, 5 + classes),
                                     conf, imgW, imgH, preds), nms, r)
  {
    var step := 5 + classes;
    var pixels := DetectPixels(data, preds, step);
    var ds: seq<Detection> := [];
    var i := 0;
    while i < preds
      invariant 0 <= i <= preds && ds == CandidatesV5(data, step, classes, pixels, conf, imgW, imgH, i)
    {
      PredictionInSlice(i, preds, step);
      if data[i * step + 4] >= conf {
        var cls, prob := BestClassV5(data, preds, step, classes, i);
        if prob >= conf {
          var box := ReadBoxV5(data, preds, step, pixels, i, imgW, imgH);
          ds := ds + [Detection(cls, prob, box, map[], None)];
        }
      }
      i := i + 1;
    }
    r := Suppress(ds, nms);
  }

  ghost predicate ImageV5(output: seq<real>, preds: nat, classes: nat, conf: real, nms: real, imgW: int, imgH: int,
                          b: nat, r: seq<Detection>) {
    var size := (5 + classes) * preds;
    && Offset(b, size) + size <= |output|
    && var data := output[Offset(b, size)..Offset(b, size) + size];
       Suppression(CandidatesV5(data, 5 + classes, classes, UsesPixels(data, preds, 5 + classes),
                                conf, imgW, imgH, preds), nms, r)
  }

  method DecodeImageV5(output: seq<real>, preds: nat, classes: nat, conf: real, nms: real, imgW: int, imgH: int,
                       b: nat, size: nat)
    returns (r: seq<Detection>)
    requires size == (5 + classes) * preds && Offset(b, size) + size <= |output|
    ensures ImageV5(output, preds, classes, conf, nms, imgW, imgH, b, r)
  {
    var at := Offset(b, size);
    r := DecodeSingleV5(output[at..at + size], preds, classes, conf, nms, imgW, imgH);
  }

  method DecodeImagesV5(output: seq<real>, batch: nat, preds: nat, classes: nat, imgW: int, imgH: int, conf: real,
                        nms: real, size: nat)
    returns (results: seq<seq<Detection>>)
    requires size == (5 + classes) * preds && SlicesFit(|output|, batch, size)
    ensures |results| == batch
    ensures forall b :: 0 <= b < batch ==> ImageV5(output, preds, classes, conf, nms, imgW, imgH, b, results[b])
  {
    results := [];
    var b := 0;
    while b < batch
      invariant 0 <= b <= batch && |results| == b
      invariant forall k :: 0 <= k < b ==> ImageV5(output, preds, classes, conf, nms, imgW, imgH, k, results[k])
    {
      var one := DecodeImageV5(output, preds, classes, conf, nms, imgW, imgH, b, size);
      results := results + [one];
      b := b + 1;
    }
  }

  method DecodeV5(output: seq<real>, batch: nat, classes: nat, imgW: int, imgH: int, conf: real, nms: real)
    returns (results: seq<seq<Detection>>)
    requires |output| > 0
    ensures |results| == batch
    ensures forall b :: 0 <= b < batch ==>
      ImageV5(output, PerImage(|output|, batch, 5 + classes), classes, conf, nms, imgW, imgH, b, results[b])
  {
    var preds := 25200;
    if batch > 0 {
      preds := |output| / batch / (5 + classes);
      AllSlicesFit(|output|, batch, 5 + classes);
    }
    results := DecodeImagesV5(output, batch, preds, classes, imgW, imgH, conf, nms, (5 + classes) * preds);
  }

  // ---------------------------------------------------------------- what a detection says

  lemma {:induction false} CandidatesV8Are(data: seq<real>, anchors: nat, classes: nat, conf: real, imgW: int,
                                           imgH: int, k: nat, d: Detection)
    requires d in CandidatesV8(data, anchors, classes, conf, imgW, imgH, k)
    ensures exists a: nat :: a < k && d == DetectionV8(data, anchors, classes, a, imgW, imgH) && d.confidence >= conf
  {
    if d != DetectionV8(data, anchors, classes, k - 1, imgW, imgH) || d.confidence < conf {
      CandidatesV8Are(data, anchors, classes, conf, imgW, imgH, k - 1, d);
    }
  }

  /** Every detection reaches the threshold and no class of its anchor scores higher than its
      confidence.  Its class is a best one exactly when some score is positive or the first class
      is a best one; it has that score too exactly when some score is positive or the first is
      zero.  Under a positive threshold both hold. */
  lemma DetectionsAreArgmax(data: seq<real>, anchors: nat, classes: nat, conf: real, nms: real, imgW: int, imgH: int,
                            r: seq<Detection>, x: nat)
    returns (a: nat)
    requires x < |r| && Suppression(CandidatesV8(data, anchors, classes, conf, imgW, imgH, anchors), nms, r)
    ensures a < anchors && r[x] == DetectionV8(data, anchors, classes, a, imgW, imgH) && r[x].confidence >= conf
    ensures forall c: nat :: c < classes ==> ProbV8(data, anchors, a, c) <= r[x].confidence
    ensures IsBest(ScoreV8(data, anchors, a), classes, r[x].classId) <==> FindsBest(ScoreV8(data, anchors, a), classes)
    ensures IsArgmax(ScoreV8(data, anchors, a), classes, r[x].classId, r[x].confidence) <==>
      HasScore(ScoreV8(data, anchors, a), classes)
    ensures conf > 0.0 ==> IsArgmax(ScoreV8(data, anchors, a), classes, r[x].classId, r[x].confidence)
  {
    CandidatesV8Are(data, anchors, classes, conf, imgW, imgH, anchors, r[x]);
    a :| a < anchors && r[x] == DetectionV8(data, anchors, classes, a, imgW, imgH) && r[x].confidence >= conf;
    var f := ScoreV8(data, anchors, a);
    BestIsArgmax(f, classes);
    BestClassIff(f, classes);
    ArgmaxIff(f, classes);
    forall c: nat | c < classes ensures ProbV8(data, anchors, a, c) <= r[x].confidence {
      assert f(c) <= BestProb(f, classes);
    }
  }

  lemma {:induction false} CandidatesV5Are(data: seq<real>, step: nat, classes: nat, pixels: bool, conf: real,
                                           imgW: int, imgH: int, k: nat, d: Detection)
    requires d in CandidatesV5(data, step, classes, pixels, conf, imgW, imgH, k)
    ensures exists i: nat ::
      i < k && PassesV5(data, step, classes, conf, i)
      && d == Found(ScoreV5(data, step, i), classes, BoxV5(data, step, pixels, i, imgW, imgH))
  {
    var last := Found(ScoreV5(data, step, k - 1), classes, BoxV5(data, step, pixels, k - 1, imgW, imgH));
    if d != last || !PassesV5(data, step, classes, conf, k - 1) {
      CandidatesV5Are(data, step, classes, pixels, conf, imgW, imgH, k - 1, d);
    }
  }

  /** The same for the row-major layout, where a score is objectness times class probability. */
  lemma DetectionsAreArgmaxV5(data: seq<real>, preds: nat, step: nat, classes: nat, conf: real, nms: real, imgW: int,
                              imgH: int, r: seq<Detection>, x: nat)
    returns (i: nat)
    requires x < |r| && step == 5 + classes
    requires Suppression(CandidatesV5(data, step, classes, UsesPixels(data, preds, step), conf,
                                      imgW, imgH, preds), nms, r)
    ensures i < preds && At(data, i * step + 4) >= conf && r[x].confidence >= conf
    ensures r[x] == Found(ScoreV5(data, step, i), classes,
                          BoxV5(data, step, UsesPixels(data, preds, step), i, imgW, imgH))
    ensures forall c: nat :: c < classes ==> ProbV5(data, step, i, c) <= r[x].confidence
    ensures IsBest(ScoreV5(data, step, i), classes, r[x].classId) <==> FindsBest(ScoreV5(data, step, i), classes)
    ensures IsArgmax(ScoreV5(data, step, i), classes, r[x].classId, r[x].confidence) <==>
      HasScore(ScoreV5(data, step, i), classes)
    ensures conf > 0.0 ==> IsArgmax(ScoreV5(data, step, i), classes, r[x].classId, r[x].confidence)
  {
    var pixels := UsesPixels(data, preds, step);
    CandidatesV5Are(data, step, classes, pixels, conf, imgW, imgH, preds, r[x]);
    i :| i < preds && PassesV5(data, step, classes, conf, i)
      && r[x] == Found(ScoreV5(data, step, i), classes, BoxV5(data, step, pixels, i, imgW, imgH));
    var f := ScoreV5(data, step, i);
    BestIsArgmax(f, classes);
    BestClassIff(f, classes);
    ArgmaxIff(f, classes);
    forall c: nat | c < classes ensures ProbV5(data, step, i, c) <= r[x].confidence {
      assert f(c) <= BestProb(f, classes);
    }
  }

  const TWO_NEGATIVE := [0.0, 0.0, 0.0, 0.0, -2.0, -1.0]

  /** One anchor, two classes with scores -2 and -1 and no threshold: the first is reported,
      though the second is better. */
  lemma WrongClassReported(nms: real, r: seq<Detection>)
    requires Suppression(CandidatesV8(TWO_NEGATIVE, 1, 2, 0.0, 8, 8, 1), nms, r)
    ensures |r| == 1 && r[0].classId == 0
    ensures ProbV8(TWO_NEGATIVE, 1, 0, 0) == -2.0 && ProbV8(TWO_NEGATIVE, 1, 0, 1) == -1.0
    ensures !IsBest(ScoreV8(TWO_NEGATIVE, 1, 0), 2, r[0].classId)
  {
    TwoScores();
    var cands := CandidatesV8(TWO_NEGATIVE, 1, 2, 0.0, 8, 8, 1);
    assert CandidatesV8(TWO_NEGATIVE, 1, 2, 0.0, 8, 8, 0) == [];
    assert cands == [DetectionV8(TWO_NEGATIVE, 1, 2, 0, 8, 8)];
    OnlyOne(cands, nms, r);
  }

  lemma TwoScores()
    ensures ProbV8(TWO_NEGATIVE, 1, 0, 0) == -2.0 && ProbV8(TWO_NEGATIVE, 1, 0, 1) == -1.0
    ensures !IsBest(ScoreV8(TWO_NEGATIVE, 1, 0), 2, 0)
    ensures DetectionV8(TWO_NEGATIVE, 1, 2, 0, 8, 8).classId == 0
    ensures DetectionV8(TWO_NEGATIVE, 1, 2, 0, 8, 8).confidence == 0.0
  {
    var f := ScoreV8(TWO_NEGATIVE, 1, 0);
    assert f(0) == -2.0 && f(1) == -1.0;
    StaysAtStart(f, 2);
  }

  const NEGATIVE := [0.0, 0.0, 0.0, 0.0, -1.0]

  /** One anchor, one class with score -1 and no threshold: the class is reported all the same,
      with confidence zero, which is not its score. */
  lemma NegativeScoreReported(nms: real, r: seq<Detection>)
    requires Suppression(CandidatesV8(NEGATIVE, 1, 1, 0.0, 8, 8, 1), nms, r)
    ensures r == [Detection(0, 0.0, BBox(0.0, 0.0, 0.0, 0.0), map[], None)]
    ensures ProbV8(NEGATIVE, 1, 0, 0) == -1.0
  {
    var f := ScoreV8(NEGATIVE, 1, 0);
    assert f(0) == -1.0;
    StaysAtStart(f, 1);
    var cands := CandidatesV8(NEGATIVE, 1, 1, 0.0, 8, 8, 1);
    assert CandidatesV8(NEGATIVE, 1, 1, 0.0, 8, 8, 0) == [];
    assert cands == [Detection(0, 0.0, BBox(0.0, 0.0, 0.0, 0.0), map[], None)];
    OnlyOne(cands, nms, r);
  }

  /** A single candidate is kept. */
  lemma OnlyOne(cands: seq<Detection>, nms: real, r: seq<Detection>)
    requires |cands| == 1 && Suppression(cands, nms, r)
    ensures r == cands
  {
    var keep :| IsNms(cands, nms, keep) && r == Kept(cands, keep);
    var idx :| KeptFrom(cands, nms, idx, keep);
    assert idx == [0];
    assert Survivors(idx, OverlapOf(cands, nms), 0) == [];
    assert keep == [0];
  }
}
