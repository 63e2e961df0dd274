/**
 What the decoders report, read off the output tensor (src/decoder/YOLOv8Decoder.cpp:12-53,
 src/decoder/YOLOv5Decoder.cpp:27-80): where each number comes from, which rows become candidates,
 and that every row which reaches the threshold is reported or overlaps one that is.
 */
module DecoderLaws {
  import opened Geometry
  import opened Permutations
  import opened Decoders

  // ---------------------------------------------------------------- one row

  /** The box with this centre and size, cut to the picture. */
  ghost predicate BoxAround(b: BBox, cx: real, cy: real, w: real, h: real, imgW: int, imgH: int) {
    && b.x1 == (if cx - w / 2.0 > 0.0 then cx - w / 2.0 else 0.0)
    && b.y1 == (if cy - h / 2.0 > 0.0 then cy - h / 2.0 else 0.0)
    && b.x2 == (if cx + w / 2.0 < imgW as real then cx + w / 2.0 else imgW as real)
    && b.y2 == (if cy + h / 2.0 < imgH as real then cy + h / 2.0 else imgH as real)
  }

  /** Class and confidence of the scores `f`: the greatest score and the first class that has it, as
      soon as one is positive, and else class 0 with confidence 0. */
  ghost predicate Classified(f: nat -> real, classes: nat, classId: int, confidence: real) {
    && confidence >= 0.0 && (forall c: nat :: c < classes ==> f(c) <= confidence)
    && (if confidence > 0.0
        then 0 <= classId < classes && f(classId) == confidence && forall c: nat :: c < classId ==> f(c) < confidence
        else classId == 0)
  }

  /** Some class reaches the threshold. */
  ghost predicate Reaches(f: nat -> real, classes: nat, conf: real) {
    conf <= 0.0 || exists c: nat :: c < classes && f(c) >= conf
  }

  lemma FoundIs(f: nat -> real, classes: nat, box: BBox, conf: real)
    ensures var d := Found(f, classes, box);
      Classified(f, classes, d.classId, d.confidence) && d.bbox == box && d.attributes == map[] && d.trackId == None
    ensures BestProb(f, classes) >= conf <==> Reaches(f, classes, conf)
  {
    BestIsArgmax(f, classes);
    if BestProb(f, classes) == 0.0 { StaysAtStart(f, classes); }
  }

  // ---------------------------------------------------------------- [4 + classes, anchors]

  lemma ClampedIs(cx: real, cy: real, w: real, h: real, imgW: int, imgH: int)
    ensures BoxAround(Clamped(cx, cy, w, h, imgW, imgH), cx, cy, w, h, imgW, imgH)
  {
  }

  /** Row 4 + c holds the scores of class c. */
  ghost function Scores(data: seq<real>, anchors: nat, a: nat): nat -> real {
    (c: nat) => At(data, (4 + c) * anchors + a)
  }

  /** The detection of anchor `a`: rows 0 to 3 are centre and size, row 4 + c the score of class c. */
  ghost predicate OfAnchor(data: seq<real>, anchors: nat, classes: nat, a: nat, imgW: int, imgH: int, d: Detection) {
    && BoxAround(d.bbox, At(data, a), At(data, anchors + a), At(data, 2 * anchors + a), At(data, 3 * anchors + a),
                 imgW, imgH)
    && Classified(Scores(data, anchors, a), classes, d.classId, d.confidence)
    && d.attributes == map[] && d.trackId == None
  }

  ghost predicate AnchorReaches(data: seq<real>, anchors: nat, classes: nat, a: nat, conf: real) {
    Reaches(Scores(data, anchors, a), classes, conf)
  }

  lemma SameScores(f: nat -> real, g: nat -> real, classes: nat, classId: int, confidence: real, conf: real)
    requires forall c: nat :: f(c) == g(c)
    ensures Classified(f, classes, classId, confidence) <==> Classified(g, classes, classId, confidence)
    ensures Reaches(f, classes, conf) <==> Reaches(g, classes, conf)
  {
  }

  lemma AnchorIs(data: seq<real>, anchors: nat, classes: nat, a: nat, imgW: int, imgH: int, conf: real)
    ensures OfAnchor(data, anchors, classes, a, imgW, imgH, DetectionV8(data, anchors, classes, a, imgW, imgH))
    ensures BestProb(ScoreV8(data, anchors, a), classes) >= conf <==> AnchorReaches(data, anchors, classes, a, conf)
  {
    var f, d := ScoreV8(data, anchors, a), DetectionV8(data, anchors, classes, a, imgW, imgH);
    FoundIs(f, classes, BoxV8(data, anchors, a, imgW, imgH), conf);
    ScoresAre(data, anchors, a);
    SameScores(f, Scores(data, anchors, a), classes, d.classId, d.confidence, conf);
    ClampedIs(At(data, a), At(data, anchors + a), At(data, 2 * anchors + a), At(data, 3 * anchors + a), imgW, imgH);
  }

  lemma ScoresAre(data: seq<real>, anchors: nat, a: nat)
    ensures forall c: nat :: ScoreV8(data, anchors, a)(c) == Scores(data, anchors, a)(c)
  {
  }

  ghost predicate Rises(s: seq<nat>) { forall x, y :: 0 <= x < y < |s| ==> s[x] < s[y] }

  /** Exactly the numbers below `k` that `wanted` tells, in order. */
  ghost predicate Lists(s: seq<nat>, k: nat, wanted: nat -> bool) {
    Rises(s) && Below(s, k) && forall i: nat {:trigger Listed(s, i)} :: Listed(s, i) <==> i < k && wanted(i)
  }

  ghost predicate Listed(s: seq<nat>, i: nat) { i in s }

  lemma ListsOneMore(s: seq<nat>, k: nat, wanted: nat -> bool)
    requires Lists(s, k, wanted)
    ensures Lists(if wanted(k) then s + [k] else s, k + 1, wanted)
  {
    if wanted(k) {
      var t := s + [k];
      forall i: nat ensures Listed(t, i) <==> i < k + 1 && wanted(i) {
        assert Listed(t, i) <==> Listed(s, i) || i == k;
      }
    }
  }

  /** What `make` gives for the wanted numbers below `k`, in order. */
  ghost function Gathered(k: nat, wanted: nat -> bool, make: nat -> Detection): seq<Detection> {
    if k == 0 then [] else Gathered(k - 1, wanted, make) + if wanted(k - 1) then [make(k - 1)] else []
  }

  lemma {:induction false} GatheredIs(k: nat, wanted: nat -> bool, make: nat -> Detection) returns (from: seq<nat>)
    ensures Lists(from, k, wanted) && |from| == |Gathered(k, wanted, make)|
    ensures forall x :: 0 <= x < |from| ==> Gathered(k, wanted, make)[x] == make(from[x])
  {
    from := [];
    if k > 0 {
      from := GatheredIs(k - 1, wanted, make);
      ListsOneMore(from, k - 1, wanted);
      if wanted(k - 1) { from := from + [k - 1]; }
    }
  }

  ghost function AnchorsWanted(data: seq<real>, anchors: nat, classes: nat, conf: real): nat -> bool {
    (a: nat) => AnchorReaches(data, anchors, classes, a, conf)
  }

  ghost function PredictionsWanted(data: seq<real>, step: nat, classes: nat, conf: real): nat -> bool {
    (i: nat) => PredictionReaches(data, step, classes, i, conf)
  }

  /** The candidates are the anchors that reach the threshold, in order. */
  ghost predicate FromAnchors(data: seq<real>, anchors: nat, classes: nat, imgW: int, imgH: int, from: seq<nat>,
                              cands: seq<Detection>) {
    |cands| == |from| && forall x :: 0 <= x < |from| ==> OfAnchor(data, anchors, classes, from[x], imgW, imgH, cands[x])
  }

  ghost function AnchorsMade(data: seq<real>, anchors: nat, classes: nat, imgW: int, imgH: int): nat -> Detection {
    (a: nat) => DetectionV8(data, anchors, classes, a, imgW, imgH)
  }

  lemma {:induction false} CandidatesGathered(data: seq<real>, anchors: nat, classes: nat, conf: real, imgW: int,
                                              imgH: int, k: nat)
    ensures CandidatesV8(data, anchors, classes, conf, imgW, imgH, k) ==
      Gathered(k, AnchorsWanted(data, anchors, classes, conf), AnchorsMade(data, anchors, classes, imgW, imgH))
  {
    if k > 0 {
      CandidatesGathered(data, anchors, classes, conf, imgW, imgH, k - 1);
      AnchorIs(data, anchors, classes, k - 1, imgW, imgH, conf);
    }
  }

  lemma CandidatesExact(data: seq<real>, anchors: nat, classes: nat, conf: real, imgW: int, imgH: int, k: nat)
    returns (from: seq<nat>)
    ensures Lists(from, k, AnchorsWanted(data, anchors, classes, conf))
    ensures FromAnchors(data, anchors, classes, imgW, imgH, from,
                        CandidatesV8(data, anchors, classes, conf, imgW, imgH, k))
  {
    var wanted, make := AnchorsWanted(data, anchors, classes, conf), AnchorsMade(data, anchors, classes, imgW, imgH);
    CandidatesGathered(data, anchors, classes, conf, imgW, imgH, k);
    from := GatheredIs(k, wanted, make);
    forall x | 0 <= x < |from|
      ensures OfAnchor(data, anchors, classes, from[x], imgW, imgH, Gathered(k, wanted, make)[x])
    {
      AnchorIs(data, anchors, classes, from[x], imgW, imgH, conf);
    }
  }

  /** Some reported detection is `d`, or overlaps it and is at least as confident. */
  ghost predicate Answered(r: seq<Detection>, nms: real, d: Detection) {
    exists x :: 0 <= x < |r| && (r[x] == d || (DecodeIou(r[x].bbox, d.bbox) > nms && r[x].confidence >= d.confidence))
  }

  lemma CandidateAnswered(cands: seq<Detection>, nms: real, r: seq<Detection>, i: nat)
    requires Suppression(cands, nms, r) && i < |cands|
    ensures Answered(r, nms, cands[i])
  {
    var keep := SuppressionReturns(cands, nms, r);
    if i in keep {
      var x :| 0 <= x < |keep| && keep[x] == i;
      assert r[x] == cands[i];
    } else {
      assert HasReason(cands, nms, keep, i);
    }
  }

  /** No anchor that reaches the threshold is forgotten. */
  lemma EveryAnchorAnswered(data: seq<real>, anchors: nat, classes: nat, conf: real, nms: real, imgW: int, imgH: int,
                            r: seq<Detection>, a: nat)
    returns (d: Detection)
    requires Suppression(CandidatesV8(data, anchors, classes, conf, imgW, imgH, anchors), nms, r)
    requires a < anchors && AnchorReaches(data, anchors, classes, a, conf)
    ensures OfAnchor(data, anchors, classes, a, imgW, imgH, d) && Answered(r, nms, d)
  {
    var cands := CandidatesV8(data, anchors, classes, conf, imgW, imgH, anchors);
    var from := CandidatesExact(data, anchors, classes, conf, imgW, imgH, anchors);
    assert AnchorsWanted(data, anchors, classes, conf)(a) && Listed(from, a);
    var x :| 0 <= x < |from| && from[x] == a;
    d := cands[x];
    CandidateAnswered(cands, nms, r, x);
  }

  // ---------------------------------------------------------------- [predictions, 5 + classes]

  /** How sure it is that there is an object of class c. */
  ghost function Products(data: seq<real>, step: nat, i: nat): nat -> real {
    (c: nat) => At(data, i * step + 4) * At(data, i * step + 5 + c)
  }

  /** The detection of prediction `i`: columns 0 to 3 are centre and size, in pixels or relative to the
      picture, column 4 how sure there is an object, column 5 + c how sure it is of class c. */
  ghost predicate OfPrediction(data: seq<real>, step: nat, classes: nat, pixels: bool, i: nat, imgW: int, imgH: int,
                               d: Detection) {
    var sx, sy := if pixels then 1.0 else imgW as real, if pixels then 1.0 else imgH as real;
    && BoxAround(d.bbox, At(data, i * step) * sx, At(data, i * step + 1) * sy,
                 At(data, i * step + 2) * sx, At(data, i * step + 3) * sy, imgW, imgH)
    && Classified(Products(data, step, i), classes, d.classId, d.confidence)
    && d.attributes == map[] && d.trackId == None
  }

  ghost predicate PredictionReaches(data: seq<real>, step: nat, classes: nat, i: nat, conf: real) {
    && At(data, i * step + 4) >= conf
    && Reaches(Products(data, step, i), classes, conf)
  }

  lemma ProductsAre(data: seq<real>, step: nat, i: nat)
    ensures forall c: nat :: ScoreV5(data, step, i)(c) == Products(data, step, i)(c)
  {
  }

  lemma BoxV5Is(data: seq<real>, step: nat, pixels: bool, i: nat, imgW: int, imgH: int)
    ensures var sx, sy := if pixels then 1.0 else imgW as real, if pixels then 1.0 else imgH as real;
      BoxAround(BoxV5(data, step, pixels, i, imgW, imgH), At(data, i * step) * sx, At(data, i * step + 1) * sy,
                At(data, i * step + 2) * sx, At(data, i * step + 3) * sy, imgW, imgH)
  {
    var sx, sy := if pixels then 1.0 else imgW as real, if pixels then 1.0 else imgH as real;
    ClampedIs(At(data, i * step) * sx, At(data, i * step + 1) * sy, At(data, i * step + 2) * sx,
              At(data, i * step + 3) * sy, imgW, imgH);
  }

  lemma PredictionIs(data: seq<real>, step: nat, classes: nat, pixels: bool, i: nat, imgW: int, imgH: int, conf: real)
    ensures OfPrediction(data, step, classes, pixels, i, imgW, imgH,
                         Found(ScoreV5(data, step, i), classes, BoxV5(data, step, pixels, i, imgW, imgH)))
    ensures PassesV5(data, step, classes, conf, i) <==> PredictionReaches(data, step, classes, i, conf)
  {
    var f, box := ScoreV5(data, step, i), BoxV5(data, step, pixels, i, imgW, imgH);
    FoundIs(f, classes, box, conf);
    ProductsAre(data, step, i);
    SameScores(f, Products(data, step, i), classes, Found(f, classes, box).classId, Found(f, classes, box).confidence,
               conf);
    BoxV5Is(data, step, pixels, i, imgW, imgH);
  }

  ghost predicate FromPredictions(data: seq<real>, step: nat, classes: nat, pixels: bool, imgW: int, imgH: int,
                                  from: seq<nat>, cands: seq<Detection>) {
    && |cands| == |from|
    && forall x :: 0 <= x < |from| ==> OfPrediction(data, step, classes, pixels, from[x], imgW, imgH, cands[x])
  }

  ghost function PredictionsMade(data: seq<real>, step: nat, classes: nat, pixels: bool, imgW: int,
                                 imgH: int): nat -> Detection {
    (i: nat) => Found(ScoreV5(data, step, i), classes, BoxV5(data, step, pixels, i, imgW, imgH))
  }

  lemma {:induction false} CandidatesGatheredV5(data: seq<real>, step: nat, classes: nat, pixels: bool, conf: real,
                                                imgW: int, imgH: int, k: nat)
    ensures CandidatesV5(data, step, classes, pixels, conf, imgW, imgH, k) ==
      Gathered(k, PredictionsWanted(data, step, classes, conf),
               PredictionsMade(data, step, classes, pixels, imgW, imgH))
  {
    if k > 0 {
      CandidatesGatheredV5(data, step, classes, pixels, conf, imgW, imgH, k - 1);
      PredictionIs(data, step, classes, pixels, k - 1, imgW, imgH, conf);
    }
  }

  lemma CandidatesExactV5(data: seq<real>, step: nat, classes: nat, pixels: bool, conf: real, imgW: int, imgH: int,
                          k: nat)
    returns (from: seq<nat>)
    ensures Lists(from, k, PredictionsWanted(data, step, classes, conf))
    ensures FromPredictions(data, step, classes, pixels, imgW, imgH, from,
                            CandidatesV5(data, step, classes, pixels, conf, imgW, imgH, k))
  {
    var wanted, make := PredictionsWanted(data, step, classes, conf),
                        PredictionsMade(data, step, classes, pixels, imgW, imgH);
    CandidatesGatheredV5(data, step, classes, pixels, conf, imgW, imgH, k);
    from := GatheredIs(k, wanted, make);
    forall x | 0 <= x < |from|
      ensures OfPrediction(data, step, classes, pixels, from[x], imgW, imgH, Gathered(k, wanted, make)[x])
    {
      PredictionIs(data, step, classes, pixels, from[x], imgW, imgH, conf);
    }
  }

  ghost function Coordinate(data: seq<real>, step: nat, i: nat, k: nat): real { At(data, i * step + k) }

  /** Coordinates are pixels exactly when one of the first 64 predictions has one above 1.5. */
  ghost predicate InPixels(data: seq<real>, preds: nat, step: nat) {
    exists i: nat, k: nat :: i < preds && i < 64 && k < 4 && Coordinate(data, step, i, k) > 1.5
  }

  lemma PixelsIff(data: seq<real>, preds: nat, step: nat)
    ensures UsesPixels(data, preds, step) <==> InPixels(data, preds, step)
  {
    if UsesPixels(data, preds, step) {
      var i :| 0 <= i < preds && i < 64 && LooksPixel(data, step, i);
      assert Coordinate(data, step, i, 0) > 1.5 || Coordinate(data, step, i, 1) > 1.5
        || Coordinate(data, step, i, 2) > 1.5 || Coordinate(data, step, i, 3) > 1.5;
    }
    if InPixels(data, preds, step) {
      var i: nat, k: nat :| i < preds && i < 64 && k < 4 && Coordinate(data, step, i, k) > 1.5;
      assert LooksPixel(data, step, i);
    }
  }

  /** No prediction that reaches the threshold is forgotten. */
  lemma EveryPredictionAnswered(data: seq<real>, preds: nat, classes: nat, conf: real, nms: real, imgW: int, imgH: int,
                                r: seq<Detection>, i: nat)
    returns (d: Detection)
    requires var step := 5 + classes;
      Suppression(CandidatesV5(data, step, classes, UsesPixels(data, preds, step), conf, imgW, imgH, preds), nms, r)
    requires i < preds && PredictionReaches(data, 5 + classes, classes, i, conf)
    ensures OfPrediction(data, 5 + classes, classes, InPixels(data, preds, 5 + classes), i, imgW, imgH, d)
    ensures Answered(r, nms, d)
  {
    var step := 5 + classes;
    var pixels := UsesPixels(data, preds, step);
    PixelsIff(data, preds, step);
    var cands := CandidatesV5(data, step, classes, pixels, conf, imgW, imgH, preds);
    var from := CandidatesExactV5(data, step, classes, pixels, conf, imgW, imgH, preds);
    assert PredictionsWanted(data, step, classes, conf)(i) && Listed(from, i);
    var x :| 0 <= x < |from| && from[x] == i;
    d := cands[x];
    CandidateAnswered(cands, nms, r, x);
  }
}
