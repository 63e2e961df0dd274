/**
 Secondary inference on crops of a primary result (src/pipeline/CascadeRouter.cpp:32-179): the
 number of crops is registered first, then the crops are handed out.
 */
module CascadeRouting {
  import opened Geometry
  import opened ResultMerging

  datatype Cascade = Cascade(modelId: string, triggers: seq<int>, expand: real)

  datatype Picture = NoPicture | Gpu(width: int, height: int) | Cpu(width: int, height: int)

  datatype Crop = Crop(x0: int, y0: int, x1: int, y1: int)

  datatype Job = Job(cascade: nat, det: nat, crop: Crop, height: int, width: int)

  /** What the router does, in order. */
  datatype Event = Registered(expected: nat) | Dispatched(job: Job)

  const DEFAULT_HW := 112

  /** `static_cast<int>` of a float: towards zero. */
  function Truncate(x: real): int { if x >= 0.0 then x.Floor else -((-x).Floor) }

  function ComputeCrop(b: BBox, expand: real, w: int, h: int): Crop {
    CropAround(b, (b.x2 - b.x1) * expand, (b.y2 - b.y1) * expand, w, h)
  }

  function CropAround(b: BBox, dx: real, dy: real, w: int, h: int): Crop {
    var x0, y0 := Truncate(Max(0.0, b.x1 - dx)), Truncate(Max(0.0, b.y1 - dy));
    var x1, y1 := Truncate(Min(w as real, b.x2 + dx)), Truncate(Min(h as real, b.y2 + dy));
    Crop(x0, y0, if x1 <= x0 then x0 + 1 else x1, if y1 <= y0 then y0 + 1 else y1)
  }

  predicate Inside(r: Crop, w: int, h: int) {
    0 <= r.x0 < r.x1 <= w && 0 <= r.y0 < r.y1 <= h
  }

  /** The expanded box starts before the right and the lower edge of the image. */
  predicate StartsInImage(b: BBox, expand: real, w: int, h: int) {
    b.x1 - (b.x2 - b.x1) * expand < w as real && b.y1 - (b.y2 - b.y1) * expand < h as real
  }

  lemma TruncateBelow(x: real, n: int)
    requires x >= 0.0
    ensures Truncate(x) >= 0 && (Truncate(x) < n <==> x < n as real)
    ensures x <= n as real ==> Truncate(x) <= n
  {}

  lemma TruncateAtMost(x: real, n: int)
    requires n >= 0
    ensures x <= n as real ==> Truncate(x) <= n
  {}

  /** A crop is never empty; it lies in the image exactly when the expanded box starts there. */
  lemma CropInsideIff(b: BBox, expand: real, w: int, h: int)
    requires w > 0 && h > 0
    ensures Inside(ComputeCrop(b, expand, w, h), w, h) <==> StartsInImage(b, expand, w, h)
  {
    var dx, dy := (b.x2 - b.x1) * expand, (b.y2 - b.y1) * expand;
    TruncateBelow(Max(0.0, b.x1 - dx), w);
    TruncateBelow(Max(0.0, b.y1 - dy), h);
    TruncateAtMost(Min(w as real, b.x2 + dx), w);
    TruncateAtMost(Min(h as real, b.y2 + dy), h);
  }

  predicate Holds(r: Crop, b: BBox) {
    r.x0 as real <= b.x1 && r.y0 as real <= b.y1 && b.x2 < r.x1 as real + 1.0 && b.y2 < r.y1 as real + 1.0
  }

  /** The crop of an upright box inside the image, widened by any margins, loses less than a pixel
      of it at the far edges and nothing at the near ones. */
  lemma CropHoldsBox(b: BBox, dx: real, dy: real, w: int, h: int)
    requires 0.0 <= b.x1 <= b.x2 <= w as real && 0.0 <= b.y1 <= b.y2 <= h as real && dx >= 0.0 && dy >= 0.0
    ensures Holds(CropAround(b, dx, dy, w, h), b)
  {
    AxisHolds(b.x1, b.x2, dx, w);
    AxisHolds(b.y1, b.y2, dy, h);
  }

  lemma AxisHolds(low: real, high: real, d: real, n: int)
    requires 0.0 <= low <= high <= n as real && d >= 0.0
    ensures Truncate(Max(0.0, low - d)) as real <= low
    ensures high < Truncate(Min(n as real, high + d)) as real + 1.0
  {}

  /** Along one axis of `n` pixels a crop from `low` to `high` starts in the pixel that holds `low`, cut to
      the picture, and reaches no further than `high`, by less than a pixel, but is never empty. */
  ghost predicate AxisCrop(low: real, high: real, n: int, c0: int, c1: int) {
    var from, to := if low > 0.0 then low else 0.0, if high < n as real then high else n as real;
    && 0 <= c0 < c1 && c0 as real <= from < c0 as real + 1.0
    && (c1 as real <= to || c1 == c0 + 1) && to < c1 as real + 1.0
  }

  lemma AxisIs(low: real, high: real, n: int)
    ensures var c0, t := Truncate(Max(0.0, low)), Truncate(Min(n as real, high));
      AxisCrop(low, high, n, c0, if t <= c0 then c0 + 1 else t)
  {
  }

  /** The crop of a box is the box, widened on each side by a share of its width and height. */
  ghost predicate CropOf(b: BBox, expand: real, w: int, h: int, c: Crop) {
    var dx, dy := (b.x2 - b.x1) * expand, (b.y2 - b.y1) * expand;
    AxisCrop(b.x1 - dx, b.x2 + dx, w, c.x0, c.x1) && AxisCrop(b.y1 - dy, b.y2 + dy, h, c.y0, c.y1)
  }

  lemma CropIs(b: BBox, expand: real, w: int, h: int)
    ensures CropOf(b, expand, w, h, ComputeCrop(b, expand, w, h))
  {
    var dx, dy := (b.x2 - b.x1) * expand, (b.y2 - b.y1) * expand;
    AxisIs(b.x1 - dx, b.x2 + dx, w);
    AxisIs(b.y1 - dy, b.y2 + dy, h);
  }

  function InputHw(sizes: map<string, (int, int)>, modelId: string): (int, int) {
    if modelId !in sizes then (DEFAULT_HW, DEFAULT_HW) else
    (if sizes[modelId].0 > 0 then sizes[modelId].0 else DEFAULT_HW,
     if sizes[modelId].1 > 0 then sizes[modelId].1 else DEFAULT_HW)
  }

  predicate Triggered(c: Cascade, d: Detection) {
    c.triggers == [] || d.classId in c.triggers
  }

  ghost function AttrDets(attrs: seq<Attr>): (r: seq<int>)
    ensures |r| == |attrs| && forall i :: 0 <= i < |attrs| ==> r[i] == attrs[i].det
  {
    seq(|attrs|, i requires 0 <= i < |attrs| => attrs[i].det)
  }

  ghost function JobDets(jobs: seq<Job>): (r: seq<int>)
    ensures |r| == |jobs| && forall i :: 0 <= i < |jobs| ==> r[i] == jobs[i].det
  {
    seq(|jobs|, i requires 0 <= i < |jobs| => jobs[i].det as int)
  }

  /** A box to the right of a picture of 10 by 10 is cropped to a column outside it. */
  lemma CropBeyondImage()
    ensures ComputeCrop(BBox(20.0, 0.0, 22.0, 2.0), 0.0, 10, 10) == Crop(20, 0, 21, 2)
    ensures !Inside(Crop(20, 0, 21, 2), 10, 10)
  {
    assert Truncate(20.0) == 20 && Truncate(0.0) == 0 && Truncate(10.0) == 10 && Truncate(2.0) == 2;
  }

  class CascadeRouter {
    const cascades: seq<Cascade>
    /** The models that have a worker group. */
    const groups: set<string>
    const sizes: map<string, (int, int)>
    /** Whether the GPU crop path was compiled in. */
    const gpuCrops: bool
    const merger: ResultMerger

    constructor (cascades: seq<Cascade>, groups: set<string>, sizes: map<string, (int, int)>, gpuCrops: bool,
                 merger: ResultMerger)
      ensures this.cascades == cascades && this.groups == groups && this.sizes == sizes
      ensures this.gpuCrops == gpuCrops && this.merger == merger
    {
      this.cascades, this.groups, this.sizes, this.gpuCrops, this.merger := cascades, groups, sizes, gpuCrops, merger;
    }

    /** The job of one detection for one cascade on a picture of the given size. */
    function JobOf(c: nat, dets: seq<Detection>, i: nat, w: int, h: int): Job
      requires c < |cascades| && i < |dets|
    {
      var hw := InputHw(sizes, cascades[c].modelId);
      Job(c, i, ComputeCrop(dets[i].bbox, cascades[c].expand, w, h), hw.0, hw.1)
    }

    function Maker(dets: seq<Detection>, w: int, h: int): (nat, nat) -> Job {
      (c: nat, i: nat) => if c < |cascades| && i < |dets| then JobOf(c, dets, i, w, h)
        else Job(c, i, Crop(0, 0, 0, 0), 0, 0)
    }

    /** A maker of jobs marks each with its cascade and its detection. */
    ghost predicate Labels(make: (nat, nat) -> Job) {
      forall c: nat, i: nat :: make(c, i).cascade == c && make(c, i).det == i
    }

    lemma MakerLabels(dets: seq<Detection>, w: int, h: int)
      ensures Labels(Maker(dets, w, h))
    {}

    /** The jobs cascade `c` asks for among the first `n` detections. */
    function JobsOfCascade(c: nat, dets: seq<Detection>, n: nat, make: (nat, nat) -> Job): seq<Job>
      requires c < |cascades| && n <= |dets|
    {
      if n == 0 || cascades[c].modelId !in groups then [] else
      JobsOfCascade(c, dets, n - 1, make) + if Triggered(cascades[c], dets[n - 1]) then [make(c, n - 1)] else []
    }

    /** The jobs of the first `m` cascades. */
    function Jobs(m: nat, dets: seq<Detection>, make: (nat, nat) -> Job): seq<Job>
      requires m <= |cascades|
    {
      if m == 0 then [] else Jobs(m - 1, dets, make) + JobsOfCascade(m - 1, dets, |dets|, make)
    }

    ghost predicate Fits(j: Job, w: int, h: int) { Inside(j.crop, w, h) }

    ghost predicate AllFit(jobs: seq<Job>, w: int, h: int) {
      forall k :: 0 <= k < |jobs| ==> Fits(jobs[k], w, h)
    }

    /** The count phase. */
    method Count(dets: seq<Detection>, w: int, h: int) returns (total: nat)
      ensures total == if w > 0 && h > 0 then |Jobs(|cascades|, dets, Maker(dets, w, h))| else 0
    {
      if w <= 0 || h <= 0 {
        return 0;
      }
      total := CountAll(dets, Maker(dets, w, h));
    }

    method CountAll(dets: seq<Detection>, ghost make: (nat, nat) -> Job) returns (total: nat)
      ensures total == |Jobs(|cascades|, dets, make)|
    {
      total := 0;
      for c := 0 to |cascades|
        invariant total == |Jobs(c, dets, make)|
      {
        if cascades[c].modelId !in groups {
          continue;
        }
        for i := 0 to |dets|
          invariant total == |Jobs(c, dets, make)| + |JobsOfCascade(c, dets, i, make)|
        {
          if Triggered(cascades[c], dets[i]) {
            total := total + 1;
          }
        }
      }
    }

    /** The dispatch phase: on a picture in memory a crop outside it makes the image library
        throw, which ends the phase; on a GPU picture nothing happens without the GPU crop path. */
    method Dispatch(dets: seq<Detection>, picture: Picture) returns (sent: seq<Job>, threw: bool)
      requires !picture.NoPicture? && picture.width > 0 && picture.height > 0
      ensures var jobs := Jobs(|cascades|, dets, Maker(dets, picture.width, picture.height));
        if picture.Gpu? then !threw && sent == (if gpuCrops then jobs else [])
          else Delivered(sent, jobs, threw, picture)
    {
      var make := Maker(dets, picture.width, picture.height);
      if picture.Gpu? && !gpuCrops {
        return [], false;
      }
      sent, threw := HandOut(dets, make, picture);
    }

    /** The two loops of the phase, where a crop is made at all. */
    method HandOut(dets: seq<Detection>, make: (nat, nat) -> Job, picture: Picture)
      returns (sent: seq<Job>, threw: bool)
      requires !picture.NoPicture?
      ensures var jobs := Jobs(|cascades|, dets, make);
        if picture.Gpu? then !threw && sent == jobs else Delivered(sent, jobs, threw, picture)
    {
      var w, h := picture.width, picture.height;
      sent, threw := [], false;
      for c := 0 to |cascades|
        invariant !threw && sent == Jobs(c, dets, make)
        invariant picture.Cpu? ==> AllFit(sent, w, h)
      {
        if cascades[c].modelId !in groups {
          continue;
        }
        for i := 0 to |dets|
          invariant !threw && sent == Jobs(c, dets, make) + JobsOfCascade(c, dets, i, make)
          invariant picture.Cpu? ==> AllFit(sent, w, h)
        {
          if Triggered(cascades[c], dets[i]) {
            var job := make(c, i);
            if picture.Cpu? && !Inside(job.crop, w, h) {
              JobsExtend(c, dets, i, make);
              return sent, true;
            }
            sent := sent + [job];
          }
        }
      }
    }

    /** What left: everything, unless some crop falls outside the picture; then what precedes it. */
    ghost predicate Delivered(sent: seq<Job>, jobs: seq<Job>, threw: bool, picture: Picture)
      requires !picture.NoPicture?
    {
      && AllFit(sent, picture.width, picture.height)
      && if threw then |sent| < |jobs| && sent == jobs[..|sent|] && !Fits(jobs[|sent|], picture.width, picture.height)
         else sent == jobs
    }

    lemma {:induction false} JobsOfCascadeExtend(c: nat, dets: seq<Detection>, i: nat, n: nat, make: (nat, nat) -> Job)
      requires c < |cascades| && i <= n <= |dets|
      ensures JobsOfCascade(c, dets, i, make) <= JobsOfCascade(c, dets, n, make)
    {
      if i < n {
        JobsOfCascadeExtend(c, dets, i, n - 1, make);
      }
    }

    lemma {:induction false} JobsPrefix(m: nat, k: nat, dets: seq<Detection>, make: (nat, nat) -> Job)
      requires m <= k <= |cascades|
      ensures Jobs(m, dets, make) <= Jobs(k, dets, make)
    {
      if m < k {
        JobsPrefix(m, k - 1, dets, make);
      }
    }

    lemma JobsExtend(c: nat, dets: seq<Detection>, i: nat, make: (nat, nat) -> Job)
      requires c < |cascades| && i < |dets| && cascades[c].modelId in groups && Triggered(cascades[c], dets[i])
      ensures Jobs(c, dets, make) + JobsOfCascade(c, dets, i, make) + [make(c, i)] <= Jobs(|cascades|, dets, make)
    {
      JobsOfCascadeExtend(c, dets, i + 1, |dets|, make);
      JobsPrefix(c + 1, |cascades|, dets, make);
      PrefixOfSum(Jobs(c, dets, make), JobsOfCascade(c, dets, i, make),
                  make(c, i), JobsOfCascade(c, dets, |dets|, make));
    }

    lemma PrefixOfSum(a: seq<Job>, b: seq<Job>, j: Job, c: seq<Job>)
      requires b + [j] <= c
      ensures a + b + [j] <= a + c
    {
      assert a + b + [j] == a + (b + [j]);
    }

    /** `route` */
    method Route(result: InferResult, picture: Picture) returns (events: seq<Event>, threw: bool)
      requires merger.Valid()
      modifies merger
      ensures merger.Valid()
      ensures events != [] && events[0].Registered?
      ensures forall k :: 1 <= k < |events| ==> events[k].Dispatched?
      ensures merger.history == old(merger.history) + [Register(result, events[0].expected)]
      ensures !picture.NoPicture? ==> events[0].expected == |Wanted(result.dets, picture)|
      ensures picture.Cpu? ==> |events| - 1 <= events[0].expected
      ensures picture.Cpu? ==>
        forall k :: 1 <= k < |events| ==> events[k] == Dispatched(Wanted(result.dets, picture)[k - 1])
      ensures picture.Cpu? && !threw ==> |events| - 1 == events[0].expected
      ensures picture.Gpu? ==> !threw && |events| - 1 == if gpuCrops then events[0].expected else 0
      ensures picture.NoPicture? ==> !threw && events == [Registered(0)]
      ensures picture.Cpu? ==>
        (threw <==> exists j :: j in Wanted(result.dets, picture) && !Fits(j, picture.width, picture.height))
    {
      var w := if picture.NoPicture? then 0 else picture.width;
      var h := if picture.NoPicture? then 0 else picture.height;
      var total := Count(result.dets, w, h);
      merger.RegisterPrimary(result, total);
      events, threw := [Registered(total)], false;
      if total == 0 {
        return;
      }
      var sent;
      sent, threw := Dispatch(result.dets, picture);
      events := events + seq(|sent|, k requires 0 <= k < |sent| => Dispatched(sent[k]));
    }

    /** One answer for each dispatched crop, in any order: together they name the same detections. */
    ghost predicate AnswersAll(attrs: seq<Attr>, jobs: seq<Job>) {
      multiset(AttrDets(attrs)) == multiset(JobDets(jobs))
    }

    /** A routed result whose crops all fit and are each answered, with its key free and its
        deadline not passed, is published exactly once, with all the answers. */
    lemma RoutedIsPublished(result: InferResult, picture: Picture, steps: seq<Step>, o: nat, n: nat)
      requires picture.Cpu? && o < n <= |steps|
      requires steps[o] == Register(result, |Wanted(result.dets, picture)|) && steps[o].expected > 0
      requires Accepted(steps, o) && NoDeadline(steps, o, n)
      requires AnswersAll(Attrs(steps, o, n), Wanted(result.dets, picture))
      ensures Times(Run(steps, n).out, o) == 1
      ensures Publication(o, SetAll(result, Attrs(steps, o, n))) in Run(steps, n).out
    {
      var attrs, jobs := Attrs(steps, o, n), Wanted(result.dets, picture);
      assert |attrs| == |jobs| by {
        assert |multiset(AttrDets(attrs))| == |multiset(JobDets(jobs))|;
      }
      PublishedInFull(steps, o, n);
    }

    /** Every answer is written to a detection of the result. */
    lemma AnswersLand(result: InferResult, picture: Picture, attrs: seq<Attr>, i: nat)
      requires picture.Cpu? && i < |attrs| && AnswersAll(attrs, Wanted(result.dets, picture))
      ensures 0 <= attrs[i].det < |result.dets|
    {
      var jobs := Wanted(result.dets, picture);
      assert AttrDets(attrs)[i] in multiset(JobDets(jobs));
      var k :| 0 <= k < |jobs| && JobDets(jobs)[k] == attrs[i].det;
      var make := Maker(result.dets, picture.width, picture.height);
      MakerLabels(result.dets, picture.width, picture.height);
      JobsExact(|cascades|, result.dets, make);
      assert IsAsked(0, |cascades|, result.dets, |result.dets|, make, jobs[k]);
    }

    ghost function Wanted(dets: seq<Detection>, picture: Picture): seq<Job>
      requires !picture.NoPicture?
    {
      if picture.width > 0 && picture.height > 0
        then Jobs(|cascades|, dets, Maker(dets, picture.width, picture.height)) else []
    }

    // -------------------------------------------------------------- what the jobs are

    predicate IsWanted(c: nat, dets: seq<Detection>, i: nat) {
      c < |cascades| && i < |dets| && cascades[c].modelId in groups && Triggered(cascades[c], dets[i])
    }

    /** Detection `i` is one that cascade `c` acts on, and the cascade has workers. */
    ghost predicate Due(c: nat, dets: seq<Detection>, i: nat) {
      && c < |cascades| && i < |dets| && cascades[c].modelId in groups
      && (cascades[c].triggers == []
          || exists k :: 0 <= k < |cascades[c].triggers| && cascades[c].triggers[k] == dets[i].classId)
    }

    /** The job of a detection for a cascade: its own crop, resized to the input of the cascade's model,
        or to 112 where that is not known. */
    ghost predicate JobFor(dets: seq<Detection>, picture: Picture, j: Job)
      requires !picture.NoPicture?
    {
      && Due(j.cascade, dets, j.det)
      && CropOf(dets[j.det].bbox, cascades[j.cascade].expand, picture.width, picture.height, j.crop)
      && var model := cascades[j.cascade].modelId;
      && j.height == (if model in sizes && sizes[model].0 > 0 then sizes[model].0 else 112)
      && j.width == (if model in sizes && sizes[model].1 > 0 then sizes[model].1 else 112)
    }

    /** Exactly the due detections are wanted, once each, cascade by cascade and in their order. */
    lemma WantedAre(dets: seq<Detection>, picture: Picture)
      requires !picture.NoPicture? && picture.width > 0 && picture.height > 0
      ensures Ordered(Wanted(dets, picture))
      ensures forall j :: j in Wanted(dets, picture) ==> JobFor(dets, picture, j)
      ensures forall c: nat, i: nat :: Due(c, dets, i) ==> HasJob(Wanted(dets, picture), c, i)
    {
      var make, jobs := Maker(dets, picture.width, picture.height), Wanted(dets, picture);
      MakerLabels(dets, picture.width, picture.height);
      JobsExact(|cascades|, dets, make);
      forall j | j in jobs ensures JobFor(dets, picture, j) {
        assert IsAsked(0, |cascades|, dets, |dets|, make, j);
        MadeIs(dets, picture, j.cascade, j.det);
      }
      forall c: nat, i: nat | Due(c, dets, i) ensures HasJob(jobs, c, i) {
        assert IsAsked(0, |cascades|, dets, |dets|, make, make(c, i));
      }
    }

    ghost predicate HasJob(jobs: seq<Job>, c: nat, i: nat) { exists j :: j in jobs && j.cascade == c && j.det == i }

    lemma MadeIs(dets: seq<Detection>, picture: Picture, c: nat, i: nat)
      requires !picture.NoPicture? && IsWanted(c, dets, i)
      ensures JobFor(dets, picture, Maker(dets, picture.width, picture.height)(c, i))
    {
      CropIs(dets[i].bbox, cascades[c].expand, picture.width, picture.height);
    }

    predicate Before(j: Job, k: Job) { j.cascade < k.cascade || (j.cascade == k.cascade && j.det < k.det) }

    ghost predicate Ordered(jobs: seq<Job>) {
      forall p, q :: 0 <= p < q < |jobs| ==> Before(jobs[p], jobs[q])
    }

    /** Job `j` is one of those that cascades `from` to `to` ask for among the first `n` detections. */
    ghost predicate IsAsked(from: nat, to: nat, dets: seq<Detection>, n: nat, make: (nat, nat) -> Job, j: Job) {
      from <= j.cascade < to && j.det < n && IsWanted(j.cascade, dets, j.det) && j == make(j.cascade, j.det)
    }

    /** `jobs` are exactly those. */
    ghost predicate Asked(from: nat, to: nat, dets: seq<Detection>, n: nat, make: (nat, nat) -> Job, jobs: seq<Job>) {
      && Ordered(jobs)
      && (forall k :: 0 <= k < |jobs| ==> IsAsked(from, to, dets, n, make, jobs[k]))
      && (forall j {:trigger IsAsked(from, to, dets, n, make, j)} :: IsAsked(from, to, dets, n, make, j) ==> j in jobs)
    }

    lemma {:induction false} JobsOfCascadeExact(c: nat, dets: seq<Detection>, n: nat, make: (nat, nat) -> Job)
      requires c < |cascades| && n <= |dets| && Labels(make)
      ensures Asked(c, c + 1, dets, n, make, JobsOfCascade(c, dets, n, make))
    {
      if n > 0 && cascades[c].modelId in groups {
        JobsOfCascadeExact(c, dets, n - 1, make);
        OneMoreJob(c, dets, n - 1, make, JobsOfCascade(c, dets, n - 1, make));
      }
    }

    lemma OneMoreJob(c: nat, dets: seq<Detection>, n: nat, make: (nat, nat) -> Job, jobs: seq<Job>)
      requires c < |cascades| && n < |dets| && Labels(make) && cascades[c].modelId in groups
      requires Asked(c, c + 1, dets, n, make, jobs)
      ensures Asked(c, c + 1, dets, n + 1, make, jobs + if Triggered(cascades[c], dets[n]) then [make(c, n)] else [])
    {
      var more := jobs + if Triggered(cascades[c], dets[n]) then [make(c, n)] else [];
      forall k | 0 <= k < |more| ensures IsAsked(c, c + 1, dets, n + 1, make, more[k]) {
        if k < |jobs| {
          assert IsAsked(c, c + 1, dets, n, make, jobs[k]);
        }
      }
      forall j | IsAsked(c, c + 1, dets, n + 1, make, j) ensures j in more {
        if j.det == n {
          assert more[|jobs|] == j;
        } else {
          assert IsAsked(c, c + 1, dets, n, make, j);
        }
      }
      forall p, q | 0 <= p < q < |more| ensures Before(more[p], more[q]) {
        assert IsAsked(c, c + 1, dets, n, make, jobs[p]);
        assert q < |jobs| ==> Before(jobs[p], jobs[q]);
      }
    }

    /** One job for every triggered detection of every cascade that has a worker group, and none twice. */
    lemma {:induction false} JobsExact(m: nat, dets: seq<Detection>, make: (nat, nat) -> Job)
      requires m <= |cascades| && Labels(make)
      ensures Asked(0, m, dets, |dets|, make, Jobs(m, dets, make))
    {
      if m > 0 {
        JobsExact(m - 1, dets, make);
        JobsOfCascadeExact(m - 1, dets, |dets|, make);
        AskedJoin(m - 1, dets, make, Jobs(m - 1, dets, make), JobsOfCascade(m - 1, dets, |dets|, make));
      }
    }

    lemma AskedJoin(m: nat, dets: seq<Detection>, make: (nat, nat) -> Job, a: seq<Job>, b: seq<Job>)
      requires Asked(0, m, dets, |dets|, make, a) && Asked(m, m + 1, dets, |dets|, make, b)
      ensures Asked(0, m + 1, dets, |dets|, make, a + b)
    {
      forall k | 0 <= k < |a + b| ensures IsAsked(0, m + 1, dets, |dets|, make, (a + b)[k]) {
        if k < |a| {
          assert IsAsked(0, m, dets, |dets|, make, a[k]);
        } else {
          assert IsAsked(m, m + 1, dets, |dets|, make, b[k - |a|]);
        }
      }
      forall j | IsAsked(0, m + 1, dets, |dets|, make, j) ensures j in a + b {
        assert if j.cascade < m then IsAsked(0, m, dets, |dets|, make, j) else IsAsked(m, m + 1, dets, |dets|, make, j);
      }
      forall p, q | 0 <= p < q < |a + b| ensures Before((a + b)[p], (a + b)[q]) {
        if q < |a| {
          assert Before(a[p], a[q]);
        } else if p >= |a| {
          assert Before(b[p - |a|], b[q - |a|]);
        } else {
          assert IsAsked(0, m, dets, |dets|, make, a[p]) && IsAsked(m, m + 1, dets, |dets|, make, b[q - |a|]);
        }
      }
    }

    /** The router survives a picture in memory exactly when every wanted crop starts in it. */
    lemma AllFitIff(dets: seq<Detection>, picture: Picture)
      requires picture.Cpu? && picture.width > 0 && picture.height > 0
      ensures (forall j :: j in Wanted(dets, picture) ==> Fits(j, picture.width, picture.height)) <==>
        (forall c: nat, i: nat :: IsWanted(c, dets, i) ==>
          StartsInImage(dets[i].bbox, cascades[c].expand, picture.width, picture.height))
    {
      var w, h := picture.width, picture.height;
      var make := Maker(dets, w, h);
      MakerLabels(dets, w, h);
      JobsExact(|cascades|, dets, make);
      forall c: nat, i: nat | IsWanted(c, dets, i)
        ensures make(c, i) in Wanted(dets, picture)
        ensures Fits(make(c, i), w, h) <==> StartsInImage(dets[i].bbox, cascades[c].expand, w, h)
      {
        assert IsAsked(0, |cascades|, dets, |dets|, make, make(c, i));
        CropInsideIff(dets[i].bbox, cascades[c].expand, w, h);
      }
      forall j | j in Wanted(dets, picture) ensures IsWanted(j.cascade, dets, j.det) && j == make(j.cascade, j.det) {
        var k :| 0 <= k < |Wanted(dets, picture)| && Wanted(dets, picture)[k] == j;
        assert IsAsked(0, |cascades|, dets, |dets|, make, j);
      }
    }

    /** So routing that box, if any cascade wants it, registers more crops than it hands out. */
    lemma BoxBeyondImageThrows(dets: seq<Detection>)
      requires IsWanted(0, dets, 0) && dets[0].bbox == BBox(20.0, 0.0, 22.0, 2.0) && cascades[0].expand == 0.0
      ensures exists j :: j in Wanted(dets, Cpu(10, 10)) && !Fits(j, 10, 10)
    {
      CropBeyondImage();
      MakerLabels(dets, 10, 10);
      JobsExact(|cascades|, dets, Maker(dets, 10, 10));
      var j := Maker(dets, 10, 10)(0, 0);
      assert IsAsked(0, |cascades|, dets, |dets|, Maker(dets, 10, 10), j);
      assert j in Wanted(dets, Cpu(10, 10)) && !Fits(j, 10, 10);
    }
  }
}
