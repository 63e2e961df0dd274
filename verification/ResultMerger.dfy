/**
 Joining secondary attributes to primary results (src/pipeline/ResultMerger.cpp:11-75).

 A run is a list of steps, one per locked section; expiry depends on the clock, so it may strike
 any entry at any time.  `Run` numbers each registration by its step, which the program does not,
 so that two registrations with equal contents stay apart.
 */
module ResultMerging {
  import opened Geometry

  datatype InferResult = InferResult(key: string, dets: seq<Detection>)

  datatype Attr = Attr(key: string, det: int, name: string, value: string)

  function SetAttribute(r: InferResult, a: Attr): InferResult {
    if 0 <= a.det < |r.dets|
    then r.(dets := r.dets[a.det := r.dets[a.det].(attributes := r.dets[a.det].attributes[a.name := a.value])])
    else r
  }

  function SetAll(r: InferResult, attrs: seq<Attr>): InferResult {
    if attrs == [] then r else SetAttribute(SetAll(r, attrs[..|attrs| - 1]), attrs[|attrs| - 1])
  }

  datatype Step = Register(result: InferResult, expected: int) | Attribute(attr: Attr) | Expire(key: string)

  datatype Entry = Entry(origin: nat, result: InferResult, expected: int, received: int)

  datatype Publication = Publication(origin: nat, result: InferResult)

  datatype State = State(pending: map<string, Entry>, out: seq<Publication>)

  function Close(s: State, e: Entry, key: string): State {
    State(s.pending - {key}, s.out + [Publication(e.origin, e.result)])
  }

  function Next(s: State, step: Step, now: nat): State {
    match step
    case Register(result, expected) =>
      if expected == 0 then s.(out := s.out + [Publication(now, result)])
      else if result.key in s.pending then s
      else s.(pending := s.pending[result.key := Entry(now, result, expected, 0)])
    case Attribute(a) =>
      if a.key !in s.pending then s else
      var e := s.pending[a.key];
      var f := Entry(e.origin, SetAttribute(e.result, a), e.expected, e.received + 1);
      if f.received >= f.expected then Close(s, f, a.key) else s.(pending := s.pending[a.key := f])
    case Expire(key) =>
      if key in s.pending then Close(s, s.pending[key], key) else s
  }

  /** The state after the first `n` steps. */
  function Run(steps: seq<Step>, n: nat): State
    requires n <= |steps|
  {
    if n == 0 then State(map[], []) else Next(Run(steps, n - 1), steps[n - 1], n - 1)
  }

  // ---------------------------------------------------------------- what a history says about one registration

  ghost predicate Registers(steps: seq<Step>, o: nat) {
    o < |steps| && steps[o].Register?
  }

  /** The registration made an entry: it waits for something and its key was free. */
  ghost predicate Accepted(steps: seq<Step>, o: nat) {
    Registers(steps, o) && steps[o].expected != 0 && steps[o].result.key !in Run(steps, o).pending
  }

  /** The attributes for the key of registration `o` that arrived after it, before step `n`. */
  ghost function Attrs(steps: seq<Step>, o: nat, n: nat): seq<Attr>
    requires Registers(steps, o) && n <= |steps|
  {
    if n <= o + 1 then [] else
    var before := Attrs(steps, o, n - 1);
    if steps[n - 1].Attribute? && steps[n - 1].attr.key == steps[o].result.key then before + [steps[n - 1].attr]
      else before
  }

  /** Step `j` would end the wait of registration `o`: its deadline, or its last attribute. */
  ghost predicate ClosesAt(steps: seq<Step>, o: nat, j: nat)
    requires Registers(steps, o)
  {
    && o < j < |steps|
    && var key := steps[o].result.key;
       match steps[j]
       case Register(_, _) => false
       case Attribute(a) => a.key == key && |Attrs(steps, o, j + 1)| >= steps[o].expected
       case Expire(k) => k == key
  }

  ghost predicate Open(steps: seq<Step>, o: nat, n: nat)
    requires Registers(steps, o)
  {
    forall j :: o < j < n ==> !ClosesAt(steps, o, j)
  }

  ghost predicate EndsAt(steps: seq<Step>, o: nat, j: nat)
    requires Registers(steps, o)
  {
    ClosesAt(steps, o, j) && Open(steps, o, j)
  }

  ghost function Waiting(steps: seq<Step>, o: nat, n: nat): Entry
    requires Registers(steps, o) && n <= |steps|
  {
    var attrs := Attrs(steps, o, n);
    Entry(o, SetAll(steps[o].result, attrs), steps[o].expected, |attrs|)
  }

  // ---------------------------------------------------------------- the state is what the history says

  ghost predicate IsWaiting(steps: seq<Step>, n: nat, key: string, e: Entry)
    requires n <= |steps|
  {
    && e.origin < n && Accepted(steps, e.origin) && steps[e.origin].result.key == key
    && Open(steps, e.origin, n) && e == Waiting(steps, e.origin, n)
  }

  ghost predicate PendingSound(steps: seq<Step>, n: nat)
    requires n <= |steps|
  {
    var s := Run(steps, n);
    forall key :: key in s.pending ==> IsWaiting(steps, n, key, s.pending[key])
  }

  ghost predicate Waits(steps: seq<Step>, n: nat, o: nat)
    requires n <= |steps| && Registers(steps, o)
  {
    var s := Run(steps, n);
    steps[o].result.key in s.pending && s.pending[steps[o].result.key].origin == o
  }

  ghost predicate PendingComplete(steps: seq<Step>, n: nat)
    requires n <= |steps|
  {
    forall o: nat :: o < n && Accepted(steps, o) && Open(steps, o, n) ==> Waits(steps, n, o)
  }

  lemma StillOpen(steps: seq<Step>, o: nat, n: nat)
    requires o < n < |steps| && Registers(steps, o)
    ensures Open(steps, o, n + 1) <==> Open(steps, o, n) && !ClosesAt(steps, o, n)
  {}

  lemma OneMoreAttribute(steps: seq<Step>, o: nat, n: nat)
    requires o < n < |steps| && Registers(steps, o)
    requires steps[n].Attribute? && steps[n].attr.key == steps[o].result.key
    ensures Attrs(steps, o, n + 1) == Attrs(steps, o, n) + [steps[n].attr]
    ensures SetAll(steps[o].result, Attrs(steps, o, n + 1)) ==
      SetAttribute(SetAll(steps[o].result, Attrs(steps, o, n)), steps[n].attr)
  {
    var a, b := Attrs(steps, o, n + 1), Attrs(steps, o, n);
    assert a[..|a| - 1] == b;
  }

  /** A waiting entry that a step leaves in place is still waiting, one attribute richer if the
      step was one of its own. */
  lemma EntryStep(steps: seq<Step>, n: nat, key: string, e: Entry)
    requires n < |steps| && IsWaiting(steps, n, key, e)
    requires !ClosesAt(steps, e.origin, n)
    ensures IsWaiting(steps, n + 1, key, Waiting(steps, e.origin, n + 1))
  {
    StillOpen(steps, e.origin, n);
  }

  lemma PendingSoundStep(steps: seq<Step>, n: nat)
    requires n < |steps| && PendingSound(steps, n)
    ensures PendingSound(steps, n + 1)
  {
    var s, t := Run(steps, n), Run(steps, n + 1);
    forall key | key in t.pending ensures IsWaiting(steps, n + 1, key, t.pending[key]) {
      if key in s.pending {
        EntryKept(steps, n, key);
      }
    }
  }

  lemma EntryKept(steps: seq<Step>, n: nat, key: string)
    requires n < |steps| && PendingSound(steps, n)
    requires key in Run(steps, n).pending && key in Run(steps, n + 1).pending
    ensures IsWaiting(steps, n + 1, key, Run(steps, n + 1).pending[key])
  {
    var e := Run(steps, n).pending[key];
    assert IsWaiting(steps, n, key, e);
    if steps[n].Attribute? && steps[n].attr.key == key {
      Touched(steps, e.origin, n);
    } else {
      Untouched(steps, e.origin, n);
    }
    StepAtKey(Run(steps, n), steps[n], n, key);
    NotClosing(steps, e.origin, n);
    EntryStep(steps, n, key, e);
  }

  lemma NotClosing(steps: seq<Step>, o: nat, n: nat)
    requires o < n < |steps| && Registers(steps, o) && steps[n] != Expire(steps[o].result.key)
    requires steps[n].Attribute? && steps[n].attr.key == steps[o].result.key ==>
      Waiting(steps, o, n).received + 1 < steps[o].expected
    ensures !ClosesAt(steps, o, n)
  {
    if steps[n].Attribute? && steps[n].attr.key == steps[o].result.key {
      OneMoreAttribute(steps, o, n);
    }
  }

  /** What one step does to an entry that it leaves in place. */
  lemma StepAtKey(s: State, step: Step, now: nat, key: string)
    requires key in s.pending && key in Next(s, step, now).pending
    ensures var e := s.pending[key];
      Next(s, step, now).pending[key] ==
      if step.Attribute? && step.attr.key == key
      then Entry(e.origin, SetAttribute(e.result, step.attr), e.expected, e.received + 1) else e
    ensures step.Attribute? && step.attr.key == key ==> s.pending[key].received + 1 < s.pending[key].expected
    ensures step != Expire(key)
  {}

  lemma Touched(steps: seq<Step>, o: nat, n: nat)
    requires o < n < |steps| && Registers(steps, o)
    requires steps[n].Attribute? && steps[n].attr.key == steps[o].result.key
    ensures var w := Waiting(steps, o, n);
      Waiting(steps, o, n + 1) == Entry(o, SetAttribute(w.result, steps[n].attr), w.expected, w.received + 1)
  {
    OneMoreAttribute(steps, o, n);
  }

  lemma Untouched(steps: seq<Step>, o: nat, n: nat)
    requires o < n < |steps| && Registers(steps, o)
    requires !(steps[n].Attribute? && steps[n].attr.key == steps[o].result.key)
    ensures Waiting(steps, o, n + 1) == Waiting(steps, o, n)
  {}

  lemma EntryClosed(steps: seq<Step>, n: nat, key: string)
    requires n < |steps| && PendingSound(steps, n)
    requires key in Run(steps, n).pending && key !in Run(steps, n + 1).pending
    ensures var o := Run(steps, n).pending[key].origin;
      && o < n && Registers(steps, o) && EndsAt(steps, o, n)
      && Run(steps, n + 1).out == Run(steps, n).out + [Publication(o, Waiting(steps, o, n + 1).result)]
  {
    var e := Run(steps, n).pending[key];
    assert IsWaiting(steps, n, key, e);
    if steps[n].Attribute? {
      OneMoreAttribute(steps, e.origin, n);
    }
  }

  lemma PendingCompleteStep(steps: seq<Step>, n: nat)
    requires n < |steps| && PendingSound(steps, n) && PendingComplete(steps, n)
    ensures PendingComplete(steps, n + 1)
  {
    forall o: nat | o < n + 1 && Accepted(steps, o) && Open(steps, o, n + 1) ensures Waits(steps, n + 1, o) {
      if o < n {
        StillOpen(steps, o, n);
        assert Waits(steps, n, o);
        if steps[o].result.key !in Run(steps, n + 1).pending {
          EntryClosed(steps, n, steps[o].result.key);
        }
      }
    }
  }

  /** A publication is a registration that waits for nothing, or one whose wait has ended, with
      exactly the attributes that came for it until then. */
  ghost predicate IsPublished(steps: seq<Step>, n: nat, p: Publication)
    requires n <= |steps|
  {
    && p.origin < n && Registers(steps, p.origin)
    && if steps[p.origin].expected == 0 then p.result == steps[p.origin].result
       else Accepted(steps, p.origin) && exists j: nat ::
         EndsBefore(steps, p.origin, j, n) && p.result == Waiting(steps, p.origin, j + 1).result
  }

  ghost predicate EndsBefore(steps: seq<Step>, o: nat, j: nat, n: nat)
    requires Registers(steps, o)
  {
    j < n && EndsAt(steps, o, j)
  }

  ghost predicate OutSound(steps: seq<Step>, n: nat)
    requires n <= |steps|
  {
    var out := Run(steps, n).out;
    forall p :: 0 <= p < |out| ==> IsPublished(steps, n, out[p])
  }

  ghost predicate OutDistinct(steps: seq<Step>, n: nat)
    requires n <= |steps|
  {
    var out := Run(steps, n).out;
    forall p, q :: 0 <= p < q < |out| ==> out[p].origin != out[q].origin
  }

  ghost predicate InOut(out: seq<Publication>, o: nat) {
    exists p :: 0 <= p < |out| && out[p].origin == o
  }

  /** The registration has nothing left to wait for. */
  ghost predicate Due(steps: seq<Step>, o: nat, n: nat) {
    Registers(steps, o) && (steps[o].expected == 0 || (Accepted(steps, o) && !Open(steps, o, n)))
  }

  ghost predicate OutComplete(steps: seq<Step>, n: nat)
    requires n <= |steps|
  {
    forall o: nat :: o < n && Due(steps, o, n) ==> InOut(Run(steps, n).out, o)
  }

  lemma StaysPublished(steps: seq<Step>, n: nat, p: Publication)
    requires n < |steps| && IsPublished(steps, n, p)
    ensures IsPublished(steps, n + 1, p)
  {
    if steps[p.origin].expected != 0 {
      var j: nat :| EndsBefore(steps, p.origin, j, n) && p.result == Waiting(steps, p.origin, j + 1).result;
      assert EndsBefore(steps, p.origin, j, n + 1);
    }
  }

  ghost predicate OutStep(steps: seq<Step>, n: nat, before: seq<Publication>, after: seq<Publication>)
    requires n < |steps|
  {
    after != before ==>
      && |after| == |before| + 1 && after[..|before|] == before
      && IsPublished(steps, n + 1, after[|before|])
      && var o := after[|before|].origin;
         o == n || (Accepted(steps, o) && Open(steps, o, n))
  }

  /** What step `n` adds to the output, if anything. */
  lemma OutGrows(steps: seq<Step>, n: nat)
    requires n < |steps| && PendingSound(steps, n)
    ensures OutStep(steps, n, Run(steps, n).out, Run(steps, n + 1).out)
  {
    var s := Run(steps, n);
    match steps[n]
    case Register(_, _) =>
    case Attribute(a) =>
      if a.key in s.pending && a.key !in Run(steps, n + 1).pending { ClosingPublishes(steps, n, a.key); }
    case Expire(k) => if k in s.pending { ClosingPublishes(steps, n, k); }
  }

  lemma ClosingPublishes(steps: seq<Step>, n: nat, key: string)
    requires n < |steps| && PendingSound(steps, n)
    requires key in Run(steps, n).pending && key !in Run(steps, n + 1).pending
    ensures var o := Run(steps, n).pending[key].origin;
      && o < n && Accepted(steps, o) && Open(steps, o, n)
      && Run(steps, n + 1).out == Run(steps, n).out + [Publication(o, Waiting(steps, o, n + 1).result)]
      && IsPublished(steps, n + 1, Publication(o, Waiting(steps, o, n + 1).result))
  {
    EntryClosed(steps, n, key);
    var e := Run(steps, n).pending[key];
    assert IsWaiting(steps, n, key, e);
    assert EndsBefore(steps, e.origin, n, n + 1);
  }

  lemma NotYetOut(steps: seq<Step>, n: nat, o: nat)
    requires n <= |steps| && OutSound(steps, n)
    requires o >= n || (Accepted(steps, o) && Open(steps, o, n))
    ensures !InOut(Run(steps, n).out, o)
  {
    var out := Run(steps, n).out;
    forall p | 0 <= p < |out| ensures out[p].origin != o {
      assert IsPublished(steps, n, out[p]);
    }
  }

  lemma OutSoundStep(steps: seq<Step>, n: nat)
    requires n < |steps| && PendingSound(steps, n) && OutSound(steps, n)
    ensures OutSound(steps, n + 1)
  {
    OutGrows(steps, n);
    var before, after := Run(steps, n).out, Run(steps, n + 1).out;
    forall p | 0 <= p < |after| ensures IsPublished(steps, n + 1, after[p]) {
      if p < |before| {
        assert after[p] == before[p];
        StaysPublished(steps, n, before[p]);
      }
    }
  }

  lemma OutDistinctStep(steps: seq<Step>, n: nat)
    requires n < |steps| && PendingSound(steps, n) && OutSound(steps, n) && OutDistinct(steps, n)
    ensures OutDistinct(steps, n + 1)
  {
    OutGrows(steps, n);
    var before, after := Run(steps, n).out, Run(steps, n + 1).out;
    if after != before {
      NotYetOut(steps, n, after[|before|].origin);
      assert forall p :: 0 <= p < |before| ==> after[p] == before[p];
    }
  }

  lemma OutCompleteStep(steps: seq<Step>, n: nat)
    requires n < |steps| && PendingSound(steps, n) && PendingComplete(steps, n) && OutComplete(steps, n)
    ensures OutComplete(steps, n + 1)
  {
    var before, after := Run(steps, n).out, Run(steps, n + 1).out;
    forall o: nat | o < n + 1 && Due(steps, o, n + 1) ensures InOut(after, o) {
      DueIsOut(steps, n, o);
    }
  }

  lemma DueIsOut(steps: seq<Step>, n: nat, o: nat)
    requires n < |steps| && PendingSound(steps, n) && PendingComplete(steps, n) && OutComplete(steps, n)
    requires o <= n && Due(steps, o, n + 1)
    ensures InOut(Run(steps, n + 1).out, o)
  {
    var before, after := Run(steps, n).out, Run(steps, n + 1).out;
    OutGrows(steps, n);
    if o == n {
      assert after[|before|].origin == n;
    } else if Due(steps, o, n) {
      var p :| 0 <= p < |before| && before[p].origin == o;
      assert after[p] == before[p];
    } else {
      StillOpen(steps, o, n);
      assert Waits(steps, n, o);
      EntryClosed(steps, n, steps[o].result.key);
      assert after[|before|].origin == o;
    }
  }

  ghost predicate Accounted(steps: seq<Step>, n: nat)
    requires n <= |steps|
  {
    && PendingSound(steps, n) && PendingComplete(steps, n)
    && OutSound(steps, n) && OutDistinct(steps, n) && OutComplete(steps, n)
  }

  lemma {:induction false} EveryRunAccounted(steps: seq<Step>, n: nat)
    requires n <= |steps|
    ensures Accounted(steps, n)
  {
    if n == 0 {
      NothingYet(steps);
    } else {
      EveryRunAccounted(steps, n - 1);
      AccountedStep(steps, n - 1);
    }
  }

  lemma NothingYet(steps: seq<Step>)
    ensures Accounted(steps, 0)
  {}

  lemma AccountedStep(steps: seq<Step>, n: nat)
    requires n < |steps| && Accounted(steps, n)
    ensures Accounted(steps, n + 1)
  {
    PendingSoundStep(steps, n);
    PendingCompleteStep(steps, n);
    OutSoundStep(steps, n);
    OutDistinctStep(steps, n);
    OutCompleteStep(steps, n);
  }

  // ---------------------------------------------------------------- what becomes of a registration

  function Times(out: seq<Publication>, o: nat): nat {
    if out == [] then 0 else
    Times(out[..|out| - 1], o) + if out[|out| - 1].origin == o then 1 else 0
  }

  lemma {:induction false} NoneOut(out: seq<Publication>, o: nat)
    requires !InOut(out, o)
    ensures Times(out, o) == 0
  {
    if out != [] {
      var k := |out| - 1;
      assert out[k].origin != o;
      forall p | 0 <= p < k ensures out[..k][p].origin != o {
        assert out[..k][p] == out[p];
      }
      NoneOut(out[..k], o);
    }
  }

  lemma {:induction false} OnceOut(out: seq<Publication>, o: nat)
    requires InOut(out, o) && forall p, q :: 0 <= p < q < |out| ==> out[p].origin != out[q].origin
    ensures Times(out, o) == 1
  {
    var k := |out| - 1;
    var p :| 0 <= p < |out| && out[p].origin == o;
    if p == k {
      NoneOut(out[..k], o);
    } else {
      assert out[..k][p].origin == o;
      OnceOut(out[..k], o);
    }
  }

  /** Every registration made so far is exactly one of: published once, waiting in the table with
      what has arrived for it, or ignored because its key was taken. */
  lemma Conservation(steps: seq<Step>, n: nat, o: nat)
    requires o < n <= |steps| && Registers(steps, o)
    ensures Times(Run(steps, n).out, o) == if Due(steps, o, n) then 1 else 0
    ensures Waits(steps, n, o) <==> Accepted(steps, o) && Open(steps, o, n)
    ensures Waits(steps, n, o) ==> Run(steps, n).pending[steps[o].result.key] == Waiting(steps, o, n)
    ensures Due(steps, o, n) || Waits(steps, n, o) || (!Accepted(steps, o) && steps[o].expected != 0)
  {
    EveryRunAccounted(steps, n);
    var s := Run(steps, n);
    if Waits(steps, n, o) {
      assert IsWaiting(steps, n, steps[o].result.key, s.pending[steps[o].result.key]);
    }
    if Due(steps, o, n) {
      OnceOut(s.out, o);
    } else {
      if InOut(s.out, o) {
        OnlyDueIsOut(steps, n, o);
      }
      NoneOut(s.out, o);
    }
  }

  lemma OnlyDueIsOut(steps: seq<Step>, n: nat, o: nat)
    requires o < n <= |steps| && OutSound(steps, n) && InOut(Run(steps, n).out, o)
    ensures Due(steps, o, n)
  {
    var out := Run(steps, n).out;
    var p :| 0 <= p < |out| && out[p].origin == o;
    assert IsPublished(steps, n, out[p]);
    if steps[o].expected != 0 {
      var j: nat :| EndsBefore(steps, o, j, n);
    }
  }

  /** A waiting entry is short of attributes. */
  lemma {:induction false} WaitingIsShort(steps: seq<Step>, o: nat, n: nat)
    requires o < n <= |steps| && Registers(steps, o) && Open(steps, o, n) && steps[o].expected > 0
    ensures |Attrs(steps, o, n)| < steps[o].expected
  {
    if n > o + 1 {
      WaitingIsShort(steps, o, n - 1);
      assert !ClosesAt(steps, o, n - 1);
    }
  }

  ghost predicate NoDeadline(steps: seq<Step>, o: nat, n: nat)
    requires Registers(steps, o) && n <= |steps|
  {
    forall j :: o < j < n ==> steps[j] != Expire(steps[o].result.key)
  }

  /** While its deadline does not pass, a registration leaves exactly at its last attribute. */
  lemma {:induction false} PublishedWhenAnswered(steps: seq<Step>, o: nat, n: nat)
    requires o < n <= |steps| && Registers(steps, o) && steps[o].expected > 0 && NoDeadline(steps, o, n)
    ensures Open(steps, o, n) <==> |Attrs(steps, o, n)| < steps[o].expected
  {
    if Open(steps, o, n) {
      WaitingIsShort(steps, o, n);
    } else if n > o + 1 {
      if Open(steps, o, n - 1) {
        assert ClosesAt(steps, o, n - 1);
      } else {
        PublishedWhenAnswered(steps, o, n - 1);
      }
    }
  }

  lemma {:induction false} AttrsGrow(steps: seq<Step>, o: nat, j: nat, n: nat)
    requires Registers(steps, o) && o < j <= n <= |steps|
    ensures Attrs(steps, o, j) <= Attrs(steps, o, n)
  {
    if j < n {
      AttrsGrow(steps, o, j, n - 1);
    }
  }

  /** With as many attributes as expected and no deadline, the result is out, once, with all of them. */
  lemma PublishedInFull(steps: seq<Step>, o: nat, n: nat)
    requires o < n <= |steps| && Accepted(steps, o) && steps[o].expected > 0 && NoDeadline(steps, o, n)
    requires |Attrs(steps, o, n)| == steps[o].expected
    ensures Times(Run(steps, n).out, o) == 1
    ensures Publication(o, SetAll(steps[o].result, Attrs(steps, o, n))) in Run(steps, n).out
  {
    PublishedWhenAnswered(steps, o, n);
    Conservation(steps, n, o);
    var p := FindPublication(steps, o, n);
    var out := Run(steps, n).out;
    var j: nat :| EndsBefore(steps, o, j, n) && out[p].result == Waiting(steps, o, j + 1).result;
    ClosedInFull(steps, o, j, n);
    assert out[p] == Publication(o, SetAll(steps[o].result, Attrs(steps, o, n)));
  }

  /** A registration that is due and waited for something is found in the output. */
  lemma FindPublication(steps: seq<Step>, o: nat, n: nat) returns (p: nat)
    requires o < n <= |steps| && Accepted(steps, o) && !Open(steps, o, n)
    ensures p < |Run(steps, n).out| && Run(steps, n).out[p].origin == o
    ensures exists j: nat ::
      EndsBefore(steps, o, j, n) && Run(steps, n).out[p].result == Waiting(steps, o, j + 1).result
  {
    EveryRunAccounted(steps, n);
    var out := Run(steps, n).out;
    assert Due(steps, o, n);
    assert InOut(out, o);
    p :| 0 <= p < |out| && out[p].origin == o;
    assert IsPublished(steps, n, out[p]);
  }

  /** Closed by its last attribute, the entry has them all. */
  lemma ClosedInFull(steps: seq<Step>, o: nat, j: nat, n: nat)
    requires Registers(steps, o) && o < n <= |steps| && EndsBefore(steps, o, j, n) && NoDeadline(steps, o, n)
    requires |Attrs(steps, o, n)| == steps[o].expected
    ensures Attrs(steps, o, j + 1) == Attrs(steps, o, n)
  {
    AttrsGrow(steps, o, j + 1, n);
    assert steps[j] != Expire(steps[o].result.key);
  }

  /** An attribute stays unless a later one for the same detection has the same name. */
  lemma {:induction false} AttributeStays(r: InferResult, attrs: seq<Attr>, i: nat)
    requires i < |attrs| && 0 <= attrs[i].det < |r.dets|
    requires forall k :: i < k < |attrs| ==> (attrs[k].det, attrs[k].name) != (attrs[i].det, attrs[i].name)
    ensures |SetAll(r, attrs).dets| == |r.dets|
    ensures var m := SetAll(r, attrs).dets[attrs[i].det].attributes;
      attrs[i].name in m && m[attrs[i].name] == attrs[i].value
  {
    var k := |attrs| - 1;
    SameCount(r, attrs[..k]);
    if i < k {
      AttributeStays(r, attrs[..k], i);
    }
  }

  /** The last value that `attrs` give detection `d` under a name, if any. */
  ghost predicate LastGiven(attrs: seq<Attr>, d: int, name: string, value: string) {
    exists i: nat :: i < |attrs| && GivenLast(attrs, i, d, name) && attrs[i].value == value
  }

  ghost predicate GivenLast(attrs: seq<Attr>, i: nat, d: int, name: string)
    requires i < |attrs|
  {
    && attrs[i].det == d && attrs[i].name == name
    && forall k :: i < k < |attrs| ==> !(attrs[k].det == d && attrs[k].name == name)
  }

  ghost predicate NeverGiven(attrs: seq<Attr>, d: int, name: string) {
    forall k :: 0 <= k < |attrs| ==> !(attrs[k].det == d && attrs[k].name == name)
  }

  /** Writing attributes changes attributes alone: each name of each detection has the value it was given
      last, and its old one, or none, if it was given none. */
  lemma {:induction false} AttributesExact(r: InferResult, attrs: seq<Attr>, d: nat, name: string)
    requires d < |r.dets|
    ensures SetAll(r, attrs).key == r.key && |SetAll(r, attrs).dets| == |r.dets|
    ensures var before, after := r.dets[d], SetAll(r, attrs).dets[d];
      && after.classId == before.classId && after.confidence == before.confidence && after.bbox == before.bbox
      && after.trackId == before.trackId
      && (NeverGiven(attrs, d, name) ==>
            if name in before.attributes
            then name in after.attributes && after.attributes[name] == before.attributes[name]
            else name !in after.attributes)
      && (!NeverGiven(attrs, d, name) ==>
            name in after.attributes && LastGiven(attrs, d, name, after.attributes[name]))
  {
    if attrs != [] {
      var k := |attrs| - 1;
      var less := attrs[..k];
      AttributesExact(r, less, d, name);
      if attrs[k].det == d && attrs[k].name == name {
        assert GivenLast(attrs, k, d, name);
      } else if !NeverGiven(less, d, name) {
        var i: nat :| i < k && GivenLast(less, i, d, name)
                      && less[i].value == SetAll(r, less).dets[d].attributes[name];
        assert GivenLast(attrs, i, d, name);
      } else {
        assert NeverGiven(attrs, d, name) by {
          forall j | 0 <= j < |attrs| ensures !(attrs[j].det == d && attrs[j].name == name) {
            assert j < k ==> less[j] == attrs[j];
          }
        }
      }
    }
  }

  lemma {:induction false} SameCount(r: InferResult, attrs: seq<Attr>)
    ensures |SetAll(r, attrs).dets| == |r.dets|
  {
    if attrs != [] {
      SameCount(r, attrs[..|attrs| - 1]);
    }
  }

  // ---------------------------------------------------------------- the merger as an object

  datatype PendingEntry = PendingEntry(result: InferResult, expected: int, received: int)

  function Bare(e: Entry): PendingEntry { PendingEntry(e.result, e.expected, e.received) }

  function Results(out: seq<Publication>): seq<InferResult> {
    if out == [] then [] else Results(out[..|out| - 1]) + [out[|out| - 1].result]
  }

  lemma ResultsMore(out: seq<Publication>, p: Publication)
    ensures Results(out + [p]) == Results(out) + [p.result]
  {
    assert (out + [p])[..|out|] == out;
  }

  lemma {:induction false} RunPrefix(steps: seq<Step>, more: seq<Step>, n: nat)
    requires n <= |steps|
    ensures Run(steps + more, n) == Run(steps, n)
  {
    if n > 0 {
      RunPrefix(steps, more, n - 1);
    }
  }

  ghost predicate Matches(pending: map<string, PendingEntry>, published: seq<InferResult>, s: State) {
    && pending.Keys == s.pending.Keys
    && (forall k :: k in pending ==> pending[k] == Bare(s.pending[k]))
    && published == Results(s.out)
  }

  class ResultMerger {
    var pending: map<string, PendingEntry>
    var published: seq<InferResult>
    ghost var history: seq<Step>

    /** The table and what was handed to the publisher are those of the calls so far. */
    ghost predicate Valid() reads this {
      Matches(pending, published, Run(history, |history|))
    }

    constructor ()
      ensures Valid() && history == []
    {
      pending, published, history := map[], [], [];
    }

    ghost method Record(step: Step)
      modifies this`history
      ensures history == old(history) + [step]
      ensures Run(history, |history|) == Next(old(Run(history, |history|)), step, |old(history)|)
    {
      RunPrefix(history, [step], |history|);
      history := history + [step];
    }

    /** `registerPrimary` */
    method RegisterPrimary(result: InferResult, expected: int)
      requires Valid()
      modifies this
      ensures Valid() && history == old(history) + [Register(result, expected)]
    {
      ghost var s := Run(history, |history|);
      Record(Register(result, expected));
      if expected == 0 {
        ResultsMore(s.out, Publication(|old(history)|, result));
        published := published + [result];
        return;
      }
      if result.key !in pending {
        pending := pending[result.key := PendingEntry(result, expected, 0)];
      }
    }

    /** `publishAndErase` */
    method PublishAndErase(key: string, ghost s: State)
      requires key in pending && Matches(pending, published, s)
      modifies this`pending, this`published
      ensures Matches(pending, published, Close(s, s.pending[key], key))
      ensures pending == old(pending) - {key}
    {
      ResultsMore(s.out, Publication(s.pending[key].origin, s.pending[key].result));
      published := published + [pending[key].result];
      pending := pending - {key};
    }

    /** `addAttribute` */
    method AddAttribute(a: Attr)
      requires Valid()
      modifies this
      ensures Valid() && history == old(history) + [Attribute(a)]
    {
      ghost var s := Run(history, |history|);
      Record(Attribute(a));
      if a.key !in pending {
        return;
      }
      var entry := pending[a.key];
      if 0 <= a.det < |entry.result.dets| {
        var d := entry.result.dets[a.det];
        d := d.(attributes := d.attributes[a.name := a.value]);
        entry := entry.(result := entry.result.(dets := entry.result.dets[a.det := d]));
      }
      entry := entry.(received := entry.received + 1);
      pending := pending[a.key := entry];
      if entry.received >= entry.expected {
        ghost var e := s.pending[a.key];
        ghost var f := Entry(e.origin, SetAttribute(e.result, a), e.expected, e.received + 1);
        PublishAndErase(a.key, s.(pending := s.pending[a.key := f]));
        assert s.pending[a.key := f] - {a.key} == s.pending - {a.key};
      }
    }

    /** `flushExpired`: `expired` are the keys whose deadline the clock says has passed. */
    method FlushExpired(expired: set<string>) returns (ghost order: seq<string>)
      requires Valid()
      modifies this
      ensures Valid() && pending == old(pending) - expired
      ensures history == old(history) + Expiries(order)
      ensures forall k :: k in order <==> k in old(pending) && k in expired
    {
      order := [];
      var left := pending.Keys;
      while left != {}
        invariant Valid() && left <= old(pending.Keys)
        invariant pending == old(pending) - ((old(pending.Keys) - left) * expired)
        invariant history == old(history) + Expiries(order)
        invariant forall k :: k in order <==> k in old(pending) && k in expired && k !in left
        decreases left
      {
        var k :| k in left;
        if k in expired {
          ghost var s := Run(history, |history|);
          Record(Expire(k));
          PublishAndErase(k, s);
          assert Expiries(order + [k]) == Expiries(order) + [Expire(k)];
          order := order + [k];
        }
        left := left - {k};
      }
    }
  }

  ghost function Expiries(order: seq<string>): seq<Step> {
    seq(|order|, i requires 0 <= i < |order| => Expire(order[i]))
  }
}
