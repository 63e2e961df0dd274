/**
 Permutations of an index range and sums taken along them: the arithmetic that
 turns dual potentials into a lower bound on every assignment.
 */
module Permutations {

  ghost predicate Distinct<T>(s: seq<T>) {
    forall i, j :: 0 <= i < j < |s| ==> s[i] != s[j]
  }

  ghost predicate Below(s: seq<nat>, n: nat) {
    forall i :: 0 <= i < |s| ==> s[i] < n
  }

  /** `s` lists every number below `n` exactly once. */
  ghost predicate IsPerm(s: seq<nat>, n: nat) {
    |s| == n && Below(s, n) && Distinct(s)
  }

  function Sum(f: seq<real>): real {
    if f == [] then 0.0 else Sum(f[..|f| - 1]) + f[|f| - 1]
  }

  /** The sum of `f` read at the positions that `s` lists. */
  ghost function SumAt(f: seq<real>, s: seq<nat>): real
    requires Below(s, |f|)
  {
    if s == [] then 0.0 else SumAt(f, s[..|s| - 1]) + f[s[|s| - 1]]
  }

  /** Moving the value `n` out of position `k` and dropping the last place leaves numbers below `n`. */
  ghost function Drop(s: seq<nat>, k: nat): (r: seq<nat>)
    requires k < |s|
    ensures |r| == |s| - 1
  {
    s[k := s[|s| - 1]][..|s| - 1]
  }

  lemma {:induction false} PigeonHole(s: seq<nat>, n: nat)
    requires Distinct(s) && Below(s, n)
    ensures |s| <= n
    decreases n
  {
    if s != [] {
      assert n > 0 by { assert s[0] < n; }
      if n - 1 in s {
        var k :| 0 <= k < |s| && s[k] == n - 1;
        PigeonHole(Drop(s, k), n - 1);
      } else {
        PigeonHole(s, n - 1);
      }
    }
  }

  lemma PermHits(s: seq<nat>, n: nat, x: nat)
    requires IsPerm(s, n) && x < n
    ensures x in s
  {
    if x !in s {
      PigeonHole(s + [x], n);
    }
  }

  /** A list that mentions every number below `n` has at least `n` entries. */
  lemma CoverSize(s: seq<nat>, n: nat)
    requires forall x: nat :: x < n ==> x in s
    ensures |s| >= n
  {
    var places := Places(s, n);
    PigeonHole(places, |s|);
  }

  lemma {:induction false} Places(s: seq<nat>, n: nat) returns (places: seq<nat>)
    requires forall x: nat :: x < n ==> x in s
    ensures |places| == n && Below(places, |s|) && Distinct(places)
    ensures forall x :: 0 <= x < n ==> s[places[x]] == x
  {
    if n == 0 {
      places := [];
    } else {
      places := Places(s, n - 1);
      assert n - 1 in s;
      var k: nat :| k < |s| && s[k] == n - 1;
      places := places + [k];
    }
  }

  lemma {:induction false} SumAtUpdate(f: seq<real>, s: seq<nat>, k: nat, x: nat)
    requires Below(s, |f|) && k < |s| && x < |f|
    ensures SumAt(f, s[k := x]) == SumAt(f, s) - f[s[k]] + f[x]
  {
    var m := |s| - 1;
    if k == m {
      assert s[k := x][..m] == s[..m];
    } else {
      SumAtUpdate(f, s[..m], k, x);
      assert s[k := x][..m] == s[..m][k := x];
    }
  }

  /** Summing along a permutation is summing once over the whole range. */
  lemma {:induction false} SumAtPerm(f: seq<real>, s: seq<nat>, n: nat)
    requires IsPerm(s, n) && n <= |f|
    ensures SumAt(f, s) == Sum(f[..n])
    decreases n
  {
    if n > 0 {
      PermHits(s, n, n - 1);
      var k :| 0 <= k < n && s[k] == n - 1;
      var swapped := s[k := s[n - 1]];
      SumAtUpdate(f, s, k, s[n - 1]);
      assert swapped[..n - 1] == Drop(s, k);
      SumAtPerm(f, Drop(s, k), n - 1);
      assert f[..n][..n - 1] == f[..n - 1];
    }
  }

  /** Rows of a partial injective column assignment; `Free` marks a free column. */
  datatype Slot = Free | Row(row: nat)

  ghost predicate PartialInjection(f: seq<Slot>, n: nat) {
    && |f| == n
    && (forall j :: 0 <= j < n && f[j].Row? ==> f[j].row < n)
    && (forall j, k :: 0 <= j < k < n && f[j].Row? && f[k].Row? ==> f[j].row != f[k].row)
  }

  /** A partial assignment with a free column has a free row. */
  lemma FreeRow(f: seq<Slot>, n: nat, k: nat) returns (r: nat)
    requires PartialInjection(f, n) && k < n && f[k].Free?
    ensures r < n && forall j :: 0 <= j < n && f[j].Row? ==> f[j].row != r
  {
    if forall r :: 0 <= r < n ==> exists j :: 0 <= j < n && f[j] == Row(r) {
      var cols := Columns(f, n, n, k);
      PigeonHole(cols + [k], n);
      assert false;
    }
    r :| 0 <= r < n && !exists j :: 0 <= j < n && f[j] == Row(r);
    forall j | 0 <= j < n && f[j].Row? ensures f[j].row != r {
      assert f[j] == Row(f[j].row);
    }
  }

  /** If every row below `m` is used, list the columns using them. */
  lemma {:induction false} Columns(f: seq<Slot>, n: nat, m: nat, k: nat) returns (cols: seq<nat>)
    requires PartialInjection(f, n) && m <= n && k < n && f[k].Free?
    requires forall r :: 0 <= r < n ==> exists j :: 0 <= j < n && f[j] == Row(r)
    ensures |cols| == m && Below(cols, n)
    ensures forall r :: 0 <= r < m ==> f[cols[r]] == Row(r)
    ensures Distinct(cols) && k !in cols
  {
    if m == 0 {
      cols := [];
    } else {
      cols := Columns(f, n, m - 1, k);
      var j: nat :| j < n && f[j] == Row(m - 1);
      cols := cols + [j];
    }
  }

  ghost function FreeCount(f: seq<Slot>): nat {
    |set j | 0 <= j < |f| && f[j].Free?|
  }

  /** Every partial injective assignment extends to a permutation. */
  lemma {:induction false} Complete(f: seq<Slot>, n: nat) returns (s: seq<nat>)
    requires PartialInjection(f, n)
    ensures IsPerm(s, n)
    ensures forall j :: 0 <= j < n && f[j].Row? ==> s[j] == f[j].row
    decreases FreeCount(f)
  {
    if forall j :: 0 <= j < n ==> f[j].Row? {
      s := seq(n, j requires 0 <= j < n => f[j].row);
    } else {
      var k :| 0 <= k < n && f[k].Free?;
      var r := FreeRow(f, n, k);
      var g := f[k := Row(r)];
      var before := set j | 0 <= j < |f| && f[j].Free?;
      var after := set j | 0 <= j < |g| && g[j].Free?;
      assert after == before - {k};
      s := Complete(g, n);
      assert forall j :: 0 <= j < n && f[j].Row? ==> g[j] == f[j];
    }
  }

  // ---------------------------------------------------------------- unions along a permutation

  ghost function UnionAt<T>(ms: seq<multiset<T>>, s: seq<nat>): multiset<T>
    requires Below(s, |ms|)
  {
    if s == [] then multiset{} else UnionAt(ms, s[..|s| - 1]) + ms[s[|s| - 1]]
  }

  ghost function Union<T>(ms: seq<multiset<T>>): multiset<T> {
    if ms == [] then multiset{} else Union(ms[..|ms| - 1]) + ms[|ms| - 1]
  }

  lemma Rebalance<T>(p: multiset<T>, a: multiset<T>, q: multiset<T>, x: multiset<T>, l: multiset<T>)
    requires p + a == q + x
    ensures p + l + a == q + l + x
  {
    assert p + l + a == (p + a) + l;
    assert q + l + x == (q + x) + l;
  }

  lemma {:induction false} UnionAtUpdate<T>(ms: seq<multiset<T>>, s: seq<nat>, k: nat, x: nat)
    requires Below(s, |ms|) && k < |s| && x < |ms|
    ensures UnionAt(ms, s[k := x]) + ms[s[k]] == UnionAt(ms, s) + ms[x]
  {
    var m := |s| - 1;
    if k == m {
      assert s[k := x][..m] == s[..m];
      var u := UnionAt(ms, s[..m]);
      assert u + ms[x] + ms[s[k]] == u + ms[s[k]] + ms[x];
    } else {
      UnionAtUpdate(ms, s[..m], k, x);
      assert s[k := x][..m] == s[..m][k := x];
      Rebalance(UnionAt(ms, s[..m][k := x]), ms[s[k]], UnionAt(ms, s[..m]), ms[x], ms[s[m]]);
    }
  }

  lemma Cancel<T>(u: multiset<T>, d: multiset<T>, a: multiset<T>, b: multiset<T>)
    requires d + a + b == u + a
    ensures u == d + b
  {
    assert d + a + b == (d + b) + a;
    assert ((d + b) + a) - a == d + b;
    assert (u + a) - a == u;
  }

  lemma UnionAtMore<T>(ms: seq<multiset<T>>, s: seq<nat>, x: nat)
    requires Below(s, |ms|) && x < |ms|
    ensures UnionAt(ms, s + [x]) == UnionAt(ms, s) + ms[x]
  {
    assert (s + [x])[..|s|] == s;
  }

  lemma UnionAtDrop<T>(ms: seq<multiset<T>>, s: seq<nat>, k: nat)
    requires Below(s, |ms|) && k < |s|
    ensures UnionAt(ms, s[k := s[|s| - 1]]) == UnionAt(ms, Drop(s, k)) + ms[s[|s| - 1]]
  {
    var swapped := s[k := s[|s| - 1]];
    assert swapped[..|swapped| - 1] == Drop(s, k);
  }

  /** Dropping place `k` loses exactly what it names. */
  lemma UnionAtStep<T>(ms: seq<multiset<T>>, s: seq<nat>, k: nat)
    requires Below(s, |ms|) && k < |s|
    ensures UnionAt(ms, s) == UnionAt(ms, Drop(s, k)) + ms[s[k]]
  {
    var last := s[|s| - 1];
    UnionAtUpdate(ms, s, k, last);
    UnionAtDrop(ms, s, k);
    Cancel(UnionAt(ms, s), UnionAt(ms, Drop(s, k)), ms[last], ms[s[k]]);
  }

  /** A permutation collects every member once, in whatever order. */
  lemma {:induction false} UnionAtPerm<T>(ms: seq<multiset<T>>, s: seq<nat>, n: nat)
    requires IsPerm(s, n) && n <= |ms|
    ensures UnionAt(ms, s) == Union(ms[..n])
    decreases n
  {
    if n > 0 {
      PermHits(s, n, n - 1);
      var k :| 0 <= k < n && s[k] == n - 1;
      UnionAtStep(ms, s, k);
      UnionAtPerm(ms, Drop(s, k), n - 1);
      assert ms[..n][..n - 1] == ms[..n - 1];
    }
  }
}
