/**
 The primal-dual Hungarian method that `linearAssign` runs on its square cost
 matrix (src/tracker/ByteTrackTracker.cpp:53-96), on work arrays indexed from 1.

 `u` and `v` are dual potentials; `p[j]` is the row matched to column `j`, 0 for a
 free column, and `p[0]` holds the row being inserted.  One row is inserted by
 growing a tree of columns whose connecting edges have zero slack, until a free
 column joins it, and then flipping the path back to column 0.
 */
module Hungarian {
  import opened Permutations

  type Matrix = seq<seq<real>>

  /** The cost of a gated pair; no entry of the matrix exceeds it. */
  const LARGE_COST := 1000000.0
  /** numeric_limits<float>::max(). */
  const FLOAT_MAX := 340282346638528859811704183484516925440.0

  ghost predicate IsCostMatrix(c: Matrix, n: nat) {
    && |c| == n
    && (forall i :: 0 <= i < n ==> |c[i]| == n)
    && (forall i, j :: 0 <= i < n && 0 <= j < n ==> 0.0 <= c[i][j] <= LARGE_COST)
  }

  /** The total cost of giving column `j` the row `s[j]`. */
  ghost function Total(c: Matrix, s: seq<nat>): real
    requires forall i :: 0 <= i < |c| ==> |c[i]| >= |s|
    requires Below(s, |c|)
  {
    if s == [] then 0.0 else
    var k := |s| - 1;
    Total(c, s[..k]) + c[s[k]][k]
  }

  // ---------------------------------------------------------------- dual certificate

  ghost function Slack(c: Matrix, u: seq<real>, v: seq<real>, i: nat, j: nat): real
    requires 1 <= i <= |c| && 1 <= j <= |c[i - 1]| && i < |u| && j < |v|
  {
    c[i - 1][j - 1] - u[i] - v[j]
  }

  ghost predicate Feasible(c: Matrix, u: seq<real>, v: seq<real>, n: nat)
    requires IsCostMatrix(c, n) && |u| == |v| == n + 1
  {
    forall i, j :: 1 <= i <= n && 1 <= j <= n ==> Slack(c, u, v, i, j) >= 0.0
  }

  /** Every matched column other than the hole `h` is matched along a zero-slack edge. */
  ghost predicate Tight(c: Matrix, u: seq<real>, v: seq<real>, p: seq<nat>, h: nat, n: nat)
    requires IsCostMatrix(c, n) && |u| == |v| == |p| == n + 1
  {
    forall j :: 1 <= j <= n && j != h && p[j] != 0 ==>
      p[j] <= n && Slack(c, u, v, p[j], j) == 0.0
  }

  /** Feasible potentials bound the cost of every assignment from below. */
  lemma {:induction false} DualBound(c: Matrix, u: seq<real>, v: seq<real>, s: seq<nat>, n: nat)
    requires IsCostMatrix(c, n) && |u| == |v| == n + 1 && Feasible(c, u, v, n)
    requires |s| <= n && Below(s, n)
    ensures Total(c, s) >= SumAt(u[1..], s) + Sum(v[1..][..|s|])
  {
    if s != [] {
      var k := |s| - 1;
      DualBound(c, u, v, s[..k], n);
      assert v[1..][..k + 1][..k] == v[1..][..k];
      assert Slack(c, u, v, s[k] + 1, k + 1) >= 0.0;
    }
  }

  lemma {:induction false} DualExact(c: Matrix, u: seq<real>, v: seq<real>, s: seq<nat>, n: nat)
    requires IsCostMatrix(c, n) && |u| == |v| == n + 1
    requires |s| <= n && Below(s, n)
    requires forall j :: 0 <= j < |s| ==> Slack(c, u, v, s[j] + 1, j + 1) == 0.0
    ensures Total(c, s) == SumAt(u[1..], s) + Sum(v[1..][..|s|])
  {
    if s != [] {
      var k := |s| - 1;
      DualExact(c, u, v, s[..k], n);
      assert v[1..][..k + 1][..k] == v[1..][..k];
      assert Slack(c, u, v, s[k] + 1, k + 1) == 0.0;
    }
  }

  ghost predicate Optimal(c: Matrix, s: seq<nat>, n: nat)
    requires IsCostMatrix(c, n)
  {
    IsPerm(s, n) && forall t :: IsPerm(t, n) ==> Total(c, s) <= Total(c, t)
  }

  /** Complementary slackness: a permutation along zero-slack edges is a cheapest one. */
  lemma CertificateIsOptimal(c: Matrix, u: seq<real>, v: seq<real>, s: seq<nat>, n: nat)
    requires IsCostMatrix(c, n) && |u| == |v| == n + 1 && Feasible(c, u, v, n)
    requires IsPerm(s, n)
    requires forall j :: 0 <= j < n ==> Slack(c, u, v, s[j] + 1, j + 1) == 0.0
    ensures Optimal(c, s, n)
  {
    DualExact(c, u, v, s, n);
    SumAtPerm(u[1..], s, n);
    forall t | IsPerm(t, n) ensures Total(c, s) <= Total(c, t) {
      DualBound(c, u, v, t, n);
      SumAtPerm(u[1..], t, n);
    }
  }

  // ---------------------------------------------------------------- the matching

  /** Away from the hole `h`, `p` and `col` are inverse bijections between the
      matched columns of 0..n and the rows 1..i. */
  ghost predicate Inverse(p: seq<nat>, col: seq<nat>, h: nat, i: nat, n: nat) {
    && |p| == |col| == n + 1 && i <= n
    && (forall r :: 1 <= r <= i ==> col[r] <= n && col[r] != h && p[col[r]] == r)
    && (forall j :: 0 <= j <= n && j != h && p[j] != 0 ==> p[j] <= i && col[p[j]] == j)
  }

  /** What holds between two row insertions, once rows 1..i are matched. */
  ghost predicate Settled(c: Matrix, u: seq<real>, v: seq<real>, p: seq<nat>, col: seq<nat>, i: nat, n: nat) {
    && IsCostMatrix(c, n) && |u| == |v| == n + 1
    && Inverse(p, col, 0, i, n)
    && Feasible(c, u, v, n) && Tight(c, u, v, p, 0, n)
    && Signs(u, v, p, i, n)
  }

  /** Rows not yet inserted have potential 0, columns are non-positive, free columns are 0. */
  ghost predicate Signs(u: seq<real>, v: seq<real>, p: seq<nat>, i: nat, n: nat)
    requires |u| == |v| == |p| == n + 1
  {
    && (forall r :: i < r <= n ==> u[r] == 0.0)
    && (forall j :: 1 <= j <= n ==> v[j] <= 0.0 && (p[j] == 0 ==> v[j] == 0.0))
  }

  /** While a column is free, no column potential falls below minus the largest cost. */
  lemma PotentialBound(c: Matrix, u: seq<real>, v: seq<real>, p: seq<nat>, col: seq<nat>, i: nat, n: nat)
    requires Settled(c, u, v, p, col, i, n) && i < n
    ensures forall j :: 1 <= j <= n ==> v[j] >= -LARGE_COST
  {
    var free := FreeColumn(p, col, i, n);
    forall j | 1 <= j <= n && p[j] != 0 ensures v[j] >= -LARGE_COST {
      assert Slack(c, u, v, p[j], free) >= 0.0;
      assert Slack(c, u, v, p[j], j) == 0.0;
    }
  }

  lemma FreeColumn(p: seq<nat>, col: seq<nat>, i: nat, n: nat) returns (j: nat)
    requires Inverse(p, col, 0, i, n) && i < n
    ensures 1 <= j <= n && p[j] == 0
  {
    if forall j :: 1 <= j <= n ==> p[j] != 0 {
      var rows := seq(n, j requires 0 <= j < n => (p[j + 1] - 1) as nat);
      forall a, b | 0 <= a < b < n ensures rows[a] != rows[b] {
        assert col[p[a + 1]] == a + 1 && col[p[b + 1]] == b + 1;
      }
      PigeonHole(rows, i);
      assert false;
    }
    j :| 1 <= j <= n && p[j] == 0;
  }

  // ---------------------------------------------------------------- the alternating tree

  /** `order` lists the tree columns in the order they joined, column 0 first; each
      later one hangs by a zero-slack edge from the row of an earlier one. */
  ghost predicate Tree(c: Matrix, u: seq<real>, v: seq<real>, p: seq<nat>, way: seq<nat>, order: seq<nat>, n: nat)
    requires IsCostMatrix(c, n) && |u| == |v| == |p| == |way| == n + 1
  {
    && Below(order, n + 1) && Distinct(order)
    && (order != [] ==> order[0] == 0)
    && (forall t :: 0 <= t < |order| ==> 1 <= p[order[t]] <= n)
    && (forall t :: 1 <= t < |order| ==> Hangs(c, u, v, p, way, order[..t], order[t], n))
  }

  /** Column `j` hangs by a zero-slack edge from a column of `tree`. */
  ghost predicate Hangs(c: Matrix, u: seq<real>, v: seq<real>, p: seq<nat>, way: seq<nat>, tree: seq<nat>, j: nat,
                        n: nat)
    requires IsCostMatrix(c, n) && |u| == |v| == |p| == |way| == n + 1
  {
    && 1 <= j <= n && way[j] in tree && way[j] <= n && 1 <= p[way[j]] <= n
    && Slack(c, u, v, p[way[j]], j) == 0.0
  }

  /** `minv[j]` is the least slack from a tree row to the outside column `j`, reached at `way[j]`. */
  ghost predicate Frontier(c: Matrix, u: seq<real>, v: seq<real>, p: seq<nat>, way: seq<nat>, minv: seq<real>,
                           order: seq<nat>, n: nat)
    requires IsCostMatrix(c, n) && |u| == |v| == |p| == |way| == |minv| == n + 1
    requires Tree(c, u, v, p, way, order, n)
  {
    forall j :: 1 <= j <= n && j !in order ==> Nearest(c, u, v, p, way, minv, order, j, n)
  }

  ghost predicate Nearest(c: Matrix, u: seq<real>, v: seq<real>, p: seq<nat>, way: seq<nat>, minv: seq<real>,
                          order: seq<nat>, j: nat, n: nat)
    requires IsCostMatrix(c, n) && |u| == |v| == |p| == |way| == |minv| == n + 1 && 1 <= j <= n
    requires Below(order, n + 1) && forall t :: 0 <= t < |order| ==> 1 <= p[order[t]] <= n
  {
    && way[j] in order
    && minv[j] == Slack(c, u, v, p[way[j]], j)
    && minv[j] <= 2.0 * LARGE_COST
    && (forall t :: 0 <= t < |order| ==> minv[j] <= Slack(c, u, v, p[order[t]], j))
  }

  ghost predicate Marks(used: seq<bool>, order: seq<nat>, n: nat) {
    |used| == n + 1 && forall j :: 0 <= j <= n ==> (used[j] <==> j in order)
  }

  /** The tree rows are distinct rows of 1..n, so some column is still outside. */
  lemma OutsideColumn(p: seq<nat>, col: seq<nat>, order: seq<nat>, i: nat, n: nat) returns (j: nat)
    requires Inverse(p, col, n + 1, i, n)
    requires Below(order, n + 1) && Distinct(order)
    requires forall t :: 0 <= t < |order| ==> p[order[t]] != 0
    requires 0 in order
    ensures 1 <= j <= n && j !in order
  {
    var rows := seq(|order|, t requires 0 <= t < |order| => (p[order[t]] - 1) as nat);
    forall a, b | 0 <= a < b < |order| ensures rows[a] != rows[b] {
      assert col[p[order[a]]] == order[a] && col[p[order[b]]] == order[b];
    }
    PigeonHole(rows, i);
    if forall j :: 1 <= j <= n ==> j in order {
      CoverSize(order, n + 1);
      assert false;
    }
    j :| 1 <= j <= n && j !in order;
  }

  // ---------------------------------------------------------------- one round of tree growth

  /** Column `j` was offered the new tree row `p[j0]`: it takes the smaller slack. */
  ghost predicate Offered(c: Matrix, u: seq<real>, v: seq<real>, p: seq<nat>, way: seq<nat>, minv: seq<real>,
                          way': seq<nat>, minv': seq<real>, j0: nat, j: nat, n: nat)
    requires IsCostMatrix(c, n) && |u| == |v| == |p| == |way| == |minv| == |way'| == |minv'| == n + 1
    requires j0 <= n && 1 <= p[j0] <= n && 1 <= j <= n
  {
    var cur := Slack(c, u, v, p[j0], j);
    if cur < minv[j] then minv'[j] == cur && way'[j] == j0 else minv'[j] == minv[j] && way'[j] == way[j]
  }

  /** What a scan from `j0` leaves behind: every outside column was offered the row
      `p[j0]`, nothing else changed, and `j1` is a nearest outside column. */
  ghost predicate Scanned(c: Matrix, u: seq<real>, v: seq<real>, p: seq<nat>, used: seq<bool>, way: seq<nat>,
                          minv: seq<real>, way': seq<nat>, minv': seq<real>, j0: nat, delta: real, j1: nat, n: nat)
    requires IsCostMatrix(c, n)
    requires |u| == |v| == |p| == |used| == |way| == |minv| == |way'| == |minv'| == n + 1
    requires j0 <= n && 1 <= p[j0] <= n
  {
    && (forall j :: 1 <= j <= n && !used[j] ==> Offered(c, u, v, p, way, minv, way', minv', j0, j, n))
    && (forall j :: 0 <= j <= n && (j == 0 || used[j]) ==> way'[j] == way[j])
    && 1 <= j1 <= n && !used[j1] && delta == minv'[j1]
    && (forall j :: 1 <= j <= n && !used[j] ==> delta <= minv'[j])
  }

  /** The first inner loop: offers every outside column the new tree row `p[j0]`
      and picks the column nearest to the tree. */
  method ScanColumns(c: Matrix, u: array<real>, v: array<real>, p: array<nat>, used: array<bool>,
                     minv: array<real>, way: array<nat>, j0: nat, n: nat, ghost outside: nat)
    returns (delta: real, j1: nat)
    requires IsCostMatrix(c, n)
    requires u.Length == v.Length == p.Length == used.Length == minv.Length == way.Length == n + 1
    requires minv != u && minv != v && way != p
    requires j0 <= n && 1 <= p[j0] <= n
    requires 1 <= outside <= n && !used[outside]
    requires minv[outside] < FLOAT_MAX || Slack(c, u[..], v[..], p[j0], outside) < FLOAT_MAX
    modifies minv, way
    ensures Scanned(c, u[..], v[..], p[..], used[..], old(way[..]), old(minv[..]), way[..], minv[..], j0, delta, j1, n)
  {
    var i0 := p[j0];
    delta := FLOAT_MAX;
    j1 := 0;
    var j := 1;
    while j <= n
      invariant 1 <= j <= n + 1
      invariant forall k :: 1 <= k < j && !used[k] ==>
        var cur := Slack(c, u[..], v[..], i0, k);
        if cur < old(minv[k]) then minv[k] == cur && way[k] == j0
        else minv[k] == old(minv[k]) && way[k] == old(way[k])
      invariant forall k :: 0 <= k <= n && (k == 0 || used[k] || j <= k) ==>
        minv[k] == old(minv[k]) && way[k] == old(way[k])
      invariant forall k :: 1 <= k < j && !used[k] ==> delta <= minv[k]
      invariant if j1 == 0 then delta == FLOAT_MAX else 1 <= j1 < j && !used[j1] && delta == minv[j1]
      invariant j > outside ==> delta < FLOAT_MAX
    {
      if !used[j] {
        var cur := c[i0 - 1][j - 1] - u[i0] - v[j];
        if cur < minv[j] {
          minv[j] := cur;
          way[j] := j0;
        }
        if minv[j] < delta {
          delta := minv[j];
          j1 := j;
        }
      }
      j := j + 1;
    }
  }

  /** Raising tree rows and lowering tree columns by `delta`, pointwise. */
  ghost predicate Shifted(u: seq<real>, v: seq<real>, minv: seq<real>, u': seq<real>, v': seq<real>, minv': seq<real>,
                          col: seq<nat>, used: seq<bool>, delta: real, i: nat, n: nat)
  {
    && |u| == |v| == |minv| == |u'| == |v'| == |minv'| == |col| == |used| == n + 1 && i <= n
    && (forall r :: 1 <= r <= n ==>
          (r <= i ==> col[r] <= n) && u'[r] == if r <= i && used[col[r]] then u[r] + delta else u[r])
    && (forall j :: 1 <= j <= n ==> v'[j] == if used[j] then v[j] - delta else v[j])
    && (forall j :: 1 <= j <= n && !used[j] ==> minv'[j] == minv[j] - delta)
  }

  /** The second inner loop. */
  method ShiftPotentials(u: array<real>, v: array<real>, p: array<nat>, used: array<bool>, minv: array<real>,
                         delta: real, n: nat, ghost col: seq<nat>, ghost i: nat)
    requires u.Length == v.Length == p.Length == used.Length == minv.Length == n + 1
    requires u != v && v != minv && u != minv
    requires Inverse(p[..], col, n + 1, i, n)
    requires forall j :: 0 <= j <= n && used[j] ==> p[j] != 0
    modifies u, v, minv
    ensures Shifted(old(u[..]), old(v[..]), old(minv[..]), u[..], v[..], minv[..], col, used[..], delta, i, n)
  {
    var j := 0;
    while j <= n
      invariant 0 <= j <= n + 1
      invariant forall r :: 1 <= r <= n ==>
        u[r] == if r <= i && used[col[r]] && col[r] < j then old(u[r]) + delta else old(u[r])
      invariant forall k :: 0 <= k <= n ==> v[k] == if used[k] && k < j then old(v[k]) - delta else old(v[k])
      invariant forall k :: 0 <= k <= n ==> minv[k] == if !used[k] && k < j then old(minv[k]) - delta else old(minv[k])
    {
      if used[j] {
        assert p[..][j] == p[j] && col[p[j]] == j;
        u[p[j]] := u[p[j]] + delta;
        v[j] := v[j] - delta;
      } else {
        minv[j] := minv[j] - delta;
      }
      j := j + 1;
    }
  }

  lemma TreeGrows(c: Matrix, u: seq<real>, v: seq<real>, p: seq<nat>, way: seq<nat>, way': seq<nat>,
                  order: seq<nat>, j0: nat, n: nat)
    requires IsCostMatrix(c, n) && |u| == |v| == |p| == |way| == |way'| == n + 1
    requires Tree(c, u, v, p, way, order, n)
    requires j0 <= n && j0 !in order && 1 <= p[j0] <= n
    requires if order == [] then j0 == 0 else Hangs(c, u, v, p, way, order, j0, n)
    requires forall j :: 0 <= j <= n && (j in order || j == j0) ==> way'[j] == way[j]
    ensures Tree(c, u, v, p, way', order + [j0], n)
  {
    var wider := order + [j0];
    forall t | 1 <= t < |wider| ensures Hangs(c, u, v, p, way', wider[..t], wider[t], n) {
      if t < |order| {
        assert wider[..t] == order[..t];
        assert Hangs(c, u, v, p, way, order[..t], order[t], n);
      } else {
        assert wider[..t] == order;
      }
    }
  }

  /** Adding `j0` to the tree and offering its row to the outside keeps the frontier exact. */
  lemma ScanKeepsFrontier(c: Matrix, u: seq<real>, v: seq<real>, p: seq<nat>, way: seq<nat>, minv: seq<real>,
                          way': seq<nat>, minv': seq<real>, order: seq<nat>, j0: nat, n: nat)
    requires IsCostMatrix(c, n) && |u| == |v| == |p| == |way| == |minv| == |way'| == |minv'| == n + 1
    requires Tree(c, u, v, p, way, order, n) && Tree(c, u, v, p, way', order + [j0], n)
    requires j0 <= n && 1 <= p[j0] <= n
    requires if order == [] then
               forall j :: 1 <= j <= n ==> minv[j] == FLOAT_MAX && Slack(c, u, v, p[j0], j) <= 2.0 * LARGE_COST
             else
               Frontier(c, u, v, p, way, minv, order, n)
    requires forall j :: 1 <= j <= n && j !in order && j != j0 ==> Offered(c, u, v, p, way, minv, way', minv', j0, j, n)
    ensures Frontier(c, u, v, p, way', minv', order + [j0], n)
  {
    var wider := order + [j0];
    forall j | 1 <= j <= n && j !in wider ensures Nearest(c, u, v, p, way', minv', wider, j, n) {
      assert j0 == wider[|order|];
      assert j !in order && j != j0;
      ColumnKeepsFrontier(c, u, v, p, way, minv, way', minv', order, j0, j, n);
    }
  }

  /** One outside column. */
  lemma ColumnKeepsFrontier(c: Matrix, u: seq<real>, v: seq<real>, p: seq<nat>, way: seq<nat>, minv: seq<real>,
                            way': seq<nat>, minv': seq<real>, order: seq<nat>, j0: nat, j: nat, n: nat)
    requires IsCostMatrix(c, n) && |u| == |v| == |p| == |way| == |minv| == |way'| == |minv'| == n + 1
    requires Tree(c, u, v, p, way, order, n) && j0 <= n && 1 <= p[j0] <= n && 1 <= j <= n && j !in order && j != j0
    requires if order == [] then minv[j] == FLOAT_MAX && Slack(c, u, v, p[j0], j) <= 2.0 * LARGE_COST
             else Frontier(c, u, v, p, way, minv, order, n)
    requires Offered(c, u, v, p, way, minv, way', minv', j0, j, n)
    ensures Below(order + [j0], n + 1) && forall t :: 0 <= t < |order + [j0]| ==> 1 <= p[(order + [j0])[t]] <= n
    ensures Nearest(c, u, v, p, way', minv', order + [j0], j, n)
  {
    var wider := order + [j0];
    assert wider[|order|] == j0;
    assert order != [] ==> Nearest(c, u, v, p, way, minv, order, j, n);
    forall t | 0 <= t < |wider| ensures minv'[j] <= Slack(c, u, v, p[wider[t]], j) {
      if t < |order| {
        assert wider[t] == order[t];
        assert minv[j] <= Slack(c, u, v, p[order[t]], j);
      }
    }
  }

  /** Lowering slack by the nearest column's distance keeps feasibility. */
  lemma ShiftKeepsFeasible(c: Matrix, u: seq<real>, v: seq<real>, minv: seq<real>, u': seq<real>, v': seq<real>,
                           minv': seq<real>, p: seq<nat>, col: seq<nat>, way: seq<nat>, order: seq<nat>,
                           used: seq<bool>, delta: real, i: nat, n: nat)
    requires IsCostMatrix(c, n) && |p| == |way| == n + 1
    requires Shifted(u, v, minv, u', v', minv', col, used, delta, i, n)
    requires Inverse(p, col, n + 1, i, n) && Marks(used, order, n)
    requires Tree(c, u, v, p, way, order, n) && Frontier(c, u, v, p, way, minv, order, n)
    requires Feasible(c, u, v, n)
    requires delta >= 0.0 && forall j :: 1 <= j <= n && !used[j] ==> delta <= minv[j]
    ensures Feasible(c, u', v', n)
  {
    forall r, j | 1 <= r <= n && 1 <= j <= n ensures Slack(c, u', v', r, j) >= 0.0 {
      assert Slack(c, u, v, r, j) >= 0.0;
      if r <= i && used[col[r]] && !used[j] {
        var t :| 0 <= t < |order| && order[t] == col[r];
        assert minv[j] <= Slack(c, u, v, p[order[t]], j);
      }
    }
  }

  /** Matched columns stay tight: row and column move together or not at all. */
  lemma ShiftKeepsTight(c: Matrix, u: seq<real>, v: seq<real>, minv: seq<real>, u': seq<real>, v': seq<real>,
                        minv': seq<real>, p: seq<nat>, col: seq<nat>, used: seq<bool>, delta: real, i: nat, n: nat)
    requires IsCostMatrix(c, n)
    requires Shifted(u, v, minv, u', v', minv', col, used, delta, i, n)
    requires Inverse(p, col, n + 1, i, n) && delta >= 0.0
    requires Tight(c, u, v, p, 0, n) && Signs(u, v, p, i, n)
    requires forall j :: 0 <= j <= n && used[j] ==> p[j] != 0
    ensures Tight(c, u', v', p, 0, n) && Signs(u', v', p, i, n)
  {
    forall j | 1 <= j <= n && p[j] != 0 ensures p[j] <= n && Slack(c, u', v', p[j], j) == 0.0 {
      assert col[p[j]] == j;
      assert Slack(c, u, v, p[j], j) == 0.0;
    }
  }

  /** Tree edges keep zero slack, the frontier stays exact, and `j1` now hangs from the tree. */
  lemma ShiftKeepsTree(c: Matrix, u: seq<real>, v: seq<real>, minv: seq<real>, u': seq<real>, v': seq<real>,
                       minv': seq<real>, p: seq<nat>, col: seq<nat>, way: seq<nat>, order: seq<nat>, used: seq<bool>,
                       delta: real, j1: nat, i: nat, n: nat)
    requires IsCostMatrix(c, n) && |p| == |way| == n + 1
    requires Shifted(u, v, minv, u', v', minv', col, used, delta, i, n)
    requires Inverse(p, col, n + 1, i, n) && Marks(used, order, n)
    requires Tree(c, u, v, p, way, order, n) && Frontier(c, u, v, p, way, minv, order, n)
    requires delta >= 0.0 && 1 <= j1 <= n && !used[j1] && delta == minv[j1]
    ensures Tree(c, u', v', p, way, order, n) && Frontier(c, u', v', p, way, minv', order, n)
    ensures Hangs(c, u', v', p, way, order, j1, n)
  {
    forall t | 0 <= t < |order|
      ensures u'[p[order[t]]] == u[p[order[t]]] + delta
    {
      assert col[p[order[t]]] == order[t];
    }
    ShiftKeepsEdges(c, u, v, u', v', p, way, order, used, delta, n);
    ShiftKeepsFrontier(c, u, v, minv, u', v', minv', p, way, order, used, delta, n);
  }

  /** The tree's rows rise and its columns fall by `delta`; the other columns stay. */
  ghost predicate TreeShifted(u: seq<real>, v: seq<real>, u': seq<real>, v': seq<real>, p: seq<nat>,
                              order: seq<nat>, used: seq<bool>, delta: real, n: nat)
  {
    && |u| == |v| == |u'| == |v'| == |p| == |used| == n + 1 && Below(order, n + 1) && Marks(used, order, n)
    && (forall t :: 0 <= t < |order| ==> p[order[t]] <= n && u'[p[order[t]]] == u[p[order[t]]] + delta)
    && (forall j :: 1 <= j <= n ==> v'[j] == if used[j] then v[j] - delta else v[j])
  }

  lemma ShiftKeepsEdges(c: Matrix, u: seq<real>, v: seq<real>, u': seq<real>, v': seq<real>,
                        p: seq<nat>, way: seq<nat>, order: seq<nat>, used: seq<bool>, delta: real, n: nat)
    requires IsCostMatrix(c, n) && |way| == n + 1 && TreeShifted(u, v, u', v', p, order, used, delta, n)
    requires Tree(c, u, v, p, way, order, n)
    ensures Tree(c, u', v', p, way, order, n)
  {
    forall t | 1 <= t < |order| ensures Hangs(c, u', v', p, way, order[..t], order[t], n) {
      assert Hangs(c, u, v, p, way, order[..t], order[t], n);
      var k :| 0 <= k < t && order[k] == way[order[t]];
    }
  }

  lemma ShiftKeepsFrontier(c: Matrix, u: seq<real>, v: seq<real>, minv: seq<real>, u': seq<real>, v': seq<real>,
                           minv': seq<real>, p: seq<nat>, way: seq<nat>, order: seq<nat>, used: seq<bool>, delta: real,
                           n: nat)
    requires IsCostMatrix(c, n) && |way| == |minv| == |minv'| == n + 1 && delta >= 0.0
    requires TreeShifted(u, v, u', v', p, order, used, delta, n)
    requires forall j :: 1 <= j <= n && !used[j] ==> minv'[j] == minv[j] - delta
    requires Tree(c, u, v, p, way, order, n) && Tree(c, u', v', p, way, order, n)
    requires Frontier(c, u, v, p, way, minv, order, n)
    ensures Frontier(c, u', v', p, way, minv', order, n)
  {
    forall j | 1 <= j <= n && j !in order ensures Nearest(c, u', v', p, way, minv', order, j, n) {
      assert Nearest(c, u, v, p, way, minv, order, j, n);
      var k :| 0 <= k < |order| && order[k] == way[j];
    }
  }

  // ---------------------------------------------------------------- inserting one row

  /** Everything known while the tree for row `i` grows towards its next column `j0`. */
  ghost predicate Growing(c: Matrix, u: seq<real>, v: seq<real>, p: seq<nat>, col: seq<nat>, way: seq<nat>,
                          minv: seq<real>, used: seq<bool>, order: seq<nat>, j0: nat, i: nat, n: nat)
  {
    && IsCostMatrix(c, n) && |u| == |v| == |way| == |minv| == n + 1
    && Inverse(p, col, n + 1, i, n) && 1 <= i && p[0] == i
    && Feasible(c, u, v, n) && Tight(c, u, v, p, 0, n) && Signs(u, v, p, i, n)
    && Tree(c, u, v, p, way, order, n) && Marks(used, order, n)
    && j0 <= n && j0 !in order
    && if order == [] then
         j0 == 0 && forall j :: 1 <= j <= n ==> minv[j] == FLOAT_MAX && Slack(c, u, v, p[j0], j) <= 2.0 * LARGE_COST
       else
         Hangs(c, u, v, p, way, order, j0, n) && Frontier(c, u, v, p, way, minv, order, n)
  }

  /** After the scan the tree includes `j0`, and its distance to the outside is exact. */
  lemma ScanRound(c: Matrix, u: seq<real>, v: seq<real>, p: seq<nat>, col: seq<nat>, way: seq<nat>, minv: seq<real>,
                  used: seq<bool>, order: seq<nat>, j0: nat, way': seq<nat>, minv': seq<real>, delta: real, j1: nat,
                  i: nat, n: nat)
    requires Growing(c, u, v, p, col, way, minv, used, order, j0, i, n) && p[j0] != 0
    requires |way'| == |minv'| == n + 1
    requires p[j0] <= n && Scanned(c, u, v, p, used[j0 := true], way, minv, way', minv', j0, delta, j1, n)
    ensures Tree(c, u, v, p, way', order + [j0], n) && Marks(used[j0 := true], order + [j0], n)
    ensures Frontier(c, u, v, p, way', minv', order + [j0], n)
    ensures delta >= 0.0
  {
    MarkColumn(used, order, j0, n);
    TreeGrows(c, u, v, p, way, way', order, j0, n);
    OfferedOutside(c, u, v, p, used, order, way, minv, way', minv', j0, delta, j1, n);
    ScanKeepsFrontier(c, u, v, p, way, minv, way', minv', order, j0, n);
    NearestIsFeasible(c, u, v, p, way', minv', order + [j0], j1, n);
  }

  lemma NearestIsFeasible(c: Matrix, u: seq<real>, v: seq<real>, p: seq<nat>, way: seq<nat>, minv: seq<real>,
                          order: seq<nat>, j: nat, n: nat)
    requires IsCostMatrix(c, n) && |u| == |v| == |p| == |way| == |minv| == n + 1 && Feasible(c, u, v, n)
    requires Tree(c, u, v, p, way, order, n) && Frontier(c, u, v, p, way, minv, order, n)
    requires 1 <= j <= n && j !in order
    ensures minv[j] >= 0.0
  {
    assert Nearest(c, u, v, p, way, minv, order, j, n);
    var k :| 0 <= k < |order| && order[k] == way[j];
    assert Slack(c, u, v, p[order[k]], j) >= 0.0;
  }

  lemma MarkColumn(used: seq<bool>, order: seq<nat>, j0: nat, n: nat)
    requires Marks(used, order, n) && j0 <= n
    ensures Marks(used[j0 := true], order + [j0], n)
  {
    forall j | 0 <= j <= n ensures used[j0 := true][j] <==> j in order + [j0] {
      assert j in order + [j0] <==> j in order || j == j0;
    }
  }

  lemma OfferedOutside(c: Matrix, u: seq<real>, v: seq<real>, p: seq<nat>, used: seq<bool>, order: seq<nat>,
                       way: seq<nat>, minv: seq<real>, way': seq<nat>, minv': seq<real>, j0: nat, delta: real, j1: nat,
                       n: nat)
    requires IsCostMatrix(c, n) && Marks(used, order, n)
    requires |u| == |v| == |p| == |way| == |minv| == |way'| == |minv'| == n + 1
    requires j0 <= n && 1 <= p[j0] <= n
    requires Scanned(c, u, v, p, used[j0 := true], way, minv, way', minv', j0, delta, j1, n)
    ensures forall j :: 1 <= j <= n && j !in order && j != j0 ==> Offered(c, u, v, p, way, minv, way', minv', j0, j, n)
  {
  }

  /** Shifting by the distance of the nearest column `j1` completes the round. */
  lemma ShiftRound(c: Matrix, u: seq<real>, v: seq<real>, p: seq<nat>, col: seq<nat>, way: seq<nat>, minv: seq<real>,
                   used: seq<bool>, order: seq<nat>, u': seq<real>, v': seq<real>, minv': seq<real>, delta: real,
                   j1: nat, i: nat, n: nat)
    requires IsCostMatrix(c, n) && |u| == |v| == |way| == n + 1
    requires Inverse(p, col, n + 1, i, n) && 1 <= i && p[0] == i
    requires Feasible(c, u, v, n) && Tight(c, u, v, p, 0, n) && Signs(u, v, p, i, n)
    requires Shifted(u, v, minv, u', v', minv', col, used, delta, i, n)
    requires order != [] && Tree(c, u, v, p, way, order, n) && Marks(used, order, n)
    requires Frontier(c, u, v, p, way, minv, order, n)
    requires 1 <= j1 <= n && !used[j1] && delta == minv[j1] && delta >= 0.0
    requires forall j :: 1 <= j <= n && !used[j] ==> delta <= minv[j]
    ensures Growing(c, u', v', p, col, way, minv', used, order, j1, i, n)
  {
    ShiftKeepsFeasible(c, u, v, minv, u', v', minv', p, col, way, order, used, delta, i, n);
    ShiftKeepsTight(c, u, v, minv, u', v', minv', p, col, used, delta, i, n);
    ShiftKeepsTree(c, u, v, minv, u', v', minv', p, col, way, order, used, delta, j1, i, n);
  }

  /** A scan from `j0` and a shift make one round. */
  lemma GrowRound(c: Matrix, u: seq<real>, v: seq<real>, p: seq<nat>, col: seq<nat>, way: seq<nat>, minv: seq<real>,
                  used: seq<bool>, order: seq<nat>, j0: nat, way': seq<nat>, minv': seq<real>,
                  u2: seq<real>, v2: seq<real>, minv2: seq<real>, delta: real, j1: nat, i: nat, n: nat)
    requires Growing(c, u, v, p, col, way, minv, used, order, j0, i, n) && p[j0] != 0
    requires |way'| == |minv'| == n + 1
    requires p[j0] <= n && Scanned(c, u, v, p, used[j0 := true], way, minv, way', minv', j0, delta, j1, n)
    requires Shifted(u, v, minv', u2, v2, minv2, col, used[j0 := true], delta, i, n)
    ensures Growing(c, u2, v2, p, col, way', minv2, used[j0 := true], order + [j0], j1, i, n)
  {
    ScanRound(c, u, v, p, col, way, minv, used, order, j0, way', minv', delta, j1, i, n);
    ShiftRound(c, u, v, p, col, way', minv', used[j0 := true], order + [j0], u2, v2, minv2, delta, j1, i, n);
  }

  /** Some column outside the tree is at a finite distance from it. */
  lemma NearColumn(c: Matrix, u: seq<real>, v: seq<real>, p: seq<nat>, col: seq<nat>, way: seq<nat>, minv: seq<real>,
                   used: seq<bool>, order: seq<nat>, j0: nat, i: nat, n: nat)
    returns (outside: nat)
    requires Growing(c, u, v, p, col, way, minv, used, order, j0, i, n) && p[j0] != 0
    ensures 1 <= outside <= n && outside !in order && outside != j0 && p[j0] <= n
    ensures minv[outside] < FLOAT_MAX || Slack(c, u, v, p[j0], outside) < FLOAT_MAX
    ensures !used[outside] && forall j :: 0 <= j <= n && used[j] ==> p[j] != 0
  {
    var wider := order + [j0];
    assert 0 in wider by { assert wider[0] == 0; }
    outside := OutsideColumn(p, col, wider, i, n);
    assert outside !in order;
  }

  /** The body of the tree loop, on the arrays. */
  method ScanAndShift(c: Matrix, u: array<real>, v: array<real>, p: array<nat>, way: array<nat>, minv: array<real>,
                      used: array<bool>, j0: nat, n: nat, ghost col: seq<nat>, ghost i: nat, ghost outside: nat)
    returns (j1: nat, ghost minv': seq<real>, ghost shift: real)
    requires IsCostMatrix(c, n)
    requires u.Length == v.Length == p.Length == way.Length == minv.Length == used.Length == n + 1
    requires u != v && v != minv && u != minv && p != way
    requires Inverse(p[..], col, n + 1, i, n)
    requires j0 <= n && 1 <= p[j0] <= n
    requires 1 <= outside <= n && outside != j0 && !used[outside]
    requires minv[outside] < FLOAT_MAX || Slack(c, u[..], v[..], p[j0], outside) < FLOAT_MAX
    requires forall j :: 0 <= j <= n && used[j] ==> p[j] != 0
    modifies u, v, way, minv, used
    ensures used[..] == old(used[..])[j0 := true] && |minv'| == n + 1
    ensures Scanned(c, old(u[..]), old(v[..]), p[..], used[..], old(way[..]), old(minv[..]),
                    way[..], minv', j0, shift, j1, n)
    ensures Shifted(old(u[..]), old(v[..]), minv', u[..], v[..], minv[..], col, used[..], shift, i, n)
  {
    used[j0] := true;
    assert u[..] == old(u[..]) && v[..] == old(v[..]);
    var delta;
    delta, j1 := ScanColumns(c, u, v, p, used, minv, way, j0, n, outside);
    minv', shift := minv[..], delta;
    ShiftPotentials(u, v, p, used, minv, delta, n, col, i);
  }

  /** One round of the tree loop: take in column `j0`, find the nearest outside column, shift. */
  method GrowOnce(c: Matrix, u: array<real>, v: array<real>, p: array<nat>, way: array<nat>, minv: array<real>,
                  used: array<bool>, j0: nat, n: nat, ghost col: seq<nat>, ghost order: seq<nat>, ghost i: nat)
    returns (j1: nat)
    requires u.Length == v.Length == p.Length == way.Length == minv.Length == used.Length == n + 1
    requires u != v && v != minv && u != minv && p != way
    requires Growing(c, u[..], v[..], p[..], col, way[..], minv[..], used[..], order, j0, i, n)
    requires p[j0] != 0
    modifies u, v, way, minv, used
    ensures Growing(c, u[..], v[..], p[..], col, way[..], minv[..], used[..], order + [j0], j1, i, n)
  {
    ghost var us, vs, ps, w0, m0, d0 := u[..], v[..], p[..], way[..], minv[..], used[..];
    ghost var outside := NearColumn(c, us, vs, ps, col, w0, m0, d0, order, j0, i, n);
    ghost var m1, delta;
    j1, m1, delta := ScanAndShift(c, u, v, p, way, minv, used, j0, n, col, i, outside);
    GrowRound(c, us, vs, ps, col, w0, m0, d0, order, j0, way[..], m1, u[..], v[..], minv[..], delta, j1, i, n);
  }

  /** Handing the row of `j1` to the hole `j0` moves the hole to `j1`. */
  lemma FlipEdge(c: Matrix, u: seq<real>, v: seq<real>, p: seq<nat>, col: seq<nat>, j0: nat, j1: nat, i: nat, n: nat)
    requires IsCostMatrix(c, n) && |u| == |v| == n + 1
    requires Inverse(p, col, j0, i, n) && Tight(c, u, v, p, j0, n)
    requires 1 <= j0 <= n && j1 <= n && j1 != j0 && 1 <= p[j1] <= n && Slack(c, u, v, p[j1], j0) == 0.0
    ensures Inverse(p[j0 := p[j1]], col[p[j1] := j0], j1, i, n)
    ensures Tight(c, u, v, p[j0 := p[j1]], j1, n)
  {
  }

  /** Flipping the path from the free column `start` back to column 0. */
  method FlipPath(c: Matrix, p: array<nat>, way: array<nat>, start: nat, n: nat,
                  ghost u: seq<real>, ghost v: seq<real>, ghost col: seq<nat>, ghost order: seq<nat>, ghost i: nat)
    returns (ghost col': seq<nat>)
    requires IsCostMatrix(c, n) && |u| == |v| == p.Length == way.Length == n + 1 && p != way
    requires Inverse(p[..], col, n + 1, i, n) && Tight(c, u, v, p[..], 0, n)
    requires order != [] && Tree(c, u, v, p[..], way[..], order, n)
    requires start !in order && Hangs(c, u, v, p[..], way[..], order, start, n) && p[start] == 0
    modifies p
    ensures Inverse(p[..], col', 0, i, n) && Tight(c, u, v, p[..], 0, n)
    ensures forall j :: 1 <= j <= n && p[j] == 0 ==> old(p[j]) == 0
  {
    var j0 := start;
    ghost var p0, w := p[..], way[..];
    ghost var path := order + [start];
    ghost var t := |order|;
    col' := col;
    while j0 != 0
      invariant j0 <= n && 0 <= t < |path| && path[t] == j0
      invariant Inverse(p[..], col', j0, i, n) && Tight(c, u, v, p[..], j0, n)
      invariant forall k :: 0 <= k <= t ==> p[path[k]] == p0[path[k]]
      invariant forall j :: 1 <= j <= n && j != j0 && p[j] == 0 ==> p0[j] == 0
      decreases t
    {
      ghost var s := Parent(c, u, v, p0, w, order, start, t, n);
      var j1 := way[j0];
      ghost var before := p[..];
      FlipEdge(c, u, v, before, col', j0, j1, i, n);
      col' := col'[p[j1] := j0];
      p[j0] := p[j1];
      assert p[..] == before[j0 := before[j1]];
      j0 := j1;
      t := s;
    }
  }

  /** The parent of a path column sits earlier on the path. */
  lemma Parent(c: Matrix, u: seq<real>, v: seq<real>, p: seq<nat>, way: seq<nat>, order: seq<nat>, start: nat, t: nat,
               n: nat)
    returns (s: nat)
    requires IsCostMatrix(c, n) && |u| == |v| == |p| == |way| == n + 1
    requires Tree(c, u, v, p, way, order, n) && order != []
    requires start !in order && Hangs(c, u, v, p, way, order, start, n)
    requires t <= |order| && (order + [start])[t] != 0
    ensures var path := order + [start]; var j0 := path[t];
      && s < t && 1 <= j0 <= n && path[s] == way[j0] && way[j0] <= n
      && way[j0] != j0 && 1 <= p[way[j0]] <= n && Slack(c, u, v, p[way[j0]], j0) == 0.0
      && (forall k :: 0 <= k <= s ==> path[k] != j0)
  {
    var path := order + [start];
    assert t > 0;
    assert Hangs(c, u, v, p, way, order[..t], path[t], n) by {
      if t == |order| { assert order[..t] == order; }
    }
    s :| 0 <= s < t && order[..t][s] == way[path[t]];
    forall k | 0 <= k <= s ensures path[k] != path[t] {
      assert path[k] == order[k];
    }
  }

  /** Placing row `i` at column 0 starts an empty tree. */
  lemma StartTree(c: Matrix, u: seq<real>, v: seq<real>, p: seq<nat>, col: seq<nat>, way: seq<nat>, minv: seq<real>,
                  used: seq<bool>, i: nat, n: nat)
    requires 1 <= i <= n && Settled(c, u, v, p, col, i - 1, n)
    requires |way| == |minv| == |used| == n + 1
    requires forall j :: 0 <= j <= n ==> minv[j] == FLOAT_MAX && !used[j]
    ensures Growing(c, u, v, p[0 := i], col[i := 0], way, minv, used, [], 0, i, n)
  {
    PotentialBound(c, u, v, p, col, i - 1, n);
  }

  /** The flipped matching settles row `i`. */
  lemma EndTree(c: Matrix, u: seq<real>, v: seq<real>, p: seq<nat>, col: seq<nat>, way: seq<nat>, minv: seq<real>,
                used: seq<bool>, order: seq<nat>, j0: nat, p': seq<nat>, col': seq<nat>, i: nat, n: nat)
    requires Growing(c, u, v, p, col, way, minv, used, order, j0, i, n)
    requires Inverse(p', col', 0, i, n) && Tight(c, u, v, p', 0, n)
    requires forall j :: 1 <= j <= n && p'[j] == 0 ==> p[j] == 0
    ensures Settled(c, u, v, p', col', i, n)
  {
  }

  lemma TreeFits(c: Matrix, u: seq<real>, v: seq<real>, p: seq<nat>, col: seq<nat>, way: seq<nat>, minv: seq<real>,
                 used: seq<bool>, order: seq<nat>, j0: nat, i: nat, n: nat)
    requires Growing(c, u, v, p, col, way, minv, used, order, j0, i, n)
    ensures |order| <= n
  {
    PigeonHole(order + [j0], n + 1);
  }

  /** Inserting row `i`: rows 1..i-1 settled before, rows 1..i settled after. */
  method InsertRow(c: Matrix, u: array<real>, v: array<real>, p: array<nat>, way: array<nat>, i: nat, n: nat,
                   ghost col: seq<nat>)
    returns (ghost col': seq<nat>)
    requires u.Length == v.Length == p.Length == way.Length == n + 1 && u != v && p != way
    requires 1 <= i <= n && Settled(c, u[..], v[..], p[..], col, i - 1, n)
    modifies u, v, p, way
    ensures Settled(c, u[..], v[..], p[..], col', i, n)
  {
    ghost var p0 := p[..];
    p[0] := i;
    assert p[..] == p0[0 := i];
    ghost var columns := col[i := 0];
    var j0: nat := 0;
    var minv := new real[n + 1](_ => FLOAT_MAX);
    var used := new bool[n + 1](_ => false);
    ghost var order: seq<nat> := [];
    StartTree(c, u[..], v[..], p0, col, way[..], minv[..], used[..], i, n);
    while p[j0] != 0
      invariant Growing(c, u[..], v[..], p[..], columns, way[..], minv[..], used[..], order, j0, i, n)
      decreases n + 1 - |order|
    {
      TreeFits(c, u[..], v[..], p[..], columns, way[..], minv[..], used[..], order, j0, i, n);
      var j1 := GrowOnce(c, u, v, p, way, minv, used, j0, n, columns, order, i);
      order := order + [j0];
      j0 := j1;
    }
    ghost var p1 := p[..];
    col' := FlipPath(c, p, way, j0, n, u[..], v[..], columns, order, i);
    EndTree(c, u[..], v[..], p1, columns, way[..], minv[..], used[..], order, j0, p[..], col', i, n);
  }

  /** The assignment loop: a minimum-cost permutation together with its dual certificate. */
  method Assign(c: Matrix, n: nat) returns (s: seq<nat>, ghost u: seq<real>, ghost v: seq<real>)
    requires IsCostMatrix(c, n)
    ensures Optimal(c, s, n)
    ensures |u| == |v| == n + 1 && Feasible(c, u, v, n)
    ensures forall j :: 0 <= j < n ==> Slack(c, u, v, s[j] + 1, j + 1) == 0.0
  {
    var ua := new real[n + 1](_ => 0.0);
    var va := new real[n + 1](_ => 0.0);
    var p := new nat[n + 1](_ => 0);
    var way := new nat[n + 1](_ => 0);
    ghost var col: seq<nat> := seq(n + 1, _ => 0);
    NothingMatched(c, ua[..], va[..], p[..], col, n);
    var i := 1;
    while i <= n
      invariant 1 <= i <= n + 1
      invariant Settled(c, ua[..], va[..], p[..], col, i - 1, n)
    {
      col := InsertRow(c, ua, va, p, way, i, n, col);
      i := i + 1;
    }
    u, v := ua[..], va[..];
    s := ReadOff(p, n, col);
    SettledIsOptimal(c, u, v, p[..], col, s, n);
  }

  /** The matched rows, counted from 0. */
  method ReadOff(p: array<nat>, n: nat, ghost col: seq<nat>) returns (s: seq<nat>)
    requires p.Length == n + 1 && Inverse(p[..], col, 0, n, n)
    ensures |s| == n && forall j :: 0 <= j < n ==> s[j] + 1 == p[j + 1]
  {
    AllMatched(p[..], col, n);
    s := [];
    var j := 1;
    while j <= n
      invariant 1 <= j <= n + 1 && |s| == j - 1
      invariant forall k :: 0 <= k < j - 1 ==> s[k] + 1 == p[k + 1]
    {
      s := s + [p[j] - 1];
      j := j + 1;
    }
  }

  lemma NothingMatched(c: Matrix, u: seq<real>, v: seq<real>, p: seq<nat>, col: seq<nat>, n: nat)
    requires IsCostMatrix(c, n) && |u| == |v| == |p| == |col| == n + 1
    requires forall j :: 0 <= j <= n ==> u[j] == 0.0 && v[j] == 0.0 && p[j] == 0
    ensures Settled(c, u, v, p, col, 0, n)
  {
  }

  /** Once every row is settled, the matching read off `p` is optimal. */
  lemma SettledIsOptimal(c: Matrix, u: seq<real>, v: seq<real>, p: seq<nat>, col: seq<nat>, s: seq<nat>, n: nat)
    requires Settled(c, u, v, p, col, n, n)
    requires |s| == n && forall j :: 0 <= j < n ==> s[j] + 1 == p[j + 1]
    ensures Optimal(c, s, n)
    ensures forall j :: 0 <= j < n ==> Slack(c, u, v, s[j] + 1, j + 1) == 0.0
  {
    AllMatched(p, col, n);
    forall j | 0 <= j < n ensures s[j] < n && Slack(c, u, v, s[j] + 1, j + 1) == 0.0 {
      assert Slack(c, u, v, p[j + 1], j + 1) == 0.0;
    }
    CertificateIsOptimal(c, u, v, s, n);
  }

  /** With every row matched, every column is. */
  lemma AllMatched(p: seq<nat>, col: seq<nat>, n: nat)
    requires Inverse(p, col, 0, n, n)
    ensures forall j :: 1 <= j <= n ==> 1 <= p[j] <= n
    ensures forall j, k :: 1 <= j < k <= n ==> p[j] != p[k]
  {
    var cols := seq(n, r requires 0 <= r < n => (col[r + 1] - 1) as nat);
    assert IsPerm(cols, n);
    forall j | 1 <= j <= n ensures 1 <= p[j] <= n {
      PermHits(cols, n, j - 1);
      var r :| 0 <= r < n && cols[r] == j - 1;
      assert p[col[r + 1]] == r + 1;
    }
    forall j, k | 1 <= j < k <= n ensures p[j] != p[k] {
      assert col[p[j]] == j && col[p[k]] == k;
    }
  }
}
