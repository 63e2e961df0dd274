/**
 The structural check of a pipeline (src/common/Config.cpp:68-157): node ids and sink options, edge
 ends and capacities, then Kahn's algorithm over the edge list, in which edges may repeat
 and may loop back to their own node.
 */
module PipelineGraph {
  import opened Geometry
  import opened Management

  // ---------------------------------------------------------------- cycles

  ghost predicate HasEdge(es: seq<Edge>, from: string, to: string) {
    exists i :: 0 <= i < |es| && es[i].from == from && es[i].to == to
  }

  ghost predicate IsWalk(es: seq<Edge>, w: seq<string>) {
    |w| >= 1 && forall i :: 0 <= i < |w| - 1 ==> HasEdge(es, w[i], w[i + 1])
  }

  ghost predicate IsCycle(es: seq<Edge>, w: seq<string>) {
    IsWalk(es, w) && |w| >= 2 && w[0] == w[|w| - 1]
  }

  ghost predicate Acyclic(es: seq<Edge>) {
    forall w :: !IsCycle(es, w)
  }

  // ---------------------------------------------------------------- counting edges

  /** Edges into `n` that leave a node not yet done. */
  ghost function InDegree(es: seq<Edge>, done: set<string>, n: string): nat {
    if es == [] then 0 else
    var k := |es| - 1;
    InDegree(es[..k], done, n) + if es[k].to == n && es[k].from !in done then 1 else 0
  }

  /** The targets of the edges out of `n`, in list order, repeats included. */
  function Targets(es: seq<Edge>, n: string): seq<string> {
    if es == [] then [] else
    var k := |es| - 1;
    if es[k].from == n then Targets(es[..k], n) + [es[k].to] else Targets(es[..k], n)
  }

  ghost function Count(s: seq<string>, x: string): nat {
    if s == [] then 0 else Count(s[..|s| - 1], x) + if s[|s| - 1] == x then 1 else 0
  }

  /** Finishing `u` takes its edges off the count of every node. */
  lemma {:induction false} FinishNode(es: seq<Edge>, done: set<string>, u: string, n: string)
    requires u !in done
    ensures InDegree(es, done, n) == InDegree(es, done + {u}, n) + Count(Targets(es, u), n)
  {
    if es != [] {
      var k := |es| - 1;
      FinishNode(es[..k], done, u, n);
      if es[k].from == u {
        var ts := Targets(es[..k], u) + [es[k].to];
        assert ts[..|ts| - 1] == Targets(es[..k], u);
      }
    }
  }

  /** A positive count has an edge behind it, and a zero count has none. */
  lemma {:induction false} InDegreeWitness(es: seq<Edge>, done: set<string>, n: string)
    ensures InDegree(es, done, n) > 0 <==> exists i :: 0 <= i < |es| && es[i].to == n && es[i].from !in done
  {
    if es != [] {
      var k := |es| - 1;
      InDegreeWitness(es[..k], done, n);
      if i :| 0 <= i < |es| && es[i].to == n && es[i].from !in done {
        if i < k { assert es[..k][i] == es[i]; }
      }
      if i :| 0 <= i < k && es[..k][i].to == n && es[..k][i].from !in done {
        assert es[i] == es[..k][i];
      }
    }
  }

  lemma {:induction false} CountPrefix(s: seq<string>, j: nat, x: string)
    requires j <= |s|
    ensures Count(s[..j], x) <= Count(s, x)
    decreases |s|
  {
    if j < |s| {
      var k := |s| - 1;
      CountPrefix(s[..k], j, x);
      assert s[..k][..j] == s[..j];
    } else {
      assert s[..j] == s;
    }
  }

  lemma CountNext(s: seq<string>, j: nat, x: string)
    requires j < |s|
    ensures Count(s[..j + 1], x) == Count(s[..j], x) + if s[j] == x then 1 else 0
    ensures s[j] == x ==> Count(s[..j], x) < Count(s, x)
  {
    assert s[..j + 1][..j] == s[..j];
    CountPrefix(s, j + 1, x);
  }

  lemma {:induction false} TargetsAreNodes(es: seq<Edge>, u: string, nodes: set<string>)
    requires forall i :: 0 <= i < |es| ==> es[i].to in nodes
    ensures forall j :: 0 <= j < |Targets(es, u)| ==> Targets(es, u)[j] in nodes
  {
    if es != [] {
      TargetsAreNodes(es[..|es| - 1], u, nodes);
    }
  }

  // ---------------------------------------------------------------- the two halves

  /** In `order`, every edge's source comes before its target. */
  ghost predicate Topological(es: seq<Edge>, order: seq<string>) {
    forall i, k :: 0 <= i < |es| && 0 <= k < |order| && order[k] == es[i].to ==> es[i].from in order[..k]
  }

  ghost function Position(order: seq<string>, x: string): (k: nat)
    requires x in order
    ensures k < |order| && order[k] == x && x !in order[..k]
  {
    if order[0] == x then 0 else
    assert order == [order[0]] + order[1..];
    var k := 1 + Position(order[1..], x);
    assert order[..k] == [order[0]] + order[1..][..k - 1];
    k
  }

  lemma {:induction false} WalkAscends(es: seq<Edge>, order: seq<string>, w: seq<string>)
    requires Topological(es, order) && IsWalk(es, w) && w[|w| - 1] in order
    ensures w[0] in order
    ensures Position(order, w[0]) + |w| - 1 <= Position(order, w[|w| - 1])
  {
    var k := |w| - 1;
    if k > 0 {
      assert HasEdge(es, w[k - 1], w[k]);
      var i :| 0 <= i < |es| && es[i].from == w[k - 1] && es[i].to == w[k];
      var p := Position(order, w[k]);
      assert es[i].from in order[..p];
      EarlierPosition(order, w[k - 1], p);
      assert w[..k][k - 1] == w[k - 1];
      WalkAscends(es, order, w[..k]);
    }
  }

  lemma EarlierPosition(order: seq<string>, x: string, p: nat)
    requires p <= |order| && x in order[..p]
    ensures x in order && Position(order, x) < p
  {
    var j :| 0 <= j < p && order[..p][j] == x;
    assert order[j] == x;
    var q := Position(order, x);
    assert forall i :: 0 <= i < q ==> order[..q][i] == order[i];
  }

  /** A topological order of all edge targets rules out every cycle. */
  lemma OrderMeansAcyclic(es: seq<Edge>, order: seq<string>)
    requires Topological(es, order)
    requires forall i :: 0 <= i < |es| ==> es[i].to in order
    ensures Acyclic(es)
  {
    forall w ensures !IsCycle(es, w) {
      if IsCycle(es, w) {
        var k := |w| - 1;
        assert HasEdge(es, w[k - 1], w[k]);
        WalkAscends(es, order, w);
        assert false;
      }
    }
  }

  ghost predicate Fed(es: seq<Edge>, rest: set<string>, x: string) {
    exists y :: y in rest && HasEdge(es, y, x)
  }

  /** A walk of any length that ends in `n` and stays inside a set in which every node has a predecessor. */
  lemma {:induction false} WalkBack(es: seq<Edge>, rest: set<string>, n: string, k: nat) returns (w: seq<string>)
    requires n in rest
    requires forall x {:trigger Fed(es, rest, x)} :: x in rest ==> Fed(es, rest, x)
    ensures |w| == k + 1 && IsWalk(es, w) && w[k] == n && forall i :: 0 <= i < |w| ==> w[i] in rest
  {
    if k == 0 {
      w := [n];
    } else {
      var v := WalkBack(es, rest, n, k - 1);
      assert Fed(es, rest, v[0]);
      var y :| y in rest && HasEdge(es, y, v[0]);
      w := [y] + v;
      forall i | 0 <= i < |w| - 1 ensures HasEdge(es, w[i], w[i + 1]) {
        if i > 0 { assert w[i] == v[i - 1] && w[i + 1] == v[i]; }
      }
    }
  }

  lemma {:induction false} DistinctFits(s: seq<string>, all: set<string>)
    requires forall i :: 0 <= i < |s| ==> s[i] in all
    requires forall i, j :: 0 <= i < j < |s| ==> s[i] != s[j]
    ensures |s| <= |all|
    decreases |s|
  {
    if s != [] {
      var k := |s| - 1;
      DistinctFits(s[..k], all - {s[k]});
    }
  }

  /** Nodes that all keep a predecessor among themselves contain a cycle. */
  lemma StuckMeansCycle(es: seq<Edge>, rest: set<string>)
    requires rest != {}
    requires forall x {:trigger Fed(es, rest, x)} :: x in rest ==> Fed(es, rest, x)
    ensures !Acyclic(es)
  {
    var n :| n in rest;
    var w := WalkBack(es, rest, n, |rest|);
    if forall i, j :: 0 <= i < j < |w| ==> w[i] != w[j] {
      DistinctFits(w, rest);
      assert false;
    }
    var i, j :| 0 <= i < j < |w| && w[i] == w[j];
    var c := w[i..j + 1];
    forall x | 0 <= x < |c| - 1 ensures HasEdge(es, c[x], c[x + 1]) {
      assert c[x] == w[i + x] && c[x + 1] == w[i + x + 1];
    }
    assert IsCycle(es, c);
  }

  // ---------------------------------------------------------------- the algorithm

  ghost predicate Closed(es: seq<Edge>, nodes: set<string>) {
    forall i :: 0 <= i < |es| ==> es[i].from in nodes && es[i].to in nodes
  }

  ghost predicate Unrepeated(s: seq<string>) {
    forall i, j :: 0 <= i < j < |s| ==> s[i] != s[j]
  }

  /** The remaining in-degrees count the edges from unfinished nodes, less those to the
      targets already handled in this turn. */
  ghost predicate Counted(es: seq<Edge>, nodes: set<string>, done: set<string>, indegree: map<string, int>,
                          handled: seq<string>) {
    && indegree.Keys == nodes
    && forall n :: n in nodes ==> indegree[n] == InDegree(es, done, n) - Count(handled, n)
  }

  /** Exactly the unfinished nodes with nothing left before them wait in the queue, each once. */
  ghost predicate Waiting(nodes: set<string>, finished: set<string>, indegree: map<string, int>, q: seq<string>) {
    && indegree.Keys == nodes && Unrepeated(q)
    && forall n :: n in q <==> n in nodes && n !in finished && indegree[n] == 0
  }

  /** Nothing unfinished points at a finished node. */
  ghost predicate Cleared(es: seq<Edge>, done: set<string>, finished: set<string>) {
    forall n :: n in finished ==> InDegree(es, done, n) == 0
  }

  /** One decrement: the node joins the queue when it reaches zero. */
  lemma DecrementWaiting(nodes: set<string>, finished: set<string>, indegree: map<string, int>, q: seq<string>,
                         nxt: string)
    requires Waiting(nodes, finished, indegree, q) && nxt in nodes && nxt !in finished && indegree[nxt] > 0
    ensures var less := indegree[nxt := indegree[nxt] - 1];
      Waiting(nodes, finished, less, if less[nxt] == 0 then q + [nxt] else q)
  {
    var less := indegree[nxt := indegree[nxt] - 1];
    assert nxt !in q;
    assert forall n :: n in q + [nxt] <==> n in q || n == nxt;
  }

  lemma DecrementCounted(es: seq<Edge>, nodes: set<string>, done: set<string>, indegree: map<string, int>,
                         targets: seq<string>, j: nat)
    requires j < |targets| && targets[j] in nodes && Counted(es, nodes, done, indegree, targets[..j])
    ensures Counted(es, nodes, done, indegree[targets[j] := indegree[targets[j]] - 1], targets[..j + 1])
  {
    forall n | n in nodes
      ensures Count(targets[..j + 1], n) == Count(targets[..j], n) + if targets[j] == n then 1 else 0
    {
      CountNext(targets, j, n);
    }
  }

  lemma FinishCounted(es: seq<Edge>, nodes: set<string>, done: set<string>, indegree: map<string, int>, cur: string)
    requires cur !in done && Counted(es, nodes, done, indegree, Targets(es, cur)) && Cleared(es, done, done + {cur})
    ensures Counted(es, nodes, done + {cur}, indegree, []) && Cleared(es, done + {cur}, done + {cur})
  {
    forall n ensures InDegree(es, done, n) == InDegree(es, done + {cur}, n) + Count(Targets(es, cur), n) {
      FinishNode(es, done, cur, n);
    }
  }

  /** Handling the edges out of `cur`. */
  method FinishTargets(es: seq<Edge>, cur: string, targets: seq<string>, degrees: map<string, int>, queue: seq<string>,
                       ghost nodes: set<string>, ghost done: set<string>)
    returns (indegree: map<string, int>, q: seq<string>)
    requires Closed(es, nodes) && targets == Targets(es, cur) && cur in nodes && cur !in done
    requires Counted(es, nodes, done, degrees, []) && Waiting(nodes, done + {cur}, degrees, queue)
    requires Cleared(es, done, done + {cur})
    ensures Counted(es, nodes, done + {cur}, indegree, []) && Waiting(nodes, done + {cur}, indegree, q)
    ensures Cleared(es, done + {cur}, done + {cur})
  {
    indegree, q := degrees, queue;
    TargetsAreNodes(es, cur, nodes);
    var j := 0;
    while j < |targets|
      invariant 0 <= j <= |targets|
      invariant Counted(es, nodes, done, indegree, targets[..j]) && Waiting(nodes, done + {cur}, indegree, q)
    {
      var nxt := targets[j];
      CountNext(targets, j, nxt);
      FinishNode(es, done, cur, nxt);
      DecrementCounted(es, nodes, done, indegree, targets, j);
      DecrementWaiting(nodes, done + {cur}, indegree, q, nxt);
      indegree := indegree[nxt := indegree[nxt] - 1];
      if indegree[nxt] == 0 {
        q := q + [nxt];
      }
      j := j + 1;
    }
    assert targets[..j] == targets;
    FinishCounted(es, nodes, done, indegree, cur);
  }

  ghost predicate CountedSoFar(es: seq<Edge>, nodes: set<string>, indegree: map<string, int>,
                               graph: map<string, seq<string>>) {
    && indegree.Keys == nodes && (forall n :: n in nodes ==> indegree[n] == InDegree(es, {}, n))
    && graph.Keys == nodes && (forall n :: n in nodes ==> graph[n] == Targets(es, n))
  }

  lemma OneMoreEdge(es: seq<Edge>, nodes: set<string>, indegree: map<string, int>, graph: map<string, seq<string>>,
                    e: Edge)
    requires CountedSoFar(es, nodes, indegree, graph) && e.from in nodes && e.to in nodes
    ensures CountedSoFar(es + [e], nodes, indegree[e.to := indegree[e.to] + 1], graph[e.from := graph[e.from] + [e.to]])
  {
    assert (es + [e])[..|es|] == es;
  }

  /** No edge counted yet. */
  method ZeroCounts(ids: seq<string>) returns (indegree: map<string, int>, graph: map<string, seq<string>>)
    ensures CountedSoFar([], SetOf(ids), indegree, graph)
  {
    indegree, graph := map[], map[];
    var i := 0;
    while i < |ids|
      invariant 0 <= i <= |ids| && CountedSoFar([], SetOf(ids[..i]), indegree, graph)
    {
      SetOfLast(ids[..i], ids[i]);
      assert ids[..i] + [ids[i]] == ids[..i + 1];
      indegree := indegree[ids[i] := 0];
      graph := graph[ids[i] := []];
      i := i + 1;
    }
    assert ids[..i] == ids;
  }

  /** The counts before any node is finished. */
  method CountEdges(ids: seq<string>, es: seq<Edge>)
    returns (indegree: map<string, int>, graph: map<string, seq<string>>)
    requires Closed(es, SetOf(ids))
    ensures CountedSoFar(es, SetOf(ids), indegree, graph)
  {
    indegree, graph := ZeroCounts(ids);
    ghost var nodes := SetOf(ids);
    var i := 0;
    while i < |es|
      invariant 0 <= i <= |es| && CountedSoFar(es[..i], nodes, indegree, graph)
    {
      var e := es[i];
      OneMoreEdge(es[..i], nodes, indegree, graph, e);
      assert es[..i] + [e] == es[..i + 1];
      graph := graph[e.from := graph[e.from] + [e.to]];
      indegree := indegree[e.to := indegree[e.to] + 1];
      i := i + 1;
    }
    assert es[..i] == es;
  }

  /** The nodes nothing points at, in some order. */
  method Roots(indegree: map<string, int>) returns (q: seq<string>)
    ensures Waiting(indegree.Keys, {}, indegree, q)
  {
    q := [];
    var left := indegree.Keys;
    while left != {}
      invariant left <= indegree.Keys && Unrepeated(q)
      invariant forall n :: n in q <==> n in indegree && n !in left && indegree[n] == 0
      decreases left
    {
      var n :| n in left;
      if indegree[n] == 0 {
        assert forall x :: x in q + [n] <==> x in q || x == n;
        q := q + [n];
      }
      left := left - {n};
    }
  }

  function SetOf(s: seq<string>): set<string> { set i | 0 <= i < |s| :: s[i] }

  lemma SetOfLast(s: seq<string>, x: string)
    ensures SetOf(s + [x]) == SetOf(s) + {x}
  {
    var t := s + [x];
    forall y ensures y in SetOf(t) <==> y in SetOf(s) || y == x {
      if y in SetOf(s) { var i :| 0 <= i < |s| && s[i] == y; assert t[i] == y; }
      if y == x { assert t[|s|] == x; }
    }
  }

  lemma {:induction false} UnrepeatedSize(s: seq<string>)
    requires Unrepeated(s)
    ensures |SetOf(s)| == |s|
  {
    if s != [] {
      var k := |s| - 1;
      UnrepeatedSize(s[..k]);
      SetOfLast(s[..k], s[k]);
      assert s[..k] + [s[k]] == s;
    }
  }

  /** Taking a cleared node next extends a topological order. */
  lemma OrderGrows(es: seq<Edge>, order: seq<string>, cur: string)
    requires Topological(es, order) && InDegree(es, SetOf(order), cur) == 0
    ensures Topological(es, order + [cur])
  {
    var longer := order + [cur];
    InDegreeWitness(es, SetOf(order), cur);
    forall i, k | 0 <= i < |es| && 0 <= k < |longer| && longer[k] == es[i].to ensures es[i].from in longer[..k] {
      if k < |order| {
        assert longer[..k] == order[..k];
      } else {
        assert longer[..k] == order;
        assert es[i].from in SetOf(order);
      }
    }
  }

  /** What holds between two visits; `order` lists the visited nodes. */
  ghost predicate Visiting(es: seq<Edge>, nodes: set<string>, order: seq<string>, indegree: map<string, int>,
                           q: seq<string>) {
    && Unrepeated(order) && SetOf(order) <= nodes
    && Counted(es, nodes, SetOf(order), indegree, []) && Waiting(nodes, SetOf(order), indegree, q)
    && Cleared(es, SetOf(order), SetOf(order)) && Topological(es, order)
  }

  /** One turn of the work queue. */
  method VisitFirst(es: seq<Edge>, graph: map<string, seq<string>>, degrees: map<string, int>, queue: seq<string>,
                    ghost nodes: set<string>, ghost order: seq<string>)
    returns (indegree: map<string, int>, q: seq<string>)
    requires Closed(es, nodes) && Visiting(es, nodes, order, degrees, queue) && queue != []
    requires graph.Keys == nodes && forall n :: n in nodes ==> graph[n] == Targets(es, n)
    ensures Visiting(es, nodes, order + [queue[0]], indegree, q)
    ensures queue[0] in nodes && queue[0] !in SetOf(order)
  {
    var cur := queue[0];
    TakeFirst(nodes, SetOf(order), degrees, queue);
    indegree, q := FinishTargets(es, cur, graph[cur], degrees, queue[1..], nodes, SetOf(order));
    OrderGrows(es, order, cur);
    SetOfLast(order, cur);
    assert forall i :: 0 <= i < |order| ==> order[i] in SetOf(order);
  }

  /** Kahn's algorithm: every node is visited exactly when there is no cycle. */
  method VisitsAll(ids: seq<string>, es: seq<Edge>) returns (all: bool)
    requires Unrepeated(ids) && Closed(es, SetOf(ids))
    ensures all <==> Acyclic(es)
  {
    ghost var nodes := SetOf(ids);
    var indegree, graph := CountEdges(ids, es);
    var q := Roots(indegree);
    var visited := 0;
    ghost var order: seq<string> := [];
    assert SetOf(order) == {};
    while q != []
      invariant visited == |order| && Visiting(es, nodes, order, indegree, q)
      decreases nodes - SetOf(order)
    {
      ghost var cur := q[0];
      indegree, q := VisitFirst(es, graph, indegree, q, nodes, order);
      SetOfLast(order, cur);
      order := order + [cur];
      visited := visited + 1;
    }
    all := visited == |ids|;
    Verdict(es, ids, order, indegree);
  }

  lemma Verdict(es: seq<Edge>, ids: seq<string>, order: seq<string>, indegree: map<string, int>)
    requires Unrepeated(ids) && Closed(es, SetOf(ids)) && Visiting(es, SetOf(ids), order, indegree, [])
    ensures |order| == |ids| <==> Acyclic(es)
  {
    UnrepeatedSize(order);
    UnrepeatedSize(ids);
    if |order| == |ids| {
      SameSize(SetOf(order), SetOf(ids));
      forall i | 0 <= i < |es| ensures es[i].to in order {
        assert es[i].to in SetOf(order);
      }
      OrderMeansAcyclic(es, order);
    } else {
      Stuck(es, SetOf(ids), SetOf(order), indegree);
    }
  }

  lemma TakeFirst(nodes: set<string>, done: set<string>, indegree: map<string, int>, q: seq<string>)
    requires Waiting(nodes, done, indegree, q) && q != []
    ensures q[0] in nodes && q[0] !in done && indegree[q[0]] == 0
    ensures Waiting(nodes, done + {q[0]}, indegree, q[1..])
  {
    assert q[0] in q;
    assert q == [q[0]] + q[1..];
    assert q[0] !in q[1..];
  }

  lemma SmallerSet(a: set<string>, b: set<string>)
    requires a < b
    ensures |a| < |b|
  {
    var x :| x in b && x !in a;
    assert a <= b - {x};
    assert b - {x} == a + ((b - {x}) - a);
  }

  lemma SameSize(a: set<string>, b: set<string>)
    requires a <= b && |a| == |b|
    ensures a == b
  {
    if a != b { SmallerSet(a, b); }
  }

  /** An empty queue with nodes left over leaves each of them a predecessor among them. */
  lemma Stuck(es: seq<Edge>, nodes: set<string>, done: set<string>, indegree: map<string, int>)
    requires Closed(es, nodes) && done <= nodes && |done| != |nodes|
    requires Counted(es, nodes, done, indegree, []) && Waiting(nodes, done, indegree, [])
    ensures !Acyclic(es)
  {
    var rest := nodes - done;
    assert done != nodes;
    assert done < nodes;
    var left :| left in nodes && left !in done;
    assert left in rest;
    forall x | x in rest ensures Fed(es, rest, x) {
      assert x !in [];
      assert indegree[x] != 0;
      InDegreeWitness(es, done, x);
      var i :| 0 <= i < |es| && es[i].to == x && es[i].from !in done;
      assert HasEdge(es, es[i].from, x);
    }
    StuckMeansCycle(es, rest);
  }

  // ---------------------------------------------------------------- the whole check

  /** The errors `validatePipelineGraphs` throws for the shape of one pipeline. */
  datatype Finding = Fine | NoNodes | EmptyNodeId | DuplicateNode(id: string) | BadOption(name: string)
      | UnknownFrom(id: string) | UnknownTo(id: string) | BadCapacity | Cyclic

  /** What `std::stof` and `std::stoi` make of a text: a value, or an exception. */
  datatype Float = Finite(value: real) | NotFinite
  datatype Readers = Readers(toFloat: string -> Option<Float>, toInt: string -> Option<int>)

  function Ids(ns: seq<Node>): (r: seq<string>)
    ensures |r| == |ns| && forall i :: 0 <= i < |ns| ==> r[i] == ns[i].id
  {
    seq(|ns|, i requires 0 <= i < |ns| => ns[i].id)
  }

  const PLAYER := "sink.ffplay"

  function OptionOr(n: Node, name: string, other: string): string {
    if name in n.options then n.options[name] else other
  }

  /** The options a sink may have. */
  ghost predicate OptionsFine(n: Node, read: Readers) {
    && (n.kind == SINK ==> OptionOr(n, URL, "") != "" && OptionOr(n, "protocol", "rtsp") in {"rtsp", "rtmp"})
    && (n.kind == PLAYER ==>
          && ("fps" in n.options ==> RateFine(read.toFloat(n.options["fps"])))
          && ("queue_capacity" in n.options ==> SizeFine(read.toInt(n.options["queue_capacity"])))
          && OptionOr(n, "drop_policy", "drop_oldest") in {"drop_oldest", "drop_newest"})
  }

  ghost predicate RateFine(rate: Option<Float>) {
    rate.Some? && rate.value.Finite? && 0.0 < rate.value.value <= 240.0
  }

  ghost predicate SizeFine(size: Option<int>) { size.Some? && size.value >= 1 }

  ghost predicate NodesFine(ns: seq<Node>, read: Readers) {
    && ns != [] && (forall i :: 0 <= i < |ns| ==> ns[i].id != "") && Unrepeated(Ids(ns))
    && forall i :: 0 <= i < |ns| ==> OptionsFine(ns[i], read)
  }

  ghost predicate EdgesFine(ns: seq<Node>, es: seq<Edge>) {
    Closed(es, SetOf(Ids(ns))) && forall i :: 0 <= i < |es| ==> es[i].capacity >= 1
  }

  /** The checks of one node's options, in the order of the source. */
  method CheckOptions(n: Node, read: Readers) returns (r: Finding)
    ensures r == Fine <==> OptionsFine(n, read)
    ensures r != Fine ==> r.BadOption?
  {
    if n.kind == SINK {
      if URL !in n.options || n.options[URL] == "" {
        return BadOption(URL);
      }
      var protocol := if "protocol" !in n.options then "rtsp" else n.options["protocol"];
      if protocol != "rtsp" && protocol != "rtmp" {
        return BadOption("protocol");
      }
    }
    if n.kind == PLAYER {
      r := CheckPlayer(n, read);
      return;
    }
    r := Fine;
  }

  method CheckPlayer(n: Node, read: Readers) returns (r: Finding)
    requires n.kind == PLAYER
    ensures r == Fine <==> OptionsFine(n, read)
    ensures r != Fine ==> r.BadOption?
  {
    if "fps" in n.options {
      var fps := read.toFloat(n.options["fps"]);
      if fps.None? || fps.value.NotFinite? || fps.value.value <= 0.0 || fps.value.value > 240.0 {
        return BadOption("fps");
      }
    }
    if "queue_capacity" in n.options {
      var size := read.toInt(n.options["queue_capacity"]);
      if size.None? || size.value < 1 {
        return BadOption("queue_capacity");
      }
    }
    if "drop_policy" in n.options {
      var policy := n.options["drop_policy"];
      if policy != "drop_oldest" && policy != "drop_newest" {
        return BadOption("drop_policy");
      }
    }
    r := Fine;
  }

  lemma NextId(ids: seq<string>, i: nat)
    requires i < |ids| && Unrepeated(ids[..i])
    ensures Unrepeated(ids[..i + 1]) <==> ids[i] !in SetOf(ids[..i])
    ensures SetOf(ids[..i + 1]) == SetOf(ids[..i]) + {ids[i]}
  {
    SetOfLast(ids[..i], ids[i]);
    assert ids[..i] + [ids[i]] == ids[..i + 1];
    if ids[i] in SetOf(ids[..i]) {
      var k :| 0 <= k < i && ids[..i][k] == ids[i];
      assert ids[..i + 1][k] == ids[..i + 1][i];
    }
  }

  lemma PartRepeats(ids: seq<string>, i: nat)
    requires i <= |ids| && !Unrepeated(ids[..i])
    ensures !Unrepeated(ids)
  {
    var j, k :| 0 <= j < k < i && ids[..i][j] == ids[..i][k];
    assert ids[j] == ids[k];
  }

  method CheckNodes(ns: seq<Node>, read: Readers) returns (r: Finding)
    ensures r == Fine <==> NodesFine(ns, read)
    ensures r != Cyclic
  {
    if ns == [] {
      return NoNodes;
    }
    var ids := Ids(ns);
    var seen: set<string> := {};
    var i := 0;
    while i < |ns|
      invariant 0 <= i <= |ns| && seen == SetOf(ids[..i]) && Unrepeated(ids[..i])
      invariant forall k :: 0 <= k < i ==> ns[k].id != "" && OptionsFine(ns[k], read)
    {
      if ns[i].id == "" {
        return EmptyNodeId;
      }
      NextId(ids, i);
      if ids[i] in seen {
        PartRepeats(ids, i + 1);
        return DuplicateNode(ids[i]);
      }
      r := CheckOptions(ns[i], read);
      if r != Fine {
        return;
      }
      seen := seen + {ids[i]};
      i := i + 1;
    }
    assert ids[..i] == ids;
    r := Fine;
  }

  method CheckEdges(ns: seq<Node>, es: seq<Edge>) returns (r: Finding)
    ensures r == Fine <==> EdgesFine(ns, es)
    ensures r != Cyclic
  {
    var known := SetOf(Ids(ns));
    var i := 0;
    while i < |es|
      invariant 0 <= i <= |es|
      invariant forall k :: 0 <= k < i ==> es[k].from in known && es[k].to in known && es[k].capacity >= 1
    {
      if es[i].from !in known {
        return UnknownFrom(es[i].from);
      }
      if es[i].to !in known {
        return UnknownTo(es[i].to);
      }
      if es[i].capacity <= 0 {
        return BadCapacity;
      }
      i := i + 1;
    }
    r := Fine;
  }

  /** A pipeline passes exactly when its nodes, options and edges are well formed and it has no cycle;
      a cycle is reported exactly when that is all that is wrong. */
  method ValidatePipeline(p: PipelineBody, read: Readers) returns (r: Finding)
    ensures r == Fine <==> NodesFine(p.nodes, read) && EdgesFine(p.nodes, p.edges) && Acyclic(p.edges)
    ensures r == Cyclic <==> NodesFine(p.nodes, read) && EdgesFine(p.nodes, p.edges) && !Acyclic(p.edges)
  {
    r := CheckNodes(p.nodes, read);
    if r != Fine {
      return;
    }
    r := CheckEdges(p.nodes, p.edges);
    if r != Fine {
      return;
    }
    var all := VisitsAll(Ids(p.nodes), p.edges);
    r := if all then Fine else Cyclic;
  }
}
