/**
 Building the adjacency tables of a pipeline and fanning an event out
 (src/pipeline/GraphExecutor.cpp:24-36, 117-130).  Edges are keyed by their two ends.
 */
module GraphExecutors {
  import opened Geometry
  import opened EdgeQueues
  import opened StreamGraph

  /** The targets of the edges leaving `a` among the first `n`, in configuration order. */
  function Targets(edges: seq<Edge>, n: nat, a: string): seq<string>
    requires n <= |edges|
  {
    if n == 0 then [] else Targets(edges, n - 1, a) + if edges[n - 1].from == a then [edges[n - 1].to] else []
  }

  function InEdges(edges: seq<Edge>, n: nat, a: string): seq<Edge>
    requires n <= |edges|
  {
    if n == 0 then [] else InEdges(edges, n - 1, a) + if edges[n - 1].to == a then [edges[n - 1]] else []
  }

  ghost predicate NoRepeat<T>(s: seq<T>) {
    forall i, j :: 0 <= i < j < |s| ==> s[i] != s[j]
  }

  function Count<T(==)>(s: seq<T>, x: T): nat {
    if s == [] then 0 else Count(s[..|s| - 1], x) + if s[|s| - 1] == x then 1 else 0
  }

  lemma {:induction false} InMeansCounted<T>(s: seq<T>, x: T)
    ensures x in s <==> Count(s, x) > 0
  {
    if s != [] {
      InMeansCounted(s[..|s| - 1], x);
      assert s == s[..|s| - 1] + [s[|s| - 1]];
    }
  }

  lemma CountLast<T>(s: seq<T>, y: T, x: T)
    ensures Count(s + [y], x) == Count(s, x) + if y == x then 1 else 0
  {
    assert (s + [y])[..|s|] == s;
  }

  /** The table lists the ends of the node's edges, each as often as the edge is configured. */
  lemma {:induction false} TargetsExact(edges: seq<Edge>, n: nat, a: string, t: string)
    requires n <= |edges|
    ensures Count(Targets(edges, n, a), t) == Count(edges[..n], Edge(a, t))
  {
    if n > 0 {
      TargetsExact(edges, n - 1, a, t);
      var e := edges[n - 1];
      assert edges[..n] == edges[..n - 1] + [e];
      CountLast(edges[..n - 1], e, Edge(a, t));
      if e.from == a { CountLast(Targets(edges, n - 1, a), e.to, t); }
      else { assert Targets(edges, n, a) == Targets(edges, n - 1, a); }
    }
  }

  lemma {:induction false} InEdgesExact(edges: seq<Edge>, n: nat, a: string)
    requires n <= |edges|
    ensures forall e :: e in InEdges(edges, n, a) <==> e in edges[..n] && e.to == a
    ensures NoRepeat(edges) ==> NoRepeat(InEdges(edges, n, a))
  {
    if n > 0 {
      InEdgesExact(edges, n - 1, a);
      assert edges[..n] == edges[..n - 1] + [edges[n - 1]];
      assert NoRepeat(edges) ==> edges[n - 1] !in edges[..n - 1];
    }
  }

  lemma FirstTwoDiffer(s: seq<Edge>)
    requires NoRepeat(s) && |s| >= 2
    ensures s[0] != s[1]
  {}

  /** A node has a sole input exactly when its worker polls a single queue. */
  lemma SoleInputIff(g: Graph, edges: seq<Edge>, e: Edge)
    requires NoRepeat(edges) && e in edges && forall f :: f in g.edges <==> f in edges
    ensures SoleInput(g, e) <==> e.to !in g.sources && InEdges(edges, |edges|, e.to) == [e]
  {
    InEdgesExact(edges, |edges|, e.to);
    var ins := InEdges(edges, |edges|, e.to);
    assert edges[..|edges|] == edges;
    assert e in ins;
    if |ins| >= 2 {
      FirstTwoDiffer(ins);
      assert ins[0] in ins && ins[1] in ins;
    } else {
      assert ins == [ins[0]];
    }
  }

  function Entry<T>(table: map<string, seq<T>>, a: string): seq<T> {
    if a in table then table[a] else []
  }

  /** A repeated edge brings its event as often as it is listed. */
  function PushedTimes(q: Queue<Event>, cfg: EdgeConfig, event: Event, n: nat): Queue<Event> {
    if n == 0 then q else Pushed(PushedTimes(q, cfg, event, n - 1), cfg, event)
  }

  /** While there is room, a repeated edge delivers the event once for every time it is listed. */
  lemma {:induction false} RepeatedEdgeRepeats(q: Queue<Event>, cfg: EdgeConfig, event: Event, n: nat)
    requires !q.stopped && (cfg.capacity < 0 || |q.items| + n <= cfg.capacity)
    ensures PushedTimes(q, cfg, event, n) == q.(items := q.items + seq(n, i => event))
  {
    if n > 0 {
      RepeatedEdgeRepeats(q, cfg, event, n - 1);
    }
  }

  class GraphExecutor {
    const nodes: seq<string>
    /** The configured edges, with the configuration of each. */
    const edgeList: seq<Edge>
    const configs: seq<EdgeConfig>
    var outgoing: map<string, seq<string>>
    var incoming: map<string, seq<Edge>>
    var edges: map<Edge, EdgeQueue<Event>>
    /** The queues. */
    ghost var repr: set<EdgeQueue<Event>>

    constructor (nodes: seq<string>, edgeList: seq<Edge>, configs: seq<EdgeConfig>)
      ensures this.nodes == nodes && this.edgeList == edgeList && this.configs == configs
      ensures outgoing == map[] && incoming == map[] && edges == map[]
    {
      this.nodes, this.edgeList, this.configs := nodes, edgeList, configs;
      outgoing, incoming, edges, repr := map[], map[], map[], {};
    }

    /** Each edge has a queue of its own. */
    ghost predicate Owned() reads this`edges, this`repr {
      && (forall e :: e in edges ==> edges[e] in repr)
      && (forall e, f :: e in edges && f in edges && e != f ==> edges[e] != edges[f])
    }

    ghost predicate Valid() reads this`edges, this`repr, repr {
      Owned() && forall e :: e in edges ==> edges[e].Valid()
    }

    /** The tables after the first `n` edges of the configuration. */
    ghost predicate Tables(n: nat) reads this
      requires n <= |edgeList|
    {
      OutTable(outgoing, n) && InTable(incoming, n) && forall e :: e in edges <==> e in edgeList[..n]
    }

    ghost predicate OutTable(table: map<string, seq<string>>, n: nat)
      requires n <= |edgeList|
    {
      forall a :: Entry(table, a) == Targets(edgeList, n, a)
    }

    ghost predicate InTable(table: map<string, seq<Edge>>, n: nat)
      requires n <= |edgeList|
    {
      forall a :: Entry(table, a) == InEdges(edgeList, n, a)
    }

    lemma OutGrows(table: map<string, seq<string>>, n: nat)
      requires n < |edgeList| && OutTable(table, n)
      ensures var e := edgeList[n]; OutTable(table[e.from := Entry(table, e.from) + [e.to]], n + 1)
    {
      var e := edgeList[n];
      var more := table[e.from := Entry(table, e.from) + [e.to]];
      forall a ensures Entry(more, a) == Targets(edgeList, n + 1, a) {
        assert Entry(table, a) == Targets(edgeList, n, a);
        assert a != e.from ==> Entry(more, a) == Entry(table, a) + [];
      }
    }

    lemma InGrows(table: map<string, seq<Edge>>, n: nat)
      requires n < |edgeList| && InTable(table, n)
      ensures var e := edgeList[n]; InTable(table[e.to := Entry(table, e.to) + [e]], n + 1)
    {
      var e := edgeList[n];
      var more := table[e.to := Entry(table, e.to) + [e]];
      forall a ensures Entry(more, a) == InEdges(edgeList, n + 1, a) {
        assert Entry(table, a) == InEdges(edgeList, n, a);
        assert a != e.to ==> Entry(more, a) == Entry(table, a) + [];
      }
    }

    /** Of a repeated edge the last configuration counts. */
    function ConfigOf(n: nat, e: Edge): Option<EdgeConfig>
      requires n <= |edgeList| == |configs|
    {
      if n == 0 then None else if edgeList[n - 1] == e then Some(configs[n - 1]) else ConfigOf(n - 1, e)
    }

    /** The queue of an edge is configured by the last entry that lists it. */
    lemma {:induction false} ConfigIsLast(n: nat, e: Edge)
      requires n <= |edgeList| == |configs|
      ensures ConfigOf(n, e).None? <==> e !in edgeList[..n]
      ensures forall i :: 0 <= i < n && edgeList[i] == e && e !in edgeList[i + 1..n] ==>
        ConfigOf(n, e) == Some(configs[i])
    {
      if n > 0 {
        ConfigIsLast(n - 1, e);
        assert edgeList[..n] == edgeList[..n - 1] + [edgeList[n - 1]];
        forall i | 0 <= i < n && edgeList[i] == e && e !in edgeList[i + 1..n]
          ensures ConfigOf(n, e) == Some(configs[i])
        {
          if i < n - 1 {
            assert edgeList[i + 1..n] == edgeList[i + 1..n - 1] + [edgeList[n - 1]];
          }
        }
      }
    }

    ghost predicate AllEmpty(n: nat) reads this`edges, this`repr, repr
      requires n <= |edgeList| == |configs| && Owned()
    {
      forall e :: e in edges ==> edges[e].Contents() == Queue([], false) && ConfigOf(n, e) == Some(edges[e].cfg)
    }

    method AddQueue(i: nat)
      requires i < |edgeList| == |configs| && Valid() && AllEmpty(i)
      modifies this`edges, this`repr
      ensures Valid() && AllEmpty(i + 1) && edges.Keys == old(edges.Keys) + {edgeList[i]}
      ensures fresh(repr - old(repr))
    {
      var q := new EdgeQueue<Event>(configs[i]);
      edges := edges[edgeList[i] := q];
      repr := repr + {q};
    }

    method AddToTables(i: nat)
      requires i < |edgeList| && OutTable(outgoing, i) && InTable(incoming, i)
      modifies this`outgoing, this`incoming
      ensures OutTable(outgoing, i + 1) && InTable(incoming, i + 1)
    {
      var e := edgeList[i];
      OutGrows(outgoing, i);
      InGrows(incoming, i);
      outgoing := outgoing[e.from := Entry(outgoing, e.from) + [e.to]];
      incoming := incoming[e.to := Entry(incoming, e.to) + [e]];
    }

    /** One turn of the second loop of `build`. */
    method AddEdge(i: nat)
      requires i < |edgeList| == |configs| && Valid() && AllEmpty(i) && Tables(i)
      modifies this`outgoing, this`incoming, this`edges, this`repr
      ensures Valid() && AllEmpty(i + 1) && Tables(i + 1)
      ensures fresh(repr - old(repr))
    {
      AddToTables(i);
      AddQueue(i);
      assert edgeList[..i + 1] == edgeList[..i] + [edgeList[i]];
    }

    /** `build`; false: a node has no stage. */
    method Build(stages: set<string>) returns (ok: bool)
      requires outgoing == map[] && incoming == map[] && edges == map[] && |edgeList| == |configs|
      modifies this
      ensures ok <==> forall n :: n in nodes ==> n in stages
      ensures ok ==> Valid() && AllEmpty(|edgeList|) && Tables(|edgeList|)
    {
      for i := 0 to |nodes|
        invariant forall j :: 0 <= j < i ==> nodes[j] in stages
        invariant outgoing == map[] && incoming == map[] && edges == map[]
      {
        if nodes[i] !in stages {
          return false;
        }
      }
      for i := 0 to |edgeList|
        invariant Valid() && AllEmpty(i) && Tables(i)
      {
        AddEdge(i);
      }
      ok := true;
    }

    /** One push of `emitToDownstream`. */
    method PushTo(e: Edge, event: Event)
      requires Valid() && e in edges && !Undefined(edges[e].cfg)
      modifies edges[e]
      ensures Valid() && edges[e].Contents() == Pushed(old(edges[e].Contents()), edges[e].cfg, event)
      ensures forall f :: f in edges && f != e ==> edges[f].Contents() == old(edges[f].Contents())
    {
      var _ := edges[e].Push(event);
    }

    /** What the queues hold. */
    ghost predicate Shows(now: map<Edge, Queue<Event>>)
      reads this`edges, this`repr, repr
      requires Owned()
    {
      now.Keys == edges.Keys && forall e :: e in edges ==> edges[e].Contents() == now[e]
    }

    method OfferOne(e: Edge, event: Event, ghost now: map<Edge, Queue<Event>>)
      requires Valid() && Shows(now) && e in edges && !Undefined(edges[e].cfg)
      modifies edges[e]
      ensures Valid() && Shows(now[e := Pushed(now[e], edges[e].cfg, event)])
    {
      PushTo(e, event);
    }

    /** The loop of `emitToDownstream`. */
    method OfferAll(from: string, event: Event, targets: seq<string>,
                    ghost before: map<Edge, Queue<Event>>, ghost cfgs: map<Edge, EdgeConfig>)
      returns (ghost after: map<Edge, Queue<Event>>)
      requires Valid() && Shows(before) && forall i :: 0 <= i < |targets| ==> Edge(from, targets[i]) in edges
      requires cfgs.Keys == edges.Keys && forall e :: e in edges ==> edges[e].cfg == cfgs[e] && !Undefined(cfgs[e])
      modifies repr
      ensures Valid() && Shows(after) && FannedOut(before, cfgs, from, event, targets, after)
    {
      after := before;
      var i := 0;
      while i < |targets|
        invariant 0 <= i <= |targets| && Valid() && Shows(after)
        invariant FannedOut(before, cfgs, from, event, targets[..i], after)
      {
        var e := Edge(from, targets[i]);
        OfferOne(e, event, after);
        FanOneMore(before, cfgs, from, event, targets, i, after);
        after := after[e := Pushed(after[e], cfgs[e], event)];
        i := i + 1;
      }
      assert targets[..i] == targets;
    }

    /** `emitToDownstream`: one push for each listed edge that leaves the node, in order, whatever
        each queue answers. */
    method EmitToDownstream(from: string, event: Event,
                            ghost before: map<Edge, Queue<Event>>, ghost cfgs: map<Edge, EdgeConfig>)
      returns (ghost after: map<Edge, Queue<Event>>)
      requires Valid() && Tables(|edgeList|) && Shows(before)
      requires cfgs.Keys == edges.Keys && forall e :: e in edges ==> edges[e].cfg == cfgs[e] && !Undefined(cfgs[e])
      modifies repr
      ensures Valid() && Shows(after)
      ensures after.Keys == before.Keys
      ensures forall e :: e in after ==>
        after[e] == PushedTimes(before[e], cfgs[e], event, if e.from == from then Count(edgeList, e) else 0)
    {
      var targets := Entry(outgoing, from);
      forall i | 0 <= i < |targets| ensures Edge(from, targets[i]) in edges {
        TargetsExact(edgeList, |edgeList|, from, targets[i]);
        InMeansCounted(targets, targets[i]);
        InMeansCounted(edgeList, Edge(from, targets[i]));
        assert edgeList[..|edgeList|] == edgeList;
      }
      after := OfferAll(from, event, targets, before, cfgs);
      FanMeans(before, cfgs, from, event, edgeList, after);
    }
  }

  // ---------------------------------------------------------------- the fan-out as a value

  /** How often an edge is offered the event: as often as it is listed. */
  ghost function Copies(e: Edge, from: string, targets: seq<string>): nat {
    if e.from == from then Count(targets, e.to) else 0
  }

  /** Each queue was offered the event as often as its edge is listed. */
  ghost predicate FannedOut(before: map<Edge, Queue<Event>>, cfgs: map<Edge, EdgeConfig>, from: string, event: Event,
                            targets: seq<string>, after: map<Edge, Queue<Event>>)
  {
    && after.Keys == before.Keys == cfgs.Keys
    && forall e :: e in after ==> after[e] == PushedTimes(before[e], cfgs[e], event, Copies(e, from, targets))
  }

  /** In terms of the configured edges. */
  lemma FanMeans(before: map<Edge, Queue<Event>>, cfgs: map<Edge, EdgeConfig>, from: string, event: Event,
                 edges: seq<Edge>, after: map<Edge, Queue<Event>>)
    requires FannedOut(before, cfgs, from, event, Targets(edges, |edges|, from), after)
    ensures forall e :: e in after ==>
      after[e] == PushedTimes(before[e], cfgs[e], event, if e.from == from then Count(edges, e) else 0)
  {
    assert edges[..|edges|] == edges;
    forall e | e in after
      ensures Copies(e, from, Targets(edges, |edges|, from)) == if e.from == from then Count(edges, e) else 0
    {
      TargetsExact(edges, |edges|, from, e.to);
    }
  }

  lemma FanOneMore(before: map<Edge, Queue<Event>>, cfgs: map<Edge, EdgeConfig>, from: string, event: Event,
                   targets: seq<string>, i: nat, now: map<Edge, Queue<Event>>)
    requires i < |targets| && FannedOut(before, cfgs, from, event, targets[..i], now) && Edge(from, targets[i]) in now
    ensures var e := Edge(from, targets[i]);
      FannedOut(before, cfgs, from, event, targets[..i + 1], now[e := Pushed(now[e], cfgs[e], event)])
  {
    forall e: Edge ensures Copies(e, from, targets[..i + 1]) ==
      Copies(e, from, targets[..i]) + if e == Edge(from, targets[i]) then 1 else 0
    {
      OneMoreCopy(targets, i + 1, e, from);
    }
  }

  lemma OneMoreCopy(targets: seq<string>, n: nat, e: Edge, from: string)
    requires 1 <= n <= |targets|
    ensures Copies(e, from, targets[..n]) ==
      Copies(e, from, targets[..n - 1]) + if e == Edge(from, targets[n - 1]) then 1 else 0
  {
    assert targets[..n] == targets[..n - 1] + [targets[n - 1]];
  }
}
