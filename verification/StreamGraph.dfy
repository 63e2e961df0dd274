/**
 Events along the edges of a running pipeline graph (src/pipeline/GraphExecutor.cpp:83-130).

 A state keeps, for each node, what it emitted (`log`) and what it took in and has not answered
 yet (`inbox`); for each edge the queue, how much of its origin's log was offered to it (`sent`)
 and what was popped from it (`received`).  Each step is one locked section of one queue, or one
 action of a stage, so every schedule of the node threads is a list of steps.  An event is known
 by the emission at the source that it descends from.
 */
module StreamGraph {
  import opened EdgeQueues
  import opened Subsequences

  type Event = nat

  datatype Edge = Edge(from: string, to: string)

  /** Repeated edges share one queue, which the model does not follow: an edge is its two ends. */
  datatype Graph = Graph(sources: set<string>, edges: map<Edge, EdgeConfig>)

  /** No push has undefined behaviour. */
  ghost predicate Defined(edges: map<Edge, EdgeConfig>) { forall e :: e in edges ==> !Undefined(edges[e]) }

  datatype State = State(
    log: map<string, seq<Event>>, inbox: map<string, seq<Event>>,
    queues: map<Edge, Queue<Event>>, sent: map<Edge, nat>, received: map<Edge, seq<Event>>)

  function LogOf(s: State, n: string): seq<Event> { if n in s.log then s.log[n] else [] }
  function InboxOf(s: State, n: string): seq<Event> { if n in s.inbox then s.inbox[n] else [] }
  function QueueOf(s: State, e: Edge): Queue<Event> { if e in s.queues then s.queues[e] else Queue([], false) }
  function SentOf(s: State, e: Edge): nat { if e in s.sent then s.sent[e] else 0 }
  function ReceivedOf(s: State, e: Edge): seq<Event> { if e in s.received then s.received[e] else [] }

  datatype Step =
    | Tick(source: string, event: Event)
    | Emit(node: string)
    | Discard(node: string)
    | Push(edge: Edge)
    | Pop(edge: Edge)
    | Stop(edge: Edge)
    | Reopen(edge: Edge)

  function Next(g: Graph, s: State, step: Step): State {
    match step
    case Tick(n, x) => if n in g.sources then s.(log := s.log[n := LogOf(s, n) + [x]]) else s
    case Emit(n) =>
      var inbox := InboxOf(s, n);
      if inbox == [] then s else s.(log := s.log[n := LogOf(s, n) + [inbox[0]]], inbox := s.inbox[n := inbox[1..]])
    case Discard(n) =>
      var inbox := InboxOf(s, n);
      if inbox == [] then s else s.(inbox := s.inbox[n := inbox[1..]])
    case Push(e) =>
      var k, log := SentOf(s, e), LogOf(s, e.from);
      if e !in g.edges || Undefined(g.edges[e]) || k >= |log| then s
      else s.(queues := s.queues[e := Pushed(QueueOf(s, e), g.edges[e], log[k])], sent := s.sent[e := k + 1])
    case Pop(e) =>
      var q := QueueOf(s, e);
      if q.items == [] then s
      else s.(queues := s.queues[e := q.(items := q.items[1..])],
              received := s.received[e := ReceivedOf(s, e) + [q.items[0]]],
              inbox := s.inbox[e.to := InboxOf(s, e.to) + [q.items[0]]])
    case Stop(e) => s.(queues := s.queues[e := QueueOf(s, e).(stopped := true)])
    case Reopen(e) => s.(queues := s.queues[e := QueueOf(s, e).(stopped := false)])
  }

  function Run(g: Graph, steps: seq<Step>): State {
    if steps == [] then State(map[], map[], map[], map[], map[])
    else Next(g, Run(g, steps[..|steps| - 1]), steps[|steps| - 1])
  }

  // ---------------------------------------------------------------- one edge

  /** What was popped, what is queued and what is still to be offered, in order. */
  ghost function Along(s: State, e: Edge): seq<Event>
    requires SentOf(s, e) <= |LogOf(s, e.from)|
  {
    ReceivedOf(s, e) + QueueOf(s, e).items + LogOf(s, e.from)[SentOf(s, e)..]
  }

  ghost predicate EdgeInv(g: Graph, s: State, e: Edge) {
    && e in g.edges && SentOf(s, e) <= |LogOf(s, e.from)|
    && Subsequence(Along(s, e), LogOf(s, e.from))
    && Within(|QueueOf(s, e).items|, g.edges[e])
  }

  lemma EmissionKeepsEdge(s: State, t: State, e: Edge, x: Event)
    requires SentOf(s, e) <= |LogOf(s, e.from)| && Subsequence(Along(s, e), LogOf(s, e.from))
    requires QueueOf(t, e) == QueueOf(s, e) && SentOf(t, e) == SentOf(s, e) && ReceivedOf(t, e) == ReceivedOf(s, e)
    requires LogOf(t, e.from) == LogOf(s, e.from) + [x]
    ensures Subsequence(Along(t, e), LogOf(t, e.from))
  {
    Extend(Along(s, e), LogOf(s, e.from), x);
    assert Along(t, e) == Along(s, e) + [x];
  }

  lemma PopKeepsAlong(g: Graph, s: State, e: Edge)
    requires EdgeInv(g, s, e) && QueueOf(s, e).items != []
    ensures EdgeInv(g, Next(g, s, Pop(e)), e)
  {
    PopSame(ReceivedOf(s, e), QueueOf(s, e).items, LogOf(s, e.from)[SentOf(s, e)..]);
  }

  lemma PopSame(r: seq<Event>, q: seq<Event>, l: seq<Event>)
    requires q != []
    ensures (r + [q[0]]) + q[1..] + l == r + q + l
  {
    assert r + q == (r + [q[0]]) + q[1..];
  }

  lemma Refused(r: seq<Event>, q: seq<Event>, l: seq<Event>, log: seq<Event>)
    requires Subsequence(r + q + l, log) && l != []
    ensures Subsequence(r + q + l[1..], log)
  {
    var a := r + q + l;
    Remove(a, |r| + |q|, log);
    assert r + q + l[1..] == a[..|r| + |q|] + a[|r| + |q| + 1..];
  }

  lemma TakenForOldest(r: seq<Event>, q: seq<Event>, l: seq<Event>, log: seq<Event>)
    requires Subsequence(r + q + l, log) && l != [] && q != []
    ensures Subsequence(r + (q[1..] + [l[0]]) + l[1..], log)
  {
    var a := r + q + l;
    Remove(a, |r|, log);
    assert r + (q[1..] + [l[0]]) + l[1..] == a[..|r|] + a[|r| + 1..];
  }

  lemma Taken(r: seq<Event>, q: seq<Event>, l: seq<Event>, log: seq<Event>)
    requires Subsequence(r + q + l, log) && l != []
    ensures Subsequence(r + (q + [l[0]]) + l[1..], log)
  {
    assert r + (q + [l[0]]) + l[1..] == r + q + l;
  }

  /** Offering the next event of the log, whatever the queue does with it. */
  lemma Offered(r: seq<Event>, q: Queue<Event>, cfg: EdgeConfig, l: seq<Event>, log: seq<Event>)
    requires !Undefined(cfg) && Subsequence(r + q.items + l, log) && l != []
    ensures Subsequence(r + Pushed(q, cfg, l[0]).items + l[1..], log)
  {
    if !Takes(q, cfg) {
      Refused(r, q.items, l, log);
    } else if MakeRoom(q, cfg) == 1 {
      TakenForOldest(r, q.items, l, log);
    } else {
      assert q.items[0..] == q.items;
      Taken(r, q.items, l, log);
    }
  }

  lemma PushKeepsEdge(g: Graph, s: State, e: Edge)
    requires EdgeInv(g, s, e) && !Undefined(g.edges[e]) && SentOf(s, e) < |LogOf(s, e.from)|
    ensures EdgeInv(g, Next(g, s, Push(e)), e)
  {
    var k, log := SentOf(s, e), LogOf(s, e.from);
    Offered(ReceivedOf(s, e), QueueOf(s, e), g.edges[e], log[k..], log);
    assert log[k..][1..] == log[k + 1..];
  }

  lemma EdgeFrame(g: Graph, s: State, t: State, e: Edge)
    requires EdgeInv(g, s, e) && LogOf(t, e.from) == LogOf(s, e.from)
    requires QueueOf(t, e).items == QueueOf(s, e).items && SentOf(t, e) == SentOf(s, e)
    requires ReceivedOf(t, e) == ReceivedOf(s, e)
    ensures EdgeInv(g, t, e)
  {}

  lemma EmissionStep(g: Graph, s: State, t: State, e: Edge, n: string, x: Event)
    requires EdgeInv(g, s, e) && t.log == s.log[n := LogOf(s, n) + [x]]
    requires t.queues == s.queues && t.sent == s.sent && t.received == s.received
    ensures EdgeInv(g, t, e)
  {
    if n == e.from {
      EmissionKeepsEdge(s, t, e, x);
    } else {
      EdgeFrame(g, s, t, e);
    }
  }

  lemma EdgeStep(g: Graph, s: State, step: Step, e: Edge)
    requires EdgeInv(g, s, e)
    ensures EdgeInv(g, Next(g, s, step), e)
  {
    if step.Push? {
      PushStep(g, s, step.edge, e);
    } else if step.Pop? {
      PopStep(g, s, step.edge, e);
    } else {
      var t := Next(g, s, step);
      match step
      case Tick(n, x) => if n in g.sources { EmissionStep(g, s, t, e, n, x); }
      case Emit(n) => if InboxOf(s, n) != [] { EmissionStep(g, s, t, e, n, InboxOf(s, n)[0]); }
      case _ => EdgeFrame(g, s, t, e);
    }
  }

  lemma PushStep(g: Graph, s: State, f: Edge, e: Edge)
    requires EdgeInv(g, s, e)
    ensures EdgeInv(g, Next(g, s, Push(f)), e)
  {
    if f == e && !Undefined(g.edges[e]) && SentOf(s, e) < |LogOf(s, e.from)| {
      PushKeepsEdge(g, s, e);
    } else {
      EdgeFrame(g, s, Next(g, s, Push(f)), e);
    }
  }

  lemma PopStep(g: Graph, s: State, f: Edge, e: Edge)
    requires EdgeInv(g, s, e)
    ensures EdgeInv(g, Next(g, s, Pop(f)), e)
  {
    if f == e && QueueOf(s, e).items != [] {
      PopKeepsAlong(g, s, e);
    } else {
      EdgeFrame(g, s, Next(g, s, Pop(f)), e);
    }
  }

  lemma {:induction false} EdgeAlways(g: Graph, steps: seq<Step>, e: Edge)
    requires Defined(g.edges) && e in g.edges
    ensures EdgeInv(g, Run(g, steps), e)
  {
    if steps == [] {
      Reflexive<Event>([]);
      assert Along(Run(g, steps), e) == [];
    } else {
      var k := |steps| - 1;
      EdgeAlways(g, steps[..k], e);
      EdgeStep(g, Run(g, steps[..k]), steps[k], e);
    }
  }

  // ---------------------------------------------------------------- one stage

  /** `e` is the only way into its node, which makes no events of its own. */
  ghost predicate SoleInput(g: Graph, e: Edge) {
    e in g.edges && e.to !in g.sources && forall f :: f in g.edges && f.to == e.to ==> f == e
  }

  ghost predicate NodeInv(s: State, e: Edge) {
    Subsequence(LogOf(s, e.to) + InboxOf(s, e.to), ReceivedOf(s, e))
  }

  /** Queues exist for the graph's edges only. */
  ghost predicate OnlyEdges(g: Graph, s: State) {
    forall e :: e in s.queues && s.queues[e].items != [] ==> e in g.edges
  }

  lemma OnlyEdgesStep(g: Graph, s: State, step: Step)
    requires OnlyEdges(g, s)
    ensures OnlyEdges(g, Next(g, s, step))
  {}

  lemma EmitKeepsNode(g: Graph, s: State, e: Edge)
    requires NodeInv(s, e) && InboxOf(s, e.to) != []
    ensures NodeInv(Next(g, s, Emit(e.to)), e)
  {
    var t := Next(g, s, Emit(e.to));
    assert LogOf(t, e.to) + InboxOf(t, e.to) == LogOf(s, e.to) + InboxOf(s, e.to);
  }

  lemma DiscardKeepsNode(g: Graph, s: State, e: Edge)
    requires NodeInv(s, e) && InboxOf(s, e.to) != []
    ensures NodeInv(Next(g, s, Discard(e.to)), e)
  {
    Refused(LogOf(s, e.to), [], InboxOf(s, e.to), ReceivedOf(s, e)) by {
      assert LogOf(s, e.to) + [] == LogOf(s, e.to);
    }
    assert LogOf(s, e.to) + [] == LogOf(s, e.to);
  }

  lemma PopKeepsNode(g: Graph, s: State, e: Edge)
    requires NodeInv(s, e) && QueueOf(s, e).items != []
    ensures NodeInv(Next(g, s, Pop(e)), e)
  {
    var t, x := Next(g, s, Pop(e)), QueueOf(s, e).items[0];
    assert t.log == s.log;
    assert InboxOf(t, e.to) == InboxOf(s, e.to) + [x];
    assert ReceivedOf(t, e) == ReceivedOf(s, e) + [x];
    TookIn(LogOf(s, e.to), InboxOf(s, e.to), ReceivedOf(s, e), x);
  }

  lemma TookIn(log: seq<Event>, inbox: seq<Event>, received: seq<Event>, x: Event)
    requires Subsequence(log + inbox, received)
    ensures Subsequence(log + (inbox + [x]), received + [x])
  {
    Extend(log + inbox, received, x);
    assert log + (inbox + [x]) == log + inbox + [x];
  }

  lemma NodeFrame(s: State, t: State, e: Edge)
    requires NodeInv(s, e)
    requires LogOf(t, e.to) == LogOf(s, e.to) && InboxOf(t, e.to) == InboxOf(s, e.to)
    requires ReceivedOf(t, e) == ReceivedOf(s, e)
    ensures NodeInv(t, e)
  {}

  lemma NodeStep(g: Graph, s: State, step: Step, e: Edge)
    requires SoleInput(g, e) && OnlyEdges(g, s) && NodeInv(s, e)
    ensures NodeInv(Next(g, s, step), e)
  {
    if step.Pop? {
      PopNodeStep(g, s, step.edge, e);
    } else if step == Emit(e.to) && InboxOf(s, e.to) != [] {
      EmitKeepsNode(g, s, e);
    } else if step == Discard(e.to) && InboxOf(s, e.to) != [] {
      DiscardKeepsNode(g, s, e);
    } else {
      OtherNode(g, s, step, e);
      NodeFrame(s, Next(g, s, step), e);
    }
  }

  lemma OtherNode(g: Graph, s: State, step: Step, e: Edge)
    requires e.to !in g.sources && !step.Pop?
    requires step == Emit(e.to) || step == Discard(e.to) ==> InboxOf(s, e.to) == []
    ensures var t := Next(g, s, step);
      LogOf(t, e.to) == LogOf(s, e.to) && InboxOf(t, e.to) == InboxOf(s, e.to) && t.received == s.received
  {}

  lemma PopNodeStep(g: Graph, s: State, f: Edge, e: Edge)
    requires SoleInput(g, e) && OnlyEdges(g, s) && NodeInv(s, e)
    ensures NodeInv(Next(g, s, Pop(f)), e)
  {
    if f == e && QueueOf(s, e).items != [] {
      PopKeepsNode(g, s, e);
    } else {
      NodeFrame(s, Next(g, s, Pop(f)), e);
    }
  }

  lemma {:induction false} NodeAlways(g: Graph, steps: seq<Step>, e: Edge)
    requires Defined(g.edges) && SoleInput(g, e)
    ensures OnlyEdges(g, Run(g, steps)) && NodeInv(Run(g, steps), e)
  {
    if steps == [] {
      Reflexive<Event>([]);
      assert LogOf(Run(g, steps), e.to) + InboxOf(Run(g, steps), e.to) == [];
    } else {
      var k := |steps| - 1;
      NodeAlways(g, steps[..k], e);
      OnlyEdgesStep(g, Run(g, steps[..k]), steps[k]);
      NodeStep(g, Run(g, steps[..k]), steps[k], e);
    }
  }

  // ---------------------------------------------------------------- a path

  /** Consecutive nodes are joined by edges; between the ends each edge is its node's sole input. */
  ghost predicate IsPath(g: Graph, path: seq<string>) {
    && |path| >= 2
    && (forall i :: 0 <= i < |path| - 1 ==> Edge(path[i], path[i + 1]) in g.edges)
    && (forall i :: 0 <= i < |path| - 2 ==> SoleInput(g, Edge(path[i], path[i + 1])))
  }

  ghost function LastEdge(path: seq<string>): Edge
    requires |path| >= 2
  {
    Edge(path[|path| - 2], path[|path| - 1])
  }

  /** Whatever the schedule, the policies, the stops and the reopenings: what arrives at the end
      of a path is a subsequence of what its first node emitted. */
  lemma {:induction false} PathDelivers(g: Graph, steps: seq<Step>, path: seq<string>)
    requires Defined(g.edges) && IsPath(g, path)
    ensures Subsequence(ReceivedOf(Run(g, steps), LastEdge(path)), LogOf(Run(g, steps), path[0]))
    decreases |path|
  {
    var s, e := Run(g, steps), LastEdge(path);
    EdgeAlways(g, steps, e);
    Prefix(ReceivedOf(s, e), QueueOf(s, e).items + LogOf(s, e.from)[SentOf(s, e)..], LogOf(s, e.from)) by {
      assert ReceivedOf(s, e) + (QueueOf(s, e).items + LogOf(s, e.from)[SentOf(s, e)..]) == Along(s, e);
    }
    if |path| > 2 {
      var before := path[..|path| - 1];
      assert forall i :: 0 <= i < |before| ==> before[i] == path[i];
      var f := LastEdge(before);
      NodeAlways(g, steps, f);
      Prefix(LogOf(s, f.to), InboxOf(s, f.to), ReceivedOf(s, f));
      PathDelivers(g, steps, before);
      Transitive(ReceivedOf(s, e), LogOf(s, e.from), ReceivedOf(s, f));
      Transitive(ReceivedOf(s, e), ReceivedOf(s, f), LogOf(s, path[0]));
    }
  }

  // ---------------------------------------------------------------- runs without loss

  /** A push now finds the queue open and with room. */
  ghost predicate HasRoom(q: Queue<Event>, cfg: EdgeConfig) {
    !q.stopped && (cfg.capacity < 0 || |q.items| < cfg.capacity)
  }

  /** What was popped, what is queued and what is left to offer are the whole log. */
  ghost predicate Whole(r: seq<Event>, q: seq<Event>, log: seq<Event>, k: nat) { k <= |log| && r + q + log[k..] == log }

  lemma WholePush(r: seq<Event>, q: seq<Event>, log: seq<Event>, k: nat)
    requires Whole(r, q, log, k) && k < |log|
    ensures Whole(r, q + [log[k]], log, k + 1)
  {
    assert log[k..] == [log[k]] + log[k + 1..];
    assert r + (q + [log[k]]) + log[k + 1..] == r + q + ([log[k]] + log[k + 1..]);
  }

  lemma WholePop(r: seq<Event>, q: seq<Event>, log: seq<Event>, k: nat)
    requires Whole(r, q, log, k) && q != []
    ensures Whole(r + [q[0]], q[1..], log, k)
  {
    PopSame(r, q, log[k..]);
  }

  lemma WholeMore(r: seq<Event>, q: seq<Event>, log: seq<Event>, k: nat, more: seq<Event>)
    requires Whole(r, q, log, k)
    ensures Whole(r, q, log + more, k)
  {
    assert (log + more)[k..] == log[k..] + more;
    assert r + q + (log[k..] + more) == r + q + log[k..] + more;
  }

  ghost predicate AllAlong(s: State, e: Edge) {
    Whole(ReceivedOf(s, e), QueueOf(s, e).items, LogOf(s, e.from), SentOf(s, e))
  }

  lemma RoomAppends(q: Queue<Event>, cfg: EdgeConfig, x: Event)
    requires !Undefined(cfg) && HasRoom(q, cfg)
    ensures Pushed(q, cfg, x).items == q.items + [x]
  {
    PushedIs(q, cfg, x);
  }

  lemma LosslessPush(g: Graph, s: State, f: Edge, e: Edge)
    requires e in g.edges && !Undefined(g.edges[e]) && AllAlong(s, e)
    requires f == e ==> HasRoom(QueueOf(s, e), g.edges[e])
    ensures AllAlong(Next(g, s, Push(f)), e)
  {
    var k, log, q := SentOf(s, e), LogOf(s, e.from), QueueOf(s, e);
    if f == e && k < |log| {
      WholePush(ReceivedOf(s, e), q.items, log, k);
      RoomAppends(q, g.edges[e], log[k]);
    }
  }

  lemma LosslessPop(g: Graph, s: State, f: Edge, e: Edge)
    requires AllAlong(s, e)
    ensures AllAlong(Next(g, s, Pop(f)), e)
  {
    var t, q := Next(g, s, Pop(f)), QueueOf(s, e).items;
    assert LogOf(t, e.from) == LogOf(s, e.from) && SentOf(t, e) == SentOf(s, e);
    if f == e && q != [] {
      assert ReceivedOf(t, e) == ReceivedOf(s, e) + [q[0]] && QueueOf(t, e).items == q[1..];
      WholePop(ReceivedOf(s, e), q, LogOf(s, e.from), SentOf(s, e));
    } else {
      assert ReceivedOf(t, e) == ReceivedOf(s, e) && QueueOf(t, e).items == q;
    }
  }

  /** Other steps touch neither the edge nor its log, which may only grow. */
  lemma ElseLeaves(g: Graph, s: State, step: Step, e: Edge) returns (more: seq<Event>)
    requires !step.Push? && !step.Pop?
    ensures var t := Next(g, s, step);
      && ReceivedOf(t, e) == ReceivedOf(s, e) && SentOf(t, e) == SentOf(s, e)
      && QueueOf(t, e).items == QueueOf(s, e).items && LogOf(t, e.from) == LogOf(s, e.from) + more
  {
    more := [];
    if step.Emit? && step.node == e.from && InboxOf(s, e.from) != [] {
      more := [InboxOf(s, e.from)[0]];
    } else if step.Tick? && step.source == e.from && e.from in g.sources {
      more := [step.event];
    } else {
      assert LogOf(s, e.from) + [] == LogOf(s, e.from);
    }
  }

  lemma LosslessElse(g: Graph, s: State, step: Step, e: Edge)
    requires AllAlong(s, e) && !step.Push? && !step.Pop?
    ensures AllAlong(Next(g, s, step), e)
  {
    var more := ElseLeaves(g, s, step, e);
    WholeMore(ReceivedOf(s, e), QueueOf(s, e).items, LogOf(s, e.from), SentOf(s, e), more);
  }

  lemma LosslessStep(g: Graph, s: State, step: Step, e: Edge)
    requires e in g.edges && !Undefined(g.edges[e]) && AllAlong(s, e)
    requires step == Push(e) ==> HasRoom(QueueOf(s, e), g.edges[e])
    ensures AllAlong(Next(g, s, step), e)
  {
    if step.Push? {
      LosslessPush(g, s, step.edge, e);
    } else if step.Pop? {
      LosslessPop(g, s, step.edge, e);
    } else {
      LosslessElse(g, s, step, e);
    }
  }

  /** No push on this edge met a stopped or a full queue. */
  ghost predicate NeverRefused(g: Graph, steps: seq<Step>, e: Edge)
    requires e in g.edges
  {
    forall i :: 0 <= i < |steps| && steps[i] == Push(e) ==> HasRoom(QueueOf(Run(g, steps[..i]), e), g.edges[e])
  }

  /** Then what was popped, what is queued and what is still to be offered is all the node emitted. */
  lemma {:induction false} EdgeLossless(g: Graph, steps: seq<Step>, e: Edge)
    requires e in g.edges && !Undefined(g.edges[e]) && NeverRefused(g, steps, e)
    ensures AllAlong(Run(g, steps), e)
  {
    if steps != [] {
      var k := |steps| - 1;
      assert forall i :: 0 <= i < k ==> steps[..k][i] == steps[i] && steps[..k][..i] == steps[..i];
      EdgeLossless(g, steps[..k], e);
      LosslessStep(g, Run(g, steps[..k]), steps[k], e);
    }
  }

  /** A stage with a single input that discards nothing has emitted or still holds all it took in. */
  lemma {:induction false} NodeLossless(g: Graph, steps: seq<Step>, e: Edge)
    requires SoleInput(g, e) && forall i :: 0 <= i < |steps| ==> steps[i] != Discard(e.to)
    ensures var s := Run(g, steps);
      OnlyEdges(g, s) && LogOf(s, e.to) + InboxOf(s, e.to) == ReceivedOf(s, e)
  {
    if steps != [] {
      var k := |steps| - 1;
      NodeLossless(g, steps[..k], e);
      NodeLosslessStep(g, Run(g, steps[..k]), steps[k], e);
      OnlyEdgesStep(g, Run(g, steps[..k]), steps[k]);
    }
  }

  lemma NodeLosslessStep(g: Graph, s: State, step: Step, e: Edge)
    requires SoleInput(g, e) && OnlyEdges(g, s) && step != Discard(e.to)
    requires LogOf(s, e.to) + InboxOf(s, e.to) == ReceivedOf(s, e)
    ensures var t := Next(g, s, step); LogOf(t, e.to) + InboxOf(t, e.to) == ReceivedOf(t, e)
  {
    var t := Next(g, s, step);
    if step == Pop(e) && QueueOf(s, e).items != [] {
      var x := QueueOf(s, e).items[0];
      assert LogOf(t, e.to) == LogOf(s, e.to) && InboxOf(t, e.to) == InboxOf(s, e.to) + [x];
      assert LogOf(s, e.to) + (InboxOf(s, e.to) + [x]) == ReceivedOf(s, e) + [x];
    } else if step == Emit(e.to) && InboxOf(s, e.to) != [] {
      var inbox := InboxOf(s, e.to);
      assert LogOf(s, e.to) + [inbox[0]] + inbox[1..] == LogOf(s, e.to) + inbox;
    } else if step.Pop? {
      assert t.log == s.log && InboxOf(t, e.to) == InboxOf(s, e.to) && ReceivedOf(t, e) == ReceivedOf(s, e);
    } else {
      OtherNode(g, s, step, e);
    }
  }

  /** Nothing is left on its way along the edge. */
  ghost predicate Drained(s: State, e: Edge) {
    SentOf(s, e) == |LogOf(s, e.from)| && QueueOf(s, e).items == [] && InboxOf(s, e.to) == []
  }

  lemma DrainedIsAll(s: State, e: Edge)
    requires AllAlong(s, e) && Drained(s, e)
    ensures ReceivedOf(s, e) == LogOf(s, e.from)
  {
    var r := ReceivedOf(s, e);
    assert r + [] + [] == r;
  }

  /** Along a single-input path on which no queue refused and no stage discarded, once nothing is left
      on its way, exactly what the first node emitted has arrived. */
  lemma {:induction false} PathLossless(g: Graph, steps: seq<Step>, path: seq<string>)
    requires Defined(g.edges) && IsPath(g, path)
    requires forall i :: 0 <= i < |path| - 1 ==> var e := Edge(path[i], path[i + 1]);
      e in g.edges && NeverRefused(g, steps, e) && Drained(Run(g, steps), e)
    requires forall i :: 0 <= i < |steps| ==> !steps[i].Discard?
    ensures ReceivedOf(Run(g, steps), LastEdge(path)) == LogOf(Run(g, steps), path[0])
    decreases |path|
  {
    var s, n := Run(g, steps), |path|;
    var e := Edge(path[n - 2], path[n - 1]);
    EdgeLossless(g, steps, e);
    DrainedIsAll(s, e);
    if n > 2 {
      var shorter := path[..n - 1];
      assert LastEdge(shorter) == Edge(path[n - 3], path[n - 2]);
      assert forall i :: 0 <= i < |shorter| - 1 ==> Edge(shorter[i], shorter[i + 1]) == Edge(path[i], path[i + 1]);
      PathLossless(g, steps, shorter);
      NodeLossless(g, steps, LastEdge(shorter));
    }
  }
}
