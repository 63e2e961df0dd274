/**
 The bounded queue on an edge of a pipeline (src/pipeline/EdgeQueue.cpp:10-50).  A timed wait is
 seen at the moment it ends: a push that still finds no room is refused, a pop that still finds
 nothing returns nothing.
 */
module EdgeQueues {
  import opened Geometry

  datatype Policy = Block | DropOldest | DropNewest

  /** The configured capacity; only pipelines of the configuration file are checked to have one of
      at least 1.  A negative one becomes a huge unsigned number. */
  datatype EdgeConfig = EdgeConfig(capacity: int, policy: Policy)

  datatype Queue<T> = Queue(items: seq<T>, stopped: bool)

  predicate Full(size: nat, cfg: EdgeConfig) { 0 <= cfg.capacity <= size }

  /** A push that drops the oldest takes it from an empty deque, which is undefined. */
  predicate Undefined(cfg: EdgeConfig) { cfg.capacity == 0 && cfg.policy.DropOldest? }

  predicate Takes<T>(q: Queue<T>, cfg: EdgeConfig) {
    !q.stopped && (!Full(|q.items|, cfg) || cfg.policy.DropOldest?)
  }

  /** What a push removes to make room; where that is undefined, nothing is claimed of it. */
  function MakeRoom<T>(q: Queue<T>, cfg: EdgeConfig): (k: nat)
    ensures k <= |q.items|
  {
    if !Undefined(cfg) && Takes(q, cfg) && Full(|q.items|, cfg) then 1 else 0
  }

  predicate Within(size: nat, cfg: EdgeConfig) { cfg.capacity < 0 || size <= cfg.capacity }

  function Pushed<T>(q: Queue<T>, cfg: EdgeConfig, event: T): (r: Queue<T>)
    ensures r.stopped == q.stopped
    ensures !Undefined(cfg) && Within(|q.items|, cfg) ==> Within(|r.items|, cfg)
  {
    if Takes(q, cfg) then q.(items := q.items[MakeRoom(q, cfg)..] + [event]) else q
  }

  /** A push of `event` on `q` answers `ok` and leaves `r`: a stopped queue refuses, one with room takes
      the event, and a full one makes room only if it drops the oldest. */
  ghost predicate PushLeaves<T>(q: Queue<T>, cfg: EdgeConfig, event: T, ok: bool, r: Queue<T>) {
    var full := cfg.capacity >= 0 && |q.items| >= cfg.capacity;
    && r.stopped == q.stopped
    && (q.stopped ==> !ok && r.items == q.items)
    && (!q.stopped && !full ==> ok && r.items == q.items + [event])
    && (!q.stopped && full && cfg.policy == DropOldest && |q.items| > 0 ==> ok && r.items == q.items[1..] + [event])
    && (!q.stopped && full && cfg.policy == DropNewest ==> !ok && r.items == q.items)
    && (!q.stopped && full && cfg.policy == Block ==> !ok && r.items == q.items)
  }

  /** The push as a value does what the program does in each case. */
  lemma PushedIs<T>(q: Queue<T>, cfg: EdgeConfig, event: T)
    requires !Undefined(cfg)
    ensures PushLeaves(q, cfg, event, Takes(q, cfg), Pushed(q, cfg, event))
  {
    assert q.items[0..] == q.items;
  }

  class EdgeQueue<T> {
    const cfg: EdgeConfig
    var queue: seq<T>
    var stopped: bool
    ghost var accepted: seq<T>
    ghost var removed: seq<T>

    /** Nothing is invented, lost or reordered: what was accepted is what left and what is queued. */
    ghost predicate Valid() reads this {
      accepted == removed + queue && Within(|queue|, cfg)
    }

    function Contents(): Queue<T> reads this { Queue(queue, stopped) }

    constructor (cfg: EdgeConfig)
      ensures Valid() && Contents() == Queue([], false) && accepted == [] && this.cfg == cfg
    {
      this.cfg := cfg;
      queue, stopped, accepted, removed := [], false, [], [];
    }

    method Push(event: T) returns (ok: bool)
      requires Valid() && !Undefined(cfg)
      modifies this
      ensures Valid() && Contents() == Pushed(old(Contents()), cfg, event)
      ensures ok == Takes(old(Contents()), cfg)
      ensures PushLeaves(old(Contents()), cfg, event, ok, Contents())
      ensures accepted == old(accepted) + if ok then [event] else []
      ensures removed == old(removed) + old(queue)[..MakeRoom(old(Contents()), cfg)]
    {
      ghost var q := Contents();
      ok := Offer(event);
      PushedIs(q, cfg, event);
    }

    /** The locked section of `push`. */
    method Offer(event: T) returns (ok: bool)
      requires Valid() && !Undefined(cfg)
      modifies this
      ensures Valid() && Contents() == Pushed(old(Contents()), cfg, event)
      ensures ok == Takes(old(Contents()), cfg)
      ensures accepted == old(accepted) + if ok then [event] else []
      ensures removed == old(removed) + old(queue)[..MakeRoom(old(Contents()), cfg)]
    {
      if stopped {
        return false;
      }
      if Full(|queue|, cfg) {
        if cfg.policy.DropNewest? {
          return false;
        }
        if cfg.policy.DropOldest? {
          removed := removed + queue[..1];
          queue := queue[1..];
        } else {
          return false;
        }
      }
      queue := queue + [event];
      accepted := accepted + [event];
      ok := true;
    }

    method Pop() returns (event: Option<T>)
      requires Valid()
      modifies this
      ensures Valid() && accepted == old(accepted) && stopped == old(stopped)
      ensures if old(queue) == [] then event == None && queue == [] && removed == old(removed)
              else event == Some(old(queue)[0]) && queue == old(queue)[1..] && removed == old(removed) + [event.value]
    {
      if queue == [] {
        return None;
      }
      event := Some(queue[0]);
      removed := removed + [queue[0]];
      queue := queue[1..];
    }

    method Stop()
      requires Valid()
      modifies this`stopped
      ensures Valid() && stopped && queue == old(queue)
    {
      stopped := true;
    }

    method Reopen()
      requires Valid()
      modifies this`stopped
      ensures Valid() && !stopped && queue == old(queue)
    {
      stopped := false;
    }
  }
}
