/**
 The retention scan (src/archive/FrameRetentionGc.cpp:58-133) on a directory tree, for a pass
 without file system errors.
 */
module RetentionGc {
  import opened Geometry
  import opened FrameLayout
  import opened Directories
  import Calendar

  // ---------------------------------------------------------------- what one pass leaves, directory by directory

  function MinuteAfter(name: string, node: Node, hourStart: int, cutoff: int): Option<Node> {
    if node.Dir? && ParseMinuteDir(name).Some? && hourStart + ParseMinuteDir(name).value * 60 + 60 <= cutoff
    then None else Some(node)
  }

  function MinutesAfter(children: map<string, Node>, hourStart: int, cutoff: int): map<string, Node> {
    map m | m in children && MinuteAfter(m, children[m], hourStart, cutoff).Some? :: children[m]
  }

  function NonEmpty(children: map<string, Node>): Option<Node> {
    if children == map[] then None else Some(Dir(children))
  }

  /** Where the hour of a directory starts, if its name is an hour's. */
  function HourStart(name: string, dayStart: int): Option<int> {
    if ParseHourDir(name).None? then None else Some(dayStart + ParseHourDir(name).value * 3600)
  }

  function HourAfter(name: string, node: Node, dayStart: int, cutoff: int): Option<Node> {
    HourLeft(HourStart(name, dayStart), node, cutoff)
  }

  function HourLeft(start: Option<int>, node: Node, cutoff: int): Option<Node> {
    if node.File? || start.None? then Some(node)
    else if start.value + 3600 <= cutoff then None
    else NonEmpty(MinutesAfter(node.children, start.value, cutoff))
  }

  function HoursAfter(children: map<string, Node>, dayStart: int, cutoff: int): map<string, Node> {
    map h | h in children && HourAfter(h, children[h], dayStart, cutoff).Some? ::
      HourAfter(h, children[h], dayStart, cutoff).value
  }

  function DayAfter(name: string, node: Node, cutoff: int): Option<Node> {
    if node.File? || ParseDayDir(name).None? then Some(node) else
    var start := ParseDayDir(name).value;
    if start + 86400 <= cutoff then None else NonEmpty(HoursAfter(node.children, start, cutoff))
  }

  function DaysAfter(children: map<string, Node>, cutoff: int): map<string, Node> {
    map d | d in children && DayAfter(d, children[d], cutoff).Some? :: DayAfter(d, children[d], cutoff).value
  }

  // ---------------------------------------------------------------- what it counts as removed

  ghost function MinuteLoss(children: map<string, Node>, hourStart: int, cutoff: int): string -> nat {
    (m: string) => if m in children && MinuteAfter(m, children[m], hourStart, cutoff).None? then Size(children[m])
      else 0
  }

  ghost function HourLoss(start: Option<int>, node: Node, cutoff: int): nat {
    if node.File? || start.None? then 0
    else if start.value + 3600 <= cutoff then Size(node)
    else SumOf(node.children.Keys, MinuteLoss(node.children, start.value, cutoff))
  }

  ghost function HoursLoss(children: map<string, Node>, dayStart: int, cutoff: int): string -> nat {
    (h: string) => if h in children then HourLoss(HourStart(h, dayStart), children[h], cutoff) else 0
  }

  ghost function DayLoss(name: string, node: Node, cutoff: int): nat {
    if node.File? || ParseDayDir(name).None? then 0 else
    var start := ParseDayDir(name).value;
    if start + 86400 <= cutoff then Size(node) else SumOf(node.children.Keys, HoursLoss(node.children, start, cutoff))
  }

  ghost function DaysLoss(children: map<string, Node>, cutoff: int): string -> nat {
    (d: string) => if d in children then DayLoss(d, children[d], cutoff) else 0
  }

  ghost function Removed(children: map<string, Node>, cutoff: int): nat {
    SumOf(children.Keys, DaysLoss(children, cutoff))
  }

  // ---------------------------------------------------------------- the scan

  /** Part of a directory has been visited; the rest is as it was. */
  ghost predicate Visited(now: map<string, Node>, before: map<string, Node>, after: map<string, Node>,
                          left: set<string>) {
    && left <= before.Keys
    && (forall k :: k in now <==> if k in left then k in before else k in after)
    && (forall k :: k in now ==> if k in left then now[k] == before[k] else k in after && now[k] == after[k])
  }

  function Put(now: map<string, Node>, name: string, after: Option<Node>): map<string, Node> {
    if after.None? then now - {name} else now[name := after.value]
  }

  lemma VisitOne(now: map<string, Node>, before: map<string, Node>, after: map<string, Node>, left: set<string>,
                 name: string)
    requires Visited(now, before, after, left) && name in left
    ensures name in now && now[name] == before[name]
    ensures Visited(Put(now, name, if name in after then Some(after[name]) else None), before, after, left - {name})
  {}

  class FrameRetentionGc {
    const enabled: bool
    const maxAgeMinutes: int
    /** The archive's directory; None while it does not exist. */
    var root: Option<map<string, Node>>

    constructor (enabled: bool, maxAgeMinutes: int, root: Option<map<string, Node>>)
      ensures this.enabled == enabled && this.maxAgeMinutes == maxAgeMinutes && this.root == root
    {
      this.enabled, this.maxAgeMinutes, this.root := enabled, maxAgeMinutes, root;
    }

    /** One turn of the loop over minutes; None: the directory is gone. */
    method VisitMinute(name: string, node: Node, hourStart: int, cutoff: int)
      returns (after: Option<Node>, removed: nat)
      ensures after == MinuteAfter(name, node, hourStart, cutoff)
      ensures removed == if after.None? then Size(node) else 0
    {
      var minute := ParseMinuteDir(name);
      if node.File? || minute.None? {
        return Some(node), 0;
      }
      var minuteEnd := hourStart + minute.value * 60 + 60;
      if minuteEnd <= cutoff {
        removed := RemoveAll(node);
        return None, removed;
      }
      after, removed := Some(node), 0;
    }

    method ScanHour(children: map<string, Node>, hourStart: int, cutoff: int)
      returns (now: map<string, Node>, removed: nat)
      ensures now == MinutesAfter(children, hourStart, cutoff)
      ensures removed == SumOf(children.Keys, MinuteLoss(children, hourStart, cutoff))
    {
      now, removed := children, 0;
      ghost var loss := MinuteLoss(children, hourStart, cutoff);
      var left := children.Keys;
      while left != {}
        invariant Visited(now, children, MinutesAfter(children, hourStart, cutoff), left)
        invariant removed + SumOf(left, loss) == SumOf(children.Keys, loss)
        decreases left
      {
        var name :| name in left;
        SumOfAt(left, loss, name);
        VisitOne(now, children, MinutesAfter(children, hourStart, cutoff), left, name);
        var after, one := VisitMinute(name, now[name], hourStart, cutoff);
        now, removed := Put(now, name, after), removed + one;
        left := left - {name};
      }
    }

    /** One turn of the loop over hours. */
    method VisitHour(name: string, node: Node, dayStart: int, cutoff: int) returns (after: Option<Node>, removed: nat)
      ensures after == HourAfter(name, node, dayStart, cutoff)
      ensures removed == HourLoss(HourStart(name, dayStart), node, cutoff)
    {
      var hour := ParseHourDir(name);
      if node.File? || hour.None? {
        return Some(node), 0;
      }
      var hourStart := dayStart + hour.value * 3600;
      if hourStart + 3600 <= cutoff {
        removed := RemoveAll(node);
        return None, removed;
      }
      var minutes;
      minutes, removed := ScanHour(node.children, hourStart, cutoff);
      after := if minutes == map[] then None else Some(Dir(minutes));
    }

    method ScanDay(children: map<string, Node>, dayStart: int, cutoff: int)
      returns (now: map<string, Node>, removed: nat)
      ensures now == HoursAfter(children, dayStart, cutoff)
      ensures removed == SumOf(children.Keys, HoursLoss(children, dayStart, cutoff))
    {
      now, removed := children, 0;
      ghost var loss := HoursLoss(children, dayStart, cutoff);
      var left := children.Keys;
      while left != {}
        invariant Visited(now, children, HoursAfter(children, dayStart, cutoff), left)
        invariant removed + SumOf(left, loss) == SumOf(children.Keys, loss)
        decreases left
      {
        var name :| name in left;
        SumOfAt(left, loss, name);
        VisitOne(now, children, HoursAfter(children, dayStart, cutoff), left, name);
        var after, one := VisitHour(name, now[name], dayStart, cutoff);
        now, removed := Put(now, name, after), removed + one;
        left := left - {name};
      }
    }

    /** One turn of the loop over days. */
    method VisitDay(name: string, node: Node, cutoff: int) returns (after: Option<Node>, removed: nat)
      ensures after == DayAfter(name, node, cutoff) && removed == DayLoss(name, node, cutoff)
    {
      var day := ParseDayDir(name);
      if node.File? || day.None? {
        return Some(node), 0;
      }
      if day.value + 86400 <= cutoff {
        removed := RemoveAll(node);
        return None, removed;
      }
      var hours;
      hours, removed := ScanDay(node.children, day.value, cutoff);
      after := if hours == map[] then None else Some(Dir(hours));
    }

    method ScanRoot(days: map<string, Node>, cutoff: int) returns (now: map<string, Node>, removed: nat)
      ensures now == DaysAfter(days, cutoff) && removed == Removed(days, cutoff)
    {
      now, removed := days, 0;
      ghost var loss := DaysLoss(days, cutoff);
      var left := days.Keys;
      while left != {}
        invariant Visited(now, days, DaysAfter(days, cutoff), left)
        invariant removed + SumOf(left, loss) == SumOf(days.Keys, loss)
        decreases left
      {
        var name :| name in left;
        SumOfAt(left, loss, name);
        VisitOne(now, days, DaysAfter(days, cutoff), left, name);
        var after, one := VisitDay(name, now[name], cutoff);
        now, removed := Put(now, name, after), removed + one;
        left := left - {name};
      }
    }

    /** `runOnce` */
    method RunOnce(time: int) returns (removed: nat)
      modifies this`root
      ensures var cutoff := time - maxAgeMinutes * 60;
        if !enabled || old(root).None? then root == old(root) && removed == 0
        else root == Some(DaysAfter(old(root).value, cutoff)) && removed == Removed(old(root).value, cutoff)
    {
      if !enabled || root.None? {
        return 0;
      }
      var now;
      now, removed := ScanRoot(root.value, time - maxAgeMinutes * 60);
      root := Some(now);
    }
  }

  // ---------------------------------------------------------------- every entry is accounted for

  /** Directories that were pruned because nothing was left in them; they are not counted. */
  ghost function HourPruned(start: Option<int>, node: Node, cutoff: int): nat {
    if node.File? || start.None? || start.value + 3600 <= cutoff then 0
    else if MinutesAfter(node.children, start.value, cutoff) == map[] then 1 else 0
  }

  ghost function HoursPruned(children: map<string, Node>, dayStart: int, cutoff: int): string -> nat {
    (h: string) => if h in children then HourPruned(HourStart(h, dayStart), children[h], cutoff) else 0
  }

  ghost function DayPruned(name: string, node: Node, cutoff: int): nat {
    if node.File? || ParseDayDir(name).None? || ParseDayDir(name).value + 86400 <= cutoff then 0 else
    var start := ParseDayDir(name).value;
    SumOf(node.children.Keys, HoursPruned(node.children, start, cutoff)) + if DayAfter(name, node, cutoff).None?
      then 1 else 0
  }

  ghost function DaysPruned(children: map<string, Node>, cutoff: int): string -> nat {
    (d: string) => if d in children then DayPruned(d, children[d], cutoff) else 0
  }

  ghost function SizeIf(n: Option<Node>): nat { if n.Some? then Size(n.value) else 0 }

  /** A directory after a pass: what stayed of each entry, what was removed and what was pruned. */
  lemma LevelSplits(before: map<string, Node>, after: map<string, Node>, loss: string -> nat, pruned: string -> nat)
    requires after.Keys <= before.Keys
    requires forall k :: k in before ==>
      Size(before[k]) == (if k in after then Size(after[k]) else 0) + loss(k) + pruned(k)
    ensures SizeAll(before) == SizeAll(after) + SumOf(before.Keys, loss) + SumOf(before.Keys, pruned)
  {
    var gone := (k: string) => loss(k) + pruned(k);
    SumOfSplit(before.Keys, SizeAt(before), SizeAt(after), gone);
    SumOfSplit(before.Keys, gone, loss, pruned);
    SumOfFewer(before.Keys, after.Keys, SizeAt(after));
  }

  lemma {:induction false} SumOfNone(names: set<string>, f: string -> nat)
    requires forall k :: k in names ==> f(k) == 0
    ensures SumOf(names, f) == 0
  {
    SumOfFewer(names, {}, f);
  }

  lemma MinutesAccounted(children: map<string, Node>, hourStart: int, cutoff: int)
    ensures SizeAll(children) ==
      SizeAll(MinutesAfter(children, hourStart, cutoff)) + SumOf(children.Keys, MinuteLoss(children, hourStart, cutoff))
  {
    var none := (k: string) => 0;
    LevelSplits(children, MinutesAfter(children, hourStart, cutoff), MinuteLoss(children, hourStart, cutoff), none);
    SumOfNone(children.Keys, none);
  }

  lemma EmptyHasNothing()
    ensures SizeAll(map[]) == 0
  {}

  lemma HourAccounted(start: Option<int>, node: Node, cutoff: int)
    ensures Size(node) ==
      SizeIf(HourLeft(start, node, cutoff)) + HourLoss(start, node, cutoff) + HourPruned(start, node, cutoff)
  {
    if node.Dir? && start.Some? && start.value + 3600 > cutoff {
      MinutesAccounted(node.children, start.value, cutoff);
      SizeOfDir(node.children);
      SizeOfRest(MinutesAfter(node.children, start.value, cutoff));
    }
  }

  lemma SizeOfRest(children: map<string, Node>)
    ensures SizeIf(NonEmpty(children)) + (if children == map[] then 1 else 0) == 1 + SizeAll(children)
  {
    SizeOfDir(children);
    EmptyHasNothing();
  }

  lemma HoursAccounted(children: map<string, Node>, dayStart: int, cutoff: int)
    ensures SizeAll(children) ==
      SizeAll(HoursAfter(children, dayStart, cutoff)) + SumOf(children.Keys, HoursLoss(children, dayStart, cutoff))
      + SumOf(children.Keys, HoursPruned(children, dayStart, cutoff))
  {
    forall h | h in children
      ensures Size(children[h]) == SizeIf(HourAfter(h, children[h], dayStart, cutoff))
        + HourLoss(HourStart(h, dayStart), children[h], cutoff)
        + HourPruned(HourStart(h, dayStart), children[h], cutoff)
    {
      HourAccounted(HourStart(h, dayStart), children[h], cutoff);
    }
    LevelSplits(children, HoursAfter(children, dayStart, cutoff),
                HoursLoss(children, dayStart, cutoff), HoursPruned(children, dayStart, cutoff));
  }

  lemma DayAccounted(name: string, node: Node, cutoff: int)
    ensures Size(node) == SizeIf(DayAfter(name, node, cutoff)) + DayLoss(name, node, cutoff)
      + DayPruned(name, node, cutoff)
  {
    if node.Dir? && ParseDayDir(name).Some? {
      var start := ParseDayDir(name).value;
      if start + 86400 > cutoff {
        HoursAccounted(node.children, start, cutoff);
        SizeOfDir(node.children);
        SizeOfRest(HoursAfter(node.children, start, cutoff));
      }
    }
  }

  /** Every entry of the archive is still there, counted as removed, or an emptied directory. */
  lemma EntriesAccounted(tree: map<string, Node>, cutoff: int)
    ensures SizeAll(tree) ==
      SizeAll(DaysAfter(tree, cutoff)) + Removed(tree, cutoff) + SumOf(tree.Keys, DaysPruned(tree, cutoff))
  {
    forall d | d in tree
      ensures Size(tree[d]) == SizeIf(DayAfter(d, tree[d], cutoff)) + DayLoss(d, tree[d], cutoff)
        + DayPruned(d, tree[d], cutoff)
    {
      DayAccounted(d, tree[d], cutoff);
    }
    LevelSplits(tree, DaysAfter(tree, cutoff), DaysLoss(tree, cutoff), DaysPruned(tree, cutoff));
  }

  // ---------------------------------------------------------------- what it means for one path

  function At(tree: map<string, Node>, path: seq<string>): Option<Node>
    requires path != []
    decreases |path|
  {
    if path[0] !in tree then None
    else if |path| == 1 then Some(tree[path[0]])
    else if tree[path[0]].File? then None
    else At(tree[path[0]].children, path[1..])
  }

  /** The path leads into or to a minute bucket: three well-formed names, a directory at the third. */
  predicate InBucket(tree: map<string, Node>, path: seq<string>) {
    && |path| >= 3 && MinuteEnd(path[0], path[1], path[2]).Some?
    && At(tree, path[..3]).Some? && At(tree, path[..3]).value.Dir?
  }

  lemma BucketPath(tree: map<string, Node>, path: seq<string>)
    requires InBucket(tree, path)
    ensures path[0] in tree && tree[path[0]].Dir?
    ensures var hours := tree[path[0]].children;
      path[1] in hours && hours[path[1]].Dir?
      && path[2] in hours[path[1]].children && hours[path[1]].children[path[2]].Dir?
  {
    var p := path[..3];
    var q := p[1..];
    assert At(tree, p) == At(tree[path[0]].children, q);
    assert q[0] == path[1] && q[1..] == [path[2]];
    assert At(tree[path[0]].children, q) == At(tree[path[0]].children[path[1]].children, q[1..]);
  }

  lemma DayEndsLast(day: string, hour: string, minute: string)
    requires MinuteEnd(day, hour, minute).Some?
    ensures var d, h := ParseDayDir(day).value, ParseHourDir(hour).value;
      MinuteEnd(day, hour, minute).value <= d + h * 3600 + 3600 <= d + 86400
  {}

  lemma MinuteLevel(children: map<string, Node>, hourStart: int, cutoff: int, path: seq<string>)
    requires path != [] && ParseMinuteDir(path[0]).Some? && path[0] in children && children[path[0]].Dir?
    ensures At(MinutesAfter(children, hourStart, cutoff), path) ==
      if hourStart + ParseMinuteDir(path[0]).value * 60 + 60 <= cutoff then None else At(children, path)
  {}

  lemma HourLevel(children: map<string, Node>, dayStart: int, cutoff: int, path: seq<string>)
    requires |path| >= 2 && ParseHourDir(path[0]).Some? && ParseMinuteDir(path[1]).Some?
    requires path[0] in children && children[path[0]].Dir?
    requires path[1] in children[path[0]].children && children[path[0]].children[path[1]].Dir?
    ensures At(HoursAfter(children, dayStart, cutoff), path) ==
      if dayStart + ParseHourDir(path[0]).value * 3600 + ParseMinuteDir(path[1]).value * 60 + 60 <= cutoff then None
      else At(children, path)
  {
    var start := dayStart + ParseHourDir(path[0]).value * 3600;
    MinuteLevel(children[path[0]].children, start, cutoff, path[1..]);
  }

  /** Whatever else the tree holds: a minute bucket goes, with all it holds, exactly when a flat
      check of its end says so, and otherwise keeps all it holds. */
  lemma ScanIsFlatCheck(tree: map<string, Node>, cutoff: int, path: seq<string>)
    requires InBucket(tree, path)
    ensures At(DaysAfter(tree, cutoff), path) ==
      if MinuteEnd(path[0], path[1], path[2]).value <= cutoff then None else At(tree, path)
  {
    DayEndsLast(path[0], path[1], path[2]);
    BucketPath(tree, path);
    HourLevel(tree[path[0]].children, ParseDayDir(path[0]).value, cutoff, path[1..]);
  }

  /** Some directory above a file is past its end. */
  predicate Doomed(path: seq<string>, cutoff: int) {
    && |path| >= 2 && ParseDayDir(path[0]).Some?
    && var day := ParseDayDir(path[0]).value;
       day + 86400 <= cutoff || DoomedHour(path[1..], day, cutoff)
  }

  predicate DoomedHour(path: seq<string>, day: int, cutoff: int) {
    && |path| >= 2 && ParseHourDir(path[0]).Some?
    && var hour := day + ParseHourDir(path[0]).value * 3600;
       hour + 3600 <= cutoff || DoomedMinute(path[1..], hour, cutoff)
  }

  predicate DoomedMinute(path: seq<string>, hour: int, cutoff: int) {
    |path| >= 2 && ParseMinuteDir(path[0]).Some? && hour + ParseMinuteDir(path[0]).value * 60 + 60 <= cutoff
  }

  lemma FileInHour(children: map<string, Node>, hour: int, cutoff: int, path: seq<string>)
    requires path != [] && At(children, path) == Some(File)
    ensures At(MinutesAfter(children, hour, cutoff), path) == if DoomedMinute(path, hour, cutoff) then None
      else Some(File)
  {}

  lemma FileInDay(children: map<string, Node>, day: int, cutoff: int, path: seq<string>)
    requires path != [] && At(children, path) == Some(File)
    ensures At(HoursAfter(children, day, cutoff), path) == if DoomedHour(path, day, cutoff) then None else Some(File)
  {
    if |path| >= 2 && ParseHourDir(path[0]).Some? {
      FileInHour(children[path[0]].children, day + ParseHourDir(path[0]).value * 3600, cutoff, path[1..]);
    }
  }

  /** Any file, in a bucket or strayed in anywhere, goes exactly when a directory above it is
      named like a period that has ended; pruning empty directories takes no file along. */
  lemma FileSurvivesIff(tree: map<string, Node>, cutoff: int, path: seq<string>)
    requires path != [] && At(tree, path) == Some(File)
    ensures At(DaysAfter(tree, cutoff), path) == if Doomed(path, cutoff) then None else Some(File)
  {
    if |path| >= 2 && ParseDayDir(path[0]).Some? {
      FileInDay(tree[path[0]].children, ParseDayDir(path[0]).value, cutoff, path[1..]);
    }
  }

  /** What is not under a directory named like a day is left alone. */
  lemma StrayUntouched(tree: map<string, Node>, cutoff: int, path: seq<string>)
    requires path != [] && ParseDayDir(path[0]).None?
    ensures At(DaysAfter(tree, cutoff), path) == At(tree, path)
  {}

  // ---------------------------------------------------------------- the writer and the scan agree

  /** The path of an archived frame's file. */
  function FramePath(meta: StreamMeta): (path: seq<string>)
    requires meta.captureTs >= 0.0 && IsSafeStreamId(meta.streamId)
    ensures path != []
  {
    Split(ObjectKey(meta).value)
  }

  /** What becomes of a file captured at `captureTs` in a pass at `time`: kept up to the limit of
      age, deleted a minute past it. */
  ghost predicate KeptByAge(tree: map<string, Node>, path: seq<string>, captureTs: real, time: int, limit: int)
    requires path != []
  {
    && (time as real - captureTs <= limit as real ==> At(DaysAfter(tree, time - limit), path) == Some(File))
    && (time as real - captureTs >= (limit + 60) as real ==> At(DaysAfter(tree, time - limit), path) == None)
  }

  lemma FileByAge(tree: map<string, Node>, path: seq<string>, captureTs: real, time: int, limit: int)
    requires captureTs >= 0.0 && |path| == 5 && IsBucket(path, captureTs.Floor) && At(tree, path) == Some(File)
    ensures KeptByAge(tree, path, captureTs, time, limit)
  {
    FileInBucket(tree, path);
    ScanIsFlatCheck(tree, time - limit, path);
    AgeOfBucket(captureTs, time, time - limit);
  }

  /** A frame is never deleted up to the maximal age, and always once it is a minute older. */
  lemma WriterAndScanAgree(tree: map<string, Node>, meta: StreamMeta, time: int, maxAgeMinutes: int)
    requires 0.0 <= meta.captureTs < Calendar.YEAR_10000 as real && IsSafeStreamId(meta.streamId)
    requires At(tree, FramePath(meta)) == Some(File)
    ensures KeptByAge(tree, FramePath(meta), meta.captureTs, time, maxAgeMinutes * 60)
  {
    KeyReadsBack(meta);
    FileByAge(tree, FramePath(meta), meta.captureTs, time, maxAgeMinutes * 60);
  }

  lemma AgeOfBucket(captureTs: real, time: int, cutoff: int)
    requires captureTs >= 0.0
    ensures var ts := captureTs.Floor;
            var end := ts - ts % 60 + 60;
      && (time as real - captureTs <= (time - cutoff) as real ==> end > cutoff)
      && (time as real - captureTs >= (time - cutoff + 60) as real ==> end <= cutoff)
  {}

  lemma FileInBucket(tree: map<string, Node>, path: seq<string>)
    requires |path| == 5 && MinuteEnd(path[0], path[1], path[2]).Some? && At(tree, path) == Some(File)
    ensures InBucket(tree, path)
  {
    var hours := tree[path[0]].children;
    var minutes := hours[path[1]].children;
    assert At(hours, path[1..]) == At(minutes, path[1..][1..]);
    var p := path[..3];
    var q := p[1..];
    assert q[0] == path[1] && q[1..] == [path[2]];
    assert At(hours, q) == At(minutes, q[1..]);
  }
}
