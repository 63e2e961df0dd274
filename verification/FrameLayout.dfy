/**
 The archive's directory names (include/archive/FrameLayout.h:15-106): written by the archiver,
 read back by the retention scan.
 */
module FrameLayout {
  import opened Geometry
  import opened Calendar

  // ---------------------------------------------------------------- decimal text

  function Digit(n: nat): char requires n < 10 { '0' + n as char }

  /** A number as a stream prints it. */
  function Decimal(n: nat): (s: string)
    ensures s != []
  {
    if n < 10 then [Digit(n)] else Decimal(n / 10) + [Digit(n % 10)]
  }

  function Zeros(n: nat): (s: string)
    ensures |s| == n
  {
    if n == 0 then "" else Zeros(n - 1) + "0"
  }

  /** `setfill('0') << setw(w)` */
  function Padded(n: nat, w: nat): (s: string)
    ensures |s| >= w && |s| >= |Decimal(n)|
  {
    var d := Decimal(n);
    if |d| >= w then d else Zeros(w - |d|) + d
  }

  predicate IsDigit(c: char) { '0' <= c <= '9' }

  predicate AllDigits(s: string) { forall i :: 0 <= i < |s| ==> IsDigit(s[i]) }

  /** `stoi` on digits. */
  function Number(s: string): nat
    requires AllDigits(s)
  {
    if s == "" then 0 else Number(s[..|s| - 1]) * 10 + (s[|s| - 1] as nat - '0' as nat)
  }

  lemma {:induction false} DecimalReads(n: nat)
    ensures AllDigits(Decimal(n)) && Number(Decimal(n)) == n
  {
    var d := Decimal(n);
    if n < 10 {
      assert d[..|d| - 1] == "";
    } else {
      DecimalReads(n / 10);
      assert d[..|d| - 1] == Decimal(n / 10);
      assert AllDigits(d);
    }
  }

  lemma {:induction false} ZerosAdd(k: nat, s: string)
    requires AllDigits(s)
    ensures AllDigits(Zeros(k) + s) && Number(Zeros(k) + s) == Number(s)
    decreases |s|
  {
    ZerosAreDigits(k);
    var z := Zeros(k) + s;
    if s == "" {
      assert z == Zeros(k);
    } else {
      ZerosAdd(k, s[..|s| - 1]);
      assert z[..|z| - 1] == Zeros(k) + s[..|s| - 1];
    }
  }

  lemma {:induction false} ZerosAreDigits(k: nat)
    ensures AllDigits(Zeros(k)) && Number(Zeros(k)) == 0
  {
    if k > 0 {
      ZerosAreDigits(k - 1);
      assert Zeros(k)[..k - 1] == Zeros(k - 1);
    }
  }

  function Power10(w: nat): nat { if w == 0 then 1 else 10 * Power10(w - 1) }

  lemma {:induction false} DecimalWidth(n: nat, w: nat)
    requires w >= 1 && n < Power10(w)
    ensures |Decimal(n)| <= w
  {
    if n >= 10 {
      DecimalWidth(n / 10, w - 1);
    }
  }

  lemma PaddedText(n: nat, w: nat)
    requires |Decimal(n)| <= w
    ensures Padded(n, w) == Zeros(w - |Decimal(n)|) + Decimal(n)
  {
    assert Zeros(0) + Decimal(n) == Decimal(n);
  }

  /** Padding to a width that suffices gives exactly that width, and reads back. */
  lemma PaddedReads(n: nat, w: nat)
    requires w >= 1 && n < Power10(w)
    ensures |Padded(n, w)| == w && AllDigits(Padded(n, w)) && Number(Padded(n, w)) == n
  {
    DecimalWidth(n, w);
    DecimalReads(n);
    PaddedText(n, w);
    ZerosAdd(w - |Decimal(n)|, Decimal(n));
  }

  // ---------------------------------------------------------------- the parsers

  function ParseDayDir(name: string): Option<int> {
    if |name| != 8 || !AllDigits(name) then None else
    var year, month, day := Number(name[..4]), Number(name[4..6]), Number(name[6..8]);
    if month < 1 || month > 12 || day < 1 || day > 31 then None
    else Some(UtcEpoch(Civil(year, month, day, 0, 0, 0)))
  }

  function ParseHourDir(name: string): Option<int> {
    if |name| != 2 || !AllDigits(name) then None
    else if Number(name) > 23 then None else Some(Number(name))
  }

  function ParseMinuteDir(name: string): Option<int> {
    if |name| != 2 || !AllDigits(name) then None
    else if Number(name) > 59 then None else Some(Number(name))
  }

  // ---------------------------------------------------------------- the writer

  predicate SafeChar(c: char) {
    'a' <= c <= 'z' || 'A' <= c <= 'Z' || '0' <= c <= '9' || c == '_' || c == '-'
  }

  predicate IsSafeStreamId(id: string) {
    id != "" && forall i :: 0 <= i < |id| ==> SafeChar(id[i])
  }

  datatype StreamMeta = StreamMeta(streamId: string, captureTs: real, frameSeq: nat)

  function DayName(c: Civil): string
    requires c.year >= 0 && c.month >= 0 && c.day >= 0
  {
    Padded(c.year, 4) + Padded(c.month, 2) + Padded(c.day, 2)
  }

  function FileName(meta: StreamMeta): string
    requires meta.captureTs >= 0.0
  {
    Decimal((meta.captureTs * 1000.0).Floor) + "_" + Decimal(meta.frameSeq) + ".jpg"
  }

  function Join(names: seq<string>): string
    requires names != []
  {
    if |names| == 1 then names[0] else names[0] + "/" + Join(names[1..])
  }

  /** None: the stream id is refused. */
  function ObjectKey(meta: StreamMeta): Option<string>
    requires meta.captureTs >= 0.0
  {
    if !IsSafeStreamId(meta.streamId) then None else
    Some(Join(BucketNames(GmTime(meta.captureTs.Floor)) + [meta.streamId, FileName(meta)]))
  }

  function BucketNames(c: Civil): (r: seq<string>)
    requires ValidCivil(c) && c.year >= 0
    ensures |r| == 3
  {
    [DayName(c), Padded(c.hour, 2), Padded(c.minute, 2)]
  }

  /** The names along a path. */
  function Split(path: string): (r: seq<string>)
    ensures r != []
  {
    if path == "" then [""] else
    var rest := Split(path[1..]);
    if path[0] == '/' then [""] + rest else [[path[0]] + rest[0]] + rest[1..]
  }

  predicate NoSlash(s: string) { forall i :: 0 <= i < |s| ==> s[i] != '/' }

  lemma {:induction false} SplitFirst(a: string, rest: string)
    requires NoSlash(a)
    ensures Split(a + "/" + rest) == [a] + Split(rest)
  {
    if a == "" {
      assert (a + "/" + rest)[1..] == rest;
    } else {
      SplitFirst(a[1..], rest);
      assert a == [a[0]] + a[1..];
      assert (a + "/" + rest)[1..] == a[1..] + "/" + rest;
    }
  }

  lemma {:induction false} SplitLast(a: string)
    requires NoSlash(a)
    ensures Split(a) == [a]
  {
    if a != "" {
      SplitLast(a[1..]);
      assert a == [a[0]] + a[1..];
    }
  }

  lemma {:induction false} SplitJoin(names: seq<string>)
    requires names != [] && forall i :: 0 <= i < |names| ==> NoSlash(names[i])
    ensures Split(Join(names)) == names
  {
    if |names| == 1 {
      SplitLast(names[0]);
    } else {
      SplitFirst(names[0], Join(names[1..]));
      SplitJoin(names[1..]);
    }
  }

  // ---------------------------------------------------------------- round trips

  lemma DayNameReads(c: Civil)
    requires ValidCivil(c) && 0 <= c.year <= 9999
    ensures AllDigits(DayName(c))
    ensures ParseDayDir(DayName(c)) == Some(UtcEpoch(Civil(c.year, c.month, c.day, 0, 0, 0)))
  {
    Power10Values();
    PaddedReads(c.year, 4);
    PaddedReads(c.month, 2);
    PaddedReads(c.day, 2);
    NameOfParts(Padded(c.year, 4), Padded(c.month, 2), Padded(c.day, 2));
  }

  lemma Power10Values()
    ensures Power10(4) == 10000 && Power10(2) == 100
  {
    assert Power10(3) == 1000;
  }

  lemma NameOfParts(y: string, m: string, d: string)
    requires |y| == 4 && |m| == |d| == 2 && AllDigits(y) && AllDigits(m) && AllDigits(d)
    requires 1 <= Number(m) <= 12 && 1 <= Number(d) <= 31
    ensures AllDigits(y + m + d)
    ensures ParseDayDir(y + m + d) == Some(UtcEpoch(Civil(Number(y), Number(m), Number(d), 0, 0, 0)))
  {
    var name := y + m + d;
    assert name[..4] == y && name[4..6] == m && name[6..8] == d;
  }

  lemma HourNameReads(hour: nat)
    requires hour < 24
    ensures AllDigits(Padded(hour, 2)) && ParseHourDir(Padded(hour, 2)) == Some(hour)
  {
    assert Power10(2) == 100;
    PaddedReads(hour, 2);
  }

  lemma MinuteNameReads(minute: nat)
    requires minute < 60
    ensures AllDigits(Padded(minute, 2)) && ParseMinuteDir(Padded(minute, 2)) == Some(minute)
  {
    assert Power10(2) == 100;
    PaddedReads(minute, 2);
  }

  /** The end of the bucket that three directory names stand for. */
  function MinuteEnd(day: string, hour: string, minute: string): Option<int> {
    match (ParseDayDir(day), ParseHourDir(hour), ParseMinuteDir(minute))
    case (Some(d), Some(h), Some(m)) => Some(d + h * 3600 + m * 60 + 60)
    case _ => None
  }

  lemma BucketOf(c: Civil, ts: nat)
    requires ValidCivil(c) && UtcEpoch(c) == ts
    ensures UtcEpoch(Civil(c.year, c.month, c.day, 0, 0, 0)) + c.hour * 3600 + c.minute * 60 == ts - ts % 60
  {
    var rest := c.minute + c.hour * 60 + DayNumber(Date(c.year, c.month, c.day)) * 1440;
    DivMod(ts, rest, c.second, 60);
  }

  lemma BucketNamesRead(c: Civil, start: int)
    requires ValidCivil(c) && c.year >= 0
    requires AllDigits(DayName(c)) && ParseDayDir(DayName(c)) == Some(start)
    ensures var r := BucketNames(c);
      && NoSlash(r[0]) && NoSlash(r[1]) && NoSlash(r[2])
      && MinuteEnd(r[0], r[1], r[2]) == Some(start + c.hour * 3600 + c.minute * 60 + 60)
  {
    HourNameReads(c.hour);
    MinuteNameReads(c.minute);
    PartsRead(DayName(c), Padded(c.hour, 2), Padded(c.minute, 2), start, c.hour, c.minute);
  }

  lemma PartsRead(day: string, hour: string, minute: string, d: int, h: int, m: int)
    requires AllDigits(day) && AllDigits(hour) && AllDigits(minute)
    requires ParseDayDir(day) == Some(d) && ParseHourDir(hour) == Some(h) && ParseMinuteDir(minute) == Some(m)
    ensures NoSlash(day) && NoSlash(hour) && NoSlash(minute)
    ensures MinuteEnd(day, hour, minute) == Some(d + h * 3600 + m * 60 + 60)
  {}

  lemma FileNameHasNoSlash(meta: StreamMeta)
    requires meta.captureTs >= 0.0
    ensures NoSlash(FileName(meta))
  {
    DecimalReads((meta.captureTs * 1000.0).Floor);
    DecimalReads(meta.frameSeq);
  }

  lemma BucketEnd(c: Civil, ts: nat)
    requires ValidCivil(c) && 0 <= c.year <= 9999 && UtcEpoch(c) == ts
    ensures IsBucket(BucketNames(c), ts)
  {
    DayNameReads(c);
    BucketNamesRead(c, UtcEpoch(Civil(c.year, c.month, c.day, 0, 0, 0)));
    BucketOf(c, ts);
  }

  /** The names read as the minute that holds `ts`. */
  predicate IsBucket(names: seq<string>, ts: nat)
    requires |names| >= 3
  {
    && NoSlash(names[0]) && NoSlash(names[1]) && NoSlash(names[2])
    && MinuteEnd(names[0], names[1], names[2]) == Some(ts - ts % 60 + 60)
  }

  lemma KeyNames(meta: StreamMeta, bucket: seq<string>)
    requires meta.captureTs >= 0.0 && IsSafeStreamId(meta.streamId)
    requires bucket == BucketNames(GmTime(meta.captureTs.Floor))
    requires NoSlash(bucket[0]) && NoSlash(bucket[1]) && NoSlash(bucket[2])
    ensures Split(ObjectKey(meta).value) == bucket + [meta.streamId, FileName(meta)]
  {
    FileNameHasNoSlash(meta);
    SplitJoin(bucket + [meta.streamId, FileName(meta)]);
  }

  lemma SameBucket(bucket: seq<string>, names: seq<string>, ts: nat)
    requires |bucket| == 3 && bucket <= names && IsBucket(bucket, ts)
    ensures IsBucket(names, ts)
  {}

  /** For capture times from 1970 through 9999 a key has five names, and the first three read
      back as the minute that holds the capture time. */
  lemma KeyReadsBack(meta: StreamMeta)
    requires 0.0 <= meta.captureTs < YEAR_10000 as real && IsSafeStreamId(meta.streamId)
    ensures ObjectKey(meta).Some? && ReadsAs(Split(ObjectKey(meta).value), meta)
  {
    var ts := meta.captureTs.Floor;
    FourDigitYear(ts);
    EpochOfGmTime(ts);
    var bucket := BucketNames(GmTime(ts));
    BucketEnd(GmTime(ts), ts);
    KeyNames(meta, bucket);
    SameBucket(bucket, Split(ObjectKey(meta).value), ts);
  }

  predicate ReadsAs(names: seq<string>, meta: StreamMeta)
    requires meta.captureTs >= 0.0
  {
    |names| == 5 && names[3] == meta.streamId && IsBucket(names, meta.captureTs.Floor)
  }

  // ---------------------------------------------------------------- keys do not collide

  /** The first place that holds no digit. */
  ghost function MarkAt(s: string): nat {
    if s == "" || !IsDigit(s[0]) then 0 else 1 + MarkAt(s[1..])
  }

  lemma {:induction false} MarkAfterDigits(a: string, x: string)
    requires AllDigits(a)
    ensures MarkAt(a + "_" + x) == |a|
  {
    var s := a + "_" + x;
    if a != "" {
      assert s[1..] == a[1..] + "_" + x;
      MarkAfterDigits(a[1..], x);
    }
  }

  /** Digits up to a mark that is no digit can be told from the rest. */
  lemma SameDigits(a: string, b: string, x: string, y: string)
    requires AllDigits(a) && AllDigits(b) && a + "_" + x == b + "_" + y
    ensures a == b && x == y
  {
    MarkAfterDigits(a, x);
    MarkAfterDigits(b, y);
    var s := a + "_" + x;
    assert s[..|a|] == a && s[..|b|] == b && s[|a| + 1..] == x && s[|b| + 1..] == y;
  }

  lemma DropSuffix(a: string, b: string, suffix: string)
    requires a + suffix == b + suffix
    ensures a == b
  {
    var s := a + suffix;
    assert |s| == |b| + |suffix|;
    assert s[..|a|] == a && s[..|b|] == b;
  }

  lemma DecimalInjective(m: nat, n: nat)
    requires Decimal(m) == Decimal(n)
    ensures m == n
  {
    DecimalReads(m);
    DecimalReads(n);
  }

  lemma FileNameReads(m: StreamMeta, n: StreamMeta)
    requires m.captureTs >= 0.0 && n.captureTs >= 0.0 && FileName(m) == FileName(n)
    ensures (m.captureTs * 1000.0).Floor == (n.captureTs * 1000.0).Floor && m.frameSeq == n.frameSeq
  {
    var a, b := Decimal((m.captureTs * 1000.0).Floor), Decimal((n.captureTs * 1000.0).Floor);
    var x, y := Decimal(m.frameSeq), Decimal(n.frameSeq);
    DropSuffix(a + "_" + x, b + "_" + y, ".jpg");
    DecimalReads((m.captureTs * 1000.0).Floor);
    DecimalReads((n.captureTs * 1000.0).Floor);
    SameDigits(a, b, x, y);
    DecimalInjective((m.captureTs * 1000.0).Floor, (n.captureTs * 1000.0).Floor);
    DecimalInjective(m.frameSeq, n.frameSeq);
  }

  /** The names of a key, spelled out. */
  lemma KeySplits(meta: StreamMeta)
    requires 0.0 <= meta.captureTs < YEAR_10000 as real && IsSafeStreamId(meta.streamId)
    ensures var names := Split(ObjectKey(meta).value);
      |names| == 5 && names[3] == meta.streamId && names[4] == FileName(meta)
  {
    var ts := meta.captureTs.Floor;
    FourDigitYear(ts);
    EpochOfGmTime(ts);
    BucketEnd(GmTime(ts), ts);
    KeyNames(meta, BucketNames(GmTime(ts)));
  }

  /** Two frames share a key only if stream, millisecond of capture and number all agree. */
  lemma KeysDistinct(m: StreamMeta, n: StreamMeta)
    requires 0.0 <= m.captureTs < YEAR_10000 as real && IsSafeStreamId(m.streamId)
    requires 0.0 <= n.captureTs < YEAR_10000 as real && IsSafeStreamId(n.streamId)
    requires ObjectKey(m) == ObjectKey(n)
    ensures m.streamId == n.streamId && m.frameSeq == n.frameSeq
    ensures (m.captureTs * 1000.0).Floor == (n.captureTs * 1000.0).Floor
  {
    KeySplits(m);
    KeySplits(n);
    FileNameReads(m, n);
  }
}
