/**
 What is written in an archive key and which directory names count (include/archive/FrameLayout.h:28-106),
 digit by digit, and the calendar they are read with, month by month.
 */
module ArchiveLaws {
  import opened Geometry
  import opened Calendar
  import opened FrameLayout

  // ---------------------------------------------------------------- the calendar, month by month

  /** The days of a month: thirty days hath September. */
  function Days(y: int, m: int): int
    requires 1 <= m <= 12
  {
    var leap := (y % 4 == 0 && y % 100 != 0) || y % 400 == 0;
    [31, if leap then 29 else 28, 31, 30, 31, 30, 31, 31, 30, 31, 30, 31][m - 1]
  }

  /** The first second of a month. */
  function FirstOf(y: int, m: int): int
    requires 1 <= m <= 12
  {
    UtcEpoch(Civil(y, m, 1, 0, 0, 0))
  }

  /** A month runs through its days, hours, minutes and seconds from its first second on. */
  lemma WithinMonth(c: Civil)
    requires 1 <= c.month <= 12
    ensures UtcEpoch(c) == FirstOf(c.year, c.month) + (c.day - 1) * 86400 + c.hour * 3600 + c.minute * 60 + c.second
  {
    FromParts(c, DaysBefore(c.year), MonthStart(c.year, c.month));
    FromParts(Civil(c.year, c.month, 1, 0, 0, 0), DaysBefore(c.year), MonthStart(c.year, c.month));
  }

  /** Time starts with January 1970. */
  lemma FirstMonth(y: int, m: int)
    requires y == 1970 && m == 1
    ensures FirstOf(y, m) == 0
  {
    assert DaysBefore(1970) == 0;
    FromParts(Civil(y, m, 1, 0, 0, 0), DaysBefore(y), MonthStart(y, m));
  }

  /** Each month follows the one before after its days, and January follows December; with `FirstMonth`
      and `WithinMonth` this determines every time. */
  lemma MonthByMonth(y: int, m: int)
    requires 1 <= m <= 12
    ensures m < 12 ==> FirstOf(y, m + 1) == FirstOf(y, m) + Days(y, m) * 86400
    ensures m == 12 ==> FirstOf(y + 1, 1) == FirstOf(y, m) + Days(y, m) * 86400
  {
    YearLength(y);
    MonthLengths(y, m);
    FromParts(Civil(y, m, 1, 0, 0, 0), DaysBefore(y), MonthStart(y, m));
    if m < 12 {
      FromParts(Civil(y, m + 1, 1, 0, 0, 0), DaysBefore(y), MonthStart(y, m + 1));
    } else {
      MonthLengths(y + 1, 1);
      FromParts(Civil(y + 1, 1, 1, 0, 0, 0), DaysBefore(y + 1), MonthStart(y + 1, 1));
    }
  }

  lemma FromParts(c: Civil, days: int, start: int)
    requires 1 <= c.month <= 12
    requires DaysBefore(c.year) == days && MonthStart(c.year, c.month) == start
    ensures UtcEpoch(c) == c.second + c.minute * 60 + c.hour * 3600 + (days + start + c.day - 1) * 86400
  {
  }

  lemma MonthLengths(y: int, m: int)
    requires 1 <= m <= 12
    ensures MonthStart(y, 1) == 0 && MonthStart(y, 13) == if Leap(y) then 366 else 365
    ensures MonthStart(y, m + 1) == MonthStart(y, m) + Days(y, m)
  {
  }

  // ---------------------------------------------------------------- a key, digit by digit

  /** Text that reads as this number. */
  ghost predicate Digits(s: string, n: int) { AllDigits(s) && Number(s) == n }

  /** The names of a key: the date, hour and minute of capture, the stream, and the millisecond of capture
      and number of the frame. */
  ghost predicate KeyTells(names: seq<string>, c: Civil, meta: StreamMeta)
    requires meta.captureTs >= 0.0
  {
    && |names| == 5 && |names[0]| == 8 && |names[1]| == 2 && |names[2]| == 2
    && Digits(names[0][..4], c.year) && Digits(names[0][4..6], c.month) && Digits(names[0][6..], c.day)
    && Digits(names[1], c.hour) && Digits(names[2], c.minute) && names[3] == meta.streamId
    && FileTells(names[4], (meta.captureTs * 1000.0).Floor, meta.frameSeq)
  }

  ghost predicate FileTells(name: string, ms: int, number: int) {
    exists a, b :: name == a + "_" + b + ".jpg" && Digits(a, ms) && Digits(b, number)
  }

  lemma KeyIs(meta: StreamMeta)
    requires 0.0 <= meta.captureTs < YEAR_10000 as real && IsSafeStreamId(meta.streamId)
    ensures ObjectKey(meta).Some?
    ensures var c := GmTime(meta.captureTs.Floor);
      UtcEpoch(c) == meta.captureTs.Floor && ValidCivil(c) && KeyTells(Split(ObjectKey(meta).value), c, meta)
  {
    var ts := meta.captureTs.Floor;
    var c := GmTime(ts);
    FourDigitYear(ts);
    EpochOfGmTime(ts);
    BucketEnd(c, ts);
    KeyNames(meta, BucketNames(c));
    BucketDigits(c);
    FileIs(meta);
  }

  lemma FileIs(meta: StreamMeta)
    requires meta.captureTs >= 0.0
    ensures FileTells(FileName(meta), (meta.captureTs * 1000.0).Floor, meta.frameSeq)
  {
    var ms := (meta.captureTs * 1000.0).Floor;
    DecimalReads(ms);
    DecimalReads(meta.frameSeq);
    assert Digits(Decimal(ms), ms) && Digits(Decimal(meta.frameSeq), meta.frameSeq);
  }

  lemma BucketDigits(c: Civil)
    requires ValidCivil(c) && 0 <= c.year <= 9999
    ensures var names := BucketNames(c);
      && |names[0]| == 8 && |names[1]| == 2 && |names[2]| == 2
      && Digits(names[0][..4], c.year) && Digits(names[0][4..6], c.month) && Digits(names[0][6..], c.day)
      && Digits(names[1], c.hour) && Digits(names[2], c.minute)
  {
    Power10Values();
    PaddedReads(c.year, 4);
    PaddedReads(c.month, 2);
    PaddedReads(c.day, 2);
    PaddedReads(c.hour, 2);
    PaddedReads(c.minute, 2);
    ThreeParts(Padded(c.year, 4), Padded(c.month, 2), Padded(c.day, 2));
  }

  lemma ThreeParts(a: string, b: string, c: string)
    requires |a| == 4 && |b| == 2 && |c| == 2
    ensures (a + b + c)[..4] == a && (a + b + c)[4..6] == b && (a + b + c)[6..] == c
  {
  }

  // ---------------------------------------------------------------- names that count

  /** Only eight digits with a month and a day in range name a day, and they name its start. */
  lemma DayNameIff(name: string)
    ensures ParseDayDir(name).Some? <==>
      && |name| == 8 && AllDigits(name)
      && 1 <= Number(name[4..6]) <= 12 && 1 <= Number(name[6..8]) <= 31
    ensures ParseDayDir(name).Some? ==>
      ParseDayDir(name).value ==
        UtcEpoch(Civil(Number(name[..4]), Number(name[4..6]), 1, 0, 0, 0)) + (Number(name[6..8]) - 1) * 86400
  {
  }

  /** Only two digits up to 23 name an hour, and up to 59 a minute. */
  lemma HourAndMinuteIff(name: string)
    ensures ParseHourDir(name).Some? <==> |name| == 2 && AllDigits(name) && Number(name) <= 23
    ensures ParseMinuteDir(name).Some? <==> |name| == 2 && AllDigits(name) && Number(name) <= 59
    ensures ParseHourDir(name).Some? ==> ParseHourDir(name).value == Number(name)
    ensures ParseMinuteDir(name).Some? ==> ParseMinuteDir(name).value == Number(name)
  {
  }
}
