/**
 Coordinated Universal Time as POSIX.1-2017 defines it (XBD section 4.16, "Seconds Since the
 Epoch"): the formula behind `timegm`, and `gmtime_r` as its inverse.
 */
module Calendar {

  datatype Civil = Civil(year: int, month: int, day: int, hour: int, minute: int, second: int)

  predicate Leap(y: int) { y % 4 == 0 && (y % 100 != 0 || y % 400 == 0) }

  function MonthLength(y: int, m: int): int {
    if m == 2 then if Leap(y) then 29 else 28
    else if m == 4 || m == 6 || m == 9 || m == 11 then 30 else 31
  }

  /** Days from 1 January 1970 to 1 January of year `y`. */
  function DaysBefore(y: int): int {
    (y - 1970) * 365 + (y - 1969) / 4 - (y - 1901) / 100 + (y - 1601) / 400
  }

  const MONTH_STARTS := [0, 31, 59, 90, 120, 151, 181, 212, 243, 273, 304, 334, 365]

  /** Days from 1 January to the first of month `m`. */
  function MonthStart(y: int, m: int): int
    requires 1 <= m <= 13
  {
    MONTH_STARTS[m - 1] + if m > 2 && Leap(y) then 1 else 0
  }

  /** `timegm` on fields within their ranges; a day past the end of its month runs into the next. */
  function UtcEpoch(c: Civil): int
    requires 1 <= c.month <= 12
  {
    c.second + c.minute * 60 + c.hour * 3600 + DayNumber(Date(c.year, c.month, c.day)) * 86400
  }

  predicate ValidCivil(c: Civil) {
    && 1 <= c.month <= 12 && 1 <= c.day <= MonthLength(c.year, c.month)
    && 0 <= c.hour < 24 && 0 <= c.minute < 60 && 0 <= c.second < 60
  }

  lemma Magnitude(d: int, k: int)
    requires k > 0
    ensures d >= 1 ==> d * k >= k
    ensures d <= -1 ==> d * k <= -k
  {
    if d >= 1 {
      assert (d - 1) * k >= 0;
    } else if d <= -1 {
      assert (-1 - d) * k >= 0;
    }
  }

  /** Quotient and remainder are determined by their equation. */
  lemma DivMod(a: int, q: int, r: int, k: int)
    requires a == q * k + r && 0 <= r < k
    ensures a / k == q && a % k == r
  {
    var d := q - a / k;
    assert d * k == a % k - r;
    Magnitude(d, k);
  }

  /** Moving by `t` periods of `k` moves the quotient by `t`. */
  lemma Shifted(y: int, t: int, k: int)
    requires k > 0
    ensures (y - t * k) / k == y / k - t && (y - t * k) % k == y % k
  {
    assert (y / k - t) * k == y / k * k - t * k;
    DivMod(y - t * k, y / k - t, y % k, k);
  }

  /** The quotient steps at each multiple. */
  lemma Steps(y: int, t: int, k: int)
    requires k > 1
    ensures (y - t * k) / k == (y - t * k - 1) / k + if y % k == 0 then 1 else 0
  {
    Shifted(y, t, k);
    var q, r := y / k - t, y % k;
    assert y - t * k == q * k + r;
    if r == 0 {
      assert (q - 1) * k == q * k - k;
      DivMod(y - t * k - 1, q - 1, k - 1, k);
    } else {
      DivMod(y - t * k - 1, q, r - 1, k);
    }
  }

  lemma Multiple(y: int, a: int, b: int)
    requires a > 0 && b > 0 && y % (a * b) == 0
    ensures y % a == 0
  {
    var q := y / (a * b);
    assert y == q * (a * b);
    assert q * (a * b) == (q * b) * a;
    DivMod(y, q * b, 0, a);
  }

  /** The formula's divisions count the leap days. */
  lemma YearLength(y: int)
    ensures DaysBefore(y + 1) == DaysBefore(y) + if Leap(y) then 366 else 365
  {
    Steps(y, 492, 4);
    Steps(y, 19, 100);
    Steps(y, 4, 400);
    if y % 400 == 0 { Multiple(y, 100, 4); }
    if y % 100 == 0 { Multiple(y, 4, 25); }
  }

  lemma MonthStep(y: int, m: int)
    requires 1 <= m <= 12
    ensures MonthStart(y, m + 1) == MonthStart(y, m) + MonthLength(y, m)
  {}

  lemma {:induction false} YearsIncrease(y: int, z: int)
    requires y <= z
    ensures DaysBefore(y) + 365 * (z - y) <= DaysBefore(z)
    decreases z - y
  {
    if y < z {
      YearLength(y);
      YearsIncrease(y + 1, z);
    }
  }

  lemma {:induction false} MonthsIncrease(y: int, m: int, k: int)
    requires 1 <= m < k <= 13
    ensures MonthStart(y, m) + MonthLength(y, m) <= MonthStart(y, k)
    decreases k - m
  {
    MonthStep(y, m);
    if m + 1 < k {
      MonthsIncrease(y, m + 1, k);
    }
  }

  /** The first year from `y` on that `days` falls into. */
  function YearFrom(y: int, days: int): (r: int)
    requires DaysBefore(y) <= days
    ensures DaysBefore(r) <= days < DaysBefore(r + 1) && r >= y
    decreases days - DaysBefore(y)
  {
    YearLength(y);
    if days < DaysBefore(y + 1) then y else YearFrom(y + 1, days)
  }

  function MonthFrom(y: int, m: int, yday: int): (r: int)
    requires 1 <= m <= 12 && MonthStart(y, m) <= yday < MonthStart(y, 13)
    ensures 1 <= r <= 12 && MonthStart(y, r) <= yday < MonthStart(y, r + 1)
    decreases 12 - m
  {
    if m == 12 || yday < MonthStart(y, m + 1) then m else MonthFrom(y, m + 1, yday)
  }

  datatype Date = Date(year: int, month: int, day: int)

  predicate ValidDate(d: Date) { 1 <= d.month <= 12 && 1 <= d.day <= MonthLength(d.year, d.month) }

  function DayNumber(d: Date): int
    requires 1 <= d.month <= 12
  {
    MonthStart(d.year, d.month) + d.day - 1 + DaysBefore(d.year)
  }

  function DateOf(days: nat): (d: Date)
    ensures ValidDate(d) && DayNumber(d) == days && d.year >= 1970
  {
    var y := YearFrom(1970, days);
    var yday := days - DaysBefore(y);
    YearLength(y);
    var m := MonthFrom(y, 1, yday);
    MonthStep(y, m);
    Date(y, m, yday - MonthStart(y, m) + 1)
  }

  function GmTime(ts: nat): (c: Civil)
    ensures ValidCivil(c) && c.year >= 1970
  {
    var d := DateOf(ts / 86400);
    Civil(d.year, d.month, d.day, ts % 86400 / 3600, ts % 3600 / 60, ts % 60)
  }

  lemma SplitDay(ts: nat)
    ensures ts % 60 + ts % 3600 / 60 * 60 + ts % 86400 / 3600 * 3600 + ts / 86400 * 86400 == ts
  {
    var day, ofDay := ts / 86400, ts % 86400;
    var hour, ofHour := ofDay / 3600, ofDay % 3600;
    DivMod(ts, day * 24 + hour, ofHour, 3600);
    DivMod(ts, (day * 24 + hour) * 60 + ofHour / 60, ofHour % 60, 60);
  }

  lemma EpochOfGmTime(ts: nat)
    ensures UtcEpoch(GmTime(ts)) == ts
  {
    SplitDay(ts);
  }

  lemma YearUnique(y: int, z: int, days: int)
    requires DaysBefore(y) <= days < DaysBefore(y + 1) && DaysBefore(z) <= days < DaysBefore(z + 1)
    ensures y == z
  {
    if y < z {
      YearsIncrease(y + 1, z);
    } else if z < y {
      YearsIncrease(z + 1, y);
    }
  }

  lemma MonthUnique(y: int, m: int, k: int, yday: int)
    requires 1 <= m <= 12 && 1 <= k <= 12
    requires MonthStart(y, m) <= yday < MonthStart(y, m + 1) && MonthStart(y, k) <= yday < MonthStart(y, k + 1)
    ensures m == k
  {
    if m < k {
      MonthStep(y, m);
      MonthsIncrease(y, m, k);
    } else if k < m {
      MonthStep(y, k);
      MonthsIncrease(y, k, m);
    }
  }

  lemma SplitUnique(day: nat, hour: nat, minute: nat, second: nat)
    requires hour < 24 && minute < 60 && second < 60
    ensures var ts := second + minute * 60 + hour * 3600 + day * 86400;
      ts / 86400 == day && ts % 86400 / 3600 == hour && ts % 3600 / 60 == minute && ts % 60 == second
  {
    var ts := second + minute * 60 + hour * 3600 + day * 86400;
    DivMod(ts, day, second + minute * 60 + hour * 3600, 86400);
    DivMod(ts % 86400, hour, second + minute * 60, 3600);
    DivMod(ts, day * 24 + hour, second + minute * 60, 3600);
    DivMod(ts % 3600, minute, second, 60);
    DivMod(ts, day * 1440 + hour * 60 + minute, second, 60);
  }

  lemma YdayFits(d: Date)
    requires ValidDate(d)
    ensures var yday := MonthStart(d.year, d.month) + d.day - 1;
      0 <= yday < DaysBefore(d.year + 1) - DaysBefore(d.year) && yday < MonthStart(d.year, d.month + 1)
  {
    YearLength(d.year);
    MonthStep(d.year, d.month);
    if d.month < 12 {
      MonthsIncrease(d.year, d.month, 13);
    }
  }

  lemma SameYear(d: Date, e: Date)
    requires ValidDate(d) && ValidDate(e) && DayNumber(d) == DayNumber(e)
    ensures d.year == e.year
  {
    YdayFits(d);
    YdayFits(e);
    YearUnique(d.year, e.year, DayNumber(d));
  }

  lemma SameYday(d: Date, e: Date)
    requires ValidDate(d) && ValidDate(e) && d.year == e.year
    requires MonthStart(d.year, d.month) + d.day == MonthStart(e.year, e.month) + e.day
    ensures d == e
  {
    YdayFits(d);
    YdayFits(e);
    MonthUnique(d.year, d.month, e.month, MonthStart(d.year, d.month) + d.day - 1);
  }

  lemma DayNumberInjective(d: Date, e: Date)
    requires ValidDate(d) && ValidDate(e) && DayNumber(d) == DayNumber(e)
    ensures d == e
  {
    SameYear(d, e);
    SameYday(d, e);
  }

  lemma DayNumberFrom1970(d: Date)
    requires ValidDate(d) && d.year >= 1970
    ensures DayNumber(d) >= 0
  {
    YearsIncrease(1970, d.year);
  }

  lemma EpochSplits(c: Civil, days: nat)
    requires ValidCivil(c) && days == DayNumber(Date(c.year, c.month, c.day))
    ensures var ts := UtcEpoch(c);
      && ts >= 0 && ts / 86400 == days && ts % 86400 / 3600 == c.hour
      && ts % 3600 / 60 == c.minute && ts % 60 == c.second
  {
    SplitUnique(days, c.hour, c.minute, c.second);
  }

  /** Calendar fields are recovered from the seconds they stand for. */
  lemma GmTimeOfEpoch(c: Civil)
    requires ValidCivil(c) && c.year >= 1970
    ensures UtcEpoch(c) >= 0 && GmTime(UtcEpoch(c)) == c
  {
    var d := Date(c.year, c.month, c.day);
    DayNumberFrom1970(d);
    var days := DayNumber(d);
    EpochSplits(c, days);
    DayNumberInjective(d, DateOf(days));
  }

  const YEAR_10000: nat := 253402300800

  lemma DaysBefore10000()
    ensures DaysBefore(10000) == 2932897
  {}

  /** Comparing seconds is comparing days. */
  lemma DayBound(ts: nat, days: nat)
    ensures ts < days * 86400 <==> ts / 86400 < days
  {
    var q, r := ts / 86400, ts % 86400;
    assert ts == q * 86400 + r;
    if q < days {
      assert (q + 1) * 86400 <= days * 86400;
    } else {
      assert days * 86400 <= q * 86400;
    }
  }

  lemma YearBound(days: nat, y: int)
    requires DaysBefore(y) <= days < DaysBefore(y + 1)
    ensures y <= 9999 <==> days < DaysBefore(10000)
  {
    if y <= 9999 {
      YearsIncrease(y + 1, 10000);
    } else {
      YearsIncrease(10000, y);
    }
  }

  /** Years have four digits before the year 10000. */
  lemma FourDigitYear(ts: nat)
    ensures ts < YEAR_10000 <==> GmTime(ts).year <= 9999
  {
    var days := ts / 86400;
    YearBound(days, YearFrom(1970, days));
    DaysBefore10000();
    DayBound(ts, 2932897);
  }
}
