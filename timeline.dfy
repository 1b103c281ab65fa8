/**
 * Python `datetime` arithmetic the readers rely on: the seconds between two
 * dates (`(a - b).total_seconds()`), and `nearestDate`/`get_nearest_date`,
 * which pick the date closest to a pivot with `min(..., key=abs(x - pivot))`
 * and then look its position up with `list.index`.
 */
module Timeline {
  import opened Outcomes
  import opened DateTemplates

  /** Days in the years before `y` (proleptic Gregorian, as `date.toordinal`). */
  function DaysBeforeYear(y: int): int
    requires y >= 1
  {
    var p := y - 1;
    365 * p + p / 4 - p / 100 + p / 400
  }

  /** Days in the months of year `y` before month `m`. */
  function DaysBeforeMonth(y: int, m: int): int
    requires 1 <= m <= 13
    decreases m
  {
    if m == 1 then 0 else DaysBeforeMonth(y, m - 1) + DaysInMonth(y, m - 1)
  }

  function YearLength(y: int): int {
    if IsLeapYear(y) then 366 else 365
  }

  /** `date.toordinal()`: 1 for 0001-01-01. */
  function DayOrdinal(d: DateTime): int
    requires ValidDateTime(d)
  {
    DaysBeforeYear(d.year) + DaysBeforeMonth(d.year, d.month) + d.day
  }

  /** Seconds since 0001-01-01 00:00:00; differences of these are `timedelta.total_seconds()`. */
  function Seconds(d: DateTime): int
    requires ValidDateTime(d)
  {
    DayOrdinal(d) * 86400 + d.hour * 3600 + d.minute * 60 + d.second
  }

  /** Date order: year, then month, day, hour, minute, second. */
  predicate Before(a: DateTime, b: DateTime) {
    if a.year != b.year then a.year < b.year
    else if a.month != b.month then a.month < b.month
    else if a.day != b.day then a.day < b.day
    else if a.hour != b.hour then a.hour < b.hour
    else if a.minute != b.minute then a.minute < b.minute
    else a.second < b.second
  }

  /** A year contributes its length to the day count. */
  lemma YearStep(y: int)
    requires y >= 1
    ensures DaysBeforeYear(y + 1) == DaysBeforeYear(y) + YearLength(y)
  {
    var p := y - 1;
    MultiplesStep(p);
    Multiples400(y);
    Multiples100(y);
    var a, b, c := if y % 4 == 0 then 1 else 0, if y % 100 == 0 then 1 else 0, if y % 400 == 0 then 1 else 0;
    assert DaysBeforeYear(y + 1) - DaysBeforeYear(y) == 365 + a - b + c;
  }

  /** Multiples of 400 are multiples of 100. */
  lemma Multiples400(y: int)
    ensures y % 400 == 0 ==> y % 100 == 0
  { }

  /** Multiples of 100 are multiples of 4. */
  lemma Multiples100(y: int)
    ensures y % 100 == 0 ==> y % 4 == 0
  { }

  /** One more year counts one more multiple of 4, 100 or 400 exactly when it is one. */
  lemma MultiplesStep(p: int)
    requires p >= 0
    ensures (p + 1) / 4 - p / 4 == if (p + 1) % 4 == 0 then 1 else 0
    ensures (p + 1) / 100 - p / 100 == if (p + 1) % 100 == 0 then 1 else 0
    ensures (p + 1) / 400 - p / 400 == if (p + 1) % 400 == 0 then 1 else 0
  { }

  lemma {:induction false} MonthsIncrease(y: int, m: int, n: int)
    requires 1 <= m <= n <= 13
    ensures DaysBeforeMonth(y, n) - DaysBeforeMonth(y, m) >= 28 * (n - m)
    decreases n - m
  {
    if m < n {
      MonthsIncrease(y, m, n - 1);
    }
  }

  lemma MonthsFillYear(y: int)
    ensures DaysBeforeMonth(y, 13) == YearLength(y)
  { }

  lemma {:induction false} YearsIncrease(y: int, z: int)
    requires 1 <= y <= z
    ensures DaysBeforeYear(z) - DaysBeforeYear(y) >= 365 * (z - y)
    decreases z - y
  {
    if y < z {
      YearsIncrease(y, z - 1);
      YearStep(z - 1);
    }
  }

  lemma OrdinalWithinYear(d: DateTime)
    requires ValidDateTime(d)
    ensures DaysBeforeYear(d.year) < DayOrdinal(d) <= DaysBeforeYear(d.year) + YearLength(d.year)
  {
    MonthsIncrease(d.year, d.month + 1, 13);
    MonthsFillYear(d.year);
  }

  /** Seconds are strictly increasing in date order, so distinct dates lie distinct distances apart from any pivot. */
  lemma SecondsMonotone(a: DateTime, b: DateTime)
    requires ValidDateTime(a) && ValidDateTime(b) && Before(a, b)
    ensures Seconds(a) < Seconds(b)
  {
    if a.year != b.year {
      YearsApart(a, b);
      EarlierDay(a, b);
    } else if a.month != b.month {
      MonthsApart(a, b);
      EarlierDay(a, b);
    } else if a.day != b.day {
      EarlierDay(a, b);
    } else {
      assert DayOrdinal(a) == DayOrdinal(b);
    }
  }

  /** A date in an earlier year has a smaller ordinal. */
  lemma YearsApart(a: DateTime, b: DateTime)
    requires ValidDateTime(a) && ValidDateTime(b) && a.year < b.year
    ensures DayOrdinal(a) < DayOrdinal(b)
  {
    OrdinalWithinYear(a);
    OrdinalWithinYear(b);
    YearStep(a.year);
    YearsIncrease(a.year + 1, b.year);
  }

  /** A date in an earlier month of the same year has a smaller ordinal. */
  lemma MonthsApart(a: DateTime, b: DateTime)
    requires ValidDateTime(a) && ValidDateTime(b) && a.year == b.year && a.month < b.month
    ensures DayOrdinal(a) < DayOrdinal(b)
  {
    MonthsIncrease(a.year, a.month + 1, b.month);
    assert DaysBeforeMonth(a.year, a.month + 1) == DaysBeforeMonth(a.year, a.month) + DaysInMonth(a.year, a.month);
  }

  /** A date on an earlier day is fewer seconds from the origin, whatever its time of day. */
  lemma EarlierDay(a: DateTime, b: DateTime)
    requires ValidDateTime(a) && ValidDateTime(b) && (DayOrdinal(a) < DayOrdinal(b) || (a.year == b.year && a.month == b.month && a.day < b.day))
    ensures Seconds(a) < Seconds(b)
  {
    var da, db := DayOrdinal(a), DayOrdinal(b);
    assert da < db;
    assert Seconds(a) == da * 86400 + (a.hour * 3600 + a.minute * 60 + a.second);
    assert Seconds(b) == db * 86400 + (b.hour * 3600 + b.minute * 60 + b.second);
  }

  /** Two valid dates with the same second count are the same date. */
  lemma SecondsInjective(a: DateTime, b: DateTime)
    requires ValidDateTime(a) && ValidDateTime(b) && Seconds(a) == Seconds(b)
    ensures a == b
  {
    if Before(a, b) {
      SecondsMonotone(a, b);
    } else if Before(b, a) {
      SecondsMonotone(b, a);
    }
  }

  /** The position Python's `min(s, key=dist)` returns: the first element whose key is least. */
  function FirstClosest<T>(s: seq<T>, dist: T -> int): (k: nat)
    requires s != []
    ensures k < |s|
    ensures forall j :: 0 <= j < |s| ==> dist(s[k]) <= dist(s[j])
    ensures forall j :: 0 <= j < k ==> dist(s[j]) > dist(s[k])
    decreases |s|
  {
    if |s| == 1 then 0
    else
      var k := FirstClosest(s[..|s| - 1], dist);
      assert forall j :: 0 <= j < |s| - 1 ==> s[..|s| - 1][j] == s[j];
      if dist(s[|s| - 1]) < dist(s[k]) then |s| - 1 else k
  }

  /** `list.index(x)`: the first position holding `x`. */
  function IndexOf<T(==)>(s: seq<T>, x: T): (i: nat)
    requires x in s
    ensures i < |s| && s[i] == x && forall j :: 0 <= j < i ==> s[j] != x
  {
    if s[0] == x then 0 else 1 + IndexOf(s[1..], x)
  }

  /**
   * `nearestDate(pivot)` / `get_nearest_date(pivot)`: the closest element and its index;
   * ValueError on an empty list (from `min`).
   */
  function Nearest<T(==)>(s: seq<T>, dist: T -> int): (r: Result<(T, nat)>)
    ensures r.Fail? <==> s == []
    ensures r.Fail? ==> r.error.ValueError?
  {
    if s == [] then Fail(ValueError("min() arg is an empty sequence"))
    else
      var dto := s[FirstClosest(s, dist)];
      Ok((dto, IndexOf(s, dto)))
  }

  /** The index is the first at which the least distance is attained, and it holds the date returned. */
  lemma NearestIsFirstClosest<T>(s: seq<T>, dist: T -> int)
    requires s != []
    ensures var r := Nearest(s, dist);
      && r.Ok? && r.value.1 < |s| && s[r.value.1] == r.value.0
      && (forall j :: 0 <= j < |s| ==> dist(s[r.value.1]) <= dist(s[j]))
      && (forall j :: 0 <= j < r.value.1 ==> dist(s[j]) > dist(s[r.value.1]))
  {
    var k := FirstClosest(s, dist);
    var i := IndexOf(s, s[k]);
    assert i <= k;
  }

  /** For valid dates and the distance in seconds to `pivot`: the record returned sits at the index returned, no record is closer, and every earlier one is farther. */
  lemma NearestInSeconds(dts: seq<DateTime>, pivot: DateTime)
    requires dts != [] && ValidDateTime(pivot) && forall i :: 0 <= i < |dts| ==> ValidDateTime(dts[i])
    ensures var r := Nearest(dts, DistanceTo(pivot));
      && r.Ok? && r.value.1 < |dts| && dts[r.value.1] == r.value.0 && ValidDateTime(r.value.0)
      && (forall j :: 0 <= j < |dts| ==> Abs(Seconds(r.value.0) - Seconds(pivot)) <= Abs(Seconds(dts[j]) - Seconds(pivot)))
      && (forall j :: 0 <= j < r.value.1 ==> Abs(Seconds(dts[j]) - Seconds(pivot)) > Abs(Seconds(r.value.0) - Seconds(pivot)))
  {
    var dist := DistanceTo(pivot);
    NearestIsFirstClosest(dts, dist);
    assert forall j :: 0 <= j < |dts| ==> dist(dts[j]) == Abs(Seconds(dts[j]) - Seconds(pivot));
  }

  /** Distance to the pivot in seconds, as `abs(x - pivot)` compares timedeltas. */
  function DistanceTo(pivot: DateTime): DateTime -> int
    requires ValidDateTime(pivot)
  {
    (x: DateTime) => if ValidDateTime(x) then Abs(Seconds(x) - Seconds(pivot)) else 0
  }

  function Abs(x: int): int {
    if x < 0 then -x else x
  }
}
