/** Time as the source's `Date` values reduce to here: whole milliseconds since the epoch,
    read in one fixed time zone. Calendar days are day numbers (day 0 is 1970-01-01, a
    Thursday); `startOfDay`, `isToday`, `isTomorrow`, `isPast`, `addDays`, `getHours` and
    `format(…, 'EEE' | 'yyyy-MM-dd')` are expressed on them. */
module Clock {
  import Decimal

  type Time = int

  const MS_PER_HOUR: int := 3600000
  const MS_PER_DAY: int := 86400000

  /** The calendar day a moment falls on. */
  function DayOf(t: Time): int {
    t / MS_PER_DAY
  }

  /** `startOfDay(t).getTime()`. */
  function StartOfDay(t: Time): (r: Time)
    ensures r <= t < r + MS_PER_DAY
    ensures DayOf(r) == DayOf(t)
  {
    DayOf(t) * MS_PER_DAY
  }

  /** `addDays(t, n)`, with every day 24 hours long. */
  function AddDays(t: Time, n: int): (r: Time)
    ensures DayOf(r) == DayOf(t) + n
  {
    t + n * MS_PER_DAY
  }

  predicate IsToday(t: Time, now: Time) {
    DayOf(t) == DayOf(now)
  }

  predicate IsTomorrow(t: Time, now: Time) {
    DayOf(t) == DayOf(now) + 1
  }

  /** `isPast(t)`, and `isBefore(t, now)`. */
  predicate IsPast(t: Time, now: Time) {
    t < now
  }

  /** Later moments fall on the same or a later day. */
  lemma DayOfMonotone(a: Time, b: Time)
    requires a <= b
    ensures DayOf(a) <= DayOf(b)
  {
    var da, db := DayOf(a), DayOf(b);
    assert da * MS_PER_DAY <= a && b < (db + 1) * MS_PER_DAY;
  }

  /** `new Date().getHours()`: the whole hour of the day. */
  function HourOf(t: Time): (h: int)
    ensures 0 <= h < 24
  {
    (t % MS_PER_DAY) / MS_PER_HOUR
  }

  /** `Math.floor(ms / (1000 * 60 * 60 * 24))`. The quotient of two integer millisecond
      counts is never close enough to a whole number for the floating-point division to
      round across it, so the integer floor is exact. */
  function FloorDays(ms: int): int {
    ms / MS_PER_DAY
  }

  /** `Math.ceil(ms / (1000 * 60 * 60 * 24))`. */
  function CeilDays(ms: int): (r: int)
    ensures (r - 1) * MS_PER_DAY < ms <= r * MS_PER_DAY
  {
    -((-ms) / MS_PER_DAY)
  }

  /** A day lies in a whole-day window exactly when its floor count is that day. */
  lemma FloorDaysBounds(ms: int)
    ensures FloorDays(ms) * MS_PER_DAY <= ms < (FloorDays(ms) + 1) * MS_PER_DAY
  {
  }

  /** JavaScript's `%`: the remainder takes the sign of the dividend. */
  function JsRem(a: int, b: int): (r: int)
    requires b > 0
    ensures -b < r < b
    ensures a >= 0 ==> r == a % b
    ensures r != 0 ==> (r < 0 <==> a < 0)
  {
    if a >= 0 then a % b else -((-a) % b)
  }

  /** `format(day, 'EEE')`. */
  function WeekdayName(day: int): (r: string)
    ensures |r| == 3
  {
    ["Thu", "Fri", "Sat", "Sun", "Mon", "Tue", "Wed"][day % 7]
  }

  /** Seven consecutive days have seven different weekday names. */
  lemma WeekdayNamesDistinct(d1: int, d2: int)
    requires d1 < d2 < d1 + 7
    ensures WeekdayName(d1) != WeekdayName(d2)
  {
    var names := ["Thu", "Fri", "Sat", "Sun", "Mon", "Tue", "Wed"];
    assert d1 % 7 != d2 % 7 by {
      var q1, q2 := d1 / 7, d2 / 7;
      assert d1 == 7 * q1 + d1 % 7 && d2 == 7 * q2 + d2 % 7;
    }
    assert forall i, j :: 0 <= i < j < 7 ==> names[i] != names[j];
  }

  /** The year, month and day of a day number in the proleptic Gregorian calendar. */
  function CivilFromDays(day: int): (int, int, int) {
    var z := day + 719468;
    var era := z / 146097;
    var doe := z - era * 146097;
    var yoe := (doe - doe / 1460 + doe / 36524 - doe / 146096) / 365;
    var doy := doe - (365 * yoe + yoe / 4 - yoe / 100);
    var mp := (5 * doy + 2) / 153;
    var d := doy - (153 * mp + 2) / 5 + 1;
    var m := if mp < 10 then mp + 3 else mp - 9;
    var y := yoe + era * 400;
    (if m <= 2 then y + 1 else y, m, d)
  }

  /** Every day number has a month from 1 to 12 and a day of the month from 1 to 31. */
  lemma CivilFromDaysRange(day: int)
    ensures var (y, m, d) := CivilFromDays(day); 1 <= m <= 12 && 1 <= d <= 31
  {
  }

  /** Day 0 is 1 January 1970. */
  lemma CivilEpoch()
    ensures CivilFromDays(0) == (1970, 1, 1)
  {
    var doe := 719468 - 4 * 146097;
    assert 719468 / 146097 == 4 && doe == 135080;
    assert (doe - doe / 1460 + doe / 36524 - doe / 146096) / 365 == 369;
    var doy := doe - (365 * 369 + 369 / 4 - 369 / 100);
    assert doy == 306 && (5 * doy + 2) / 153 == 10;
  }

  /** Day 11016 is 29 February 2000, the leap day of a year divisible by 400. */
  lemma CivilLeapDay()
    ensures CivilFromDays(11016) == (2000, 2, 29)
  {
    var doe := 11016 + 719468 - 4 * 146097;
    assert (11016 + 719468) / 146097 == 4 && doe == 146096;
    assert (doe - doe / 1460 + doe / 36524 - doe / 146096) / 365 == 399;
    var doy := doe - (365 * 399 + 399 / 4 - 399 / 100);
    assert doy == 365 && (5 * doy + 2) / 153 == 11;
  }

  function PadZeros(s: string, width: nat): (r: string)
    ensures |r| >= width && |r| >= |s|
    decreases width - |s|
  {
    if |s| >= width then s else PadZeros("0" + s, width)
  }

  /** `format(day, 'yyyy-MM-dd')`. */
  function IsoDate(day: int): string {
    var (y, m, d) := CivilFromDays(day);
    PadZeros(Decimal.IntToString(y), 4) + "-" + PadZeros(Decimal.IntToString(m), 2) + "-"
      + PadZeros(Decimal.IntToString(d), 2)
  }
}
