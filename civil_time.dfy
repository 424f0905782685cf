/**
 * Foundation's `Date` and `Calendar.current` as integers.
 *
 * An instant is a number of seconds since 1970-01-01 00:00 in the device's
 * local time zone, taken to have a fixed offset (no daylight-saving jumps).
 * A day number counts calendar days from 1970-01-01 (day 0).  Weekdays use
 * Foundation's numbering: 1 = Sunday, 2 = Monday, ..., 7 = Saturday.
 * Civil dates are proleptic Gregorian, converted with the classic
 * era / year-of-era / day-of-year arithmetic.
 */
module CivilTime {

  type Instant = int

  const SecondsPerDay: int := 86400

  const Sunday: int := 1
  const Monday: int := 2
  const Tuesday: int := 3
  const Saturday: int := 7

  /** Calendar day that contains instant `t` (`Calendar.startOfDay`, as a day number). */
  function DayOf(t: Instant): int {
    t / SecondsPerDay
  }

  /** Seconds elapsed since the start of the day that contains `t`. */
  function SecondOfDay(t: Instant): (s: int)
    ensures 0 <= s < SecondsPerDay
    ensures t == DayOf(t) * SecondsPerDay + s
  {
    t % SecondsPerDay
  }

  /** Midnight at the start of day `d`. */
  function Midnight(d: int): Instant {
    d * SecondsPerDay
  }

  /** `Calendar.startOfDay(for: t)`. */
  function StartOfDay(t: Instant): (r: Instant)
    ensures DayOf(r) == DayOf(t) && SecondOfDay(r) == 0
    ensures r <= t < r + SecondsPerDay
  {
    MidnightIsStartOfDay(DayOf(t));
    Midnight(DayOf(t))
  }

  /** `Calendar.date(byAdding: .day, value: n, to: t)` in a zone without daylight saving. */
  function AddDays(t: Instant, n: int): (r: Instant)
    ensures DayOf(r) == DayOf(t) + n
    ensures SecondOfDay(r) == SecondOfDay(t)
  {
    DivisionShift(t, n);
    t + n * SecondsPerDay
  }

  /** Foundation weekday (1 = Sunday ... 7 = Saturday) of day number `d`; day 0 was a Thursday. */
  function WeekdayOfDay(d: int): (w: int)
    ensures Sunday <= w <= Saturday
  {
    (d + 4) % 7 + 1
  }

  /** `Calendar.component(.weekday, from: t)`. */
  function Weekday(t: Instant): int {
    WeekdayOfDay(DayOf(t))
  }

  lemma MidnightIsStartOfDay(d: int)
    ensures DayOf(Midnight(d)) == d && SecondOfDay(Midnight(d)) == 0
  {
    DivisionShift(0, d);
  }

  lemma DivisionShift(t: int, n: int)
    ensures (t + n * SecondsPerDay) / SecondsPerDay == t / SecondsPerDay + n
    ensures (t + n * SecondsPerDay) % SecondsPerDay == t % SecondsPerDay
  {
    var q, r := t / SecondsPerDay, t % SecondsPerDay;
    assert t + n * SecondsPerDay == (q + n) * SecondsPerDay + r;
    UniqueDivision(t + n * SecondsPerDay, q + n, r);
  }

  /** Euclidean quotient and remainder by a day are unique. */
  lemma UniqueDivision(x: int, q: int, r: int)
    requires 0 <= r < SecondsPerDay && x == q * SecondsPerDay + r
    ensures x / SecondsPerDay == q && x % SecondsPerDay == r
  {
  }

  /** Weekdays repeat every seven days and no sooner than that. */
  lemma {:induction false} WeekdayShift(d: int, n: int)
    ensures WeekdayOfDay(d + n) == WeekdayOfDay(d) <==> n % 7 == 0
  {
    var a, b := (d + 4) % 7, (d + n + 4) % 7;
    var qa, qb := (d + 4) / 7, (d + n + 4) / 7;
    assert d + 4 == 7 * qa + a;
    assert d + n + 4 == 7 * qb + b;
    assert n == 7 * (qb - qa) + (b - a);
    if a == b {
      assert n == 7 * (qb - qa);
    }
  }

  // ---------------------------------------------------------------------
  // Civil (proleptic Gregorian) dates.

  datatype Civil = Civil(year: int, month: int, day: int)

  predicate IsLeapYear(y: int) {
    y % 4 == 0 && (y % 100 != 0 || y % 400 == 0)
  }

  /** `calendar.range(of: .day, in: .month, ...)` has this many elements. */
  function DaysInMonth(y: int, m: int): (n: int)
    requires 1 <= m <= 12
    ensures 28 <= n <= 31
  {
    if m == 2 then (if IsLeapYear(y) then 29 else 28)
    else if m == 4 || m == 6 || m == 9 || m == 11 then 30
    else 31
  }

  predicate ValidCivil(c: Civil) {
    1 <= c.month <= 12 && 1 <= c.day <= DaysInMonth(c.year, c.month)
  }

  /** Day of the year in a year that starts on March 1 (March = 0). */
  function MarchDayOfYear(m: int, d: int): int {
    (153 * (if m > 2 then m - 3 else m + 9) + 2) / 5 + d - 1
  }

  /** Day number of a civil date. */
  function DaysFromCivil(c: Civil): int {
    var y := if c.month <= 2 then c.year - 1 else c.year;
    var era := y / 400;
    var yoe := y - era * 400;
    var doe := DaysBeforeYearOfEra(yoe) + MarchDayOfYear(c.month, c.day);
    era * 146097 + doe - 719468
  }

  /** Day `k + 1` of a month is `k` days after day 1. */
  lemma DaysFromCivilDayStep(y: int, m: int, k: int)
    ensures DaysFromCivil(Civil(y, m, k + 1)) == DaysFromCivil(Civil(y, m, 1)) + k
  {
    assert MarchDayOfYear(m, k + 1) == MarchDayOfYear(m, 1) + k;
  }

  /** Days of an era (400 years starting on March 1) before year-of-era `yoe`. */
  function DaysBeforeYearOfEra(yoe: int): int {
    yoe * 365 + yoe / 4 - yoe / 100
  }

  /** Year of an era (0..399) that a day of the era (0..146096) falls in. */
  function YearOfEra(doe: int): (yoe: int)
    requires 0 <= doe < 146097
    ensures 0 <= yoe < 400
  {
    (doe - doe / 1460 + doe / 36524 - doe / 146096) / 365
  }

  /** Month (1..12) and day (1..31) of a March-based day of the year. */
  function MonthDayOfMarchYear(doy: int): (md: (int, int))
    requires 0 <= doy < 366
    ensures 1 <= md.0 <= 12 && 1 <= md.1 <= 31
    ensures MarchDayOfYear(md.0, md.1) == doy
    ensures md.0 == 2 ==> md.1 <= 29 && (md.1 == 29 <==> doy == 365)
    ensures md.0 == 4 || md.0 == 6 || md.0 == 9 || md.0 == 11 ==> md.1 <= 30
  {
    var mp := (5 * doy + 2) / 153;
    var d := doy - (153 * mp + 2) / 5 + 1;
    var m := if mp < 10 then mp + 3 else mp - 9;
    assert (if m > 2 then m - 3 else m + 9) == mp;
    (m, d)
  }

  /** Civil date of day `doe` (0..146096) of era `era` (400 years starting on March 1 of year 400 * era). */
  function CivilOfEraDay(era: int, doe: int): (c: Civil)
    requires 0 <= doe < 146097
    ensures 1 <= c.month <= 12 && 1 <= c.day <= 31
  {
    var yoe := YearOfEra(doe);
    DayOfYearBounds(doe);
    DaysBeforeIs(yoe);
    var md := MonthDayOfMarchYear(doe - DaysBeforeYearOfEra(yoe));
    Civil(yoe + era * 400 + (if md.0 <= 2 then 1 else 0), md.0, md.1)
  }

  /** Civil date of a day number. */
  function CivilFromDays(z: int): (c: Civil)
    ensures 1 <= c.month <= 12 && 1 <= c.day <= 31
  {
    var z' := z + 719468;
    var era := z' / 146097;
    CivilOfEraDay(era, z' - era * 146097)
  }

  lemma DaysBeforeIs(yoe: int)
    ensures DaysBeforeYearOfEra(yoe) == yoe * 365 + yoe / 4 - yoe / 100
  {
  }

  /** Converting a day number to a civil date and back gives the same day number. */
  lemma CivilRoundTrip(z: int)
    ensures DaysFromCivil(CivilFromDays(z)) == z
  {
    var z' := z + 719468;
    var era := z' / 146097;
    EraDayRoundTrip(era, z' - era * 146097);
  }

  /** The day number of the civil date of a day of an era. */
  lemma EraDayRoundTrip(era: int, doe: int)
    requires 0 <= doe < 146097
    ensures DaysFromCivil(CivilOfEraDay(era, doe)) == era * 146097 + doe - 719468
  {
    var yoe := YearOfEra(doe);
    DayOfYearBounds(doe);
    DaysBeforeIs(yoe);
    var doy := doe - DaysBeforeYearOfEra(yoe);
    var md := MonthDayOfMarchYear(doy);
    var c := CivilOfEraDay(era, doe);
    assert c == Civil(yoe + era * 400 + (if md.0 <= 2 then 1 else 0), md.0, md.1);
    var y := if c.month <= 2 then c.year - 1 else c.year;
    assert y == era * 400 + yoe;
    EraUnique(y, era, yoe);
    assert MarchDayOfYear(c.month, c.day) == doy;
  }

  lemma EraUnique(y: int, era: int, yoe: int)
    requires 0 <= yoe < 400 && y == era * 400 + yoe
    ensures y / 400 == era && y - (y / 400) * 400 == yoe
  {
  }

  /**
   * Within an era, the day of the year is 0..365, and day 365 is reached
   * only by a year whose February has 29 days.
   */
  lemma DayOfYearBounds(doe: int)
    requires 0 <= doe < 146097
    ensures var yoe := YearOfEra(doe);
            0 <= doe - (yoe * 365 + yoe / 4 - yoe / 100) < 366
            && (doe - (yoe * 365 + yoe / 4 - yoe / 100) == 365 ==> IsLeapYear(yoe + 1))
  {
    var c, q, r, doy := EraDayDecomposition(doe);
    YearOfEraParts(c, q, r, doy);
    DaysBeforeParts(c, q, r);
    LeapYearOfEraParts(c, q, r);
  }

  /** Splits a day of the era into centuries, four-year cycles, years and a day of the year. */
  lemma EraDayDecomposition(doe: int) returns (c: int, q: int, r: int, doy: int)
    requires 0 <= doe < 146097
    ensures 0 <= c < 4 && 0 <= q < 25 && 0 <= r < 4
    ensures 0 <= doy < 365 + (if r == 3 && (q != 24 || c == 3) then 1 else 0)
    ensures doe == 36524 * c + 1461 * q + 365 * r + doy
  {
    c := if doe / 36524 < 3 then doe / 36524 else 3;
    var rest := doe - 36524 * c;
    q := rest / 1461;
    var inCycle := rest - 1461 * q;
    r := if inCycle / 365 < 3 then inCycle / 365 else 3;
    doy := inCycle - 365 * r;
  }

  /** The days before year `100c + 4q + r` of an era. */
  lemma DaysBeforeParts(c: int, q: int, r: int)
    requires 0 <= c < 4 && 0 <= q < 25 && 0 <= r < 4
    ensures var yoe := 100 * c + 4 * q + r;
            yoe * 365 + yoe / 4 - yoe / 100 == 36524 * c + 1461 * q + 365 * r
  {
    var yoe := 100 * c + 4 * q + r;
    assert yoe / 4 == 25 * c + q;
    assert yoe / 100 == c;
  }

  /** A valid civil date survives the trip to a day number and back. */
  lemma CivilFromDaysInverse(c: Civil)
    requires ValidCivil(c)
    ensures CivilFromDays(DaysFromCivil(c)) == c
  {
    var y := if c.month <= 2 then c.year - 1 else c.year;
    var era := y / 400;
    var yoe := y - era * 400;
    var doy := MarchDayOfYear(c.month, c.day);
    MarchDayOfYearInverse(c.month, c.day);
    var cc, q, r := YearOfEraDecomposition(yoe);
    assert c.month <= 2 ==> (IsLeapYear(c.year) <==> r == 3 && (q != 24 || cc == 3)) by {
      if c.month <= 2 {
        LeapYearShift(yoe + 1, era);
        LeapYearOfEraParts(cc, q, r);
      }
    }
    YearOfEraParts(cc, q, r, doy);
    var doe := DaysBeforeYearOfEra(yoe) + doy;
    assert YearOfEra(doe) == yoe;
    var z := DaysFromCivil(c);
    assert z + 719468 == era * 146097 + doe;
    CivilFromDaysParts(z, era, doe);
    EraDayIsDate(era, doe, yoe, doy, c);
  }

  /** The civil date of a day of an era, from its year of the era and day of the year. */
  lemma EraDayIsDate(era: int, doe: int, yoe: int, doy: int, c: Civil)
    requires 0 <= doe < 146097 && YearOfEra(doe) == yoe && doe == DaysBeforeYearOfEra(yoe) + doy
    requires 1 <= c.month <= 12 && 1 <= c.day <= 31 && MarchDayOfYear(c.month, c.day) == doy
    requires 0 <= doy < 366 && MonthDayOfMarchYear(doy) == (c.month, c.day)
    requires (if c.month <= 2 then c.year - 1 else c.year) == era * 400 + yoe
    ensures CivilOfEraDay(era, doe) == c
  {
    DaysBeforeIs(yoe);
    assert doe - DaysBeforeYearOfEra(yoe) == doy;
  }

  /** `CivilFromDays` evaluated from a known era and day of the era. */
  lemma CivilFromDaysParts(z: int, era: int, doe: int)
    requires 0 <= doe < 146097 && z + 719468 == era * 146097 + doe
    ensures CivilFromDays(z) == CivilOfEraDay(era, doe)
  {
    EraOfDayUnique(z + 719468, era, doe);
  }

  lemma YearOfEraDecomposition(yoe: int) returns (c: int, q: int, r: int)
    requires 0 <= yoe < 400
    ensures 0 <= c < 4 && 0 <= q < 25 && 0 <= r < 4
    ensures yoe == 100 * c + 4 * q + r
    ensures DaysBeforeYearOfEra(yoe) == 36524 * c + 1461 * q + 365 * r
  {
    c, q, r := yoe / 100, (yoe % 100) / 4, yoe % 4;
    assert yoe / 4 == 25 * c + q;
  }

  /** Leap years repeat every 400 years. */
  lemma LeapYearShift(k: int, era: int)
    ensures IsLeapYear(era * 400 + k) == IsLeapYear(k)
  {
    var year := era * 400 + k;
    ModShift(k, 100 * era);
    ModShift(k, 4 * era);
    ModShift(k, era);
    assert year % 4 == k % 4 && year % 100 == k % 100 && year % 400 == k % 400;
  }

  /** Adding a multiple of 4, 100 or 400 does not change the remainder by it. */
  lemma ModShift(k: int, n: int)
    ensures (4 * n + k) % 4 == k % 4
    ensures (100 * n + k) % 100 == k % 100
    ensures (400 * n + k) % 400 == k % 400
  {
    RemainderOf4(4 * n + k, n + k / 4, k % 4);
    RemainderOf100(100 * n + k, n + k / 100, k % 100);
    RemainderOf400(400 * n + k, n + k / 400, k % 400);
  }

  lemma RemainderOf4(x: int, q: int, r: int)
    requires 0 <= r < 4 && x == 4 * q + r
    ensures x % 4 == r
  {
  }

  lemma RemainderOf100(x: int, q: int, r: int)
    requires 0 <= r < 100 && x == 100 * q + r
    ensures x % 100 == r
  {
  }

  lemma RemainderOf400(x: int, q: int, r: int)
    requires 0 <= r < 400 && x == 400 * q + r
    ensures x % 400 == r
  {
  }

  lemma LeapYearOfEraParts(c: int, q: int, r: int)
    requires 0 <= c < 4 && 0 <= q < 25 && 0 <= r < 4
    ensures IsLeapYear(100 * c + 4 * q + r + 1) <==> r == 3 && (q != 24 || c == 3)
  {
  }

  lemma EraOfDayUnique(x: int, era: int, doe: int)
    requires 0 <= doe < 146097 && x == era * 146097 + doe
    ensures x / 146097 == era && x - (x / 146097) * 146097 == doe
  {
  }

  /** Recovering the month and day from the March-based day of the year. */
  lemma MarchDayOfYearInverse(m: int, d: int)
    requires 1 <= m <= 12 && 1 <= d <= 31
    requires m == 2 ==> d <= 29
    requires m == 4 || m == 6 || m == 9 || m == 11 ==> d <= 30
    ensures var doy := MarchDayOfYear(m, d);
            0 <= doy < 366 && MonthDayOfMarchYear(doy) == (m, d)
            && (m > 2 ==> doy < 306) && (m <= 2 ==> 306 <= doy)
            && (m == 2 ==> (doy == 365 <==> d == 29))
  {
  }

  lemma YearOfEraParts(c: int, q: int, r: int, doy: int)
    requires 0 <= c < 4 && 0 <= q < 25 && 0 <= r < 4
    requires 0 <= doy < 365 + (if r == 3 && (q != 24 || c == 3) then 1 else 0)
    ensures 0 <= 36524 * c + 1461 * q + 365 * r + doy < 146097
    ensures YearOfEra(36524 * c + 1461 * q + 365 * r + doy) == 100 * c + 4 * q + r
  {
    var doe := 36524 * c + 1461 * q + 365 * r + doy;
    var t := 24 * c + q + 365 * r + doy;
    var last := if c == 3 && q == 24 && r == 3 && doy == 365 then 1 else 0;
    var k := if t >= 1460 then 1 else 0;
    QuotientBy1460(doe, 25 * c + q + k, t - 1460 * k);
    QuotientBy36524(doe, c + last, 1461 * q + 365 * r + doy - 36524 * last);
    QuotientBy146096(doe, last, doe - 146096 * last);
    QuotientBy365(36500 * c + 1460 * q + 365 * r + doy - k, 100 * c + 4 * q + r, doy - k);
  }

  lemma QuotientBy365(x: int, q: int, r: int)
    requires 0 <= r < 365 && x == 365 * q + r
    ensures x / 365 == q
  {
  }

  lemma QuotientBy1460(x: int, q: int, r: int)
    requires 0 <= r < 1460 && x == 1460 * q + r
    ensures x / 1460 == q
  {
  }

  lemma QuotientBy36524(x: int, q: int, r: int)
    requires 0 <= r < 36524 && x == 36524 * q + r
    ensures x / 36524 == q
  {
  }

  lemma QuotientBy146096(x: int, q: int, r: int)
    requires 0 <= r < 146096 && x == 146096 * q + r
    ensures x / 146096 == q
  {
  }

  /** Every day number names a valid civil date. */
  lemma CivilFromDaysValid(z: int)
    ensures ValidCivil(CivilFromDays(z))
  {
    var z' := z + 719468;
    var era := z' / 146097;
    EraDayValid(era, z' - era * 146097);
  }

  /** Every day of an era names a valid civil date; February 29 falls only in leap years. */
  lemma EraDayValid(era: int, doe: int)
    requires 0 <= doe < 146097
    ensures ValidCivil(CivilOfEraDay(era, doe))
  {
    var yoe := YearOfEra(doe);
    DayOfYearBounds(doe);
    DaysBeforeIs(yoe);
    var md := MonthDayOfMarchYear(doe - DaysBeforeYearOfEra(yoe));
    var c := CivilOfEraDay(era, doe);
    assert c == Civil(yoe + era * 400 + (if md.0 <= 2 then 1 else 0), md.0, md.1);
    if md.0 == 2 && md.1 == 29 {
      LeapYearShift(yoe + 1, era);
      assert c.year == era * 400 + (yoe + 1);
    }
  }
}
