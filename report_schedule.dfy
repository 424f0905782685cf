/**
 * When the cached store report is refreshed: `nextTuesday4AM`,
 * `shouldUpdateReport` and the cache-or-fetch choice of `loadReport`.
 * The network fetch and the current instant are inputs.
 */
module ReportSchedule {
  import opened Wrappers
  import opened CivilTime

  datatype Report = Report(
    storeName: string, date: Instant, sales: int, customerCount: int,
    wasteAmount: int, orderAmount: int, notes: string, lastUpdated: Instant)

  /** 04:00:00 as seconds after midnight. */
  const RefreshSecond: int := 4 * 3600

  /**
   * `nextTuesday4AM(from:)`: moves `(3 - weekday + 7) % 7` days forward and
   * sets the time to 04:00:00 on that day. The result is the first Tuesday
   * 04:00 on or after the date's own day, which is the same day (and
   * possibly earlier than the date) when the date is a Tuesday.
   */
  function NextTuesday4AM(date: Instant): (r: Instant)
    ensures Weekday(r) == Tuesday && SecondOfDay(r) == RefreshSecond
    ensures 0 <= DayOf(r) - DayOf(date) < 7
    ensures Weekday(date) == Tuesday ==> DayOf(r) == DayOf(date)
  {
    var weekday := Weekday(date);
    var daysUntilTuesday := (3 - weekday + 7) % 7;
    var nextTuesday := AddDays(date, daysUntilTuesday);
    TuesdayOffset(DayOf(date));
    StartOfDay(nextTuesday) + RefreshSecond
  }

  lemma TuesdayOffset(d: int)
    ensures var k := (3 - WeekdayOfDay(d) + 7) % 7;
            0 <= k < 7 && WeekdayOfDay(d + k) == Tuesday && (WeekdayOfDay(d) == Tuesday ==> k == 0)
  {
    var w := WeekdayOfDay(d);
    var k := (3 - w + 7) % 7;
    assert (d + 4) % 7 == w - 1;
    var q := (d + 4) / 7;
    assert d + 4 == 7 * q + w - 1;
    if w <= 3 {
      assert k == 3 - w;
      assert d + k + 4 == 7 * q + 2;
    } else {
      assert k == 10 - w;
      assert d + k + 4 == 7 * (q + 1) + 2;
    }
  }

  /** No Tuesday 04:00 on or after the date's day comes before the result. */
  lemma NextTuesdayIsFirst(date: Instant, t: Instant)
    requires Weekday(t) == Tuesday && SecondOfDay(t) == RefreshSecond && DayOf(t) >= DayOf(date)
    ensures NextTuesday4AM(date) <= t
  {
    var r := NextTuesday4AM(date);
    if DayOf(t) < DayOf(r) {
      WeekdayShift(DayOf(t), DayOf(r) - DayOf(t));
      assert false;
    }
    assert r == DayOf(r) * SecondsPerDay + RefreshSecond;
    assert t == DayOf(t) * SecondsPerDay + RefreshSecond;
  }

  /** A Tuesday after 04:00 maps to that same morning, before the date itself. */
  lemma TuesdayAfterFourIsInThePast(date: Instant)
    requires Weekday(date) == Tuesday && SecondOfDay(date) > RefreshSecond
    ensures NextTuesday4AM(date) < date
  {
    var r := NextTuesday4AM(date);
    assert r == DayOf(date) * SecondsPerDay + RefreshSecond;
  }

  /** `shouldUpdateReport(lastUpdated:)`: no report yet, or its next Tuesday 04:00 has come. */
  predicate ShouldUpdateReport(lastUpdated: Option<Instant>, now: Instant) {
    match lastUpdated
    case None => true
    case Some(last) => now >= NextTuesday4AM(last)
  }

  /** A report fetched on a Tuesday after 04:00 is stale at once, and stays stale. */
  lemma TuesdayReportsAreStale(last: Instant, now: Instant)
    requires Weekday(last) == Tuesday && SecondOfDay(last) > RefreshSecond && now >= last
    ensures ShouldUpdateReport(Some(last), now)
  {
    TuesdayAfterFourIsInThePast(last);
  }

  /** The returned report and the report kept in storage afterwards. */
  datatype ReportLoad = ReportLoad(result: Option<Report>, stored: Option<Report>)

  /**
   * `loadReport(...)`: the stored report while it is fresh at `now`;
   * otherwise a new report built from the fetched notes, stamped with
   * `stampedAt` (the clock read once the awaited fetch has returned),
   * saved and returned; when the fetch fails, whatever is stored
   * (possibly nothing).
   */
  function LoadReport(stored: Option<Report>, now: Instant, fetched: Option<string>, stampedAt: Instant,
                      storeName: string, sales: int, customerCount: int,
                      wasteAmount: int, orderAmount: int): (r: ReportLoad)
    ensures stored.Some? && !ShouldUpdateReport(Some(stored.value.lastUpdated), now) ==>
            r == ReportLoad(stored, stored)
    ensures r.result.Some? ==> r.stored == r.result
    ensures r.result.None? ==> stored.None? && r.stored.None?
    ensures r.result.Some? && r.result != stored ==>
            fetched.Some? && r.result.value.notes == fetched.value
            && r.result.value.date == stampedAt && r.result.value.lastUpdated == stampedAt
    ensures (stored.None? || ShouldUpdateReport(Some(stored.value.lastUpdated), now)) && fetched.Some? ==>
            var report := Report(storeName, stampedAt, sales, customerCount, wasteAmount, orderAmount, fetched.value, stampedAt);
            r == ReportLoad(Some(report), Some(report))
    ensures (stored.None? || ShouldUpdateReport(Some(stored.value.lastUpdated), now)) && fetched.None? ==>
            r == ReportLoad(stored, stored)
  {
    if stored.Some? && !ShouldUpdateReport(Some(stored.value.lastUpdated), now) then
      ReportLoad(stored, stored)
    else
      match fetched
      case Some(notes) =>
        var report := Report(storeName, stampedAt, sales, customerCount, wasteAmount, orderAmount, notes, stampedAt);
        ReportLoad(Some(report), Some(report))
      case None => ReportLoad(stored, stored)
  }

  /**
   * A report fetched and stamped at `stampedAt` is served from storage,
   * without fetching, by every later load before the Tuesday 04:00 that
   * follows the stamp, however long the fetch took.
   */
  lemma FreshReportIsReused(stored: Option<Report>, now: Instant, notes: string, stampedAt: Instant,
                            later: Instant, fetchedLater: Option<string>, laterStamp: Instant,
                            storeName: string, sales: int,
                            customerCount: int, wasteAmount: int, orderAmount: int)
    requires ShouldUpdateReport(if stored.Some? then Some(stored.value.lastUpdated) else None, now)
    requires stampedAt <= later < NextTuesday4AM(stampedAt)
    ensures var first := LoadReport(stored, now, Some(notes), stampedAt, storeName, sales, customerCount, wasteAmount, orderAmount);
            var second := LoadReport(first.stored, later, fetchedLater, laterStamp, storeName, sales, customerCount,
                                     wasteAmount, orderAmount);
            second == first
  {
  }

  /**
   * The stamp decides freshness: a report whose fetch began on a Tuesday
   * just before midnight and returned on the Wednesday stays fresh until
   * the next Tuesday 04:00, whereas one stamped with the instant of the
   * check would be stale at once.
   */
  lemma LateStampStaysFresh(day: int)
    requires WeekdayOfDay(day) == Tuesday
    ensures var checkedAt := day * SecondsPerDay + SecondsPerDay - 30;
            var stampedAt := (day + 1) * SecondsPerDay + 20;
            !ShouldUpdateReport(Some(stampedAt), stampedAt + 6 * SecondsPerDay)
            && ShouldUpdateReport(Some(checkedAt), checkedAt)
  {
    var checkedAt := day * SecondsPerDay + SecondsPerDay - 30;
    var stampedAt := (day + 1) * SecondsPerDay + 20;
    assert DayOf(checkedAt) == day && DayOf(stampedAt) == day + 1;
    TuesdayAfterFourIsInThePast(checkedAt);
    assert Weekday(stampedAt) == 4;
    assert DayOf(AddDays(stampedAt, 6)) == day + 7;
    assert NextTuesday4AM(stampedAt) == (day + 7) * SecondsPerDay + RefreshSecond;
  }
}
