/**
 * The calendar screen's model parts: the store's region prefix, the
 * holiday table keyed by "yyyy-MM-dd", the list of days that have a photo
 * (at most one entry per day) and the month grid of day cells.
 */
module CalendarView {
  import opened Wrappers
  import opened CivilTime
  import opened DateText

  // ---------------------------------------------------------------------
  // Stores.

  datatype StoreLocation = Higashikatsuyama | Uesugi | Kimachi | Denryoku | Nakayama | Anyoji | Rifu

  /** `StoreLocation.regionColumnPrefix`: the municipality column of the store. */
  function RegionColumnPrefix(store: StoreLocation): string {
    match store
    case Higashikatsuyama | Uesugi | Kimachi | Denryoku | Nakayama => "仙台市青葉区"
    case Anyoji => "仙台市宮城野区"
    case Rifu => "宮城郡利府町"
  }

  /**
   * Five stores lie in Aoba ward; Anyoji (Miyagino ward) and Rifu (Rifu
   * town) each have a prefix no other store shares.
   */
  lemma RegionGroups(a: StoreLocation, b: StoreLocation)
    ensures RegionColumnPrefix(a) == "仙台市青葉区" <==> !a.Anyoji? && !a.Rifu?
    ensures RegionColumnPrefix(a) == RegionColumnPrefix(b) <==>
            a == b || (RegionColumnPrefix(a) == "仙台市青葉区" && RegionColumnPrefix(b) == "仙台市青葉区")
  {
    assert "仙台市青葉区"[3] != "仙台市宮城野区"[3];
    assert "仙台市青葉区"[0] != "宮城郡利府町"[0];
    assert "仙台市宮城野区"[0] != "宮城郡利府町"[0];
  }

  // ---------------------------------------------------------------------
  // Holidays.

  /** `JapaneseHolidayVM`: holiday names keyed by "yyyy-MM-dd". */
  class JapaneseHolidayVM {
    var holidays: map<string, string>

    constructor ()
      ensures holidays == map[]
    {
      holidays := map[];
    }

    /**
     * `load(year:)` once the download has finished: the decoded table, or
     * an empty table when fetching or decoding failed (`None`).
     */
    method Load(fetched: Option<map<string, string>>)
      modifies this
      ensures fetched.Some? ==> holidays == fetched.value
      ensures fetched.None? ==> holidays == map[]
    {
      match fetched
      case Some(table) => holidays := table;
      case None => holidays := map[];
    }

    /** `holidayName(_:)`: the entry under the date's "yyyy-MM-dd" key. */
    function HolidayName(date: Instant): (r: Option<string>)
      reads this
      ensures r.Some? <==> FormatDay(DayOf(date)) in holidays
      ensures r.Some? ==> r.value == holidays[FormatDay(DayOf(date))]
    {
      var key := FormatDay(DayOf(date));
      if key in holidays then Some(holidays[key]) else None
    }

    /** `isHoliday(_:)`. */
    predicate IsHoliday(date: Instant)
      reads this
    {
      HolidayName(date).Some?
    }

    /**
     * Holidays are per day: two instants of the same day get the same
     * answer, and (in the common era) a name found for a date sits under
     * the key that reads back as exactly that day, so no other day of the
     * common era shares it.
     */
    lemma HolidayIsPerDay(a: Instant, b: Instant)
      ensures IsHoliday(a) <==> HolidayName(a) != None
      ensures DayOf(a) == DayOf(b) ==> HolidayName(a) == HolidayName(b)
      ensures CivilFromDays(DayOf(a)).year >= 1 && CivilFromDays(DayOf(b)).year >= 1 && DayOf(a) != DayOf(b)
              ==> FormatDay(DayOf(a)) != FormatDay(DayOf(b))
      ensures CivilFromDays(DayOf(a)).year >= 1 && HolidayName(a).Some? ==>
              exists key :: key in holidays && ParseDay(key) == Some(DayOf(a))
    {
      if CivilFromDays(DayOf(a)).year >= 1 {
        FormatParseRoundTrip(DayOf(a));
      }
      if CivilFromDays(DayOf(b)).year >= 1 {
        FormatParseRoundTrip(DayOf(b));
      }
    }
  }

  // ---------------------------------------------------------------------
  // Photo days.

  /** Some stored date falls on the same calendar day as `date`. */
  predicate HasSameDay(dates: seq<Instant>, date: Instant) {
    exists i :: 0 <= i < |dates| && DayOf(dates[i]) == DayOf(date)
  }

  /** No two stored dates fall on the same day. */
  predicate DistinctDays(dates: seq<Instant>) {
    forall i, j :: 0 <= i < j < |dates| ==> DayOf(dates[i]) != DayOf(dates[j])
  }

  /** The list after `add(date:)`: unchanged when the day is already there, else the date appended. */
  function WithPhotoDate(dates: seq<Instant>, date: Instant): seq<Instant> {
    if HasSameDay(dates, date) then dates else dates + [date]
  }

  /** `PhotoVM`: the dates on which a photo was registered. */
  class PhotoVM {
    var photoDates: seq<Instant>

    /** `init()`: the dates restored from the stored timestamps. */
    constructor (stored: seq<Instant>)
      ensures photoDates == stored
    {
      photoDates := stored;
    }

    /** `add(date:)`. */
    method Add(date: Instant)
      modifies this
      ensures photoDates == WithPhotoDate(old(photoDates), date)
    {
      if !HasSameDay(photoDates, date) {
        photoDates := photoDates + [date];
      }
    }
  }

  /**
   * After adding, the date's day is on the list; the list grew by at most
   * one and kept its entries in order; adding again changes nothing; and a
   * list without two dates on one day keeps that property.
   */
  lemma AddShape(dates: seq<Instant>, date: Instant)
    ensures var after := WithPhotoDate(dates, date);
            HasSameDay(after, date)
            && |dates| <= |after| <= |dates| + 1
            && after[..|dates|] == dates
            && (|after| == |dates| + 1 <==> !HasSameDay(dates, date))
            && WithPhotoDate(after, date) == after
            && (DistinctDays(dates) ==> DistinctDays(after))
  {
    var after := WithPhotoDate(dates, date);
    if !HasSameDay(dates, date) {
      assert after[|dates|] == date;
      assert after[..|dates|] == dates;
    }
  }

  // ---------------------------------------------------------------------
  // Month grid.

  /** Day number of the first of the month that contains `month`. */
  function FirstOfMonth(month: Instant): int {
    var c := CivilFromDays(DayOf(month));
    DaysFromCivil(Civil(c.year, c.month, 1))
  }

  /** Cells before day 1: its weekday counted from Sunday (0..6). */
  function LeadingBlanks(month: Instant): (n: nat)
    ensures n < 7
  {
    WeekdayOfDay(FirstOfMonth(month)) - 1
  }

  /** Number of days in the month that contains `month`. */
  function MonthLength(month: Instant): (n: nat)
    ensures 28 <= n <= 31
  {
    var c := CivilFromDays(DayOf(month));
    CivilFromDaysValid(DayOf(month));
    DaysInMonth(c.year, c.month)
  }

  /** The cells of the grid: blanks, then the midnight of each day of the month. */
  function MonthGrid(month: Instant): (cells: seq<Option<Instant>>)
    ensures |cells| == LeadingBlanks(month) + MonthLength(month)
  {
    var first := FirstOfMonth(month);
    seq(LeadingBlanks(month), _ => None)
    + seq(MonthLength(month), k => Some(AddDays(Midnight(first), k)))
  }

  /** `CustomCalendarView.daysInMonth`. */
  method DaysInMonthGrid(currentMonth: Instant) returns (days: seq<Option<Instant>>)
    ensures days == MonthGrid(currentMonth)
  {
    var c := CivilFromDays(DayOf(currentMonth));
    CivilFromDaysValid(DayOf(currentMonth));
    var firstDay := Midnight(DaysFromCivil(Civil(c.year, c.month, 1)));
    var length := DaysInMonth(c.year, c.month);
    var firstWeekday := Weekday(firstDay) - 1;
    days := [];
    for i := 0 to firstWeekday
      invariant days == seq(i, _ => None)
    {
      days := days + [None];
    }
    for day := 1 to length + 1
      invariant |days| == firstWeekday + day - 1
      invariant days == MonthGrid(currentMonth)[..|days|]
    {
      days := days + [Some(AddDays(firstDay, day - 1))];
    }
  }

  /**
   * Every blank comes before day 1, the cell after the blanks is day 1 of
   * the month shown and each later cell the next day, all at midnight.
   */
  lemma MonthGridDays(month: Instant)
    ensures var cells := MonthGrid(month);
            var c := CivilFromDays(DayOf(month));
            var lead := LeadingBlanks(month);
            (forall i :: 0 <= i < |cells| ==> (cells[i].None? <==> i < lead))
            && (forall i :: lead <= i < |cells| ==>
                  CivilFromDays(DayOf(cells[i].value)) == Civil(c.year, c.month, i - lead + 1)
                  && SecondOfDay(cells[i].value) == 0)
  {
    var cells := MonthGrid(month);
    var lead := LeadingBlanks(month);
    forall i | lead <= i < |cells| ensures CivilFromDays(DayOf(cells[i].value)) == Civil(CivilFromDays(DayOf(month)).year, CivilFromDays(DayOf(month)).month, i - lead + 1) && SecondOfDay(cells[i].value) == 0 {
      CellDay(month, i);
    }
  }

  lemma CellDay(month: Instant, i: int)
    requires LeadingBlanks(month) <= i < |MonthGrid(month)|
    ensures var c := CivilFromDays(DayOf(month));
            var cell := MonthGrid(month)[i].value;
            CivilFromDays(DayOf(cell)) == Civil(c.year, c.month, i - LeadingBlanks(month) + 1) && SecondOfDay(cell) == 0
  {
    var cells := MonthGrid(month);
    var c := CivilFromDays(DayOf(month));
    var first := FirstOfMonth(month);
    var k := i - LeadingBlanks(month);
    CivilFromDaysValid(DayOf(month));
    MidnightIsStartOfDay(first);
    assert cells[i] == Some(AddDays(Midnight(first), k));
    var cell := cells[i].value;
    assert DayOf(cell) - k == first == DaysFromCivil(Civil(c.year, c.month, 1));
    CivilDaysOfMonth(c.year, c.month, DayOf(cell), k);
    assert SecondOfDay(cell) == SecondOfDay(Midnight(first)) == 0;
  }

  /** Each day sits in the column of its weekday: cell `i` is on weekday `i % 7 + 1`, Sunday first. */
  lemma MonthGridColumns(month: Instant)
    ensures var cells := MonthGrid(month);
            forall i :: LeadingBlanks(month) <= i < |cells| ==> Weekday(cells[i].value) == i % 7 + 1
  {
    var cells := MonthGrid(month);
    var first := FirstOfMonth(month);
    var lead := LeadingBlanks(month);
    MidnightIsStartOfDay(first);
    forall i | lead <= i < |cells|
      ensures Weekday(cells[i].value) == i % 7 + 1
    {
      WeekdayColumn(first, i - lead);
    }
  }

  /** Day `k + 1` of a month is `k` days after its first. */
  lemma CivilDaysOfMonth(y: int, m: int, day: int, k: nat)
    requires 1 <= m <= 12 && k < DaysInMonth(y, m) && day - k == DaysFromCivil(Civil(y, m, 1))
    ensures CivilFromDays(day) == Civil(y, m, k + 1)
  {
    CivilFromDaysInverse(Civil(y, m, k + 1));
    DaysFromCivilDayStep(y, m, k);
  }

  /** `k` days after day `d`, the weekday has moved `k` places (mod 7) from `d`'s. */
  lemma WeekdayColumn(d: int, k: nat)
    ensures WeekdayOfDay(d + k) == (WeekdayOfDay(d) - 1 + k) % 7 + 1
  {
    var q := (d + 4) / 7;
    var w := (d + 4) % 7;
    var x := w + k;
    assert d + k + 4 == 7 * (q + x / 7) + x % 7;
  }
}
