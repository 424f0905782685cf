/**
 * The integer part of the printed weekly sheet
 * (`generateWeeklyShiftPDFWithGanttAndTotal`): the Monday-to-Sunday week
 * around the plan's date, one row per named staff entry of the plan, the
 * bars of that entry on each day of the week and the row's total. Drawing
 * geometry and page breaks are not modelled.
 */
module WeeklyGrid {
  import opened Wrappers
  import opened Text
  import opened CivilTime
  import opened ShiftData
  import opened WeeklySummary

  /** A bar of the sheet: day column 0..6 and the range's hours as stored. */
  datatype Bar = Bar(dayIndex: int, start: int, end: int)

  /** One printed row: the name, its bars, the minute total and the "h時間m分" parts. */
  datatype GridRow = GridRow(staffName: string, bars: seq<Bar>, totalMinutes: int, hours: int, minutes: int)

  /** Monday of the plan's week: back `(weekday + 5) % 7` days, same time of day. */
  function WeekStart(date: Instant): (r: Instant)
    ensures Weekday(r) == Monday
    ensures 0 <= DayOf(date) - DayOf(r) < 7 && SecondOfDay(r) == SecondOfDay(date)
  {
    var weekday := Weekday(date);
    var daysFromMonday := (weekday + 5) % 7;
    MondayOffset(DayOf(date));
    AddDays(date, -daysFromMonday)
  }

  lemma MondayOffset(d: int)
    ensures var k := (WeekdayOfDay(d) + 5) % 7;
            0 <= k < 7 && WeekdayOfDay(d - k) == Monday
  {
    var w := WeekdayOfDay(d);
    var q := (d + 4) / 7;
    assert d + 4 == 7 * q + w - 1;
    var k := (w + 5) % 7;
    if w == 1 {
      assert k == 6;
      assert d - k + 4 == 7 * (q - 1) + 1;
    } else {
      assert k == w - 2;
      assert d - k + 4 == 7 * q + 1;
    }
  }

  /** `weekDates`: the seven days from the week's Monday. */
  function WeekDates(date: Instant): (r: seq<Instant>)
    ensures |r| == 7
    ensures forall i :: 0 <= i < 7 ==> DayOf(r[i]) == DayOf(WeekStart(date)) + i
  {
    seq(7, i requires 0 <= i < 7 => AddDays(WeekStart(date), i))
  }

  /** The plan's own day is one of the seven, at the index of its weekday counted from Monday. */
  lemma WeekContainsDate(date: Instant)
    ensures DayOf(WeekDates(date)[DayOf(date) - DayOf(WeekStart(date))]) == DayOf(date)
  {
  }

  /** Bars of the first entry with `id` in the plan stored for `date` (any store), in column `dayIndex`. */
  function DayBars(files: ShiftFiles, date: Instant, id: Uuids.Uuid, dayIndex: int): seq<Bar> {
    match LoadShift(files, date)
    case None => []
    case Some(plan) =>
      match FirstIndexOfId(plan.staffShifts, id)
      case None => []
      case Some(j) =>
        var ranges := plan.staffShifts[j].ranges;
        seq(|ranges|, k requires 0 <= k < |ranges| => Bar(dayIndex, ranges[k].start, ranges[k].end))
  }

  /** Bars of the first `i` days of the week. */
  function BarsUpTo(files: ShiftFiles, week: seq<Instant>, id: Uuids.Uuid, i: nat): seq<Bar>
    requires i <= |week|
  {
    if i == 0 then [] else BarsUpTo(files, week, id, i - 1) + DayBars(files, week[i - 1], id, i - 1)
  }

  /** Σ (end - start) * 60 over the bars. */
  function BarMinutes(bars: seq<Bar>): int {
    if bars == [] then 0 else BarMinutes(bars[..|bars| - 1]) + (bars[|bars| - 1].end - bars[|bars| - 1].start) * 60
  }

  /** The row printed for one staff entry of the plan. */
  function RowFor(files: ShiftFiles, week: seq<Instant>, staff: StaffShift): GridRow {
    var bars := BarsUpTo(files, week, staff.id, |week|);
    var total := BarMinutes(bars);
    GridRow(staff.staffName, bars, total, TruncDiv(total, 60), TruncRem(total, 60))
  }

  /** A name made of whitespace only (one that trims to nothing, by `TrimEmpty`) gets no row. */
  predicate IsBlank(name: string) {
    forall i :: 0 <= i < |name| ==> IsWhitespace(name[i])
  }

  /** The entries among the first `k` whose name is not blank, in order. */
  function NamedUpTo(staff: seq<StaffShift>, k: nat): seq<StaffShift>
    requires k <= |staff|
  {
    if k == 0 then []
    else NamedUpTo(staff, k - 1) + (if IsBlank(staff[k - 1].staffName) then [] else [staff[k - 1]])
  }

  /** The rows of the sheet for a plan: one per named entry, in the plan's order. */
  function GridRows(files: ShiftFiles, shift: DailyShift): seq<GridRow>
  {
    var named := NamedUpTo(shift.staffShifts, |shift.staffShifts|);
    seq(|named|, i requires 0 <= i < |named| => RowFor(files, WeekDates(shift.date), named[i]))
  }

  /**
   * The row loop of `generateWeeklyShiftPDFWithGanttAndTotal(for:)`: one
   * row per entry whose name is not blank.
   */
  method WeeklyShiftGrid(files: ShiftFiles, shift: DailyShift) returns (rows: seq<GridRow>)
    ensures rows == GridRows(files, shift)
  {
    var weekDates := WeekDates(shift.date);
    var staffShifts := shift.staffShifts;
    rows := [];
    for k := 0 to |staffShifts|
      invariant |rows| == |NamedUpTo(staffShifts, k)|
      invariant forall i :: 0 <= i < |rows| ==> rows[i] == RowFor(files, weekDates, NamedUpTo(staffShifts, k)[i])
    {
      var staff := staffShifts[k];
      TrimEmpty(staff.staffName);
      if Trim(staff.staffName) == [] {
        continue;
      }
      var row := StaffRow(files, weekDates, staff);
      rows := rows + [row];
    }
  }

  /**
   * One row of the sheet: the bars of the entry with the same id on each
   * day of the week, and the minutes they add up to.
   */
  method StaffRow(files: ShiftFiles, weekDates: seq<Instant>, staff: StaffShift) returns (row: GridRow)
    ensures row == RowFor(files, weekDates, staff)
  {
    var totalMinutes := 0;
    var bars: seq<Bar> := [];
    for i := 0 to |weekDates|
      invariant bars == BarsUpTo(files, weekDates, staff.id, i)
      invariant totalMinutes == BarMinutes(bars)
    {
      var dayBars := DayBars(files, weekDates[i], staff.id, i);
      bars, totalMinutes := AppendBars(bars, totalMinutes, dayBars);
    }
    var h := TruncDiv(totalMinutes, 60);
    var m := TruncRem(totalMinutes, 60);
    row := GridRow(staff.staffName, bars, totalMinutes, h, m);
  }

  /** The inner loop over one day's bars: appends them and adds their minutes. */
  method AppendBars(bars: seq<Bar>, total: int, dayBars: seq<Bar>) returns (out: seq<Bar>, outTotal: int)
    requires total == BarMinutes(bars)
    ensures out == bars + dayBars && outTotal == BarMinutes(out)
  {
    out, outTotal := bars, total;
    for r := 0 to |dayBars|
      invariant out == bars + dayBars[..r]
      invariant outTotal == BarMinutes(out)
    {
      assert bars + dayBars[..r + 1] == out + [dayBars[r]];
      out := out + [dayBars[r]];
      assert out[..|out| - 1] == bars + dayBars[..r];
      outTotal := outTotal + (dayBars[r].end - dayBars[r].start) * 60;
    }
    assert dayBars[..|dayBars|] == dayBars;
  }

  /** A row's total is its bars' minutes, printed as whole hours and the remaining minutes. */
  predicate ConsistentRow(r: GridRow) {
    r.totalMinutes == BarMinutes(r.bars) && r.hours * 60 + r.minutes == r.totalMinutes && -60 < r.minutes < 60
    && (r.totalMinutes >= 0 ==> 0 <= r.minutes)
  }

  lemma RowForConsistent(files: ShiftFiles, week: seq<Instant>, staff: StaffShift)
    ensures ConsistentRow(RowFor(files, week, staff))
  {
    var total := BarMinutes(BarsUpTo(files, week, staff.id, |week|));
    assert TruncDiv(total, 60) * 60 + TruncRem(total, 60) == total;
  }

  /**
   * The named entries come from the plan, none of them is blank, and every
   * entry of the plan whose name is not blank is among them.
   */
  lemma {:induction false} NamedShape(staff: seq<StaffShift>, k: nat)
    requires k <= |staff|
    ensures var named := NamedUpTo(staff, k);
            |named| <= k
            && (forall i :: 0 <= i < |named| ==> !IsBlank(named[i].staffName) && named[i] in staff[..k])
            && (forall j :: 0 <= j < k && !IsBlank(staff[j].staffName) ==> staff[j] in named)
  {
    if k > 0 {
      NamedShape(staff, k - 1);
      var prev := NamedUpTo(staff, k - 1);
      var named := NamedUpTo(staff, k);
      var last := staff[k - 1];
      assert staff[..k] == staff[..k - 1] + [last];
      if IsBlank(last.staffName) {
        assert named == prev;
      } else {
        assert named == prev + [last];
        forall i | 0 <= i < |named| ensures !IsBlank(named[i].staffName) && named[i] in staff[..k] {
          if i < |prev| {
            assert named[i] == prev[i];
          }
        }
      }
    }
  }

  /** The positions in the plan of the entries `NamedUpTo(staff, k)` keeps. */
  function NamedIndices(staff: seq<StaffShift>, k: nat): seq<nat>
    requires k <= |staff|
  {
    if k == 0 then []
    else NamedIndices(staff, k - 1) + (if IsBlank(staff[k - 1].staffName) then [] else [k - 1])
  }

  /**
   * The named entries are exactly the entries of the plan at the positions
   * below `k` whose name is not blank, each taken once and in the plan's
   * order: their positions rise strictly.
   */
  lemma NamedIndicesShape(staff: seq<StaffShift>, k: nat)
    requires k <= |staff|
    ensures var named := NamedUpTo(staff, k);
            var idx := NamedIndices(staff, k);
            |idx| == |named|
            && (forall i :: 0 <= i < |idx| ==> idx[i] < k && named[i] == staff[idx[i]])
            && (forall i, j :: 0 <= i < j < |idx| ==> idx[i] < idx[j])
            && (forall j :: 0 <= j < k ==> (j in idx <==> !IsBlank(staff[j].staffName)))
  {
    NamedIndicesPick(staff, k);
    NamedIndicesRise(staff, k);
  }

  /** `NamedUpTo` keeps the entries at the positions `NamedIndices` lists. */
  lemma {:induction false} NamedIndicesPick(staff: seq<StaffShift>, k: nat)
    requires k <= |staff|
    ensures var named := NamedUpTo(staff, k);
            var idx := NamedIndices(staff, k);
            |idx| == |named| && forall i :: 0 <= i < |idx| ==> idx[i] < k && named[i] == staff[idx[i]]
  {
    if k > 0 {
      NamedIndicesPick(staff, k - 1);
    }
  }

  /** The listed positions lie below `k`, rise strictly and are the non-blank ones. */
  lemma {:induction false} NamedIndicesRise(staff: seq<StaffShift>, k: nat)
    requires k <= |staff|
    ensures var idx := NamedIndices(staff, k);
            (forall i :: 0 <= i < |idx| ==> idx[i] < k)
            && (forall i, j :: 0 <= i < j < |idx| ==> idx[i] < idx[j])
            && (forall j :: 0 <= j < k ==> (j in idx <==> !IsBlank(staff[j].staffName)))
  {
    if k > 0 {
      NamedIndicesRise(staff, k - 1);
      var prev := NamedIndices(staff, k - 1);
      var idx := NamedIndices(staff, k);
      if IsBlank(staff[k - 1].staffName) {
        assert idx == prev;
      } else {
        assert idx == prev + [k - 1];
      }
    }
  }

  /**
   * Every printed row carries a name that is not blank and a total that is
   * its bars' minutes with no break deduction, split into whole hours and
   * the remaining minutes.
   */
  lemma RowsConsistent(files: ShiftFiles, shift: DailyShift)
    ensures forall r :: r in GridRows(files, shift) ==> !IsBlank(r.staffName) && ConsistentRow(r)
  {
    var rows := GridRows(files, shift);
    var named := NamedUpTo(shift.staffShifts, |shift.staffShifts|);
    NamedShape(shift.staffShifts, |shift.staffShifts|);
    forall i | 0 <= i < |rows| ensures !IsBlank(rows[i].staffName) && ConsistentRow(rows[i]) {
      RowForConsistent(files, WeekDates(shift.date), named[i]);
    }
  }

  /**
   * A day's bars add up to the raw minutes of the entry found that day,
   * which the weekly summary would reduce by its break rule.
   */
  lemma {:induction false} DayBarsMinutes(files: ShiftFiles, date: Instant, id: Uuids.Uuid, dayIndex: int)
    ensures var bars := DayBars(files, date, id, dayIndex);
            match LoadShift(files, date)
            case None => bars == []
            case Some(plan) =>
              match FirstIndexOfId(plan.staffShifts, id)
              case None => bars == []
              case Some(j) => BarMinutes(bars) == RawMinutes(plan.staffShifts[j].ranges)
  {
    match LoadShift(files, date)
    case None =>
    case Some(plan) =>
      match FirstIndexOfId(plan.staffShifts, id)
      case None =>
      case Some(j) =>
        BarRangeMinutes(plan.staffShifts[j].ranges, dayIndex);
  }

  lemma {:induction false} BarRangeMinutes(ranges: seq<ShiftRange>, dayIndex: int)
    ensures BarMinutes(seq(|ranges|, k requires 0 <= k < |ranges| => Bar(dayIndex, ranges[k].start, ranges[k].end)))
            == RawMinutes(ranges)
  {
    if ranges != [] {
      var bars := seq(|ranges|, k requires 0 <= k < |ranges| => Bar(dayIndex, ranges[k].start, ranges[k].end));
      var shorter := ranges[..|ranges| - 1];
      BarRangeMinutes(shorter, dayIndex);
      assert bars[..|bars| - 1] == seq(|shorter|, k requires 0 <= k < |shorter| => Bar(dayIndex, shorter[k].start, shorter[k].end));
    }
  }
}
