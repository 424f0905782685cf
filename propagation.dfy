/**
 * Copying a day plan to the same weekday in the next thirty days:
 * `StaffShiftRow.saveShiftAndCopyToSameWeekday` (after a range was typed)
 * and `ShiftEditorView.propagateToFutureSameWeekday` (after a day was
 * opened). The thirty days start at the current instant, not at the plan's
 * date, and every write is a whole copy of the plan, not a merge into what
 * the target day already holds.
 */
module Propagation {
  import opened Wrappers
  import opened CivilTime
  import opened Uuids
  import opened ShiftData
  import opened Coverage

  /** Days looked at, starting with today. */
  const PropagationDays: nat := 30

  /** `ShiftEditorView.getFutureDates(days:)`: now, now + 1 day, ... */
  function FutureDates(now: Instant, days: nat): (r: seq<Instant>)
    ensures |r| == days
    ensures forall i :: 0 <= i < days ==> DayOf(r[i]) == DayOf(now) + i && SecondOfDay(r[i]) == SecondOfDay(now)
  {
    seq(days, i requires 0 <= i => AddDays(now, i))
  }

  /** `StaffShiftRow.getFutureDates(days:)`, the loop version of the same list. */
  method GetFutureDates(now: Instant, days: nat) returns (dates: seq<Instant>)
    ensures dates == FutureDates(now, days)
  {
    dates := [];
    for i := 0 to days
      invariant dates == FutureDates(now, i)
    {
      dates := dates + [AddDays(now, i)];
    }
  }

  /** The copy written for `date`: the plan with its date replaced and slot `index` set to `staff`. */
  function Retarget(shift: DailyShift, index: nat, staff: StaffShift, date: Instant): DailyShift
    requires index < |shift.staffShifts|
  {
    WithStaff(shift.(date := date), index, staff)
  }

  /** The files after the copies for the first `n` of the dates from `now`. */
  function CopiesUpTo(files: ShiftFiles, shift: DailyShift, index: nat, staff: StaffShift, now: Instant, n: nat): ShiftFiles
    requires index < |shift.staffShifts|
  {
    if n == 0 then files
    else
      var prev := CopiesUpTo(files, shift, index, staff, now, n - 1);
      var date := AddDays(now, n - 1);
      if Weekday(date) == Weekday(shift.date) then SaveShift(prev, Retarget(shift, index, staff, date)) else prev
  }

  /** Day `d` is one of the first `n` days from `now` and falls on the plan's weekday. */
  predicate IsTarget(shift: DailyShift, now: Instant, n: nat, d: int) {
    DayOf(now) <= d < DayOf(now) + n && WeekdayOfDay(d) == Weekday(shift.date)
  }

  /** Slot of the edited staff entry: its first id match, or 0. */
  function StaffIndex(shift: DailyShift, staff: StaffShift): (r: nat)
    requires |shift.staffShifts| > 0
    ensures r < |shift.staffShifts|
  {
    FirstIndexOfId(shift.staffShifts, staff.id).GetOr(0)
  }

  /**
   * `saveShiftAndCopyToSameWeekday()`: for each of the next thirty dates
   * on the plan's weekday, saves the plan with that date and the edited
   * staff entry in its slot. Swift traps when the plan has no slot 0, so
   * the plan must have a staff entry.
   */
  method SaveShiftAndCopyToSameWeekday(files: ShiftFiles, shift: DailyShift, staff: StaffShift, now: Instant)
    returns (out: ShiftFiles)
    requires |shift.staffShifts| > 0
    ensures out == CopiesUpTo(files, shift, StaffIndex(shift, staff), staff, now, PropagationDays)
  {
    var currentWeekday := Weekday(shift.date);
    var allDates := GetFutureDates(now, PropagationDays);
    var staffIndex := StaffIndex(shift, staff);
    out := files;
    for i := 0 to |allDates|
      invariant out == CopiesUpTo(files, shift, staffIndex, staff, now, i)
    {
      if Weekday(allDates[i]) == currentWeekday {
        out := SaveShift(out, Retarget(shift, staffIndex, staff, allDates[i]));
      }
    }
  }

  /**
   * The copies land exactly on the target days; each target day holds the
   * retargeted plan for its date and every other file is left as it was.
   */
  lemma {:induction false} CopiesShape(files: ShiftFiles, shift: DailyShift, index: nat, staff: StaffShift, now: Instant, n: nat)
    requires index < |shift.staffShifts|
    ensures var out := CopiesUpTo(files, shift, index, staff, now, n);
            (forall d :: d in out <==> d in files || IsTarget(shift, now, n, d))
            && (forall d :: IsTarget(shift, now, n, d) ==>
                  out[d] == Retarget(shift, index, staff, AddDays(now, d - DayOf(now))))
            && (forall d :: d in files && !IsTarget(shift, now, n, d) ==> out[d] == files[d])
  {
    if n > 0 {
      CopiesShape(files, shift, index, staff, now, n - 1);
      var date := AddDays(now, n - 1);
      assert DayOf(date) == DayOf(now) + n - 1;
      assert Weekday(date) == WeekdayOfDay(DayOf(now) + n - 1);
    }
  }

  /** Copying again with the same inputs writes the same files. */
  lemma CopiesIdempotent(files: ShiftFiles, shift: DailyShift, index: nat, staff: StaffShift, now: Instant, n: nat)
    requires index < |shift.staffShifts|
    ensures var once := CopiesUpTo(files, shift, index, staff, now, n);
            CopiesUpTo(once, shift, index, staff, now, n) == once
  {
    var once := CopiesUpTo(files, shift, index, staff, now, n);
    var twice := CopiesUpTo(once, shift, index, staff, now, n);
    CopiesShape(files, shift, index, staff, now, n);
    CopiesShape(once, shift, index, staff, now, n);
    forall d ensures d in twice <==> d in once {
      if IsTarget(shift, now, n, d) {
        assert d in once;
      }
    }
    assert twice.Keys == once.Keys;
    assert forall d :: d in twice ==> twice[d] == once[d];
  }

  // ---------------------------------------------------------------------
  // Propagating a whole plan.

  /** The files after the inner loop has run for the first `k` staff entries. */
  function PropagatedUpTo(files: ShiftFiles, shift: DailyShift, now: Instant, k: nat): ShiftFiles
    requires k <= |shift.staffShifts|
  {
    if k == 0 then files
    else
      var prev := PropagatedUpTo(files, shift, now, k - 1);
      var staff := shift.staffShifts[k - 1];
      match FirstIndexOfId(shift.staffShifts, staff.id)
      case None => prev
      case Some(staffIndex) => CopiesUpTo(prev, shift, staffIndex, staff, now, PropagationDays)
  }

  /**
   * `propagateToFutureSameWeekday()`: for every staff entry, the same
   * copies as after editing that entry.
   */
  method PropagateToFutureSameWeekday(files: ShiftFiles, dailyShift: Option<DailyShift>, now: Instant)
    returns (out: ShiftFiles)
    ensures dailyShift.None? ==> out == files
    ensures dailyShift.Some? ==>
            out == PropagatedUpTo(files, dailyShift.value, now, |dailyShift.value.staffShifts|)
  {
    out := files;
    if dailyShift.None? {
      return;
    }
    var shift := dailyShift.value;
    var currentWeekday := Weekday(shift.date);
    var futureDates := FutureDates(now, PropagationDays);
    for k := 0 to |shift.staffShifts|
      invariant out == PropagatedUpTo(files, shift, now, k)
    {
      var staff := shift.staffShifts[k];
      var found := FirstIndexOfId(shift.staffShifts, staff.id);
      if found.None? {
        continue;
      }
      var staffIndex := found.value;
      var before := out;
      for i := 0 to |futureDates|
        invariant out == CopiesUpTo(before, shift, staffIndex, staff, now, i)
      {
        assert futureDates[i] == AddDays(now, i);
        if Weekday(futureDates[i]) == currentWeekday {
          out := SaveShift(out, Retarget(shift, staffIndex, staff, futureDates[i]));
        }
      }
    }
  }

  /** Entries that share an id are equal (true when ids are distinct, and of a freshly opened day). */
  predicate SameEntryPerId(staff: seq<StaffShift>) {
    forall k, l :: 0 <= k < |staff| && 0 <= l < |staff| && staff[k].id == staff[l].id ==> staff[k] == staff[l]
  }

  /**
   * When entries sharing an id are equal, propagation writes the plan
   * itself, only re-dated, to every target day, and leaves every other
   * file alone; a plan without staff writes nothing.
   */
  lemma {:induction false} PropagateWritesWholePlan(files: ShiftFiles, shift: DailyShift, now: Instant, k: nat)
    requires k <= |shift.staffShifts|
    requires SameEntryPerId(shift.staffShifts)
    ensures var out := PropagatedUpTo(files, shift, now, k);
            (forall d :: d in out <==> d in files || (k > 0 && IsTarget(shift, now, PropagationDays, d)))
            && (forall d :: k > 0 && IsTarget(shift, now, PropagationDays, d) ==>
                  out[d] == shift.(date := AddDays(now, d - DayOf(now))))
            && (forall d :: d in files && !(k > 0 && IsTarget(shift, now, PropagationDays, d)) ==> out[d] == files[d])
  {
    if k > 0 {
      PropagateWritesWholePlan(files, shift, now, k - 1);
      var prev := PropagatedUpTo(files, shift, now, k - 1);
      var staff := shift.staffShifts[k - 1];
      var found := FirstIndexOfId(shift.staffShifts, staff.id);
      assert found.Some?;
      var staffIndex := found.value;
      assert shift.staffShifts[staffIndex] == staff;
      CopiesShape(prev, shift, staffIndex, staff, now, PropagationDays);
      forall date: Instant ensures Retarget(shift, staffIndex, staff, date) == shift.(date := date) {
        assert shift.staffShifts[staffIndex := staff] == shift.staffShifts;
      }
    }
  }

  /** Distinct identifiers make entries sharing an id equal. */
  lemma DistinctIdsSameEntry(staff: seq<StaffShift>)
    requires forall k, l :: 0 <= k < l < |staff| ==> staff[k].id != staff[l].id
    ensures SameEntryPerId(staff)
  {
  }

  /**
   * Opening a day writes its twelve empty slots over the same weekday in
   * the next thirty days, so each of those days is then listed as not
   * covered, whatever had been planned there and for whichever store.
   */
  lemma OpeningADayBlanksItsWeekday(files: ShiftFiles, date: Instant, storeName: string,
                                    dayId: Uuid, staffIds: seq<Uuid>, now: Instant, other: string)
    requires |staffIds| == SlotsPerDay
    ensures var blank := EmptyDailyShift(date, storeName, dayId, staffIds);
            var out := PropagatedUpTo(files, blank, now, SlotsPerDay);
            forall i :: 0 <= i < PropagationDays && WeekdayOfDay(DayOf(now) + i) == Weekday(date) ==>
              DayUncovered(out, other, AddDays(StartOfDay(now), i))
  {
    var blank := EmptyDailyShift(date, storeName, dayId, staffIds);
    var out := PropagatedUpTo(files, blank, now, SlotsPerDay);
    PropagateWritesWholePlan(files, blank, now, SlotsPerDay);
    forall i | 0 <= i < PropagationDays && WeekdayOfDay(DayOf(now) + i) == Weekday(date)
      ensures DayUncovered(out, other, AddDays(StartOfDay(now), i))
    {
      var d := DayOf(now) + i;
      assert IsTarget(blank, now, PropagationDays, d);
      var written := out[d];
      assert written.staffShifts == blank.staffShifts;
      assert !StaffHit(written.staffShifts, 0);
      assert LoadShift(out, AddDays(StartOfDay(now), i)) == Some(written);
    }
  }
}
