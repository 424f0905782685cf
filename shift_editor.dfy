/**
 * The state of the shift editor screen (`ShiftEditorView` with its
 * `ShiftInputGanttView` and `StaffShiftRow`s): the selected date, the plan
 * on screen, the admin-code prompt, the local files and the plans sent to
 * the remote store. Each method is one user action or lifecycle event,
 * up to the state it produces itself: the `applyRange` runs the rows
 * trigger when a day change renames their entries are not modelled.
 *
 * Fresh identifiers and the current instant are parameters. `sent` lists
 * the plans handed to `sendShiftToFirestore(dailyShift:)`, in order; each
 * becomes the document `ToFirestore` describes, under a fresh id.
 */
module ShiftEditor {
  import opened Wrappers
  import opened CivilTime
  import opened Uuids
  import opened ShiftData
  import opened EditLock
  import opened RangeInput
  import opened Propagation

  /** The plan with the ranges of entry `index` replaced. */
  function WithRanges(shift: DailyShift, index: nat, ranges: seq<ShiftRange>): (r: DailyShift)
    requires index < |shift.staffShifts|
    ensures |r.staffShifts| == |shift.staffShifts|
  {
    WithStaff(shift, index, shift.staffShifts[index].(ranges := ranges))
  }

  /**
   * The files after the edited plan is saved and its entry `index` copied
   * to the same weekday in the thirty days from now.
   */
  function SaveAndCopy(files: ShiftFiles, applied: DailyShift, index: nat, now: Instant): ShiftFiles
    requires index < |applied.staffShifts|
  {
    var staff := applied.staffShifts[index];
    CopiesUpTo(SaveShift(files, applied), applied, StaffIndex(applied, staff), staff, now, PropagationDays)
  }

  class Editor {
    const storeName: string
    const session: UserSession
    var selectedDate: Instant
    var dailyShift: Option<DailyShift>
    var requireAdminAuth: bool
    var tempAdminUnlock: bool
    var enteredPassword: string
    var showPasswordError: bool
    var files: ShiftFiles
    var sent: seq<DailyShift>

    /** The screen before it appears: no plan on screen, no prompt, nothing sent. */
    constructor (storeName: string, session: UserSession, selectedDate: Instant, files: ShiftFiles)
      ensures this.storeName == storeName && this.session == session
      ensures this.selectedDate == selectedDate && this.files == files
      ensures dailyShift.None? && sent == []
      ensures !requireAdminAuth && !tempAdminUnlock && enteredPassword == "" && !showPasswordError
    {
      this.storeName := storeName;
      this.session := session;
      this.selectedDate := selectedDate;
      this.files := files;
      dailyShift := None;
      sent := [];
      requireAdminAuth := false;
      tempAdminUnlock := false;
      enteredPassword := "";
      showPasswordError := false;
    }

    /** Tapping the editing area asks for the admin code on a day of the locked window. */
    method Tap(now: Instant)
      modifies this
      ensures requireAdminAuth ==
              (old(requireAdminAuth) || (IsWithin7Days(selectedDate, now) && !session.isAdmin && !tempAdminUnlock))
      ensures selectedDate == old(selectedDate) && dailyShift == old(dailyShift) && files == old(files)
      ensures sent == old(sent) && tempAdminUnlock == old(tempAdminUnlock)
      ensures enteredPassword == old(enteredPassword) && showPasswordError == old(showPasswordError)
    {
      if IsWithin7Days(selectedDate, now) && !session.isAdmin && !tempAdminUnlock {
        requireAdminAuth := true;
      }
    }

    /** Typing into the code field. */
    method EnterPassword(text: string)
      modifies this
      ensures enteredPassword == text
      ensures selectedDate == old(selectedDate) && dailyShift == old(dailyShift) && files == old(files)
      ensures sent == old(sent) && tempAdminUnlock == old(tempAdminUnlock)
      ensures requireAdminAuth == old(requireAdminAuth) && showPasswordError == old(showPasswordError)
    {
      enteredPassword := text;
    }

    /** "キャンセル": the code is cleared and the prompt closes. */
    method Cancel()
      modifies this
      ensures enteredPassword == "" && !requireAdminAuth
      ensures selectedDate == old(selectedDate) && dailyShift == old(dailyShift) && files == old(files)
      ensures sent == old(sent) && tempAdminUnlock == old(tempAdminUnlock)
      ensures showPasswordError == old(showPasswordError)
    {
      enteredPassword := "";
      requireAdminAuth := false;
    }

    /**
     * "確認": the right code makes the shared session an admin session (for
     * good) and unlocks the day; a wrong code only clears the field and
     * shows the error, leaving the prompt open.
     */
    method Confirm()
      modifies this, session
      ensures old(enteredPassword) == AdminCode ==>
              session.isAdmin && tempAdminUnlock && !requireAdminAuth && showPasswordError == old(showPasswordError)
      ensures old(enteredPassword) != AdminCode ==>
              session.isAdmin == old(session.isAdmin) && tempAdminUnlock == old(tempAdminUnlock)
              && requireAdminAuth == old(requireAdminAuth) && showPasswordError
      ensures enteredPassword == "" && session.userName == old(session.userName)
      ensures selectedDate == old(selectedDate) && dailyShift == old(dailyShift) && files == old(files)
      ensures sent == old(sent)
    {
      if enteredPassword == AdminCode {
        session.isAdmin := true;
        tempAdminUnlock := true;
        enteredPassword := "";
        requireAdminAuth := false;
      } else {
        enteredPassword := "";
        showPasswordError := true;
      }
    }

    /**
     * What every change of day does: a fresh plan of twelve empty slots
     * for the selected date goes on screen (`loadDailyShift`), then it is
     * propagated to the same weekday in the thirty days from now.
     */
    method OpenSelectedDay(dayId: Uuid, staffIds: seq<Uuid>, now: Instant)
      requires |staffIds| == SlotsPerDay
      modifies this
      ensures var blank := EmptyDailyShift(selectedDate, storeName, dayId, staffIds);
              dailyShift == Some(blank) && files == PropagatedUpTo(old(files), blank, now, SlotsPerDay)
      ensures selectedDate == old(selectedDate) && sent == old(sent) && tempAdminUnlock == old(tempAdminUnlock)
      ensures requireAdminAuth == old(requireAdminAuth) && enteredPassword == old(enteredPassword)
      ensures showPasswordError == old(showPasswordError)
    {
      dailyShift := Some(EmptyDailyShift(selectedDate, storeName, dayId, staffIds));
      files := PropagateToFutureSameWeekday(files, dailyShift, now);
    }

    /**
     * `onAppear` of the screen, then of the grid it shows: the fresh plan
     * is opened and propagated, then the grid replaces it by the plan saved
     * under the selected day, when there is one.
     */
    method Appear(dayId: Uuid, staffIds: seq<Uuid>, now: Instant)
      requires |staffIds| == SlotsPerDay
      modifies this
      ensures var blank := EmptyDailyShift(selectedDate, storeName, dayId, staffIds);
              files == PropagatedUpTo(old(files), blank, now, SlotsPerDay)
              && dailyShift == (if LoadShift(files, selectedDate).Some? then LoadShift(files, selectedDate) else Some(blank))
      ensures selectedDate == old(selectedDate) && sent == old(sent) && tempAdminUnlock == old(tempAdminUnlock)
      ensures requireAdminAuth == old(requireAdminAuth) && enteredPassword == old(enteredPassword)
      ensures showPasswordError == old(showPasswordError)
    {
      OpenSelectedDay(dayId, staffIds, now);
      var loaded := LoadShift(files, dailyShift.value.date);
      if loaded.Some? {
        dailyShift := loaded;
      }
    }

    /**
     * The "<" and ">" buttons: one day back or forward, the day unlock
     * dropped, the day opened (the state before the rows react to it).
     */
    method Navigate(forward: bool, dayId: Uuid, staffIds: seq<Uuid>, now: Instant)
      requires |staffIds| == SlotsPerDay
      modifies this
      ensures selectedDate == AddDays(old(selectedDate), if forward then 1 else -1)
      ensures !tempAdminUnlock
      ensures var blank := EmptyDailyShift(selectedDate, storeName, dayId, staffIds);
              dailyShift == Some(blank) && files == PropagatedUpTo(old(files), blank, now, SlotsPerDay)
      ensures sent == old(sent) && requireAdminAuth == old(requireAdminAuth)
      ensures enteredPassword == old(enteredPassword) && showPasswordError == old(showPasswordError)
    {
      selectedDate := AddDays(selectedDate, if forward then 1 else -1);
      tempAdminUnlock := false;
      OpenSelectedDay(dayId, staffIds, now);
    }

    /**
     * A date picked in the calendar or in the list of uncovered days (the
     * state before the rows react to the new plan).
     */
    method SelectDate(date: Instant, dayId: Uuid, staffIds: seq<Uuid>, now: Instant)
      requires |staffIds| == SlotsPerDay
      modifies this
      ensures selectedDate == date && !tempAdminUnlock
      ensures var blank := EmptyDailyShift(date, storeName, dayId, staffIds);
              dailyShift == Some(blank) && files == PropagatedUpTo(old(files), blank, now, SlotsPerDay)
      ensures sent == old(sent) && requireAdminAuth == old(requireAdminAuth)
      ensures enteredPassword == old(enteredPassword) && showPasswordError == old(showPasswordError)
    {
      selectedDate := date;
      tempAdminUnlock := false;
      OpenSelectedDay(dayId, staffIds, now);
    }

    /**
     * The binding a row writes its staff entry through: the entry goes into
     * the plan on screen, which is saved under its day and sent
     * (`saveAndShareShift`).
     */
    method SetStaff(index: nat, staff: StaffShift)
      requires dailyShift.Some? && index < |dailyShift.value.staffShifts|
      modifies this
      ensures var shift := WithStaff(old(dailyShift).value, index, staff);
              dailyShift == Some(shift) && files == SaveShift(old(files), shift)
              && sent == old(sent) + [shift]
      ensures selectedDate == old(selectedDate) && tempAdminUnlock == old(tempAdminUnlock)
      ensures requireAdminAuth == old(requireAdminAuth) && enteredPassword == old(enteredPassword)
      ensures showPasswordError == old(showPasswordError)
    {
      var shift := WithStaff(dailyShift.value, index, staff);
      dailyShift := Some(shift);
      files := SaveShift(files, shift);
      sent := sent + [shift];
    }

    /**
     * `applyRange()` of row `index` holding `rangeText`: nothing when the
     * row is locked; otherwise the entry's ranges are cleared (and the plan
     * saved and sent), and when the text reads as a range the entry gets
     * that single range (saved and sent again) and is copied to the same
     * weekday in the thirty days from now.
     */
    method ApplyRange(index: nat, rangeText: string, now: Instant)
      requires dailyShift.Some? && index < |dailyShift.value.staffShifts|
      modifies this
      ensures !CanEdit(old(dailyShift), now, session.isAdmin) ==>
              dailyShift == old(dailyShift) && files == old(files) && sent == old(sent)
      ensures CanEdit(old(dailyShift), now, session.isAdmin) ==>
              var cleared := WithRanges(old(dailyShift).value, index, []);
              match ParseRange(rangeText)
              case None =>
                dailyShift == Some(cleared) && files == SaveShift(old(files), cleared)
                && sent == old(sent) + [cleared]
              case Some(r) =>
                var applied := WithRanges(cleared, index, [r]);
                dailyShift == Some(applied)
                && files == SaveAndCopy(SaveShift(old(files), cleared), applied, index, now)
                && sent == old(sent) + [cleared, applied]
      ensures selectedDate == old(selectedDate) && tempAdminUnlock == old(tempAdminUnlock)
      ensures requireAdminAuth == old(requireAdminAuth) && enteredPassword == old(enteredPassword)
      ensures showPasswordError == old(showPasswordError)
    {
      if !CanEdit(dailyShift, now, session.isAdmin) {
        return;
      }
      var entry := dailyShift.value.staffShifts[index];
      SetStaff(index, entry.(ranges := []));
      var parsed := ParseRange(rangeText);
      if parsed.Some? {
        SetRangeAndCopy(index, parsed.value, now);
      }
    }

    /**
     * The end of `applyRange()` once the text has been read as range `r`:
     * the entry gets `[r]` through the binding (saved and sent), then
     * `saveShiftAndCopyToSameWeekday()` copies it.
     */
    method SetRangeAndCopy(index: nat, r: ShiftRange, now: Instant)
      requires dailyShift.Some? && index < |dailyShift.value.staffShifts|
      modifies this
      ensures var applied := WithRanges(old(dailyShift).value, index, [r]);
              dailyShift == Some(applied) && files == SaveAndCopy(old(files), applied, index, now)
              && sent == old(sent) + [applied]
      ensures selectedDate == old(selectedDate) && tempAdminUnlock == old(tempAdminUnlock)
      ensures requireAdminAuth == old(requireAdminAuth) && enteredPassword == old(enteredPassword)
      ensures showPasswordError == old(showPasswordError)
    {
      var entry := dailyShift.value.staffShifts[index];
      SetStaff(index, entry.(ranges := [r]));
      var applied := dailyShift.value;
      files := SaveShiftAndCopyToSameWeekday(files, applied, applied.staffShifts[index], now);
    }

    /**
     * Typing into the row's range field, which is enabled only while the
     * row can be edited: the text is normalised and the range applied as
     * `ApplyRange` does on an editable row.
     */
    method EditRangeText(index: nat, typed: string, now: Instant) returns (rangeText: string)
      requires dailyShift.Some? && index < |dailyShift.value.staffShifts|
      requires CanEdit(dailyShift, now, session.isAdmin)
      modifies this
      ensures rangeText == Squeeze(MapChars(typed))
      ensures var cleared := WithRanges(old(dailyShift).value, index, []);
              match ParseRange(rangeText)
              case None =>
                dailyShift == Some(cleared) && files == SaveShift(old(files), cleared)
                && sent == old(sent) + [cleared]
              case Some(r) =>
                var applied := WithRanges(cleared, index, [r]);
                dailyShift == Some(applied)
                && files == SaveAndCopy(SaveShift(old(files), cleared), applied, index, now)
                && sent == old(sent) + [cleared, applied]
      ensures selectedDate == old(selectedDate) && tempAdminUnlock == old(tempAdminUnlock)
      ensures requireAdminAuth == old(requireAdminAuth) && enteredPassword == old(enteredPassword)
      ensures showPasswordError == old(showPasswordError)
    {
      rangeText := NormalizeRangeText(typed);
      ApplyRange(index, rangeText, now);
    }

    /**
     * Typing into the row's name field, which is enabled only while the row
     * can be edited: the renamed entry is written through the binding
     * (saved and sent), then, the name having changed, the range held in
     * the row's field is applied again to the renamed plan.
     */
    method RenameStaff(index: nat, name: string, rangeText: string, now: Instant)
      requires dailyShift.Some? && index < |dailyShift.value.staffShifts|
      requires CanEdit(dailyShift, now, session.isAdmin)
      modifies this
      ensures var before := old(dailyShift).value.staffShifts[index];
              var renamed := WithStaff(old(dailyShift).value, index, before.(staffName := name));
              name == before.staffName ==>
                dailyShift == Some(renamed) && files == SaveShift(old(files), renamed)
                && sent == old(sent) + [renamed]
      ensures var before := old(dailyShift).value.staffShifts[index];
              var renamed := WithStaff(old(dailyShift).value, index, before.(staffName := name));
              var cleared := WithRanges(renamed, index, []);
              name != before.staffName ==>
                match ParseRange(rangeText)
                case None =>
                  dailyShift == Some(cleared) && files == SaveShift(SaveShift(old(files), renamed), cleared)
                  && sent == old(sent) + [renamed, cleared]
                case Some(r) =>
                  var applied := WithRanges(cleared, index, [r]);
                  dailyShift == Some(applied)
                  && files == SaveAndCopy(SaveShift(SaveShift(old(files), renamed), cleared), applied, index, now)
                  && sent == old(sent) + [renamed, cleared, applied]
      ensures selectedDate == old(selectedDate) && tempAdminUnlock == old(tempAdminUnlock)
      ensures requireAdminAuth == old(requireAdminAuth) && enteredPassword == old(enteredPassword)
      ensures showPasswordError == old(showPasswordError)
    {
      var before := dailyShift.value.staffShifts[index];
      SetStaff(index, before.(staffName := name));
      if name != before.staffName {
        assert CanEdit(dailyShift, now, session.isAdmin);
        ApplyRange(index, rangeText, now);
      }
    }
  }

  /**
   * Opening any day of the thirty days from now shows twelve empty slots,
   * whatever had been saved for that day: the screen's own propagation
   * overwrites the day's file before the grid loads it.
   */
  lemma OpeningShowsBlankPlan(files: ShiftFiles, date: Instant, storeName: string,
                              dayId: Uuid, staffIds: seq<Uuid>, now: Instant)
    requires |staffIds| == SlotsPerDay
    requires DayOf(now) <= DayOf(date) < DayOf(now) + PropagationDays
    ensures var blank := EmptyDailyShift(date, storeName, dayId, staffIds);
            var out := PropagatedUpTo(files, blank, now, SlotsPerDay);
            LoadShift(out, date) == Some(blank.(date := AddDays(now, DayOf(date) - DayOf(now))))
  {
    var blank := EmptyDailyShift(date, storeName, dayId, staffIds);
    PropagateWritesWholePlan(files, blank, now, SlotsPerDay);
    assert IsTarget(blank, now, PropagationDays, DayOf(date));
  }

  /**
   * After a range edit with distinct staff ids, the plan's own day holds
   * the edited plan unless a copy lands there; every same-weekday day in
   * the thirty days from now holds the whole edited plan re-dated, and
   * every other day keeps its file.
   */
  lemma RangeEditWrites(files: ShiftFiles, shift: DailyShift, index: nat, r: ShiftRange, now: Instant)
    requires index < |shift.staffShifts|
    requires forall k, l :: 0 <= k < l < |shift.staffShifts| ==> shift.staffShifts[k].id != shift.staffShifts[l].id
    ensures var applied := WithRanges(WithRanges(shift, index, []), index, [r]);
            var out := SaveAndCopy(SaveShift(files, WithRanges(shift, index, [])), applied, index, now);
            (forall d :: d in out <==> d in files || d == DayOf(shift.date) || IsTarget(shift, now, PropagationDays, d))
            && (forall d :: IsTarget(shift, now, PropagationDays, d) ==>
                  out[d] == applied.(date := AddDays(now, d - DayOf(now))))
            && (!IsTarget(shift, now, PropagationDays, DayOf(shift.date)) ==> out[DayOf(shift.date)] == applied)
            && (forall d :: d in files && d != DayOf(shift.date) && !IsTarget(shift, now, PropagationDays, d) ==>
                  out[d] == files[d])
  {
    var cleared := WithRanges(shift, index, []);
    var applied := WithRanges(cleared, index, [r]);
    var saved := SaveShift(SaveShift(files, cleared), applied);
    var staff := applied.staffShifts[index];
    var at := StaffIndex(applied, staff);
    assert at == index by {
      var found := FirstIndexOfId(applied.staffShifts, staff.id);
      assert found.Some?;
    }
    CopiesShape(saved, applied, at, staff, now, PropagationDays);
    forall date: Instant ensures Retarget(applied, at, staff, date) == applied.(date := date) {
      assert applied.staffShifts[at := staff] == applied.staffShifts;
    }
  }
}
