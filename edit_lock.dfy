/**
 * Who may edit which day: the login session, the "today + 7" edit lock of
 * a staff row (`canEdit`) and the window in which the admin code is asked
 * for (`isWithin7Days`).
 */
module EditLock {
  import opened Wrappers
  import opened CivilTime
  import opened ShiftData

  /** Days from today that are locked for non-admins. */
  const LockDays: int := 7

  /** The code that unlocks the editor. */
  const AdminCode: string := "8831"

  /** `UserSession.shared`: the published login state. */
  class UserSession {
    var isAdmin: bool
    var userName: string

    constructor ()
      ensures !isAdmin && userName == ""
    {
      isAdmin := false;
      userName := "";
    }

    /** `login(userName:password:)`: the password is not looked at. */
    method Login(name: string, password: string)
      modifies this
      ensures userName == name
      ensures isAdmin <==> (name == "admin" || name == "manager")
    {
      userName := name;
      if name == "admin" || name == "manager" {
        isAdmin := true;
      } else {
        isAdmin := false;
      }
    }
  }

  /**
   * `ShiftEditorView.isWithin7Days`: the whole days from today's midnight to
   * the date's midnight lie in 0..6.
   */
  predicate IsWithin7Days(date: Instant, now: Instant) {
    var diff := (StartOfDay(date) - StartOfDay(now)) / SecondsPerDay;
    diff >= 0 && diff < LockDays
  }

  /** The admin-code window is today and the six days after it. */
  lemma Within7DaysByDay(date: Instant, now: Instant)
    ensures IsWithin7Days(date, now) <==> 0 <= DayOf(date) - DayOf(now) < LockDays
  {
    var a, b := StartOfDay(date), StartOfDay(now);
    assert a == DayOf(date) * SecondsPerDay;
    assert b == DayOf(now) * SecondsPerDay;
    DivisionShift(0, DayOf(date) - DayOf(now));
    assert a - b == (DayOf(date) - DayOf(now)) * SecondsPerDay;
  }

  /**
   * `StaffShiftRow.canEdit`: a row can be edited when there is a plan and
   * the user is an admin or the plan's midnight is at or after the
   * midnight seven days from today.
   */
  function CanEdit(plan: Option<DailyShift>, now: Instant, isAdmin: bool): (r: bool)
    ensures r <==> plan.Some? && (isAdmin || DayOf(plan.value.date) >= DayOf(now) + LockDays)
  {
    match plan
    case None => false
    case Some(shift) =>
      var today := StartOfDay(now);
      var target := StartOfDay(shift.date);
      var limitDate := AddDays(today, LockDays);
      assert target >= limitDate <==> DayOf(shift.date) >= DayOf(now) + LockDays by {
        assert target == DayOf(shift.date) * SecondsPerDay;
        assert limitDate == (DayOf(now) + LockDays) * SecondsPerDay;
      }
      isAdmin || target >= limitDate
  }

  /**
   * For someone who is not an admin, a day is locked exactly when it is in
   * the admin-code window or in the past; past days are locked without
   * ever asking for the code.
   */
  lemma LockedDays(shift: DailyShift, now: Instant)
    ensures !CanEdit(Some(shift), now, false) <==>
            IsWithin7Days(shift.date, now) || DayOf(shift.date) < DayOf(now)
    ensures DayOf(shift.date) < DayOf(now) ==>
            !CanEdit(Some(shift), now, false) && !IsWithin7Days(shift.date, now)
  {
    Within7DaysByDay(shift.date, now);
  }
}
