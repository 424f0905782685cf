/**
 * The day-plan data model of the shift screen (`ShiftRange`, `StaffShift`,
 * `DailyShift`, `Store`) and the local "one JSON file per day" storage.
 *
 * Files are named "shift_yyyy-MM-dd.json" after the plan's date only, so
 * storage is a map from day number to plan: the store is not part of the
 * key, and a plan saved for one store replaces another store's plan of the
 * same day.
 */
module ShiftData {
  import opened Wrappers
  import opened CivilTime
  import opened Uuids

  /** One block of hours; the editor only produces `0 <= start < end <= 24`, files may hold anything. */
  datatype ShiftRange = ShiftRange(start: int, end: int)

  datatype StaffShift = StaffShift(id: Uuid, staffName: string, ranges: seq<ShiftRange>)

  datatype DailyShift = DailyShift(id: Uuid, date: Instant, storeName: string, staffShifts: seq<StaffShift>)

  datatype Store = Store(id: Uuid, name: string, baseShifts: seq<ShiftRange>)

  /** The documents folder: the plan saved under each day's file name. */
  type ShiftFiles = map<int, DailyShift>

  /** A fresh day plan has this many empty staff slots. */
  const SlotsPerDay: nat := 12

  /** `loadShiftFromFile(date:)`: the plan stored under the date's day, whatever its store. */
  function LoadShift(files: ShiftFiles, date: Instant): (r: Option<DailyShift>)
    ensures r.Some? <==> DayOf(date) in files
    ensures r.Some? ==> r.value == files[DayOf(date)]
  {
    if DayOf(date) in files then Some(files[DayOf(date)]) else None
  }

  /** `saveShiftToFile(_:)`: the plan replaces whatever was saved under its day. */
  function SaveShift(files: ShiftFiles, shift: DailyShift): (r: ShiftFiles)
    ensures r.Keys == files.Keys + {DayOf(shift.date)}
    ensures forall d :: d in files && d != DayOf(shift.date) ==> r[d] == files[d]
    ensures LoadShift(r, shift.date) == Some(shift)
  {
    files[DayOf(shift.date) := shift]
  }

  /**
   * `ShiftEditorView.loadDailyShift()`: twelve unnamed staff slots without
   * ranges for the selected date and store; identifiers are fresh.
   */
  function EmptyDailyShift(date: Instant, storeName: string, dayId: Uuid, staffIds: seq<Uuid>): (r: DailyShift)
    requires |staffIds| == SlotsPerDay
    ensures r.date == date && r.storeName == storeName && r.id == dayId
    ensures |r.staffShifts| == SlotsPerDay
    ensures forall i :: 0 <= i < |r.staffShifts| ==>
              r.staffShifts[i] == StaffShift(staffIds[i], "", [])
  {
    DailyShift(dayId, date, storeName, seq(SlotsPerDay, i requires 0 <= i < SlotsPerDay => StaffShift(staffIds[i], "", [])))
  }

  /** `staffShifts.firstIndex(where: { $0.id == id })`. */
  function FirstIndexOfId(staff: seq<StaffShift>, id: Uuid): (r: Option<nat>)
    ensures r.Some? ==> r.value < |staff| && staff[r.value].id == id
                        && forall k :: 0 <= k < r.value ==> staff[k].id != id
    ensures r.None? <==> forall k :: 0 <= k < |staff| ==> staff[k].id != id
  {
    if staff == [] then None
    else if staff[0].id == id then Some(0)
    else match FirstIndexOfId(staff[1..], id)
      case None => None
      case Some(k) => Some(k + 1)
  }

  /** `shift` with the staff slot `index` replaced by `staff`. */
  function WithStaff(shift: DailyShift, index: nat, staff: StaffShift): (r: DailyShift)
    requires index < |shift.staffShifts|
    ensures r.id == shift.id && r.date == shift.date && r.storeName == shift.storeName
    ensures |r.staffShifts| == |shift.staffShifts| && r.staffShifts[index] == staff
    ensures forall k :: 0 <= k < |r.staffShifts| && k != index ==> r.staffShifts[k] == shift.staffShifts[k]
  {
    shift.(staffShifts := shift.staffShifts[index := staff])
  }
}
