# Shift planner core, modelled in Dafny

This project models the core of an iPad app that convenience-store staff use to plan shifts.

**Day plans and storage.**
- A day plan (`DailyShift`) holds a date, a store name and staff entries.
- Each staff entry has an id, a name and hour ranges.
- Plans are kept as one local file per calendar day. A copy of each plan is also sent to a remote document store.

**The editor screen.**
- It opens a day as twelve empty slots.
- It copies plans to the same weekday in the next thirty days.
- It locks days that are less than a week away unless the admin code "8831" has been entered.
- It reads typed hour ranges such as "９－１７" as `9-17`.

**Other screens.**
- The calendar screen lists the days of the next fortnight that are not covered around the clock.
- It shows a weekly hours summary per katakana staff name.
- It prints a Monday-to-Sunday sheet with one row per named staff entry.
- It decides when the cached store report must be fetched again (the next Tuesday 04:00).
- It adds up last month's sales.
- It lays out the month grid of the calendar, with holidays and photo days.

**How the model is written.**
- Instants are whole seconds in one fixed-offset time zone.
- A calendar day is `instant / 86400`. Weekdays are numbered the Foundation way: 1 is Sunday.
- Civil dates use the proleptic Gregorian calendar for every year, before 1582 included.
- The local documents folder is a map from day number to plan. File names carry the date only, so the store is not part of the key.
- Fresh identifiers, the current instant and network results are parameters.
- The screen state is the class `ShiftEditor.Editor`. Each user action or lifecycle event is a method that states the whole new state it produces itself. The `applyRange` runs that the rows then trigger when a day change renames their entries are not modelled; see "## Left out".
- Loops of the source are methods proved against specification functions. The lemmas are stated about those functions.

The model follows the code as written, in these places:
- **Weekly summary period.** The summary period is called Saturday to Friday, but with weekday 1 = Sunday it runs Sunday to Saturday (`CurrentSaturdayToFriday`).
- **Whole-plan copies.** Propagation writes the whole plan to each target day. It does not merge into what that day already holds.
- **Thirty-day window.** The window starts at the current instant, not at the plan's date.
- **Opening a day overwrites.** Opening any day writes twelve empty slots over the same weekday in the next thirty days. So opening a day inside that window shows an empty plan before any row reacts to it (`OpeningShowsBlankPlan`, `OpeningADayBlanksItsWeekday`).
- **Locked days.**
  - Past days are locked for non-admins without the admin code ever being asked for (`LockedDays`).
  - A correct admin code makes the shared session an admin session for good.
- **Editing a row.**
  - Renaming a staff entry re-applies the row's range text. When that text does not read as a range, the entry's ranges are wiped.
  - Every edit first saves and sends the plan with the entry's ranges cleared.
- **Report refresh.** A report fetched on a Tuesday after 04:00 is stale at once (`TuesdayReportsAreStale`).

## Model

| member | source | states |
|---|---|---|
| EditLock.UserSession.constructor | ShiftModels.swift:5-10 | a new session is not an admin and has an empty user name |
| EditLock.UserSession.Login | ShiftModels.swift:12-21 | the user name is stored; the session is an admin exactly for "admin" or "manager", whatever the password |
| EditLock.CanEdit | ShiftModels.swift:610-622 | a row is editable iff there is a plan and the user is an admin or the plan's day is at least seven days after today |
| EditLock.Within7DaysByDay | ShiftModels.swift:445-450 | the admin-code window holds exactly the days 0..6 days after today |
| EditLock.LockedDays | ShiftModels.swift:610-622 | for a non-admin a day is locked iff it is in the admin-code window or in the past, and past days are locked without being in the window |
| ShiftData.LoadShift | ShiftModels.swift:45-55 | a plan is found iff a file exists for the date's day, and it is the plan saved under that day, whatever its store |
| ShiftData.SaveShift | ShiftModels.swift:494-504 | the plan replaces the file of its own day; every other day's file is unchanged; loading the day gives the plan back |
| ShiftData.EmptyDailyShift | ShiftModels.swift:452-460 | a fresh plan has the date, the store, and twelve unnamed slots without ranges |
| ShiftData.FirstIndexOfId | ShiftModels.swift:477 | the result is the first index with the id, or none iff no entry has it |
| ShiftData.WithStaff | ShiftModels.swift:522-527 | the binding's write replaces slot `index` and keeps every other slot, the date, the store and the id |
| Coverage.IsFullDayCovered | ShiftModels.swift:24-43 | the 24-slot marking loop answers true iff every hour 0..23 lies in some clamped range of some staff entry |
| Coverage.CoverageIsUnion | ShiftModels.swift:24-43 | coverage is the union of all ranges of the plan |
| Coverage.CoverageIgnoresOrder | ShiftModels.swift:24-43 | two plans with the same set of ranges are covered alike, whatever their order or owner |
| Coverage.ThreeStaffCoverDay | ShiftModels.swift:24-43 | ranges 0-9, 9-13 and 13-24 cover the day; without 0-9 hour 0 is open |
| Coverage.GetUncoveredDatesNextTwoWeeks | ShiftModels.swift:57-80 | the list is the days of today..today+13 with no file, another store's file or an uncovered plan |
| Coverage.UncoveredDatesShape | ShiftModels.swift:57-80 | the list is strictly increasing, has no day outside the fortnight, and holds each day of the fortnight iff it is uncovered |
| Coverage.NoFilesAllUncovered | ShiftModels.swift:74-77 | with no files every one of the fourteen days is listed, in order |
| RangeInput.NormalizeChar | ShiftModels.swift:742-749 | full-width digits become ASCII digits, the five dash characters become '-', ASCII digits stay, everything else is dropped |
| RangeInput.NormalizeRangeText | ShiftModels.swift:742-752 | the loop result is the mapped text with every run of dashes squeezed to one dash |
| RangeInput.ReplaceDoubleDash | ShiftModels.swift:751 | one replacement pass never grows the text and shrinks it whenever it contains "--" |
| RangeInput.SqueezeReplace | ShiftModels.swift:751 | repeating the "--" replacement does not change the squeezed result, so the while loop reaches it |
| RangeInput.NormalizedShape | ShiftModels.swift:742-752 | normalised text holds only digits and '-', never "--", and normalising again changes nothing |
| RangeInput.FullWidthExample | ShiftModels.swift:742-752 | "９－１７" normalises to "9-17" |
| RangeInput.ParseRange | ShiftModels.swift:696-705 | a range is read only with 0 <= start < end <= 24 |
| RangeInput.ParseRangeComplete | ShiftModels.swift:696-705 | every range 0 <= start < end <= 24 typed as "start-end" is read back exactly |
| Propagation.GetFutureDates | ShiftModels.swift:754-763 | the loop lists now, now + 1 day, ... for the given number of days |
| Propagation.FutureDates | ShiftModels.swift:488-492 | date `i` is `i` days after now, at the same time of day |
| Propagation.StaffIndex | ShiftModels.swift:715 | the copied slot is the first slot with the entry's id, or 0, and always exists |
| Propagation.SaveShiftAndCopyToSameWeekday | ShiftModels.swift:710-725 | the files after the loop are the thirty-day copies of the plan with the edited entry in its slot |
| Propagation.CopiesShape | ShiftModels.swift:710-725 | copies land exactly on the days of the window that share the plan's weekday, each holds the re-dated plan, and every other file is unchanged |
| Propagation.CopiesIdempotent | ShiftModels.swift:710-725 | copying twice with the same inputs writes the same files as copying once |
| Propagation.PropagateToFutureSameWeekday | ShiftModels.swift:469-486 | nothing happens without a plan; otherwise the files are those after every staff entry's copies |
| Propagation.PropagateWritesWholePlan | ShiftModels.swift:469-486 | when entries sharing an id are equal, every target day gets the whole plan re-dated and every other file is unchanged |
| Propagation.DistinctIdsSameEntry | ShiftModels.swift:476-477 | distinct staff ids satisfy the condition of the whole-plan lemma |
| Propagation.OpeningADayBlanksItsWeekday | ShiftModels.swift:438-441 | after a day is opened, every same-weekday day of the thirty from now is listed as uncovered, for any store |
| ShiftEditor.WithRanges | ShiftModels.swift:696-706 | the edited plan keeps the number of slots |
| ShiftEditor.Editor.constructor | ShiftModels.swift:177-200 | the screen starts with no plan, no prompt, an empty code and nothing sent |
| ShiftEditor.Editor.Tap | ShiftModels.swift:245-249 | tapping asks for the code iff the day is in the window and the user is neither an admin nor unlocked; nothing else changes |
| ShiftEditor.Editor.EnterPassword | ShiftModels.swift:394 | only the typed code changes |
| ShiftEditor.Editor.Cancel | ShiftModels.swift:400-403 | the code is cleared and the prompt closed; nothing else changes |
| ShiftEditor.Editor.Confirm | ShiftModels.swift:406-416 | "8831" makes the session an admin and unlocks the day; another code shows the error and keeps the prompt; the field is cleared either way |
| ShiftEditor.Editor.OpenSelectedDay | ShiftModels.swift:452-486 | the blank plan of the selected date goes on screen and the files are those after propagating it |
| ShiftEditor.Editor.Appear | ShiftModels.swift:438-441 | after propagating the blank plan, the screen shows the file saved under the day, else the blank plan |
| ShiftEditor.Editor.Navigate | ShiftModels.swift:269-290 | the date moves one day back or forward, the unlock is dropped and the new day is opened |
| ShiftEditor.Editor.SelectDate | ShiftModels.swift:332-362 | the picked date is selected, the unlock is dropped and the day is opened |
| ShiftEditor.Editor.SetStaff | ShiftModels.swift:522-554 | the entry is written into the plan, which is saved under its day and appended to the sent plans |
| ShiftEditor.Editor.ApplyRange | ShiftModels.swift:690-708 | a locked row changes nothing; otherwise the ranges are cleared, saved and sent, and a readable range is set, saved, sent and copied |
| ShiftEditor.Editor.SetRangeAndCopy | ShiftModels.swift:704-725 | the entry gets the single range, the plan is saved and sent, then copied to the same weekday |
| ShiftEditor.Editor.EditRangeText | ShiftModels.swift:636-647 | on an editable row (the field is disabled otherwise) the field holds the normalised text; the entry's ranges are cleared, saved and sent, then set to the parsed range, saved, sent and copied to the same weekday |
| ShiftEditor.Editor.RenameStaff | ShiftModels.swift:627-634 | on an editable row (the field is disabled otherwise) the renamed entry is saved and sent; a changed name then clears, saves and sends the ranges, and a readable range text sets, saves, sends and copies the range |
| ShiftEditor.OpeningShowsBlankPlan | ShiftModels.swift:438-441 | any day of the thirty from now loads as the blank plan once opened, whatever was saved |
| ShiftEditor.RangeEditWrites | ShiftModels.swift:690-725 | with distinct ids a range edit writes the edited plan to its day and, re-dated, to every same-weekday day; other files are unchanged |
| WeeklySummary.CalculateWorkingMinutes | ShiftModels.swift:822-828 | the loop sums (end - start) * 60 over the ranges |
| WeeklySummary.RawMinutesAppend | ShiftModels.swift:822-828 | minutes add up over concatenated range lists |
| WeeklySummary.RawMinutesOfValidRanges | ShiftModels.swift:822-828 | ranges with start < end give at least sixty minutes each |
| WeeklySummary.AdjustedMinutes | ShiftModels.swift:830-838 | at most sixty minutes are deducted, and none iff the shift is under six hours |
| WeeklySummary.AdjustedMinutesSteps | ShiftModels.swift:830-838 | reaching six or eight hours credits less than a minute shorter shift |
| WeeklySummary.CurrentSaturdayToFriday | ShiftModels.swift:845-856 | the period runs from a Sunday to the Saturday six days later and contains today |
| WeeklySummary.KatakanaOnlyAccepts | ShiftModels.swift:840-843 | the anchored pattern accepts a katakana name, also with one final newline or CR LF |
| WeeklySummary.KatakanaOnlyRejects | ShiftModels.swift:840-843 | the anchored pattern rejects the empty text, a lone newline, two final newlines and a character outside the class |
| WeeklySummary.WeekTotalsKeys | ShiftModels.swift:858-886 | the summary names exactly the katakana-only names found in the store's plans of the period |
| WeeklySummary.LessTotal | ShiftModels.swift:885 | the name order is total and antisymmetric |
| WeeklySummary.LessTransitive | ShiftModels.swift:885 | the name order is transitive |
| WeeklySummary.Insert | ShiftModels.swift:885 | inserting a new name keeps the list sorted and adds exactly that entry |
| WeeklySummary.SortedEntries | ShiftModels.swift:884-885 | the entries are sorted by name, each is a total of the map, and every total appears |
| WeeklySummary.LoadWeeklyStaffSummary | ShiftModels.swift:858-886 | the result is the period's per-name totals after the break deduction, sorted by name |
| WeeklyGrid.WeekStart | ShiftModels.swift:960-964 | the week starts on the Monday at most six days before the plan's day, at the same time of day |
| WeeklyGrid.WeekDates | ShiftModels.swift:965 | the seven dates are the consecutive days from that Monday |
| WeeklyGrid.WeekContainsDate | ShiftModels.swift:960-965 | the plan's own day is one of the seven |
| WeeklyGrid.WeeklyShiftGrid | ShiftModels.swift:997-1027 | the row loop produces exactly those rows |
| WeeklyGrid.StaffRow | ShiftModels.swift:1003-1026 | a row holds the bars of the entry with the same id on each day of the week and their minutes |
| WeeklyGrid.AppendBars | ShiftModels.swift:1005-1019 | the inner loop appends a day's bars and adds their minutes |
| WeeklyGrid.RowForConsistent | ShiftModels.swift:1024-1026 | the total is the bars' minutes, printed as truncated hours and the remaining minutes |
| WeeklyGrid.NamedShape | ShiftModels.swift:998 | the named entries are the plan's non-blank entries, each one present |
| WeeklyGrid.NamedIndicesShape | ShiftModels.swift:998 | the named entries are the plan's entries at strictly rising positions, which are exactly the positions of non-blank names |
| WeeklyGrid.NamedIndicesPick | ShiftModels.swift:998 | each named entry is the plan's entry at its listed position |
| WeeklyGrid.NamedIndicesRise | ShiftModels.swift:998 | the listed positions rise strictly and are the positions of non-blank names |
| WeeklyGrid.RowsConsistent | ShiftModels.swift:997-1027 | every printed row has a non-blank name and a consistent total |
| WeeklyGrid.DayBarsMinutes | ShiftModels.swift:1005-1019 | a day's bars add up to the raw minutes of the first entry with the id, with no break deduction |
| Uuids.UuidRoundTrip | AppFirestoreVM.swift:25-38 | every id survives `uuidString` and `UUID(uuidString:)` |
| Uuids.ParseUuid | AppFirestoreVM.swift:28 | a string is read as an id iff it has the 8-4-4-4-12 hexadecimal layout |
| DateText.ParseDay | AppFirestoreVM.swift:40-44 | a parsed "yyyy-MM-dd" is a valid date of the common era |
| DateText.FormatParseRoundTrip | AppFirestoreVM.swift:25-44 | every day of the common era survives formatting and parsing |
| DateText.BeforeCommonEraDoesNotRoundTrip | AppFirestoreVM.swift:25-44 | days before year 1 do not survive, since "yyyy" drops the era |
| FirestoreShift.ToFirestore | AppFirestoreVM.swift:267-282 | the document has no id, the store, the day as "yyyy-MM-dd" and each staff id as its UUID string |
| FirestoreShift.SendsNeverShareADocument | AppFirestoreVM.swift:283-285 | two sends with different fresh ids write different documents |
| FirestoreShift.MapToDailyShift | AppFirestoreVM.swift:25-38 | a new id, the parsed day's midnight or else now, and the staff in order with their ids kept when readable |
| FirestoreShift.RoundTrip | AppFirestoreVM.swift:25-38 | for days of the common era, sending and mapping back keeps store, staff and calendar day; the id is new and the date becomes that day's midnight |
| FirestoreShift.SummarizeLastMonth | AppFirestoreVM.swift:215-244 | an error or no documents gives nil; otherwise the two totals and the average |
| FirestoreShift.TotalsAdd | AppFirestoreVM.swift:227-240 | totals add up over concatenated document lists |
| FirestoreShift.AverageUnitBounds | AppFirestoreVM.swift:242 | with customers and non-negative sales, the average is the floor of sales per customer |
| FirestoreShift.AverageUnitTruncates | AppFirestoreVM.swift:242 | with customers and negative sales the average rounds toward zero, the ceiling of sales per customer |
| FirestoreShift.FieldValueOfNumber | AppFirestoreVM.swift:235-236 | a plain number is read as itself |
| FirestoreShift.FieldValueExamples | AppFirestoreVM.swift:232-236 | "1,234" is read as 1234 and a missing field as 0 |
| ReportSchedule.NextTuesday4AM | API.swift:37-43 | the result is a Tuesday at 04:00 on or within six days after the date's day, the same day when the date is a Tuesday |
| ReportSchedule.NextTuesdayIsFirst | API.swift:37-43 | no Tuesday 04:00 on or after the date's day comes earlier |
| ReportSchedule.TuesdayAfterFourIsInThePast | API.swift:37-43 | for a Tuesday after 04:00 the result is that same morning, before the date |
| ReportSchedule.TuesdayReportsAreStale | API.swift:45-48 | a report fetched on a Tuesday after 04:00 must be fetched again at once |
| ReportSchedule.LoadReport | API.swift:71-102 | a report still fresh at the check is returned as is; a missing or stale one is replaced by the report built from the fetched notes, stamped with the instant read after the fetch, stored and returned; when the fetch fails the stored one (or nothing) stays |
| ReportSchedule.FreshReportIsReused | API.swift:71-102 | a fetched report is served from storage by every load before the Tuesday 04:00 that follows its stamp |
| ReportSchedule.LateStampStaysFresh | API.swift:45-48 | a fetch checked on Tuesday 23:59:30 and stamped on Wednesday stays fresh six days later, while a report stamped at the check would be stale at once |
| CalendarView.RegionGroups | CustomCalendarView.swift:16-25 | five stores share the Aoba prefix; Anyoji and Rifu each have a prefix of their own |
| CalendarView.JapaneseHolidayVM.constructor | CustomCalendarView.swift:151 | the holiday table starts empty |
| CalendarView.JapaneseHolidayVM.Load | CustomCalendarView.swift:166-177 | a decoded table replaces the holidays; a failed fetch leaves an empty table |
| CalendarView.JapaneseHolidayVM.HolidayName | CustomCalendarView.swift:180-183 | the name is the entry under the date's "yyyy-MM-dd" key, if any |
| CalendarView.JapaneseHolidayVM.HolidayIsPerDay | CustomCalendarView.swift:161-183 | same day gives the same answer, `isHoliday` iff a name exists, and days of the common era never share a key |
| CalendarView.PhotoVM.constructor | CustomCalendarView.swift:195-211 | the dates are those restored from storage |
| CalendarView.PhotoVM.Add | CustomCalendarView.swift:213-217 | the date is appended iff no stored date is on the same day |
| CalendarView.AddShape | CustomCalendarView.swift:213-217 | after adding the day is present, the list grew by at most one keeping its order, adding again changes nothing, and distinct days stay distinct |
| CalendarView.LeadingBlanks | CustomCalendarView.swift:338-339 | the blanks before day 1 number 0..6 |
| CalendarView.MonthLength | CustomCalendarView.swift:330 | a month has 28 to 31 days |
| CalendarView.DaysInMonthGrid | CustomCalendarView.swift:328-348 | the two loops build the blanks, then one midnight per day of the month |
| CalendarView.MonthGridDays | CustomCalendarView.swift:328-348 | blanks come exactly before day 1, and cell `i` is the midnight of day `i - blanks + 1` of the shown month |
| CalendarView.MonthGridColumns | CustomCalendarView.swift:328-348 | each day sits in its weekday's column, Sunday first |
| CivilTime.CivilRoundTrip | ShiftModels.swift:494-504 | a day number survives conversion to a civil date and back |
| CivilTime.CivilFromDaysInverse | CustomCalendarView.swift:328-348 | a valid civil date survives conversion to a day number and back |
| CivilTime.CivilFromDaysValid | CustomCalendarView.swift:330 | every day number names a valid civil date |

## Left out

- Files, `UserDefaults`, the remote store, listeners and the network are not modelled as I/O. Storage is a map and the remote store is the list of sent plans. Network results are parameters.
- The remote listener (`listenFirestoreShifts`) and its merging of remote plans are not part of this model.
- Time zones, daylight-saving changes and `DateFormatter` leniency are not modelled. Calendar arithmetic is done on whole days in one fixed offset.
- Foundation's `.gregorian` calendar counts days before 15 October 1582 in the Julian calendar. The model does not; it is proleptic Gregorian throughout.
- The `DateFormatter`s that set no calendar (`dateFormatter` in AppFirestoreVM.swift:40-44, the file names in `loadShiftFromFile` and `getShiftFileURL`) follow the device's calendar. The model assumes that calendar is Gregorian.
- A Swift `Character` is one Unicode scalar. Grapheme clusters and normalisation are not modelled, and neither is the Unicode ordering behind `String <`.
- `ShiftRange.id` is not modelled; nothing in the core reads it.
- Swift's 64-bit `Int` overflow traps in minute and sales totals are not modelled. `Int(String)` is bounded to 64 bits.
- PDF geometry, fonts, colours and page breaks are not modelled; the sheet is modelled by its rows and totals.
- `PhotoVM`'s `didSet` persistence and `load()` from `UserDefaults` are not modelled; the constructor takes the restored dates.
- `JapaneseHolidayVM.load(year:)` takes the decoded table or nothing, in place of the download.
- The row's `rangeText` state is a parameter of the editor methods. The second `applyRange` run that SwiftUI triggers when normalisation changes the field is not modelled.
- `ShiftEditor.Editor.Navigate`: rows are keyed by index and keep their own `rangeText`. When the new plan changes a row's name, `onChange(of: staff.staffName)` runs `applyRange` on the new day's slot with that old text. Each such run clears, saves and sends the plan; a readable text also sets the range, saves, sends and copies it to the same weekday. The contract states the state before these runs: the blank plan and nothing sent.
- `ShiftEditor.Editor.SelectDate`: the same row re-runs of `applyRange` follow a picked date; they are not modelled.
- `ShiftEditor.Editor.Appear`: on a re-appearance, the same row re-runs of `applyRange` follow the plan replacement; they are not modelled.
- `ShiftEditor.Editor.OpenSelectedDay`: states the plan and files before the rows react to the new plan, for the same reason.
- `ReportSchedule.LoadReport`: the source reads the clock twice after the fetch, for `date` and `lastUpdated`. The model uses one instant, `stampedAt`, for both.
- `ShiftEditor.Editor.sent`: holds the plans handed to `sendShiftToFirestore`; the documents are what `FirestoreShift.ToFirestore` gives for them.
- The month bounds and query of `fetchLastMonthSummary` are not modelled; the summary starts from the query result.
