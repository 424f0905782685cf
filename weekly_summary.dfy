/**
 * The weekly hours summary beside the calendar: minutes per range list,
 * the break deduction, the katakana-only name filter, the seven-day period
 * and the per-name totals sorted by name.
 */
module WeeklySummary {
  import opened Wrappers
  import opened CivilTime
  import opened ShiftData

  /** Σ (end - start) * 60 over the ranges. */
  function RawMinutes(ranges: seq<ShiftRange>): int {
    if ranges == [] then 0
    else RawMinutes(ranges[..|ranges| - 1]) + (ranges[|ranges| - 1].end - ranges[|ranges| - 1].start) * 60
  }

  /** `calculateWorkingMinutes(ranges:)`. */
  method CalculateWorkingMinutes(ranges: seq<ShiftRange>) returns (minutes: int)
    ensures minutes == RawMinutes(ranges)
  {
    minutes := 0;
    for i := 0 to |ranges|
      invariant minutes == RawMinutes(ranges[..i])
    {
      assert ranges[..i + 1][..i] == ranges[..i];
      minutes := minutes + (ranges[i].end - ranges[i].start) * 60;
    }
    assert ranges[..|ranges|] == ranges;
  }

  /** Minutes add up over concatenated range lists, so their order does not matter. */
  lemma {:induction false} RawMinutesAppend(a: seq<ShiftRange>, b: seq<ShiftRange>)
    ensures RawMinutes(a + b) == RawMinutes(a) + RawMinutes(b)
  {
    if b == [] {
      assert a + b == a;
    } else {
      RawMinutesAppend(a, b[..|b| - 1]);
      assert (a + b)[..|a + b| - 1] == a + b[..|b| - 1];
    }
  }

  /** Ranges typed in the editor (start < end) give at least an hour each. */
  lemma {:induction false} RawMinutesOfValidRanges(ranges: seq<ShiftRange>)
    requires forall i :: 0 <= i < |ranges| ==> ranges[i].start < ranges[i].end
    ensures RawMinutes(ranges) >= 60 * |ranges|
  {
    if ranges != [] {
      RawMinutesOfValidRanges(ranges[..|ranges| - 1]);
    }
  }

  /**
   * `adjustedMinutes(rawMinutes:)`: a 60-minute break from 8 hours on, a
   * 45-minute break from 6 hours on.
   */
  function AdjustedMinutes(rawMinutes: int): (r: int)
    ensures rawMinutes - 60 <= r <= rawMinutes
    ensures r == rawMinutes <==> rawMinutes < 6 * 60
  {
    if rawMinutes >= 8 * 60 then rawMinutes - 60
    else if rawMinutes >= 6 * 60 then rawMinutes - 45
    else rawMinutes
  }

  /**
   * The break steps make the credited time drop when a shift reaches 6 and
   * 8 hours: 359 minutes credit 359, 360 credit 315; 479 credit 434, 480
   * credit 420.
   */
  lemma AdjustedMinutesSteps()
    ensures AdjustedMinutes(359) == 359 && AdjustedMinutes(360) == 315
    ensures AdjustedMinutes(479) == 434 && AdjustedMinutes(480) == 420
    ensures AdjustedMinutes(360) < AdjustedMinutes(359) && AdjustedMinutes(480) < AdjustedMinutes(479)
  {
  }

  /** `[ァ-ンヴー]`: U+30A1 through U+30F4, and the long-vowel mark U+30FC. */
  predicate IsKatakana(c: char) {
    ('ァ' <= c <= 'ン') || c == 'ヴ' || c == 'ー'
  }

  /** Line terminators of ICU regular expressions: LF, VT, FF, CR, NEL, LS and PS. */
  predicate IsLineTerminator(c: char) {
    c == '\n' || c == '\U{000B}' || c == '\U{000C}' || c == '\r' || c == '\U{0085}' || c == '\U{2028}' || c == '\U{2029}'
  }

  /**
   * What `^...$` must match in full: `$` without the multiline option also
   * matches before one line terminator (or CR LF) that ends the input.
   */
  function WithoutFinalTerminator(text: string): (core: string)
    ensures |core| <= |text| && core == text[..|core|]
    ensures |text| - 2 <= |core|
  {
    if |text| >= 2 && text[|text| - 2..] == "\r\n" then text[..|text| - 2]
    else if |text| >= 1 && IsLineTerminator(text[|text| - 1]) then text[..|text| - 1]
    else text
  }

  /**
   * `isKatakanaOnly(_:)`: `^[ァ-ンヴー]+$` matches, that is one or more
   * characters from the class, optionally followed by one final line
   * terminator.
   */
  predicate IsKatakanaOnly(text: string) {
    var core := WithoutFinalTerminator(text);
    |core| > 0 && forall i :: 0 <= i < |core| ==> IsKatakana(core[i])
  }

  /** A katakana name passes the filter, also with one final newline or CR LF. */
  lemma KatakanaOnlyAccepts()
    ensures IsKatakanaOnly("アイ") && IsKatakanaOnly("アイ\n") && IsKatakanaOnly("アイ\r\n")
  {
    var name := "アイ";
    assert IsKatakana(name[0]) && IsKatakana(name[1]);
    assert WithoutFinalTerminator(name) == name;
    assert "アイ\n"[..2] == name;
    assert WithoutFinalTerminator("アイ\n") == name;
    assert "アイ\r\n"[2..] == "\r\n" && "アイ\r\n"[..2] == name;
    assert WithoutFinalTerminator("アイ\r\n") == name;
  }

  /**
   * The empty text, a lone newline, two final newlines and a character
   * outside the class fail the filter.
   */
  lemma KatakanaOnlyRejects()
    ensures !IsKatakanaOnly("") && !IsKatakanaOnly("\n")
    ensures !IsKatakanaOnly("アイ\n\n") && !IsKatakanaOnly("アa")
  {
    assert WithoutFinalTerminator("\n") == "";
    var twice := "アイ\n\n";
    assert twice[2..] != "\r\n" && twice[..3] == "アイ\n";
    assert WithoutFinalTerminator(twice) == "アイ\n";
    assert !IsKatakana("アイ\n"[2]);
    var mixed := "アa";
    assert WithoutFinalTerminator(mixed) == mixed;
    assert !IsKatakana(mixed[1]);
  }

  /**
   * `currentSaturdayToFriday()`: goes back `(weekday + 6) % 7` days and
   * spans seven days from there. With weekday 1 for Sunday the period
   * starts on a Sunday and ends on a Saturday, whatever the names say.
   */
  function CurrentSaturdayToFriday(now: Instant): (r: (Instant, Instant))
    ensures Weekday(r.0) == Sunday && Weekday(r.1) == Saturday
    ensures DayOf(r.0) <= DayOf(now) <= DayOf(r.1) == DayOf(r.0) + 6
    ensures SecondOfDay(r.0) == SecondOfDay(now) && r.1 == AddDays(r.0, 6)
  {
    var weekday := Weekday(now);
    var daysFromSaturday := (weekday + 6) % 7;
    var saturday := AddDays(now, -daysFromSaturday);
    var friday := AddDays(saturday, 6);
    PeriodStart(DayOf(now));
    (saturday, friday)
  }

  lemma PeriodStart(d: int)
    ensures var k := (WeekdayOfDay(d) + 6) % 7;
            0 <= k < 7 && WeekdayOfDay(d - k) == Sunday && WeekdayOfDay(d - k + 6) == Saturday
  {
    var w := WeekdayOfDay(d);
    var q := (d + 4) / 7;
    assert d + 4 == 7 * q + w - 1;
    var k := (w + 6) % 7;
    if w == 1 {
      assert k == 0;
    } else {
      assert k == w - 1;
    }
    assert d - k + 4 == 7 * q;
    assert d - k + 6 + 4 == 7 * q + 6;
  }

  // ---------------------------------------------------------------------
  // Totals per name.

  /** The total for `name`, 0 when absent (`result[name, default: 0]`). */
  function TotalOf(totals: map<string, int>, name: string): int {
    if name in totals then totals[name] else 0
  }

  /** The body of the staff loop for one entry. */
  function AddStaff(totals: map<string, int>, staff: StaffShift): map<string, int> {
    if IsKatakanaOnly(staff.staffName) then
      totals[staff.staffName := TotalOf(totals, staff.staffName) + AdjustedMinutes(RawMinutes(staff.ranges))]
    else totals
  }

  /** The totals after the first `j` staff entries of one day. */
  function AddStaffUpTo(totals: map<string, int>, staff: seq<StaffShift>, j: nat): map<string, int>
    requires j <= |staff|
  {
    if j == 0 then totals else AddStaff(AddStaffUpTo(totals, staff, j - 1), staff[j - 1])
  }

  /** The stored plan of day `i` of the period counts when it belongs to the store. */
  predicate DayCounts(files: ShiftFiles, storeName: string, start: Instant, i: int) {
    var stored := LoadShift(files, AddDays(start, i));
    stored.Some? && stored.value.storeName == storeName
  }

  /** The totals after the first `i` days of the period. */
  function WeekTotals(files: ShiftFiles, storeName: string, start: Instant, i: nat): map<string, int> {
    if i == 0 then map[]
    else
      var prev := WeekTotals(files, storeName, start, i - 1);
      if DayCounts(files, storeName, start, i - 1) then
        var staff := LoadShift(files, AddDays(start, i - 1)).value.staffShifts;
        AddStaffUpTo(prev, staff, |staff|)
      else prev
  }

  /** Names in the period: staff entries of the store's plans on the first `i` days. */
  predicate NamedInPeriod(files: ShiftFiles, storeName: string, start: Instant, i: nat, name: string) {
    exists d :: 0 <= d < i && DayCounts(files, storeName, start, d)
      && exists j :: 0 <= j < |LoadShift(files, AddDays(start, d)).value.staffShifts|
           && LoadShift(files, AddDays(start, d)).value.staffShifts[j].staffName == name
  }

  lemma {:induction false} AddStaffUpToKeys(totals: map<string, int>, staff: seq<StaffShift>, j: nat, name: string)
    requires j <= |staff|
    ensures name in AddStaffUpTo(totals, staff, j) <==>
            name in totals || (IsKatakanaOnly(name) && exists k :: 0 <= k < j && staff[k].staffName == name)
  {
    if j > 0 {
      AddStaffUpToKeys(totals, staff, j - 1, name);
      var prev := AddStaffUpTo(totals, staff, j - 1);
      var last := staff[j - 1];
      assert AddStaffUpTo(totals, staff, j) == AddStaff(prev, last);
      if name == last.staffName {
        assert exists k :: 0 <= k < j && staff[k].staffName == name by {
          assert staff[j - 1].staffName == name;
        }
        if IsKatakanaOnly(name) {
          assert name in AddStaff(prev, last);
        } else {
          assert AddStaff(prev, last) == prev;
        }
      } else {
        assert name in AddStaff(prev, last) <==> name in prev;
        assert (exists k :: 0 <= k < j && staff[k].staffName == name)
            <==> (exists k :: 0 <= k < j - 1 && staff[k].staffName == name) by {
          if exists k :: 0 <= k < j && staff[k].staffName == name {
            var k :| 0 <= k < j && staff[k].staffName == name;
            assert k < j - 1;
          }
        }
      }
    }
  }

  /**
   * The summary lists exactly the katakana-only names that appear in a
   * plan of the store during the period.
   */
  lemma {:induction false} WeekTotalsKeys(files: ShiftFiles, storeName: string, start: Instant, i: nat, name: string)
    ensures name in WeekTotals(files, storeName, start, i) <==>
            IsKatakanaOnly(name) && NamedInPeriod(files, storeName, start, i, name)
  {
    if i > 0 {
      WeekTotalsKeys(files, storeName, start, i - 1, name);
      if DayCounts(files, storeName, start, i - 1) {
        var staff := LoadShift(files, AddDays(start, i - 1)).value.staffShifts;
        AddStaffUpToKeys(WeekTotals(files, storeName, start, i - 1), staff, |staff|, name);
      }
    }
  }

  // ---------------------------------------------------------------------
  // Sorting by name.

  /** Swift's `String` `<`: lexicographic by character, a proper prefix first. */
  predicate Less(a: string, b: string) {
    if a == [] then b != []
    else if b == [] then false
    else if a[0] != b[0] then a[0] < b[0]
    else Less(a[1..], b[1..])
  }

  lemma {:induction false} LessIrreflexive(a: string)
    ensures !Less(a, a)
  {
    if a != [] {
      LessIrreflexive(a[1..]);
    }
  }

  lemma {:induction false} LessTotal(a: string, b: string)
    ensures a == b || Less(a, b) || Less(b, a)
    ensures !(Less(a, b) && Less(b, a))
  {
    if a != [] && b != [] && a[0] == b[0] {
      LessTotal(a[1..], b[1..]);
      if a[1..] == b[1..] {
        assert a == [a[0]] + a[1..] && b == [b[0]] + b[1..];
      }
    }
  }

  lemma {:induction false} LessTransitive(a: string, b: string, c: string)
    requires Less(a, b) && Less(b, c)
    ensures Less(a, c)
  {
    if a != [] && b != [] && c != [] && a[0] == b[0] && b[0] == c[0] {
      LessTransitive(a[1..], b[1..], c[1..]);
    }
  }

  predicate SortedByName(entries: seq<(string, int)>) {
    forall i, j :: 0 <= i < j < |entries| ==> Less(entries[i].0, entries[j].0)
  }

  /** Inserting one entry whose name is not yet present keeps the list sorted. */
  function Insert(entries: seq<(string, int)>, e: (string, int)): (r: seq<(string, int)>)
    requires SortedByName(entries)
    requires forall k :: 0 <= k < |entries| ==> entries[k].0 != e.0
    ensures |r| == |entries| + 1
    ensures forall x :: x in r <==> x in entries || x == e
    ensures SortedByName(r)
  {
    if entries == [] then [e]
    else if Less(e.0, entries[0].0) then
      assert forall k :: 0 <= k < |entries| ==> Less(e.0, entries[k].0) by {
        forall k | 0 < k < |entries| ensures Less(e.0, entries[k].0) {
          LessTransitive(e.0, entries[0].0, entries[k].0);
        }
      }
      [e] + entries
    else
      var rest := Insert(entries[1..], e);
      LessTotal(e.0, entries[0].0);
      assert forall x :: x in rest ==> Less(entries[0].0, x.0) by {
        forall x | x in rest ensures Less(entries[0].0, x.0) {
          if x != e {
            var k :| 0 <= k < |entries[1..]| && entries[1..][k] == x;
            assert entries[k + 1] == x;
          }
        }
      }
      var r := [entries[0]] + rest;
      assert forall i, j :: 0 <= i < j < |r| ==> Less(r[i].0, r[j].0) by {
        forall i, j | 0 <= i < j < |r| ensures Less(r[i].0, r[j].0) {
          if i == 0 {
            assert r[j] in rest;
          } else {
            assert r[i] == rest[i - 1] && r[j] == rest[j - 1];
          }
        }
      }
      r
  }

  /** `result.map { ($0.key, $0.value) }.sorted { $0.0 < $1.0 }`. */
  method SortedEntries(totals: map<string, int>) returns (entries: seq<(string, int)>)
    ensures SortedByName(entries)
    ensures forall k :: 0 <= k < |entries| ==> entries[k].0 in totals && entries[k].1 == totals[entries[k].0]
    ensures forall name :: name in totals ==> exists k :: 0 <= k < |entries| && entries[k].0 == name
  {
    var keys := totals.Keys;
    entries := [];
    while keys != {}
      invariant keys <= totals.Keys
      invariant SortedByName(entries)
      invariant forall k :: 0 <= k < |entries| ==>
                  entries[k].0 in totals && entries[k].0 !in keys && entries[k].1 == totals[entries[k].0]
      invariant forall name :: name in totals && name !in keys ==>
                  exists k :: 0 <= k < |entries| && entries[k].0 == name
      decreases |keys|
    {
      var name :| name in keys;
      var previous := entries;
      entries := Insert(entries, (name, totals[name]));
      keys := keys - {name};
      forall k | 0 <= k < |entries|
        ensures entries[k].0 in totals && entries[k].0 !in keys && entries[k].1 == totals[entries[k].0]
      {
        if entries[k] != (name, totals[name]) {
          assert entries[k] in previous;
          var p :| 0 <= p < |previous| && previous[p] == entries[k];
        }
      }
      forall n | n in totals && n !in keys
        ensures exists k :: 0 <= k < |entries| && entries[k].0 == n
      {
        if n == name {
          assert (name, totals[name]) in entries;
        } else {
          var k :| 0 <= k < |previous| && previous[k].0 == n;
          assert previous[k] in entries;
        }
      }
    }
  }

  /**
   * `loadWeeklyStaffSummary(storeName:)`: walks the seven days of the
   * period, adds every katakana-named entry of the store's plans to its
   * name's total after the break deduction, and lists the totals by name.
   */
  method LoadWeeklyStaffSummary(files: ShiftFiles, storeName: string, now: Instant)
    returns (result: seq<(string, int)>)
    ensures var totals := WeekTotals(files, storeName, CurrentSaturdayToFriday(now).0, 7);
            SortedByName(result)
            && (forall k :: 0 <= k < |result| ==> result[k].0 in totals && result[k].1 == totals[result[k].0])
            && (forall name :: name in totals ==> exists k :: 0 <= k < |result| && result[k].0 == name)
  {
    var range := CurrentSaturdayToFriday(now);
    var totals: map<string, int> := map[];
    var date := range.0;
    var i := 0;
    while date <= range.1
      invariant 0 <= i <= 7 && date == AddDays(range.0, i)
      invariant totals == WeekTotals(files, storeName, range.0, i)
      decreases range.1 - date
    {
      var stored := LoadShift(files, date);
      if stored.Some? && stored.value.storeName == storeName {
        var staff := stored.value.staffShifts;
        var before := totals;
        for j := 0 to |staff|
          invariant totals == AddStaffUpTo(before, staff, j)
        {
          if IsKatakanaOnly(staff[j].staffName) {
            var raw := CalculateWorkingMinutes(staff[j].ranges);
            var adjusted := AdjustedMinutes(raw);
            totals := totals[staff[j].staffName := TotalOf(totals, staff[j].staffName) + adjusted];
          }
        }
      }
      date := AddDays(date, 1);
      i := i + 1;
    }
    result := SortedEntries(totals);
  }
}
