/**
 * The remote ("shifts" collection) shape of a day plan and the conversions
 * both ways, plus the arithmetic of the last-month sales summary read from
 * the "dailyReports" collection.
 */
module FirestoreShift {
  import opened Wrappers
  import opened Text
  import opened CivilTime
  import opened DateText
  import opened Uuids
  import opened ShiftData

  datatype FirestoreStaffShift = FirestoreStaffShift(id: string, staffName: string, ranges: seq<ShiftRange>)

  /** `FirestoreShiftData`; `id` is the document id, `date` is "yyyy-MM-dd". */
  datatype FirestoreShiftData = FirestoreShiftData(
    id: Option<string>, storeName: string, date: string, staffShifts: seq<FirestoreStaffShift>)

  /** The staff part of the conversion in `sendShiftToFirestore(dailyShift:)`. */
  function ToFirestoreStaff(staff: StaffShift): FirestoreStaffShift {
    FirestoreStaffShift(UuidString(staff.id), staff.staffName, staff.ranges)
  }

  /**
   * The conversion in `sendShiftToFirestore(dailyShift:)`: no document id,
   * the day as "yyyy-MM-dd", each staff id as its UUID string.
   */
  function ToFirestore(shift: DailyShift): (f: FirestoreShiftData)
    ensures f.id.None? && f.storeName == shift.storeName && f.date == FormatDay(DayOf(shift.date))
    ensures |f.staffShifts| == |shift.staffShifts|
    ensures forall i :: 0 <= i < |f.staffShifts| ==>
              ParseUuid(f.staffShifts[i].id) == Some(shift.staffShifts[i].id)
              && f.staffShifts[i].staffName == shift.staffShifts[i].staffName
              && f.staffShifts[i].ranges == shift.staffShifts[i].ranges
  {
    var staff := seq(|shift.staffShifts|, i requires 0 <= i < |shift.staffShifts| => ToFirestoreStaff(shift.staffShifts[i]));
    assert forall i :: 0 <= i < |staff| ==> ParseUuid(staff[i].id) == Some(shift.staffShifts[i].id) by {
      forall i | 0 <= i < |staff| ensures ParseUuid(staff[i].id) == Some(shift.staffShifts[i].id) {
        UuidRoundTrip(shift.staffShifts[i].id);
      }
    }
    FirestoreShiftData(None, shift.storeName, FormatDay(DayOf(shift.date)), staff)
  }

  /**
   * The id of the document a send writes: the data's own id, which the
   * conversion leaves nil, or a fresh UUID string.
   */
  function DocumentKey(f: FirestoreShiftData, freshId: Uuid): string {
    f.id.GetOr(UuidString(freshId))
  }

  /**
   * Sends are not keyed by store and day: two sends with different fresh
   * ids go to different documents, even for the same plan.
   */
  lemma SendsNeverShareADocument(a: DailyShift, b: DailyShift, u: Uuid, v: Uuid)
    requires u != v
    ensures DocumentKey(ToFirestore(a), u) != DocumentKey(ToFirestore(b), v)
  {
    UuidRoundTrip(u);
    UuidRoundTrip(v);
  }

  /** `UUID(uuidString:) ?? UUID()` for one staff entry. */
  function StaffIdOf(s: FirestoreStaffShift, freshId: Uuid): Uuid {
    ParseUuid(s.id).GetOr(freshId)
  }

  /**
   * `FirestoreShiftData.mapToDailyShift()`: a new plan id, the parsed day's
   * midnight or else the current instant, and the staff in order, each
   * keeping its id when that is a UUID string and getting a fresh one
   * otherwise.
   */
  function MapToDailyShift(f: FirestoreShiftData, dayId: Uuid, freshIds: seq<Uuid>, now: Instant): (d: DailyShift)
    requires |freshIds| == |f.staffShifts|
    ensures d.id == dayId && d.storeName == f.storeName
    ensures ParseDay(f.date).None? ==> d.date == now
    ensures ParseDay(f.date).Some? ==> d.date == Midnight(ParseDay(f.date).value)
    ensures |d.staffShifts| == |f.staffShifts|
    ensures forall i :: 0 <= i < |d.staffShifts| ==>
              d.staffShifts[i].staffName == f.staffShifts[i].staffName
              && d.staffShifts[i].ranges == f.staffShifts[i].ranges
              && (WellFormedUuidString(f.staffShifts[i].id) ==> ParseUuid(f.staffShifts[i].id) == Some(d.staffShifts[i].id))
              && (!WellFormedUuidString(f.staffShifts[i].id) ==> d.staffShifts[i].id == freshIds[i])
  {
    var date := match ParseDay(f.date) case Some(day) => Midnight(day) case None => now;
    var staff := seq(|f.staffShifts|, i requires 0 <= i < |f.staffShifts| =>
      StaffShift(StaffIdOf(f.staffShifts[i], freshIds[i]), f.staffShifts[i].staffName, f.staffShifts[i].ranges));
    DailyShift(dayId, date, f.storeName, staff)
  }

  /**
   * For days of the common era, sending a plan and mapping the document
   * back keeps the store, the staff (ids, names, ranges, order) and the
   * calendar day; the plan id is new and the date becomes that day's
   * midnight.
   */
  lemma RoundTrip(shift: DailyShift, dayId: Uuid, freshIds: seq<Uuid>, now: Instant)
    requires |freshIds| == |shift.staffShifts|
    requires CivilFromDays(DayOf(shift.date)).year >= 1
    ensures var back := MapToDailyShift(ToFirestore(shift), dayId, freshIds, now);
            back == shift.(id := dayId, date := Midnight(DayOf(shift.date)))
  {
    var f := ToFirestore(shift);
    var back := MapToDailyShift(f, dayId, freshIds, now);
    FormatParseRoundTrip(DayOf(shift.date));
    forall i | 0 <= i < |shift.staffShifts| ensures back.staffShifts[i] == shift.staffShifts[i] {
      assert StaffIdOf(f.staffShifts[i], freshIds[i]) == shift.staffShifts[i].id;
    }
    assert back.staffShifts == shift.staffShifts;
  }

  // ---------------------------------------------------------------------
  // Last month's sales summary.

  /** The two fields read from a daily report; `None` when absent or not a string. */
  datatype ReportFields = ReportFields(sales: Option<string>, customerCount: Option<string>)

  /** `Int(field.replacingOccurrences(of: ",", with: "")) ?? 0`, a missing field read as "0". */
  function FieldValue(field: Option<string>): int {
    ParseInt(Remove(field.GetOr("0"), ',')).GetOr(0)
  }

  function TotalSales(docs: seq<ReportFields>): int {
    if docs == [] then 0 else TotalSales(docs[..|docs| - 1]) + FieldValue(docs[|docs| - 1].sales)
  }

  function TotalCustomers(docs: seq<ReportFields>): int {
    if docs == [] then 0 else TotalCustomers(docs[..|docs| - 1]) + FieldValue(docs[|docs| - 1].customerCount)
  }

  /** The three values handed to the completion; all nil together. */
  datatype MonthSummary = MonthSummary(totalSales: int, totalCustomers: int, avgUnit: int)

  /** The average spend per customer: truncating division, 0 without customers. */
  function AverageUnit(totalSales: int, totalCustomers: int): int {
    if totalCustomers > 0 then TruncDiv(totalSales, totalCustomers) else 0
  }

  /**
   * The summing part of `fetchLastMonthSummary`: nil on a query error or
   * without documents, otherwise the two totals and the average.
   */
  method SummarizeLastMonth(documents: Option<seq<ReportFields>>) returns (r: Option<MonthSummary>)
    ensures documents.None? || documents.value == [] ==> r.None?
    ensures documents.Some? && documents.value != [] ==>
            r == Some(MonthSummary(TotalSales(documents.value), TotalCustomers(documents.value),
                                   AverageUnit(TotalSales(documents.value), TotalCustomers(documents.value))))
  {
    if documents.None? || documents.value == [] {
      return None;
    }
    var docs := documents.value;
    var totalSales := 0;
    var totalCustomers := 0;
    for i := 0 to |docs|
      invariant totalSales == TotalSales(docs[..i])
      invariant totalCustomers == TotalCustomers(docs[..i])
    {
      assert docs[..i + 1][..i] == docs[..i];
      totalSales := totalSales + FieldValue(docs[i].sales);
      totalCustomers := totalCustomers + FieldValue(docs[i].customerCount);
    }
    assert docs[..|docs|] == docs;
    var avgUnit := if totalCustomers > 0 then TruncDiv(totalSales, totalCustomers) else 0;
    r := Some(MonthSummary(totalSales, totalCustomers, avgUnit));
  }

  /** Totals do not depend on how the documents are split: they add up over concatenation. */
  lemma {:induction false} TotalsAdd(a: seq<ReportFields>, b: seq<ReportFields>)
    ensures TotalSales(a + b) == TotalSales(a) + TotalSales(b)
    ensures TotalCustomers(a + b) == TotalCustomers(a) + TotalCustomers(b)
  {
    if b == [] {
      assert a + b == a;
    } else {
      TotalsAdd(a, b[..|b| - 1]);
      assert (a + b)[..|a + b| - 1] == a + b[..|b| - 1];
    }
  }

  /** With customers and non-negative sales, the average is the floor of sales per customer. */
  lemma AverageUnitBounds(totalSales: int, totalCustomers: int)
    requires totalSales >= 0 && totalCustomers > 0
    ensures var avg := AverageUnit(totalSales, totalCustomers);
            avg >= 0 && avg * totalCustomers <= totalSales < (avg + 1) * totalCustomers
  {
    assert AverageUnit(totalSales, totalCustomers) == totalSales / totalCustomers;
    FloorDivision(totalSales, totalCustomers);
  }

  /**
   * With customers and negative sales the average rounds toward zero, not
   * down: it is the ceiling of sales per customer (-7 over 2 gives -3).
   */
  lemma AverageUnitTruncates(totalSales: int, totalCustomers: int)
    requires totalSales < 0 && totalCustomers > 0
    ensures var avg := AverageUnit(totalSales, totalCustomers);
            avg <= 0 && (avg - 1) * totalCustomers < totalSales <= avg * totalCustomers
  {
    var q := -totalSales / totalCustomers;
    assert AverageUnit(totalSales, totalCustomers) == -q;
    assert q * totalCustomers <= -totalSales < (q + 1) * totalCustomers;
  }

  lemma FloorDivision(a: int, b: int)
    requires a >= 0 && b > 0
    ensures a / b >= 0 && (a / b) * b <= a < (a / b + 1) * b
  {
    var q, r := a / b, a % b;
    assert a == q * b + r && 0 <= r < b;
    assert (q + 1) * b == q * b + b;
  }

  /** A plain number is read as itself. */
  lemma FieldValueOfNumber(n: nat)
    requires n <= IntMax
    ensures FieldValue(Some(Decimal(n))) == n
  {
    assert ',' !in Decimal(n) by {
      forall i | 0 <= i < |Decimal(n)| ensures Decimal(n)[i] != ',' {
        assert IsDigit(Decimal(n)[i]);
      }
    }
    RemoveAbsent(Decimal(n), ',');
    ParseDecimal(n);
  }

  lemma RemoveCommaExample()
    ensures Remove("1,234", ',') == "1234"
  {
    assert "1,234"[1..] == ",234" && ",234"[1..] == "234";
    assert "234"[1..] == "34" && "34"[1..] == "4" && "4"[1..] == "";
  }

  /** Thousands separators are dropped: "1,234" reads as 1234, and a missing field as 0. */
  lemma FieldValueExamples()
    ensures FieldValue(Some("1,234")) == 1234
    ensures FieldValue(None) == 0
  {
    FieldValueWithComma();
    FieldValueMissing();
  }

  lemma FieldValueWithComma()
    ensures FieldValue(Some("1,234")) == 1234
  {
    RemoveCommaExample();
    ParseDecimal(1234);
    assert Decimal(1234) == "1234";
  }

  lemma FieldValueMissing()
    ensures FieldValue(None) == 0
  {
    assert Remove("0", ',') == "0";
    ParseDecimal(0);
    assert Decimal(0) == "0";
  }
}
