/**
 * The 24-hour coverage check (`isFullDayCovered`) and the two-week list of
 * days that are not covered (`getUncoveredDatesNextTwoWeeks`).
 */
module Coverage {
  import opened Wrappers
  import opened CivilTime
  import opened Uuids
  import opened ShiftData

  const HoursPerDay: int := 24

  /** Days looked at by the "not enough staff" list, starting today. */
  const UncoveredHorizon: nat := 14

  function Clamp(x: int, lo: int, hi: int): int {
    if x < lo then lo else if x > hi then hi else x
  }

  /** Hour `h` is marked by range `r`: start clamped to 0..23, end clamped to 0..24. */
  predicate Hits(r: ShiftRange, h: int) {
    Clamp(r.start, 0, 23) <= h < Clamp(r.end, 0, 24)
  }

  /** Some range in `ranges` marks hour `h`. */
  predicate RangesHit(ranges: seq<ShiftRange>, h: int) {
    exists j :: 0 <= j < |ranges| && Hits(ranges[j], h)
  }

  /** Some range of some staff entry in `staff` marks hour `h`. */
  predicate StaffHit(staff: seq<StaffShift>, h: int) {
    exists i :: 0 <= i < |staff| && RangesHit(staff[i].ranges, h)
  }

  /** Every hour 0..23 is marked by some range of some staff entry. */
  predicate FullyCovered(shift: DailyShift) {
    forall h :: 0 <= h < HoursPerDay ==> StaffHit(shift.staffShifts, h)
  }

  /** Every range of every staff entry of the plan. */
  function RangesOf(shift: DailyShift): set<ShiftRange> {
    set i, j | 0 <= i < |shift.staffShifts| && 0 <= j < |shift.staffShifts[i].ranges|
      :: shift.staffShifts[i].ranges[j]
  }

  /**
   * `isFullDayCovered`: marks the hours of every range in a 24-slot array,
   * then asks whether every slot is marked.
   */
  method IsFullDayCovered(shift: DailyShift) returns (covered: bool)
    ensures covered == FullyCovered(shift)
  {
    var marked := new bool[HoursPerDay](_ => false);
    var staff := shift.staffShifts;
    for i := 0 to |staff|
      invariant forall h :: 0 <= h < HoursPerDay ==> (marked[h] <==> StaffHit(staff[..i], h))
    {
      var ranges := staff[i].ranges;
      for j := 0 to |ranges|
        invariant forall h :: 0 <= h < HoursPerDay ==>
                    (marked[h] <==> StaffHit(staff[..i], h) || RangesHit(ranges[..j], h))
      {
        var start := Clamp(ranges[j].start, 0, 23);
        var end := Clamp(ranges[j].end, 0, 24);
        if start < end {
          for h := start to end
            invariant forall k :: 0 <= k < HoursPerDay ==>
                        (marked[k] <==> StaffHit(staff[..i], k) || RangesHit(ranges[..j], k) || start <= k < h)
          {
            marked[h] := true;
          }
        }
        forall k | 0 <= k < HoursPerDay
          ensures RangesHit(ranges[..j + 1], k) <==> RangesHit(ranges[..j], k) || Hits(ranges[j], k)
        {
          RangesHitSnoc(ranges, j, k);
        }
      }
      assert ranges[..|ranges|] == ranges;
      forall k | 0 <= k < HoursPerDay
        ensures StaffHit(staff[..i + 1], k) <==> StaffHit(staff[..i], k) || RangesHit(ranges, k)
      {
        StaffHitSnoc(staff, i, k);
      }
    }
    assert staff[..|staff|] == staff;
    covered := forall h :: 0 <= h < HoursPerDay ==> marked[h];
  }

  lemma RangesHitSnoc(ranges: seq<ShiftRange>, j: nat, h: int)
    requires j < |ranges|
    ensures RangesHit(ranges[..j + 1], h) <==> RangesHit(ranges[..j], h) || Hits(ranges[j], h)
  {
    if RangesHit(ranges[..j + 1], h) {
      var k :| 0 <= k < j + 1 && Hits(ranges[..j + 1][k], h);
      if k < j {
        assert ranges[..j][k] == ranges[k];
      }
    }
    if RangesHit(ranges[..j], h) {
      var k :| 0 <= k < j && Hits(ranges[..j][k], h);
      assert ranges[..j + 1][k] == ranges[k];
    }
    if Hits(ranges[j], h) {
      assert ranges[..j + 1][j] == ranges[j];
    }
  }

  lemma StaffHitSnoc(staff: seq<StaffShift>, i: nat, h: int)
    requires i < |staff|
    ensures StaffHit(staff[..i + 1], h) <==> StaffHit(staff[..i], h) || RangesHit(staff[i].ranges, h)
  {
    if StaffHit(staff[..i + 1], h) {
      var k :| 0 <= k < i + 1 && RangesHit(staff[..i + 1][k].ranges, h);
      if k < i {
        assert staff[..i][k] == staff[k];
      }
    }
    if StaffHit(staff[..i], h) {
      var k :| 0 <= k < i && RangesHit(staff[..i][k].ranges, h);
      assert staff[..i + 1][k] == staff[k];
    }
    if RangesHit(staff[i].ranges, h) {
      assert staff[..i + 1][i] == staff[i];
    }
  }

  /** Some range of the plan, wherever it sits, marks hour `h`. */
  predicate UnionHits(shift: DailyShift, h: int) {
    exists r :: r in RangesOf(shift) && Hits(r, h)
  }

  /** Coverage is the union of all ranges: an hour is covered iff some range of the plan marks it. */
  lemma CoverageIsUnion(shift: DailyShift)
    ensures FullyCovered(shift) <==> forall h :: 0 <= h < HoursPerDay ==> UnionHits(shift, h)
  {
    var staff := shift.staffShifts;
    forall h | 0 <= h < HoursPerDay
      ensures StaffHit(staff, h) <==> UnionHits(shift, h)
    {
      if StaffHit(staff, h) {
        var i :| 0 <= i < |staff| && RangesHit(staff[i].ranges, h);
        var j :| 0 <= j < |staff[i].ranges| && Hits(staff[i].ranges[j], h);
        assert staff[i].ranges[j] in RangesOf(shift);
      }
      if exists r :: r in RangesOf(shift) && Hits(r, h) {
        var r :| r in RangesOf(shift) && Hits(r, h);
        var i, j :| 0 <= i < |staff| && 0 <= j < |staff[i].ranges| && staff[i].ranges[j] == r;
        assert RangesHit(staff[i].ranges, h);
      }
    }
  }

  /**
   * The order of staff entries and of ranges does not matter: two plans
   * with the same ranges are covered alike.
   */
  lemma CoverageIgnoresOrder(p: DailyShift, q: DailyShift)
    requires RangesOf(p) == RangesOf(q)
    ensures FullyCovered(p) == FullyCovered(q)
  {
    CoverageIsUnion(p);
    CoverageIsUnion(q);
    forall h | 0 <= h < HoursPerDay ensures UnionHits(p, h) == UnionHits(q, h) {
      if UnionHits(p, h) {
        var r :| r in RangesOf(p) && Hits(r, h);
        assert r in RangesOf(q);
      }
      if UnionHits(q, h) {
        var r :| r in RangesOf(q) && Hits(r, h);
        assert r in RangesOf(p);
      }
    }
  }

  /**
   * Staff 0-9, 9-13 and 13-24 together cover the day; without the 0-9
   * entry hour 0 is open.
   */
  lemma ThreeStaffCoverDay(day: Uuid, a: Uuid, b: Uuid, c: Uuid, date: Instant, store: string)
    ensures var sa := StaffShift(a, "A", [ShiftRange(9, 13)]);
            var sb := StaffShift(b, "B", [ShiftRange(13, 24)]);
            var sc := StaffShift(c, "C", [ShiftRange(0, 9)]);
            FullyCovered(DailyShift(day, date, store, [sa, sb, sc]))
            && !FullyCovered(DailyShift(day, date, store, [sa, sb]))
  {
    var sa := StaffShift(a, "A", [ShiftRange(9, 13)]);
    var sb := StaffShift(b, "B", [ShiftRange(13, 24)]);
    var sc := StaffShift(c, "C", [ShiftRange(0, 9)]);
    var staff := [sa, sb, sc];
    forall h | 0 <= h < HoursPerDay ensures StaffHit(staff, h) {
      var i := if h < 9 then 2 else if h < 13 then 0 else 1;
      assert Hits(staff[i].ranges[0], h);
      assert RangesHit(staff[i].ranges, h);
    }
    assert !StaffHit([sa, sb], 0) by {
      forall i, j | 0 <= i < 2 && 0 <= j < |[sa, sb][i].ranges|
        ensures !Hits([sa, sb][i].ranges[j], 0)
      {
      }
    }
  }

  // ---------------------------------------------------------------------
  // Days without full coverage.

  /**
   * A day is listed when no plan is stored for it, when the stored plan
   * belongs to another store, or when the stored plan is not fully covered.
   */
  predicate DayUncovered(files: ShiftFiles, storeName: string, date: Instant) {
    match LoadShift(files, date)
    case None => true
    case Some(shift) => shift.storeName != storeName || !FullyCovered(shift)
  }

  /** The first `n` days from `today` that are listed, in date order. */
  function UncoveredDates(files: ShiftFiles, storeName: string, today: Instant, n: nat): seq<Instant> {
    if n == 0 then []
    else
      UncoveredDates(files, storeName, today, n - 1)
        + (if DayUncovered(files, storeName, AddDays(today, n - 1)) then [AddDays(today, n - 1)] else [])
  }

  /**
   * `getUncoveredDatesNextTwoWeeks(storeName:)`: walks today .. today+13 and
   * keeps the days that are listed.
   */
  method GetUncoveredDatesNextTwoWeeks(files: ShiftFiles, storeName: string, now: Instant)
    returns (result: seq<Instant>)
    ensures result == UncoveredDates(files, storeName, StartOfDay(now), UncoveredHorizon)
  {
    var today := StartOfDay(now);
    result := [];
    for i := 0 to UncoveredHorizon
      invariant result == UncoveredDates(files, storeName, today, i)
    {
      var date := AddDays(today, i);
      var stored := LoadShift(files, date);
      if stored.Some? && stored.value.storeName == storeName {
        var covered := IsFullDayCovered(stored.value);
        if !covered {
          result := result + [date];
        }
      } else {
        result := result + [date];
      }
    }
  }

  /**
   * The list holds at most `n` days, in strictly increasing order, each of
   * them one of the `n` days from `today`; each of those days is in the
   * list exactly when it is uncovered.
   */
  lemma {:induction false} UncoveredDatesShape(files: ShiftFiles, storeName: string, today: Instant, n: nat)
    ensures var r := UncoveredDates(files, storeName, today, n);
            |r| <= n
            && (forall k :: 0 <= k < |r| ==> exists i :: 0 <= i < n && r[k] == AddDays(today, i))
            && (forall k, l :: 0 <= k < l < |r| ==> r[k] < r[l])
            && (forall i :: 0 <= i < n ==>
                  (AddDays(today, i) in r <==> DayUncovered(files, storeName, AddDays(today, i))))
  {
    if n > 0 {
      UncoveredDatesShape(files, storeName, today, n - 1);
      var prev := UncoveredDates(files, storeName, today, n - 1);
      var r := UncoveredDates(files, storeName, today, n);
      var last := AddDays(today, n - 1);
      forall k | 0 <= k < |prev| ensures prev[k] < last {
        var i :| 0 <= i < n - 1 && prev[k] == AddDays(today, i);
      }
      forall k | 0 <= k < |r| ensures exists i :: 0 <= i < n && r[k] == AddDays(today, i) {
        if k < |prev| {
          var i :| 0 <= i < n - 1 && prev[k] == AddDays(today, i);
          assert r[k] == AddDays(today, i);
        } else {
          assert r[k] == AddDays(today, n - 1);
        }
      }
      forall i | 0 <= i < n
        ensures AddDays(today, i) in r <==> DayUncovered(files, storeName, AddDays(today, i))
      {
        if i < n - 1 {
          assert AddDays(today, i) < last;
          assert AddDays(today, i) in r <==> AddDays(today, i) in prev;
        }
      }
    }
  }

  /** With no stored plans at all, every one of the fourteen days is listed. */
  lemma NoFilesAllUncovered(storeName: string, now: Instant)
    ensures var r := UncoveredDates(map[], storeName, StartOfDay(now), UncoveredHorizon);
            |r| == UncoveredHorizon
            && forall i :: 0 <= i < UncoveredHorizon ==> r[i] == AddDays(StartOfDay(now), i)
  {
    AllListedWhenEmpty(storeName, StartOfDay(now), UncoveredHorizon);
  }

  lemma {:induction false} AllListedWhenEmpty(storeName: string, today: Instant, n: nat)
    ensures var r := UncoveredDates(map[], storeName, today, n);
            |r| == n && forall i :: 0 <= i < n ==> r[i] == AddDays(today, i)
  {
    if n > 0 {
      AllListedWhenEmpty(storeName, today, n - 1);
    }
  }
}
