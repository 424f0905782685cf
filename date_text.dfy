/**
 * The "yyyy-MM-dd" date strings used as remote-document dates and as keys
 * of the holiday table: `DateFormatter.string(from:)` and
 * `DateFormatter.date(from:)` with that format, on day numbers.
 * "yyyy" prints the year of the era, so 1 BC prints as "0001".
 */
module DateText {
  import opened Wrappers
  import opened Text
  import opened CivilTime

  /** Year as "yyyy" shows it: the year of the era (AD years as they are, 1 BC as 1). */
  function EraYear(y: int): (n: nat)
    ensures n >= 1
  {
    if y >= 1 then y else 1 - y
  }

  /** `DateFormatter` with `dateFormat = "yyyy-MM-dd"`, applied to a day. */
  function FormatDay(day: int): string {
    var c := CivilFromDays(day);
    Padded(EraYear(c.year), 4) + "-" + Padded(c.month, 2) + "-" + Padded(c.day, 2)
  }

  /** The pieces of `s` between occurrences of `sep`, empty pieces included. */
  function Fields(s: string, sep: char): (f: seq<string>)
    ensures |f| >= 1
  {
    if s == [] then [[]]
    else if s[0] == sep then [[]] + Fields(s[1..], sep)
    else var rest := Fields(s[1..], sep); [[s[0]] + rest[0]] + rest[1..]
  }

  /**
   * Parsing "yyyy-MM-dd": three runs of digits separated by '-', naming an
   * existing date of the common era; anything else is rejected (nil).
   */
  function ParseDay(s: string): (r: Option<int>)
    ensures r.Some? ==> ValidCivil(CivilFromDays(r.value)) && CivilFromDays(r.value).year >= 1
  {
    var f := Fields(s, '-');
    if |f| == 3 && f[0] != [] && f[1] != [] && f[2] != []
       && AllDigits(f[0]) && AllDigits(f[1]) && AllDigits(f[2]) then
      var c := Civil(DigitsValue(f[0]), DigitsValue(f[1]), DigitsValue(f[2]));
      if c.year >= 1 && ValidCivil(c) then
        CivilFromDaysInverse(c);
        Some(DaysFromCivil(c))
      else None
    else None
  }

  lemma {:induction false} NoSeparatorOneField(s: string, sep: char)
    ensures sep !in s ==> Fields(s, sep) == [s]
  {
    if s != [] && sep !in s {
      NoSeparatorOneField(s[1..], sep);
      assert [s[0]] + s[1..] == s;
    }
  }

  lemma {:induction false} FieldsAppend(a: string, sep: char, rest: string)
    requires sep !in a
    ensures Fields(a + [sep] + rest, sep) == [a] + Fields(rest, sep)
  {
    if a == [] {
      assert a + [sep] + rest == [sep] + rest;
    } else {
      assert (a + [sep] + rest)[1..] == a[1..] + [sep] + rest;
      FieldsAppend(a[1..], sep, rest);
      assert [a[0]] + a[1..] == a;
    }
  }

  lemma DigitsHaveNoDash(s: string)
    requires AllDigits(s)
    ensures '-' !in s
  {
    forall i | 0 <= i < |s| ensures s[i] != '-' {
      assert IsDigit(s[i]);
    }
  }

  /** Parsing what `FormatDay` printed reads back the year of the era, the month and the day. */
  lemma ParseFormatted(day: int)
    ensures var c := CivilFromDays(day);
            var shown := Civil(EraYear(c.year), c.month, c.day);
            ParseDay(FormatDay(day)) == if ValidCivil(shown) then Some(DaysFromCivil(shown)) else None
  {
    var c := CivilFromDays(day);
    var ys, ms, ds := Padded(EraYear(c.year), 4), Padded(c.month, 2), Padded(c.day, 2);
    DigitsHaveNoDash(ys);
    DigitsHaveNoDash(ms);
    DigitsHaveNoDash(ds);
    assert FormatDay(day) == ys + ['-'] + (ms + ['-'] + ds);
    FieldsAppend(ys, '-', ms + ['-'] + ds);
    FieldsAppend(ms, '-', ds);
    NoSeparatorOneField(ds, '-');
    PaddedValue(EraYear(c.year), 4);
    PaddedValue(c.month, 2);
    PaddedValue(c.day, 2);
  }

  /**
   * A day of the common era survives formatting and parsing: this is the
   * "calendar day is preserved" half of the remote round trip.
   */
  lemma FormatParseRoundTrip(day: int)
    requires CivilFromDays(day).year >= 1
    ensures ParseDay(FormatDay(day)) == Some(day)
  {
    ParseFormatted(day);
    CivilFromDaysValid(day);
    CivilRoundTrip(day);
  }

  /** Days before 0001-01-01 do not survive: "yyyy" drops the era. */
  lemma BeforeCommonEraDoesNotRoundTrip(day: int)
    requires CivilFromDays(day).year < 1
    ensures ParseDay(FormatDay(day)) != Some(day)
  {
    ParseFormatted(day);
    var c := CivilFromDays(day);
    var shown := Civil(EraYear(c.year), c.month, c.day);
    if ValidCivil(shown) {
      CivilFromDaysInverse(shown);
      assert CivilFromDays(DaysFromCivil(shown)) != CivilFromDays(day);
    }
  }
}
