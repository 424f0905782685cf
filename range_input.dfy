/**
 * The hour-range text box of a staff row: `normalizeRangeText` forces the
 * typed text to ASCII digits and '-', and `applyRange` reads "start-end"
 * out of it.
 */
module RangeInput {
  import opened Wrappers
  import opened Text
  import opened ShiftData

  /** The five dash-like characters the text box accepts: ー, −, —, － and '-'. */
  predicate IsDashLike(c: char) {
    c == 'ー' || c == '−' || c == '—' || c == '－' || c == '-'
  }

  predicate IsFullWidthDigit(c: char) {
    '０' <= c <= '９'
  }

  /** What one typed character becomes: full-width digits turn ASCII, dashes turn '-', the rest goes. */
  function NormalizeChar(c: char): (r: string)
    ensures IsFullWidthDigit(c) ==> r == [DigitChar(c as int - 0xFF10)]
    ensures IsDigit(c) ==> r == [c]
    ensures IsDashLike(c) ==> r == "-"
    ensures !IsFullWidthDigit(c) && !IsDigit(c) && !IsDashLike(c) ==> r == []
  {
    if IsFullWidthDigit(c) then [DigitChar(c as int - 0xFF10)]
    else if '0' <= c <= '9' then [c]
    else if IsDashLike(c) then "-"
    else []
  }

  /** The first loop of `normalizeRangeText`: every character mapped. */
  function MapChars(s: string): string {
    if s == [] then [] else MapChars(s[..|s| - 1]) + NormalizeChar(s[|s| - 1])
  }

  predicate IsRangeChar(c: char) {
    IsDigit(c) || c == '-'
  }

  predicate RangeChars(s: string) {
    forall i :: 0 <= i < |s| ==> IsRangeChar(s[i])
  }

  /** `s` contains "--". */
  predicate HasDoubleDash(s: string) {
    exists i :: 0 <= i < |s| - 1 && s[i] == '-' && s[i + 1] == '-'
  }

  /** `replacingOccurrences(of: "--", with: "-")`: left to right, occurrences do not overlap. */
  function ReplaceDoubleDash(s: string): (r: string)
    ensures |r| <= |s|
    ensures HasDoubleDash(s) ==> |r| < |s|
  {
    if |s| >= 2 && s[0] == '-' && s[1] == '-' then "-" + ReplaceDoubleDash(s[2..])
    else if s == [] then []
    else
      var r := [s[0]] + ReplaceDoubleDash(s[1..]);
      assert HasDoubleDash(s) ==> HasDoubleDash(s[1..]) by {
        if HasDoubleDash(s) {
          var i :| 0 <= i < |s| - 1 && s[i] == '-' && s[i + 1] == '-';
          assert i > 0;
          assert s[1..][i - 1] == '-' && s[1..][i] == '-';
        }
      }
      r
  }

  /** Reference definition: every run of dashes squeezed to a single dash. */
  function Squeeze(s: string): string {
    if |s| >= 2 && s[0] == '-' && s[1] == '-' then Squeeze(s[1..])
    else if s == [] then []
    else [s[0]] + Squeeze(s[1..])
  }

  /** `normalizeRangeText(_:)`. */
  method NormalizeRangeText(s: string) returns (out: string)
    ensures out == Squeeze(MapChars(s))
  {
    out := "";
    for i := 0 to |s|
      invariant out == MapChars(s[..i])
    {
      assert s[..i + 1][..i] == s[..i];
      out := out + NormalizeChar(s[i]);
    }
    assert s[..|s|] == s;
    SqueezeReplace(out);
    while HasDoubleDash(out)
      invariant Squeeze(out) == Squeeze(MapChars(s))
      decreases |out|
    {
      SqueezeReplace(out);
      out := ReplaceDoubleDash(out);
    }
    SqueezeNoDoubleDash(out);
  }

  lemma {:induction false} SqueezeFacts(s: string)
    ensures |Squeeze(s)| <= |s|
    ensures (Squeeze(s) != [] && Squeeze(s)[0] == '-') <==> (s != [] && s[0] == '-')
    ensures !HasDoubleDash(Squeeze(s))
    ensures forall c :: c in Squeeze(s) ==> c in s
  {
    if |s| >= 2 && s[0] == '-' && s[1] == '-' {
      SqueezeFacts(s[1..]);
    } else if s != [] {
      SqueezeFacts(s[1..]);
      var t := Squeeze(s[1..]);
      assert [s[0]] + t == Squeeze(s);
    }
  }

  /** Collapsing "--" once does not change the squeezed text. */
  lemma {:induction false} SqueezeReplace(s: string)
    ensures Squeeze(ReplaceDoubleDash(s)) == Squeeze(s)
    ensures (ReplaceDoubleDash(s) != [] && ReplaceDoubleDash(s)[0] == '-') <==> (s != [] && s[0] == '-')
  {
    if |s| >= 2 && s[0] == '-' && s[1] == '-' {
      var rest := s[2..];
      SqueezeReplace(rest);
      var y := ReplaceDoubleDash(rest);
      assert ReplaceDoubleDash(s) == "-" + y;
      assert s[1..] == "-" + rest;
      if y != [] && y[0] == '-' {
        assert Squeeze("-" + y) == Squeeze(("-" + y)[1..]);
        assert ("-" + y)[1..] == y;
        assert Squeeze("-" + rest) == Squeeze(("-" + rest)[1..]);
        assert ("-" + rest)[1..] == rest;
      } else {
        assert Squeeze("-" + y) == "-" + Squeeze(("-" + y)[1..]);
        assert ("-" + y)[1..] == y;
        assert Squeeze("-" + rest) == "-" + Squeeze(("-" + rest)[1..]);
        assert ("-" + rest)[1..] == rest;
      }
    } else if s != [] {
      SqueezeReplace(s[1..]);
      var y := ReplaceDoubleDash(s[1..]);
      assert ReplaceDoubleDash(s) == [s[0]] + y;
      assert ([s[0]] + y)[1..] == y;
    }
  }

  /** Text without "--" is already squeezed. */
  lemma {:induction false} SqueezeNoDoubleDash(s: string)
    requires !HasDoubleDash(s)
    ensures Squeeze(s) == s
  {
    if s != [] {
      assert !HasDoubleDash(s[1..]);
      SqueezeNoDoubleDash(s[1..]);
      if |s| >= 2 && s[0] == '-' && s[1] == '-' {
        assert false;
      }
      assert [s[0]] + s[1..] == s;
    }
  }

  lemma {:induction false} MapCharsRangeChars(s: string)
    ensures RangeChars(MapChars(s))
  {
    if s != [] {
      MapCharsRangeChars(s[..|s| - 1]);
    }
  }

  /** Text made of digits and '-' maps to itself. */
  lemma {:induction false} MapCharsIdentity(s: string)
    requires RangeChars(s)
    ensures MapChars(s) == s
  {
    if s != [] {
      MapCharsIdentity(s[..|s| - 1]);
      assert s[..|s| - 1] + [s[|s| - 1]] == s;
    }
  }

  /**
   * Normalised text holds only ASCII digits and '-', never "--", and
   * normalising it again changes nothing.
   */
  lemma NormalizedShape(s: string)
    ensures var n := Squeeze(MapChars(s));
            RangeChars(n) && !HasDoubleDash(n) && Squeeze(MapChars(n)) == n
  {
    var m := MapChars(s);
    var n := Squeeze(m);
    MapCharsRangeChars(s);
    SqueezeFacts(m);
    assert RangeChars(n) by {
      forall i | 0 <= i < |n| ensures IsRangeChar(n[i]) {
        assert n[i] in m;
      }
    }
    MapCharsIdentity(n);
    SqueezeNoDoubleDash(n);
  }

  /** Full-width "９－１７" is read as "9-17". */
  lemma FullWidthExample()
    ensures Squeeze(MapChars("９－１７")) == "9-17"
  {
    assert "９－１７"[..3] == "９－１";
    assert "９－１"[..2] == "９－";
    assert "９－"[..1] == "９";
    assert MapChars("９－１７") == "9-17";
  }

  // ---------------------------------------------------------------------
  // Reading a range.

  /**
   * The parse in `applyRange`: the text split on '-' (empty pieces
   * dropped) must give exactly two pieces, each an `Int` once trimmed,
   * with `0 <= start < end <= 24`.
   */
  function ParseRange(text: string): (r: Option<ShiftRange>)
    ensures r.Some? ==> 0 <= r.value.start < r.value.end <= 24
  {
    var parts := SplitOmittingEmpty(text, '-');
    if |parts| != 2 then None
    else
      match (ParseInt(Trim(parts[0])), ParseInt(Trim(parts[1])))
      case (Some(start), Some(end)) =>
        if start >= 0 && end <= 24 && start < end then Some(ShiftRange(start, end)) else None
      case _ => None
  }

  lemma {:induction false} SplitDigits(s: string, cur: string)
    requires AllDigits(s) && '-' !in cur && cur + s != []
    ensures SplitFrom(s, '-', cur) == [cur + s]
  {
    if s == [] {
      assert cur + s == cur;
    } else {
      assert s[0] != '-' by { assert IsDigit(s[0]); }
      assert '-' !in cur + [s[0]];
      SplitDigits(s[1..], cur + [s[0]]);
      assert cur + [s[0]] + s[1..] == cur + s;
    }
  }

  lemma {:induction false} SplitDigitsDash(a: string, b: string, cur: string)
    requires AllDigits(a) && AllDigits(b) && b != [] && '-' !in cur && cur + a != []
    ensures SplitFrom(a + "-" + b, '-', cur) == [cur + a, b]
  {
    if a == [] {
      assert a + "-" + b == "-" + b;
      assert ("-" + b)[1..] == b;
      SplitDigits(b, []);
      assert [] + b == b;
      assert cur + a == cur;
    } else {
      assert a[0] != '-' by { assert IsDigit(a[0]); }
      assert (a + "-" + b)[1..] == a[1..] + "-" + b;
      SplitDigitsDash(a[1..], b, cur + [a[0]]);
      assert cur + [a[0]] + a[1..] == cur + a;
    }
  }

  lemma {:induction false} TrimDigits(s: string)
    requires AllDigits(s) && s != []
    ensures Trim(s) == s
  {
    assert !IsWhitespace(s[0]) by { assert IsDigit(s[0]); }
    assert TrimLeading(s) == s;
    assert !IsWhitespace(s[|s| - 1]) by { assert IsDigit(s[|s| - 1]); }
  }

  lemma ParseDigitsRange(a: string, b: string, start: int, end: int)
    requires AllDigits(a) && AllDigits(b) && a != [] && b != []
    requires ParseInt(a) == Some(start) && ParseInt(b) == Some(end)
    requires 0 <= start < end <= 24
    ensures ParseRange(a + "-" + b) == Some(ShiftRange(start, end))
  {
    SplitTwoDigitRuns(a, b);
    TrimDigits(a);
    TrimDigits(b);
    var parts := SplitOmittingEmpty(a + "-" + b, '-');
    assert Trim(parts[0]) == a && Trim(parts[1]) == b;
  }

  lemma SplitTwoDigitRuns(a: string, b: string)
    requires AllDigits(a) && AllDigits(b) && a != [] && b != []
    ensures SplitOmittingEmpty(a + "-" + b, '-') == [a, b]
  {
    SplitDigitsDash(a, b, []);
    assert [] + a == a;
  }

  /** Every valid range typed as "start-end" is read back. */
  lemma ParseRangeComplete(start: nat, end: nat)
    requires start < end <= 24
    ensures ParseRange(Decimal(start) + "-" + Decimal(end)) == Some(ShiftRange(start, end))
  {
    ParseDecimal(start);
    ParseDecimal(end);
    ParseDigitsRange(Decimal(start), Decimal(end), start, end);
  }
}
