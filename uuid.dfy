/**
 * Foundation's `UUID`: 128 bits, kept as 32 hexadecimal digits.
 * `uuidString` spells them in upper case in the 8-4-4-4-12 layout and
 * `UUID(uuidString:)` reads that layout back in either case, or gives nil.
 * New identifiers (`UUID()`) are random, so the model takes them as inputs.
 */
module Uuids {
  import opened Wrappers

  type Nibble = x: int | 0 <= x < 16

  type Uuid = s: seq<Nibble> | |s| == 32 witness seq(32, _ => 0)

  /** Positions of the four dashes in a 36-character UUID string. */
  predicate IsDashPosition(p: int) {
    p == 8 || p == 13 || p == 18 || p == 23
  }

  /** Position in the string of hexadecimal digit `i`. */
  function CharPosition(i: int): (p: int)
    requires 0 <= i < 32
    ensures 0 <= p < 36 && !IsDashPosition(p)
  {
    i + (if i >= 8 then 1 else 0) + (if i >= 12 then 1 else 0)
      + (if i >= 16 then 1 else 0) + (if i >= 20 then 1 else 0)
  }

  /** Hexadecimal digit shown at string position `p` (not a dash position). */
  function DigitIndex(p: int): (i: int)
    requires 0 <= p < 36 && !IsDashPosition(p)
    ensures 0 <= i < 32 && CharPosition(i) == p
  {
    p - (if p > 8 then 1 else 0) - (if p > 13 then 1 else 0)
      - (if p > 18 then 1 else 0) - (if p > 23 then 1 else 0)
  }

  function HexDigit(n: Nibble): (c: char)
    ensures IsHexDigit(c) && HexValue(c) == n
  {
    if n < 10 then ('0' as int + n) as char else ('A' as int + n - 10) as char
  }

  predicate IsHexDigit(c: char) {
    ('0' <= c <= '9') || ('A' <= c <= 'F') || ('a' <= c <= 'f')
  }

  function HexValue(c: char): Nibble
    requires IsHexDigit(c)
  {
    if c <= '9' then c as int - '0' as int
    else if c <= 'F' then c as int - 'A' as int + 10
    else c as int - 'a' as int + 10
  }

  /** `uuid.uuidString`. */
  function UuidString(u: Uuid): (s: string)
    ensures |s| == 36
  {
    seq(36, p requires 0 <= p < 36 => if IsDashPosition(p) then '-' else HexDigit(u[DigitIndex(p)]))
  }

  predicate WellFormedUuidString(s: string) {
    |s| == 36
    && (forall p :: 0 <= p < 36 && IsDashPosition(p) ==> s[p] == '-')
    && (forall p :: 0 <= p < 36 && !IsDashPosition(p) ==> IsHexDigit(s[p]))
  }

  /** `UUID(uuidString: s)`. */
  function ParseUuid(s: string): (r: Option<Uuid>)
    ensures r.Some? <==> WellFormedUuidString(s)
  {
    if WellFormedUuidString(s) then
      Some(seq(32, i requires 0 <= i < 32 => HexValue(s[CharPosition(i)])))
    else None
  }

  /** Every identifier survives `uuidString` and `UUID(uuidString:)`. */
  lemma UuidRoundTrip(u: Uuid)
    ensures ParseUuid(UuidString(u)) == Some(u)
  {
    var s := UuidString(u);
    forall p | 0 <= p < 36 && !IsDashPosition(p)
      ensures IsHexDigit(s[p])
    {
      assert s[p] == HexDigit(u[DigitIndex(p)]);
    }
    var back := ParseUuid(s).value;
    forall i | 0 <= i < 32 ensures back[i] == u[i] {
      var p := CharPosition(i);
      assert DigitIndex(p) == i;
      assert s[p] == HexDigit(u[i]);
    }
    assert back == u;
  }
}
