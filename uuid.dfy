/** The UUID text form of section 3 of RFC 4122: 32 hex digits in groups of 8-4-4-4-12
    separated by hyphens, digits in byte order. `Parse` is Foundation's `UUID(uuidString:)`
    (either letter case accepted, exactly 36 characters), `Format` is `uuidString`
    (upper case). */
module Uuid {
  import opened Common
  import Hex

  /** The four positions that hold a hyphen. */
  predicate IsHyphenAt(i: int) {
    i == 8 || i == 13 || i == 18 || i == 23
  }

  predicate WellFormed(s: string) {
    |s| == 36 &&
    forall i | 0 <= i < 36 :: if IsHyphenAt(i) then s[i] == '-' else Hex.IsHexDigit(s[i])
  }

  /** For a text position that is not a hyphen, the index of its digit among the 32. */
  function DigitIndex(i: nat): (j: nat)
    requires i < 36 && !IsHyphenAt(i)
    ensures j < 32
  {
    i - (if i < 8 then 0 else if i < 13 then 1 else if i < 18 then 2 else if i < 23 then 3 else 4)
  }

  /** The text position of the high digit of byte `k`; the low digit follows it. */
  function HighPos(k: nat): (i: nat)
    requires k < 16
    ensures i + 1 < 36 && !IsHyphenAt(i) && !IsHyphenAt(i + 1)
    ensures DigitIndex(i) == 2 * k && DigitIndex(i + 1) == 2 * k + 1
  {
    2 * k + (if k < 4 then 0 else if k < 6 then 1 else if k < 8 then 2 else if k < 10 then 3 else 4)
  }

  function Parse(s: string): (r: Option<seq<Byte>>)
    ensures r.Some? <==> WellFormed(s)
    ensures r.Some? ==> |r.value| == 16
  {
    if !WellFormed(s) then None
    else Some(seq(16, k requires 0 <= k < 16 =>
      Hex.DigitValue(s[HighPos(k)]) * 16 + Hex.DigitValue(s[HighPos(k) + 1])))
  }

  /** The digit at text position `i` of the upper-case form of `b`. */
  function FormatDigit(b: seq<Byte>, i: nat): char
    requires |b| == 16 && i < 36 && !IsHyphenAt(i)
  {
    var j := DigitIndex(i);
    Hex.Digit(if j % 2 == 0 then b[j / 2] / 16 else b[j / 2] % 16, true)
  }

  function Format(b: seq<Byte>): (s: string)
    requires |b| == 16
    ensures |s| == 36
  {
    seq(36, i requires 0 <= i < 36 => if IsHyphenAt(i) then '-' else FormatDigit(b, i))
  }

  /** Round trip: the scanner's parse of the broadcaster's `uuidString` gives back the same 16 bytes. */
  lemma ParseFormat(b: seq<Byte>)
    requires |b| == 16
    ensures WellFormed(Format(b))
    ensures Parse(Format(b)) == Some(b)
  {
    var s := Format(b);
    assert WellFormed(s);
    var r := Parse(s).value;
    forall k | 0 <= k < 16 ensures r[k] == b[k] {
      var i := HighPos(k);
      assert s[i] == Hex.Digit(b[k] / 16, true);
      assert s[i + 1] == Hex.Digit(b[k] % 16, true);
    }
    assert r == b;
  }

  /** Every character of the formatted text is a hyphen or an upper-case hex digit. */
  lemma FormatUpper(b: seq<Byte>, i: nat)
    requires |b| == 16 && i < 36
    ensures Format(b)[i] == '-' || ('0' <= Format(b)[i] <= '9') || ('A' <= Format(b)[i] <= 'F')
  {
  }
}
