/** Hexadecimal digits and the byte-to-text encodings used by the beacon UUID (upper case)
    and by the nonce hand-off to the prover (Swift's `String(format: "%02x", _)`, lower case). */
module Hex {
  import opened Common

  predicate IsHexDigit(c: char) {
    ('0' <= c <= '9') || ('a' <= c <= 'f') || ('A' <= c <= 'F')
  }

  predicate IsLowerHexDigit(c: char) {
    ('0' <= c <= '9') || ('a' <= c <= 'f')
  }

  predicate AllHex(s: string) {
    forall i | 0 <= i < |s| :: IsHexDigit(s[i])
  }

  /** The value of one hex digit; both letter cases are accepted. */
  function DigitValue(c: char): (v: nat)
    requires IsHexDigit(c)
    ensures v < 16
  {
    if '0' <= c <= '9' then c as int - '0' as int
    else if 'a' <= c <= 'f' then c as int - 'a' as int + 10
    else c as int - 'A' as int + 10
  }

  /** The digit for a value below 16, in the requested letter case. */
  function Digit(v: nat, upper: bool): (c: char)
    requires v < 16
    ensures IsHexDigit(c) && DigitValue(c) == v
    ensures upper ==> !('a' <= c <= 'f')
    ensures !upper ==> IsLowerHexDigit(c)
  {
    if v < 10 then ('0' as int + v) as char
    else if upper then ('A' as int + v - 10) as char
    else ('a' as int + v - 10) as char
  }

  /** One byte as exactly two digits, high nibble first (the `%02x` / `%02X` group). */
  function EncodeByte(b: Byte, upper: bool): string {
    [Digit(b / 16, upper), Digit(b % 16, upper)]
  }

  /** Bytes as digit pairs in byte order. */
  function Encode(bs: seq<Byte>, upper: bool): (s: string)
    ensures |s| == 2 * |bs|
  {
    if bs == [] then [] else EncodeByte(bs[0], upper) + Encode(bs[1..], upper)
  }

  /** Two-digit groups back to bytes; `None` on an odd length or a non-hex character. */
  function DecodePairs(s: string): Option<seq<Byte>>
    decreases |s|
  {
    if s == [] then Some([])
    else if |s| == 1 || !IsHexDigit(s[0]) || !IsHexDigit(s[1]) then None
    else match DecodePairs(s[2..])
      case None => None
      case Some(rest) => Some([DigitValue(s[0]) * 16 + DigitValue(s[1])] + rest)
  }

  /** The unsigned value of a digit string, most significant digit first. */
  function Value(s: string): nat
    requires AllHex(s)
  {
    if s == [] then 0 else Value(s[..|s| - 1]) * 16 + DigitValue(s[|s| - 1])
  }

  /** The unsigned big-endian value of a byte string. */
  function BigEndian(bs: seq<Byte>): nat {
    if bs == [] then 0 else BigEndian(bs[..|bs| - 1]) * 256 + bs[|bs| - 1]
  }

  function Pow16(n: nat): nat {
    if n == 0 then 1 else 16 * Pow16(n - 1)
  }

  function Pow256(n: nat): nat {
    if n == 0 then 1 else 256 * Pow256(n - 1)
  }

  lemma {:induction false} EncodeAppend(a: seq<Byte>, b: seq<Byte>, upper: bool)
    ensures Encode(a + b, upper) == Encode(a, upper) + Encode(b, upper)
  {
    if a != [] {
      assert (a + b)[1..] == a[1..] + b;
      EncodeAppend(a[1..], b, upper);
    } else {
      assert a + b == b;
    }
  }

  /** Byte `i` occupies characters `2i` and `2i+1`. */
  lemma {:induction false} EncodeAt(bs: seq<Byte>, upper: bool, i: nat)
    requires i < |bs|
    ensures Encode(bs, upper)[2 * i..2 * i + 2] == EncodeByte(bs[i], upper)
  {
    if i > 0 {
      EncodeAt(bs[1..], upper, i - 1);
    }
  }

  /** Every character of an encoding is a hex digit, and in the lower-case encoding a lower-case one. */
  lemma {:induction false} EncodeDigits(bs: seq<Byte>, upper: bool)
    ensures AllHex(Encode(bs, upper))
    ensures !upper ==> forall i | 0 <= i < |Encode(bs, upper)| :: IsLowerHexDigit(Encode(bs, upper)[i])
  {
    if bs != [] {
      EncodeDigits(bs[1..], upper);
    }
  }

  /** Decoding reverses encoding in either letter case. */
  lemma {:induction false} DecodeEncode(bs: seq<Byte>, upper: bool)
    ensures DecodePairs(Encode(bs, upper)) == Some(bs)
  {
    if bs != [] {
      var s := Encode(bs, upper);
      assert s[2..] == Encode(bs[1..], upper);
      DecodeEncode(bs[1..], upper);
      assert [bs[0]] + bs[1..] == bs;
    }
  }

  /** The digits of an encoding, read as one number, are the big-endian value of the bytes. */
  lemma {:induction false} ValueEncode(bs: seq<Byte>, upper: bool)
    ensures AllHex(Encode(bs, upper))
    ensures Value(Encode(bs, upper)) == BigEndian(bs)
  {
    EncodeDigits(bs, upper);
    if bs != [] {
      var init, last := bs[..|bs| - 1], bs[|bs| - 1];
      assert bs == init + [last];
      EncodeAppend(init, [last], upper);
      var s := Encode(bs, upper);
      var t := Encode(init, upper);
      assert Encode([last], upper) == EncodeByte(last, upper);
      assert s == t + EncodeByte(last, upper);
      assert s[..|s| - 1] == t + [Digit(last / 16, upper)];
      assert s[..|s| - 1][..|s| - 2] == t;
      EncodeDigits(init, upper);
      ValueEncode(init, upper);
    }
  }

  lemma {:induction false} BigEndianBound(bs: seq<Byte>)
    ensures BigEndian(bs) < Pow256(|bs|)
  {
    if bs != [] {
      BigEndianBound(bs[..|bs| - 1]);
    }
  }

  lemma {:induction false} ValueBound(s: string)
    requires AllHex(s)
    ensures Value(s) < Pow16(|s|)
  {
    if s != [] {
      ValueBound(s[..|s| - 1]);
    }
  }
}
