/** The proving server's request handlers (mac/verifier.js): `/prove` validates the nonce
    text and turns its two halves into the circuit's two decimal inputs; `/verify` reports
    any failure as an unverified proof. snarkjs itself is left out. */
module Verifier {
  import opened Common
  import Hex

  /** The `nonceHex` field of a JSON request body: a string, or anything else
      (absent, a number, an object, ...). */
  datatype JsValue = JsString(s: string) | JsNonString

  /** The JavaScript white space and line terminator characters, which `BigInt` of a
      string ignores around the literal. */
  predicate IsJsWhiteSpace(c: char) {
    c == '\t' || c == '\U{000B}' || c == '\U{000C}' || c == ' ' || c == '\U{00A0}' || c == '\U{FEFF}' ||
    c == '\n' || c == '\r' || c == '\U{2028}' || c == '\U{2029}' ||
    c == '\U{1680}' || ('\U{2000}' <= c <= '\U{200A}') || c == '\U{202F}' || c == '\U{205F}' || c == '\U{3000}'
  }

  /** `s` without its trailing white space. */
  function TrimEnd(s: string): (t: string)
    ensures |t| <= |s| && t == s[..|t|]
    ensures t == [] || !IsJsWhiteSpace(t[|t| - 1])
    ensures forall i | |t| <= i < |s| :: IsJsWhiteSpace(s[i])
  {
    if s != [] && IsJsWhiteSpace(s[|s| - 1]) then TrimEnd(s[..|s| - 1]) else s
  }

  /** `BigInt('0x' + h)`: one or more hex digits directly after the prefix, then optional
      white space; `None` is the SyntaxError it throws otherwise. */
  function HexBigInt(h: string): (r: Option<nat>)
    ensures r.Some? ==> r.value < Hex.Pow16(|h|)
  {
    var t := TrimEnd(h);
    if t != [] && Hex.AllHex(t) then
      Hex.ValueBound(t);
      PowMonotone(|t|, |h|);
      Some(Hex.Value(t))
    else None
  }

  lemma {:induction false} PowMonotone(m: nat, n: nat)
    requires m <= n
    ensures Hex.Pow16(m) <= Hex.Pow16(n)
  {
    if m < n {
      PowMonotone(m, n - 1);
    }
  }

  function DecimalDigit(d: nat): char
    requires d < 10
  {
    ('0' as int + d) as char
  }

  predicate IsDecimalDigit(c: char) {
    '0' <= c <= '9'
  }

  /** `BigInt.prototype.toString()`: the decimal numeral, without leading zeros. */
  function DecimalString(n: nat): (s: string)
    ensures s != [] && forall i | 0 <= i < |s| :: IsDecimalDigit(s[i])
  {
    if n < 10 then [DecimalDigit(n)] else DecimalString(n / 10) + [DecimalDigit(n % 10)]
  }

  /** The value of a decimal numeral, most significant digit first. */
  function DecimalValue(s: string): nat
    requires forall i | 0 <= i < |s| :: IsDecimalDigit(s[i])
  {
    if s == [] then 0 else DecimalValue(s[..|s| - 1]) * 10 + DecimalDigitValue(s[|s| - 1])
  }

  function DecimalDigitValue(c: char): (d: nat)
    requires IsDecimalDigit(c)
    ensures d < 10 && DecimalDigit(d) == c
  {
    c as int - '0' as int
  }

  /** The numeral denotes the number, and it has no leading zero unless it is "0". */
  lemma {:induction false} DecimalRoundTrip(n: nat)
    ensures DecimalValue(DecimalString(n)) == n
    ensures DecimalString(n)[0] != '0' || n == 0
  {
    if n >= 10 {
      DecimalRoundTrip(n / 10);
      var s := DecimalString(n);
      assert s[..|s| - 1] == DecimalString(n / 10);
    }
  }

  /** The two 8-character halves of a 16-character string. */
  function Halves(s: string): (h: (string, string))
    requires |s| == 16
    ensures |h.0| == 8 && |h.1| == 8 && h.0 + h.1 == s
  {
    (s[0..8], s[8..16])
  }

  const NonceHexError := "nonceHex must be 16 hex chars"

  /** How `/prove` ends before snarkjs is called: a 400 for a bad `nonceHex`, a 500 when a
      `BigInt` conversion throws, or the circuit input `{ nonce: [a0, a1] }`. */
  datatype ProveResult = BadRequest(status: int, error: string) | ServerError(status: int) | CircuitInput(nonce: seq<string>)

  function Prove(nonceHex: JsValue): (r: ProveResult)
    ensures r.BadRequest? <==> !nonceHex.JsString? || |nonceHex.s| != 16
    ensures r.BadRequest? ==> r.status == 400 && r.error == NonceHexError
    ensures r.ServerError? ==> r.status == 500
    ensures nonceHex.JsString? && |nonceHex.s| == 16 ==>
      (r.CircuitInput? <==> HexBigInt(Halves(nonceHex.s).0).Some? && HexBigInt(Halves(nonceHex.s).1).Some?)
    ensures r.ServerError? <==>
      nonceHex.JsString? && |nonceHex.s| == 16 &&
      (HexBigInt(Halves(nonceHex.s).0).None? || HexBigInt(Halves(nonceHex.s).1).None?)
    ensures r.CircuitInput? ==>
      (|r.nonce| == 2 &&
       HexBigInt(Halves(nonceHex.s).0).Some? && HexBigInt(Halves(nonceHex.s).1).Some? &&
       r.nonce[0] == DecimalString(HexBigInt(Halves(nonceHex.s).0).value) &&
       r.nonce[1] == DecimalString(HexBigInt(Halves(nonceHex.s).1).value))
  {
    if !nonceHex.JsString? || |nonceHex.s| != 16 then BadRequest(400, NonceHexError)
    else
      var (hex0, hex1) := Halves(nonceHex.s);
      match (HexBigInt(hex0), HexBigInt(hex1))
      case (Some(a0), Some(a1)) => CircuitInput([DecimalString(a0), DecimalString(a1)])
      case _ => ServerError(500)
  }

  /** Both circuit inputs are decimal numerals of values below 2^32. */
  lemma CircuitInputBound(nonceHex: JsValue)
    requires Prove(nonceHex).CircuitInput?
    ensures forall i | 0 <= i < 2 :: DecimalValue(Prove(nonceHex).nonce[i]) < 0x1_0000_0000
  {
    var (hex0, hex1) := Halves(nonceHex.s);
    var a0, a1 := HexBigInt(hex0).value, HexBigInt(hex1).value;
    assert Hex.Pow16(8) == 0x1_0000_0000;
    DecimalRoundTrip(a0);
    DecimalRoundTrip(a1);
  }

  /** Only the length is validated: a half holding a character that is neither a hex
      digit nor trailing white space ends in the catch with status 500. */
  lemma NonHexHalfFails(s: string, i: nat)
    requires |s| == 16 && i < 16 && !Hex.IsHexDigit(s[i]) && !IsJsWhiteSpace(s[i])
    ensures Prove(JsString(s)) == ServerError(500)
  {
    var (hex0, hex1) := Halves(s);
    var half, j := if i < 8 then hex0 else hex1, if i < 8 then i else i - 8;
    assert half[j] == s[i];
    var t := TrimEnd(half);
    assert j < |t| && t[j] == half[j];
    assert !Hex.AllHex(t);
  }

  /** Trailing white space in a half is accepted: the half counts as the digits before it. */
  lemma TrailingSpaceIgnored(digits: string, space: string, hex1: string)
    requires digits != [] && Hex.AllHex(digits) && forall i | 0 <= i < |space| :: IsJsWhiteSpace(space[i])
    requires |digits| + |space| == 8 && |hex1| == 8 && Hex.AllHex(hex1)
    ensures Prove(JsString(digits + space + hex1)) ==
      CircuitInput([DecimalString(Hex.Value(digits)), DecimalString(Hex.Value(hex1))])
  {
    var s := digits + space + hex1;
    assert Halves(s) == (digits + space, hex1);
    TrimSpace(digits, space);
    assert !IsJsWhiteSpace(hex1[7]);
    assert TrimEnd(hex1) == hex1;
  }

  lemma {:induction false} TrimSpace(digits: string, space: string)
    requires digits != [] && Hex.AllHex(digits) && forall i | 0 <= i < |space| :: IsJsWhiteSpace(space[i])
    ensures TrimEnd(digits + space) == digits
  {
    if space == [] {
      assert digits + space == digits;
      assert !IsJsWhiteSpace(digits[|digits| - 1]);
    } else {
      var shorter := space[..|space| - 1];
      assert (digits + space)[..|digits + space| - 1] == digits + shorter;
      TrimSpace(digits, shorter);
    }
  }

  /** `/verify`'s reply to a request; `outcome` is what `groth16.verify` resolved to, or
      `None` when it threw. */
  datatype VerifyResponse = VerifyResponse(status: int, verified: bool)

  function Verify(outcome: Option<bool>): (r: VerifyResponse)
    ensures r.status == 200
    ensures r.verified <==> outcome == Some(true)
  {
    match outcome
    case Some(ok) => VerifyResponse(200, ok)
    case None => VerifyResponse(200, false)
  }
}
