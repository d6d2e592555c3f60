/** Hexadecimal text, as the `hex` crate reads and writes it. */
module Hex {
  import opened Common

  const DIGITS: string := "0123456789abcdef"

  function HexDigit(n: nat): char
    requires n < 16
  {
    DIGITS[n]
  }

  /** The value of a hexadecimal digit in either case. */
  function HexVal(c: char): (v: Option<nat>)
    ensures v.Some? ==> v.value < 16
  {
    if '0' <= c <= '9' then Some(c as int - '0' as int)
    else if 'a' <= c <= 'f' then Some(c as int - 'a' as int + 10)
    else if 'A' <= c <= 'F' then Some(c as int - 'A' as int + 10)
    else None
  }

  function HexEncode(bytes: seq<byte>): string {
    if bytes == [] then ""
    else [HexDigit(bytes[0] / 16), HexDigit(bytes[0] % 16)] + HexEncode(bytes[1..])
  }

  function HexDecode(text: string): Option<seq<byte>> {
    if text == "" then Some([])
    else if |text| == 1 || HexVal(text[0]).None? || HexVal(text[1]).None? then None
    else
      match HexDecode(text[2..])
      case None => None
      case Some(rest) => Some([16 * HexVal(text[0]).value + HexVal(text[1]).value] + rest)
  }

  lemma {:induction false} DecodeEncode(bytes: seq<byte>)
    ensures HexDecode(HexEncode(bytes)) == Some(bytes)
    ensures |HexEncode(bytes)| == 2 * |bytes|
  {
    if bytes == [] {
    } else {
      DecodeEncode(bytes[1..]);
      DecodePair(bytes[0], HexEncode(bytes[1..]));
      assert [bytes[0]] + bytes[1..] == bytes;
    }
  }

  lemma {:induction false} DecodePair(b: byte, rest: string)
    ensures HexDecode([HexDigit(b / 16), HexDigit(b % 16)] + rest)
         == match HexDecode(rest) case None => None case Some(v) => Some([b] + v)
  {
    DigitValue(b / 16);
    DigitValue(b % 16);
    var text := [HexDigit(b / 16), HexDigit(b % 16)] + rest;
    assert text[0] == HexDigit(b / 16) && text[1] == HexDigit(b % 16) && text[2..] == rest;
  }

  lemma {:induction false} DigitValue(n: nat)
    requires n < 16
    ensures HexVal(HexDigit(n)) == Some(n)
  {
  }

  lemma {:induction false} DecodeLength(text: string)
    requires HexDecode(text).Some?
    ensures |text| == 2 * |HexDecode(text).value|
  {
    if text != "" { DecodeLength(text[2..]); }
  }

  /** Text that is exactly what `HexEncode` writes. */
  predicate Canonical(text: string) {
    HexDecode(text).Some? && text == HexEncode(HexDecode(text).value)
  }

  /** The coordinator's decoding of a 64-character hash or identifier in either case. */
  function ParseRawHash(text: string): Option<seq<byte>> {
    if |text| != 64 then None else HexDecode(text)
  }

  /** The accounting parser's decoding of 32 canonical bytes. */
  function ValidateCanonical32(text: string): Option<seq<byte>> {
    match HexDecode(text)
    case None => None
    case Some(b) => if |b| != 32 || text != HexEncode(b) then None else Some(b)
  }

  /** The coordinator's canonical identifier parser. */
  function ParseCanonicalId(text: string): Option<seq<byte>> {
    match ParseRawHash(text)
    case None => None
    case Some(b) => if |b| != 32 || text != HexEncode(b) then None else Some(b)
  }

  /** The two separately written canonical parsers accept the same text and read the same bytes. */
  lemma {:induction false} CanonicalParsersAgree(text: string)
    ensures ValidateCanonical32(text) == ParseCanonicalId(text)
    ensures ValidateCanonical32(text).Some? ==> ParseRawHash(text) == ValidateCanonical32(text)
  {
    if HexDecode(text).Some? { DecodeLength(text); }
  }

  function Reversed(s: seq<byte>): seq<byte> {
    seq(|s|, i requires 0 <= i < |s| => s[|s| - 1 - i])
  }

  /** Hash text in display order: the raw bytes reversed. */
  function DisplayHash(raw: seq<byte>): string {
    HexEncode(Reversed(raw))
  }

  function Lower(c: char): char {
    if 'A' <= c <= 'Z' then (c as int + 32) as char else c
  }

  predicate EqIgnoreAsciiCase(a: string, b: string) {
    |a| == |b| && forall i :: 0 <= i < |a| ==> Lower(a[i]) == Lower(b[i])
  }
}
