/** Bytes as lower-case hex, and the lenient way it is read. */
module Hex {
  import opened Wrappers
  import opened Text

  function HexChar(d: nat): char
    requires d < 16
  {
    "0123456789abcdef"[d]
  }

  function HexValue(c: char): Option<nat> {
    if '0' <= c <= '9' then Some(c as int - '0' as int)
    else if 'a' <= c <= 'f' then Some(c as int - 'a' as int + 10)
    else if 'A' <= c <= 'F' then Some(c as int - 'A' as int + 10)
    else None
  }

  lemma HexValueIsSmall(c: char)
    ensures HexValue(c).Some? ==> HexValue(c).value < 16
  {}

  function ToHex(b: Bytes): string {
    if b == [] then "" else [HexChar(b[0] / 16), HexChar(b[0] % 16)] + ToHex(b[1..])
  }

  /** Decoding stops at the first pair that is not two hex digits; an odd digit left over is dropped. */
  function FromHex(text: string): Bytes {
    if |text| < 2 || HexValue(text[0]).None? || HexValue(text[1]).None? then []
    else
      HexValueIsSmall(text[0]);
      HexValueIsSmall(text[1]);
      [HexValue(text[0]).value * 16 + HexValue(text[1]).value] + FromHex(text[2..])
  }

  lemma HexDigitIsRead(d: nat)
    requires d < 16
    ensures HexValue(HexChar(d)) == Some(d)
  {}

  lemma HexPairIsRead(x: Byte, rest: string)
    ensures FromHex([HexChar(x / 16), HexChar(x % 16)] + rest) == [x] + FromHex(rest)
  {
    HexDigitIsRead(x / 16);
    HexDigitIsRead(x % 16);
    hide HexChar, HexValue;
    assert ([HexChar(x / 16), HexChar(x % 16)] + rest)[2..] == rest;
  }

  lemma {:induction false} HexIsReadBack(b: Bytes)
    ensures FromHex(ToHex(b)) == b
  {
    if b != [] {
      hide HexChar, HexValue;
      HexIsReadBack(b[1..]);
      HexPairIsRead(b[0], ToHex(b[1..]));
    }
  }

  lemma HexIsUnique(a: Bytes, b: Bytes)
    requires ToHex(a) == ToHex(b)
    ensures a == b
  {
    HexIsReadBack(a);
    HexIsReadBack(b);
  }
}
