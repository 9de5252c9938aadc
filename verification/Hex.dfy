/** The hex codec: bytes are numbers below 256, text is lower case going out and of
    either case coming in. */
module Hex {
  import opened Framing

  const DIGITS := "0123456789abcdef"

  function HexVal(c: char): int {
    if '0' <= c <= '9' then c as int - '0' as int
    else if 'a' <= c <= 'f' then c as int - 'a' as int + 10
    else if 'A' <= c <= 'F' then c as int - 'A' as int + 10
    else -1
  }

  function Lower(c: char): char {
    if 'A' <= c <= 'F' then (c as int - 'A' as int + 'a' as int) as char else c
  }

  function Digit(n: int): char
    requires 0 <= n < 16
  {
    DIGITS[n]
  }

  function Hexed(data: seq<Byte>): string {
    if data == [] then "" else
    var last := data[|data| - 1];
    Hexed(data[..|data| - 1]) + [Digit(last / 16), Digit(last % 16)]
  }

  predicate IsHex(text: string) {
    |text| % 2 == 0 && forall i :: 0 <= i < |text| ==> HexVal(text[i]) >= 0
  }

  function Unhexed(text: string): seq<Byte>
    requires IsHex(text)
  {
    if text == "" then [] else
    Unhexed(text[..|text| - 2]) + [HexVal(text[|text| - 2]) * 16 + HexVal(text[|text| - 1])]
  }

  method ToHex(data: seq<Byte>) returns (text: string)
    ensures text == Hexed(data)
  {
    text := "";
    for i := 0 to |data|
      invariant text == Hexed(data[..i])
    {
      assert data[..i + 1][..i] == data[..i];
      text := text + [Digit(data[i] / 16)];
      text := text + [Digit(data[i] % 16)];
    }
    assert data[..|data|] == data;
  }

  /** Decodes, or refuses text that is not hex throughout. */
  method FromHex(text: string) returns (ok: bool, out: seq<Byte>)
    ensures ok <==> IsHex(text)
    ensures ok ==> out == Unhexed(text)
  {
    if |text| % 2 != 0 {
      return false, [];
    }
    var i := 0;
    out := [];
    while i < |text|
      invariant i <= |text| && i % 2 == 0 && IsHex(text[..i]) && out == Unhexed(text[..i])
    {
      var hi, lo := HexVal(text[i]), HexVal(text[i + 1]);
      if hi < 0 || lo < 0 {
        return false, [];
      }
      assert text[..i + 2][..i] == text[..i];
      out := out + [hi * 16 + lo];
      i := i + 2;
    }
    assert text[..|text|] == text;
    return true, out;
  }

  lemma DigitIsVal(n: int)
    requires 0 <= n < 16
    ensures HexVal(Digit(n)) == n
  {}

  lemma HexedPush(data: seq<Byte>, b: Byte)
    ensures Hexed(data + [b]) == Hexed(data) + [Digit(b / 16), Digit(b % 16)]
  {
    assert (data + [b])[..|data|] == data;
  }

  lemma UnhexedPush(text: string, hi: char, lo: char)
    requires IsHex(text) && HexVal(hi) >= 0 && HexVal(lo) >= 0
    ensures HexVal(hi) * 16 + HexVal(lo) < 256
    ensures IsHex(text + [hi, lo]) && Unhexed(text + [hi, lo]) == Unhexed(text) + [HexVal(hi) * 16 + HexVal(lo)]
  {
    assert (text + [hi, lo])[..|text|] == text;
    ValBound(hi);
    ValBound(lo);
    hide HexVal;
  }

  /** What is encoded is hex text and decodes to what it was. */
  lemma {:induction false} DecodeEncode(data: seq<Byte>)
    ensures IsHex(Hexed(data)) && Unhexed(Hexed(data)) == data
  {
    if data != [] {
      hide HexVal, Digit, Hexed, IsHex, Unhexed;
      var before, last := data[..|data| - 1], data[|data| - 1];
      assert data == before + [last];
      DecodeEncode(before);
      HexedPush(before, last);
      DigitIsVal(last / 16);
      DigitIsVal(last % 16);
      UnhexedPush(Hexed(before), Digit(last / 16), Digit(last % 16));
    }
  }

  function LowerAll(text: string): string {
    seq(|text|, i requires 0 <= i < |text| => Lower(text[i]))
  }

  lemma HexPrefix(text: string)
    requires IsHex(text) && text != ""
    ensures |text| >= 2 && IsHex(text[..|text| - 2]) && HexVal(text[|text| - 2]) >= 0 && HexVal(text[|text| - 1]) >= 0
  {}

  lemma HexedVals(data: seq<Byte>, hi: char, lo: char)
    requires HexVal(hi) >= 0 && HexVal(lo) >= 0
    ensures HexVal(hi) * 16 + HexVal(lo) < 256
    ensures Hexed(data + [HexVal(hi) * 16 + HexVal(lo)]) == Hexed(data) + [Lower(hi), Lower(lo)]
  {
    ValBound(hi);
    ValBound(lo);
    TwoDigits(HexVal(hi), HexVal(lo));
    HexedPush(data, HexVal(hi) * 16 + HexVal(lo));
    hide HexVal, Lower, Hexed, Digit;
  }

  /** What decodes at all encodes back to the same text in lower case. */
  lemma {:induction false} EncodeDecode(text: string)
    requires IsHex(text)
    ensures Hexed(Unhexed(text)) == LowerAll(text)
  {
    if text == "" {
      assert LowerAll(text) == "";
    } else {
      hide Digit, Lower, HexVal, Hexed, IsHex, Unhexed;
      HexPrefix(text);
      var before, hi, lo := text[..|text| - 2], text[|text| - 2], text[|text| - 1];
      assert text == before + [hi, lo];
      EncodeDecode(before);
      UnhexedPush(before, hi, lo);
      HexedVals(Unhexed(before), hi, lo);
      assert LowerAll(text) == LowerAll(before) + [Lower(hi), Lower(lo)];
    }
  }

  lemma ValBound(c: char)
    ensures -1 <= HexVal(c) < 16
  {}

  lemma TwoDigits(hi: int, lo: int)
    requires 0 <= hi < 16 && 0 <= lo < 16
    ensures (hi * 16 + lo) / 16 == hi && (hi * 16 + lo) % 16 == lo
  {}
}
