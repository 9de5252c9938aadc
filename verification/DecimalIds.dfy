/** Rack ids as text. An id crosses the protocol as the canonical decimal numeral of
    a 64-bit number: no sign, no leading zero, at most nineteen digits. */
module DecimalIds {

  const INT64_MAX: nat := 0x7fff_ffff_ffff_ffff

  predicate IsDigit(c: char) {
    '0' <= c <= '9'
  }

  /** The declared shape of an id, `^(0|[1-9][0-9]{0,18})$`. */
  predicate HasIdShape(s: string) {
    && 0 < |s| <= 19
    && (forall i :: 0 <= i < |s| ==> IsDigit(s[i]))
    && (s[0] == '0' ==> |s| == 1)
  }

  function DigitValue(c: char): nat
    requires IsDigit(c)
  {
    c as int - '0' as int
  }

  /** The number a string of digits denotes. */
  function Value(s: string): nat
    requires forall i :: 0 <= i < |s| ==> IsDigit(s[i])
  {
    if s == [] then 0 else 10 * Value(s[..|s| - 1]) + DigitValue(s[|s| - 1])
  }

  /** The canonical numeral of a number. */
  function Numeral(n: nat): (s: string)
    ensures |s| > 0 && forall i :: 0 <= i < |s| ==> IsDigit(s[i])
  {
    var d := [('0' as int + n % 10) as char];
    if n < 10 then d else Numeral(n / 10) + d
  }

  lemma {:induction false} NumeralValue(n: nat)
    ensures Value(Numeral(n)) == n
    ensures Numeral(n)[0] == '0' ==> n == 0
  {
    if n >= 10 {
      NumeralValue(n / 10);
      var s := Numeral(n);
      assert s[..|s| - 1] == Numeral(n / 10);
    }
  }

  lemma {:induction false} ValueNumeral(s: string)
    requires |s| > 0 && (forall i :: 0 <= i < |s| ==> IsDigit(s[i])) && (s[0] == '0' ==> |s| == 1)
    ensures Numeral(Value(s)) == s
    ensures |s| > 1 ==> Value(s) >= 10
  {
    if |s| > 1 {
      var t := s[..|s| - 1];
      if |t| == 1 {
        assert Value(t[..0]) == 0;
        assert Value(t) == DigitValue(t[0]);
        assert s == t + [s[1]];
      } else {
        ValueNumeral(t);
        assert s == t + [s[|s| - 1]];
      }
      ValueNumeral(t);
    } else {
      assert Value(s[..0]) == 0;
    }
  }

  lemma {:induction false} NumeralLength(n: nat, k: nat, bound: nat)
    requires n < bound && bound == Pow10(k) && k >= 1
    ensures |Numeral(n)| <= k
  {
    if n >= 10 {
      NumeralLength(n / 10, k - 1, Pow10(k - 1));
    }
  }

  function Pow10(k: nat): nat {
    if k == 0 then 1 else 10 * Pow10(k - 1)
  }

  datatype Parsed = NotAnId | Id(value: nat)

  /** Reads an id exactly when it is the canonical numeral of a number that fits a
      signed 64-bit integer; the accumulation never leaves that range. */
  method ParseDecimalId(text: string) returns (r: Parsed)
    ensures r == ParseSpec(text)
  {
    if |text| == 0 || |text| > 19 {
      return NotAnId;
    }
    if text[0] == '0' {
      if |text| != 1 {
        return NotAnId;
      }
      assert Value(text[..0]) == 0;
      return Id(0);
    }
    for i := 0 to |text|
      invariant forall k :: 0 <= k < i ==> IsDigit(text[k])
    {
      if text[i] < '0' || text[i] > '9' {
        return NotAnId;
      }
    }
    var value := 0;
    for i := 0 to |text|
      invariant value == Value(text[..i]) <= INT64_MAX
    {
      var digit := DigitValue(text[i]);
      assert text[..i + 1][..i] == text[..i] && text[..i + 1][i] == text[i];
      if value > (INT64_MAX - digit) / 10 {
        PrefixValue(text, i + 1);
        return NotAnId;
      }
      value := value * 10 + digit;
    }
    assert text[..|text|] == text;
    return Id(value);
  }

  function ParseSpec(text: string): Parsed {
    if HasIdShape(text) && Value(text) <= INT64_MAX then Id(Value(text)) else NotAnId
  }

  /** More digits never make a number smaller. */
  lemma {:induction false} PrefixValue(s: string, k: nat)
    requires k <= |s| && forall i :: 0 <= i < |s| ==> IsDigit(s[i])
    ensures Value(s[..k]) <= Value(s)
  {
    if k < |s| {
      var t := s[..|s| - 1];
      PrefixValue(t, k);
      assert t[..k] == s[..k];
    } else {
      assert s[..k] == s;
    }
  }

  /** The texts that parse are exactly the canonical numerals of 0 .. 2^63 - 1, so an
      id has one spelling and the parse inverts the printing. */
  lemma ParsesExactlyNumerals(text: string, n: nat)
    ensures ParseSpec(text) == Id(n) <==> n <= INT64_MAX && text == Numeral(n)
  {
    if ParseSpec(text) == Id(n) {
      ValueNumeral(text);
    }
    if n <= INT64_MAX && text == Numeral(n) {
      NumeralValue(n);
      assert Pow10(19) == 10_000_000_000_000_000_000 by { Pow10Nineteen(); }
      NumeralLength(n, 19, Pow10(19));
    }
  }

  lemma Pow10Nineteen()
    ensures Pow10(19) == 10_000_000_000_000_000_000
  {
    assert Pow10(5) == 100_000;
    assert Pow10(10) == 10_000_000_000;
    assert Pow10(15) == 1_000_000_000_000_000;
  }
}
