/**
 * Scalar text conversions the PxPay client relies on: `int.ToString()`, the
 * `(cents / 100.0).ToString("0.00")` amount format, `string.Replace(".", "")` and
 * `Convert.ToInt32(string)`, all under the invariant culture ('.' separator, '-' sign).
 */
module Formatting {
  import opened Wrappers
  import opened Faults

  const MinInt32: int := -0x8000_0000
  const MaxInt32: int := 0x7FFF_FFFF

  /** C#'s `int`. */
  type Int32 = x: int | MinInt32 <= x <= MaxInt32

  predicate IsDigit(c: char)
  {
    '0' <= c <= '9'
  }

  predicate AllDigits(s: string)
  {
    forall i :: 0 <= i < |s| ==> IsDigit(s[i])
  }

  function DigitChar(d: nat): (c: char)
    requires d < 10
    ensures IsDigit(c) && c as int - '0' as int == d
  {
    ('0' as int + d) as char
  }

  function DigitValue(c: char): nat
    requires IsDigit(c)
  {
    c as int - '0' as int
  }

  /** The number a string of decimal digits denotes; leading zeros are allowed. */
  function DigitsValue(s: string): nat
    requires AllDigits(s)
  {
    if s == [] then 0 else DigitsValue(s[..|s| - 1]) * 10 + DigitValue(s[|s| - 1])
  }

  function Pow10(k: nat): (r: nat)
    ensures r >= 1
  {
    if k == 0 then 1 else 10 * Pow10(k - 1)
  }

  /** `n.ToString()` for a non-negative number: shortest decimal, no leading zero. */
  function NatToString(n: nat): (s: string)
    ensures |s| >= 1 && AllDigits(s)
    ensures s[0] == '0' ==> n == 0
  {
    if n < 10 then [DigitChar(n)] else NatToString(n / 10) + [DigitChar(n % 10)]
  }

  /** `int.ToString()`: a leading '-' for negative numbers. */
  function IntToString(i: int): string
  {
    if i < 0 then "-" + NatToString(-i) else NatToString(i)
  }

  /** The "00" part of the "0.00" custom format. */
  function TwoDigits(n: nat): (s: string)
    requires n < 100
    ensures |s| == 2 && AllDigits(s)
  {
    [DigitChar(n / 10), DigitChar(n % 10)]
  }

  /**
   * `(cents / 100.0).ToString("0.00")`: whole units, '.', exactly two fractional digits.
   * The double division is exact to two places for every 32-bit amount, so the format is
   * computed here with integer division on the magnitude.
   */
  function FormatAmount(cents: int): (s: string)
    // An optional '-' for negative amounts, at least one digit of whole units, a single
    // '.', then exactly two digits.
    ensures |s| >= 4 && (s[0] == '-' <==> cents < 0)
    ensures (if cents < 0 then 1 else 0) < |s| - 3
    ensures forall i :: (if cents < 0 then 1 else 0) <= i < |s| - 3 ==> IsDigit(s[i])
    ensures s[|s| - 3] == '.' && IsDigit(s[|s| - 2]) && IsDigit(s[|s| - 1])
    ensures forall i :: 0 <= i < |s| && i != |s| - 3 ==> s[i] != '.'
  {
    var m := if cents < 0 then -cents else cents;
    (if cents < 0 then "-" else "") + NatToString(m / 100) + "." + TwoDigits(m % 100)
  }

  /** `s.Replace(".", "")`: every '.' removed, everything else kept in order. */
  function RemoveDots(s: string): (r: string)
    ensures |r| <= |s|
    ensures forall i :: 0 <= i < |r| ==> r[i] != '.'
  {
    if s == [] then [] else (if s[0] == '.' then [] else [s[0]]) + RemoveDots(s[1..])
  }

  /** The white-space characters `Int32.Parse` skips around a number. */
  predicate IsWhite(c: char)
  {
    c == ' ' || '\t' <= c <= '\r'
  }

  function TrimStart(s: string): (r: string)
    ensures |r| <= |s|
    ensures r != [] ==> !IsWhite(r[0])
  {
    if s != [] && IsWhite(s[0]) then TrimStart(s[1..]) else s
  }

  function TrimEnd(s: string): (r: string)
    ensures |r| <= |s|
    ensures r != [] ==> !IsWhite(r[|r| - 1])
  {
    if s != [] && IsWhite(s[|s| - 1]) then TrimEnd(s[..|s| - 1]) else s
  }

  /**
   * `Convert.ToInt32(string)` with `NumberStyles.Integer`: optional surrounding white
   * space, an optional '+' or '-', at least one digit, and a value that fits in 32 bits.
   * Anything else throws (a format or an overflow exception).
   */
  function ParseInt32(s: string): (r: Result<Int32, Fault>)
    ensures r.Failure? ==> r.error == MalformedInteger(s)
  {
    var t := TrimEnd(TrimStart(s));
    var negative := |t| > 0 && t[0] == '-';
    var digits := if |t| > 0 && (t[0] == '-' || t[0] == '+') then t[1..] else t;
    if |digits| == 0 || !AllDigits(digits) then Failure(MalformedInteger(s))
    else
      var v := SignedValue(negative, digits);
      if MinInt32 <= v <= MaxInt32 then Success(v) else Failure(MalformedInteger(s))
  }

  /** The settlement amount read back: `Convert.ToInt32(text.Replace(".", ""))`. */
  function ParseAmount(text: string): (r: Result<Int32, Fault>)
    // A text without dots is read as it stands; any fault is about the text without its dots.
    ensures (forall i :: 0 <= i < |text| ==> text[i] != '.') ==> r == ParseInt32(text)
    ensures r.Failure? ==> r.error == MalformedInteger(RemoveDots(text))
  {
    if forall i :: 0 <= i < |text| ==> text[i] != '.' then
      RemoveDotsNoDots(text);
      ParseInt32(RemoveDots(text))
    else
      ParseInt32(RemoveDots(text))
  }

  /** UTF-16 code units of a string: the length limits the source calls "chars". */
  function Utf16Length(s: string): nat
  {
    if s == [] then 0 else (if s[0] as int < 0x1_0000 then 1 else 2) + Utf16Length(s[1..])
  }

  /** UTF-8 bytes of a string: the length limits the source calls "bytes". */
  function Utf8Length(s: string): nat
  {
    if s == [] then 0
    else
      var c := s[0] as int;
      (if c < 0x80 then 1 else if c < 0x800 then 2 else if c < 0x1_0000 then 3 else 4) + Utf8Length(s[1..])
  }

  // ---------------------------------------------------------------------------
  // Lemmas

  lemma {:induction false} DigitsValueAppendDigit(s: string, c: char)
    requires AllDigits(s) && IsDigit(c)
    ensures AllDigits(s + [c]) && DigitsValue(s + [c]) == DigitsValue(s) * 10 + DigitValue(c)
  {
    assert (s + [c])[..|s + [c]| - 1] == s;
  }

  /** Reading back the digits `NatToString` writes gives the number. */
  lemma {:induction false} NatToStringValue(n: nat)
    ensures DigitsValue(NatToString(n)) == n
  {
    if n < 10 {
      assert DigitsValue([DigitChar(n)]) == DigitsValue([]) * 10 + DigitValue(DigitChar(n)) by {
        DigitsValueAppendDigit([], DigitChar(n));
        assert [] + [DigitChar(n)] == [DigitChar(n)];
      }
    } else {
      NatToStringValue(n / 10);
      DigitsValueAppendDigit(NatToString(n / 10), DigitChar(n % 10));
    }
  }

  /** A number below 10^k needs at most k digits. */
  lemma {:induction false} NatToStringLength(n: nat, k: nat)
    requires 1 <= k && n < Pow10(k)
    ensures |NatToString(n)| <= k
  {
    if n >= 10 {
      assert Pow10(1) == 10;
      assert n / 10 < Pow10(k - 1);
      NatToStringLength(n / 10, k - 1);
    }
  }

  lemma {:induction false} RemoveDotsAppend(a: string, b: string)
    ensures RemoveDots(a + b) == RemoveDots(a) + RemoveDots(b)
  {
    if a == [] {
      assert a + b == b;
    } else {
      assert (a + b)[1..] == a[1..] + b;
      RemoveDotsAppend(a[1..], b);
    }
  }

  lemma {:induction false} RemoveDotsNoDots(s: string)
    requires forall i :: 0 <= i < |s| ==> s[i] != '.'
    ensures RemoveDots(s) == s
  {
    if s != [] {
      RemoveDotsNoDots(s[1..]);
    }
  }

  lemma TrimNoWhite(s: string)
    requires s != [] && !IsWhite(s[0]) && !IsWhite(s[|s| - 1])
    ensures TrimEnd(TrimStart(s)) == s
  {
  }

  /** The value `Convert.ToInt32` gives an optional '-' followed by digits. */
  function SignedValue(negative: bool, digits: string): int
    requires AllDigits(digits)
  {
    if negative then -(DigitsValue(digits) as int) else DigitsValue(digits)
  }

  /** `Convert.ToInt32` reads back an optional '-' and a run of digits that fits in 32 bits. */
  lemma ParseSignedDigits(negative: bool, digits: string)
    requires |digits| >= 1 && AllDigits(digits)
    requires MinInt32 <= SignedValue(negative, digits) <= MaxInt32
    ensures ParseInt32((if negative then "-" else "") + digits) == Success(SignedValue(negative, digits))
  {
    var s := (if negative then "-" else "") + digits;
    assert TrimEnd(TrimStart(s)) == s by {
      assert IsDigit(digits[0]) && IsDigit(digits[|digits| - 1]);
      assert s[0] == (if negative then '-' else digits[0]);
      assert s[|s| - 1] == digits[|digits| - 1];
      TrimNoWhite(s);
    }
    if negative {
      assert s[1..] == digits;
    } else {
      assert s == digits;
      assert IsDigit(s[0]);
    }
  }

  /** `int.ToString()` and `Convert.ToInt32` are inverse on 32-bit integers. */
  lemma IntToStringRoundTrip(i: Int32)
    ensures ParseInt32(IntToString(i)) == Success(i)
  {
    var m: nat := if i < 0 then -(i as int) else i;
    NatToStringValue(m);
    ParseSignedDigits(i < 0, NatToString(m));
    if i >= 0 {
      assert IntToString(i) == "" + NatToString(m);
    }
  }

  /** Removing the dots of "<sign><whole>.<fraction>" leaves the digits joined up. */
  lemma {:induction false} RemoveDotsAroundPoint(sign: string, whole: string, fraction: string)
    requires sign == "" || sign == "-"
    requires AllDigits(whole) && AllDigits(fraction)
    ensures RemoveDots(sign + whole + "." + fraction) == sign + (whole + fraction)
  {
    assert RemoveDots(sign + whole) == sign + whole by {
      RemoveDotsAppend(sign, whole);
      RemoveDotsNoDots(sign);
      RemoveDotsNoDots(whole);
    }
    assert RemoveDots(sign + whole + ".") == sign + whole by {
      RemoveDotsAppend(sign + whole, ".");
      assert RemoveDots(".") == [];
    }
    assert RemoveDots(fraction) == fraction by {
      RemoveDotsNoDots(fraction);
    }
    RemoveDotsAppend(sign + whole + ".", fraction);
  }

  lemma ParseAmountOfDigits(text: string, v: int)
    requires ParseInt32(RemoveDots(text)) == Success(v)
    ensures ParseAmount(text) == Success(v)
  {
  }

  /** The digits of whole units and cents, joined, read back as the cents. */
  lemma {:induction false} CentsDigitsValue(m: nat)
    ensures AllDigits(NatToString(m / 100) + TwoDigits(m % 100))
    ensures DigitsValue(NatToString(m / 100) + TwoDigits(m % 100)) == m
  {
    var whole := NatToString(m / 100);
    var frac := TwoDigits(m % 100);
    NatToStringValue(m / 100);
    DigitsValueAppendDigit(whole, frac[0]);
    DigitsValueAppendDigit(whole + [frac[0]], frac[1]);
    assert whole + frac == whole + [frac[0]] + [frac[1]];
  }

  /** `ParseAmount` undoes `FormatAmount` for every 32-bit amount. */
  lemma AmountRoundTrip(cents: Int32)
    ensures ParseAmount(FormatAmount(cents)) == Success(cents)
  {
    var m: nat := if cents < 0 then -(cents as int) else cents;
    var sign := if cents < 0 then "-" else "";
    var digits := NatToString(m / 100) + TwoDigits(m % 100);
    RemoveDotsAroundPoint(sign, NatToString(m / 100), TwoDigits(m % 100));
    assert RemoveDots(FormatAmount(cents)) == sign + digits;
    CentsDigitsValue(m);
    assert SignedValue(cents < 0, digits) == cents;
    ParseSignedDigits(cents < 0, digits);
    ParseAmountOfDigits(FormatAmount(cents), cents);
  }

  /** Amounts up to 999999.99 are written in at most nine characters. */
  lemma AmountTextLength(cents: int)
    requires 0 <= cents <= 99999999
    ensures |FormatAmount(cents)| <= 9
  {
    assert Pow10(6) == 1000000;
    NatToStringLength(cents / 100, 6);
  }

  /**
   * `ParseAmount` does not check the number of fractional digits: whole units followed
   * by a single fractional digit read as ten times fewer cents than they denote
   * ("123.4" reads as 1234, not 12340).
   */
  lemma ParseAmountIgnoresPrecision(whole: string, d: char)
    requires |whole| >= 1 && AllDigits(whole) && IsDigit(d)
    requires DigitsValue(whole) * 10 + DigitValue(d) <= MaxInt32
    ensures ParseAmount(whole + "." + [d]).Success?
    ensures ParseAmount(whole + "." + [d]).value == DigitsValue(whole) * 10 + DigitValue(d)
  {
    var text := whole + "." + [d];
    var digits := whole + [d];
    RemoveDotsAroundPoint("", whole, [d]);
    assert "" + whole == whole;
    assert RemoveDots(text) == digits;
    DigitsValueAppendDigit(whole, d);
    var v := DigitsValue(whole) * 10 + DigitValue(d);
    assert SignedValue(false, digits) == v;
    ParseSignedDigits(false, digits);
    assert "" + digits == digits;
    ParseAmountOfDigits(text, v);
  }
}
