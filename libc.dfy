/**
  The two C library conversions the assembler relies on:
  `strtol(s, NULL, 0)`, which reads a number with automatic base detection,
  and `snprintf(buf, n, "%d", v)`, which writes a number in decimal.
  The model has unbounded integers, so `strtol`'s saturation at
  LONG_MIN/LONG_MAX does not happen here.
*/
module LibC {

  /** `isspace` in the C locale. */
  predicate IsSpace(c: char)
  {
    c == ' ' || ('\t' <= c <= '\r')
  }

  /** The value of a digit character in bases up to 36; 36 when it is not a digit. */
  function DigitValue(c: char): (d: nat)
    ensures d <= 36
  {
    if '0' <= c <= '9' then c as nat - '0' as nat
    else if 'a' <= c <= 'z' then c as nat - 'a' as nat + 10
    else if 'A' <= c <= 'Z' then c as nat - 'A' as nat + 10
    else 36
  }

  predicate IsDigitIn(c: char, base: nat)
  {
    DigitValue(c) < base
  }

  /** Length of the longest prefix of `s` made of digits of `base`. */
  function DigitRun(s: string, base: nat): (n: nat)
    ensures n <= |s|
  {
    if s == [] || !IsDigitIn(s[0], base) then 0 else 1 + DigitRun(s[1..], base)
  }

  /** The value of a string of digits, most significant first. */
  function DigitsValue(ds: string, base: nat): nat
  {
    if ds == [] then 0 else DigitsValue(ds[..|ds| - 1], base) * base + DigitValue(ds[|ds| - 1])
  }

  function SkipSpaces(s: string): (t: string)
    ensures |t| <= |s|
  {
    if s != [] && IsSpace(s[0]) then SkipSpaces(s[1..]) else s
  }

  /** The unsigned part of `strtol` with base 0: "0x"/"0X" then hex, a leading 0 then octal, else decimal. */
  function UnsignedValue(u: string): nat
  {
    if |u| >= 3 && u[0] == '0' && (u[1] == 'x' || u[1] == 'X') && IsDigitIn(u[2], 16) then
      DigitsValue(u[2..][..DigitRun(u[2..], 16)], 16)
    else if u != [] && u[0] == '0' then
      DigitsValue(u[..DigitRun(u, 8)], 8)
    else
      DigitsValue(u[..DigitRun(u, 10)], 10)
  }

  /** `strtol(s, NULL, 0)`: leading white space, an optional sign, then the digits; 0 when there are none. */
  function StrToL(s: string): int
  {
    var t := SkipSpaces(s);
    if t != [] && t[0] == '-' then -(UnsignedValue(t[1..]) as int)
    else if t != [] && t[0] == '+' then UnsignedValue(t[1..])
    else UnsignedValue(t)
  }

  function DigitChar(d: nat): (c: char)
    requires d < 10
    ensures DigitValue(c) == d
  {
    ('0' as int + d) as char
  }

  /** `snprintf(buf, n, "%d", v)` for a non-negative `v`. */
  function FormatDecimal(n: nat): (s: string)
    ensures s != []
  {
    if n < 10 then [DigitChar(n)] else FormatDecimal(n / 10) + [DigitChar(n % 10)]
  }

  lemma {:induction false} FormatDecimalDigits(n: nat)
    ensures forall c <- FormatDecimal(n) :: IsDigitIn(c, 10)
    ensures DigitsValue(FormatDecimal(n), 10) == n
    ensures n > 0 ==> FormatDecimal(n)[0] != '0'
  {
    if n >= 10 {
      FormatDecimalDigits(n / 10);
      var s := FormatDecimal(n / 10) + [DigitChar(n % 10)];
      assert s[..|s| - 1] == FormatDecimal(n / 10);
    }
  }

  lemma {:induction false} DigitRunOfDigits(s: string, base: nat)
    requires forall c <- s :: IsDigitIn(c, base)
    ensures DigitRun(s, base) == |s|
  {
    if s != [] {
      assert s[0] in s;
      forall c <- s[1..] ensures IsDigitIn(c, base) {
        assert c in s;
      }
      DigitRunOfDigits(s[1..], base);
    }
  }

  /** `strtol` reads back what `%d` wrote. */
  lemma StrToLFormatDecimal(n: nat)
    ensures StrToL(FormatDecimal(n)) == n
  {
    var s := FormatDecimal(n);
    FormatDecimalDigits(n);
    assert s[0] in s;
    assert SkipSpaces(s) == s;
    if n == 0 {
      assert s == "0";
      assert s[1..] == "";
      assert DigitRun(s, 8) == 1;
      assert s[..1] == s && s[..|s| - 1] == "";
      assert DigitsValue(s, 8) == 0;
    } else {
      DigitRunOfDigits(s, 10);
      assert s[..|s|] == s;
    }
  }

  /** `strtol` reads a '-' before what `%d` wrote as the negated value. */
  lemma StrToLFormatNegative(n: nat)
    ensures StrToL("-" + FormatDecimal(n)) == -(n as int)
  {
    var s := FormatDecimal(n);
    StrToLFormatDecimal(n);
    FormatDecimalDigits(n);
    assert s[0] in s;
    assert SkipSpaces(s) == s;
    assert ("-" + s)[1..] == s;
  }

  /** Examples of the base detection. */
  lemma StrToLExamples()
    ensures StrToL("0x1F") == 31
    ensures StrToL("010") == 8
    ensures StrToL("-12]") == -12
  {
    assert DigitRun("1F", 16) == 2;
    assert DigitsValue("1F", 16) == 31 by {
      assert "1F"[..1] == "1";
      assert "1"[..0] == "";
    }
    assert "0x1F"[2..] == "1F";
    assert "1F"[..2] == "1F";
    assert DigitRun("010", 8) == 3;
    assert "010"[..3] == "010";
    assert "010"[..2] == "01";
    assert "01"[..1] == "0";
    assert "0"[..0] == "";
    assert "-12]"[1..] == "12]";
    assert DigitRun("12]", 10) == 2;
    assert "12]"[..2] == "12";
    assert "12"[..1] == "1";
    assert "1"[..0] == "";
  }
}
