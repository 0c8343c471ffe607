/** Signed 64-bit integers as Go has them: bounds, wrap-around, and the decimal text that
    `strconv.FormatInt(_, 10)` prints and `strconv.ParseInt(_, 10, 64)` reads. */
module Int64 {
  import opened Wrappers

  const MIN := -0x8000_0000_0000_0000
  const MAX := 0x7FFF_FFFF_FFFF_FFFF

  predicate InRange(x: int) {
    MIN <= x <= MAX
  }

  // Two's complement wrap-around of an arithmetic result.
  function Wrap(x: int): (r: int)
    ensures InRange(r)
    ensures InRange(x) ==> r == x
  {
    (x - MIN) % 0x1_0000_0000_0000_0000 + MIN
  }

  function Multiply(x: int, y: int): int {
    Wrap(x * y)
  }

  predicate IsDigit(c: char) {
    '0' <= c <= '9'
  }

  predicate AllDigits(s: string) {
    forall i :: 0 <= i < |s| ==> IsDigit(s[i])
  }

  function DigitsValue(s: string): int
    requires AllDigits(s)
  {
    if s == "" then 0
    else 10 * DigitsValue(s[..|s| - 1]) + (s[|s| - 1] as int - '0' as int)
  }

  // An optional sign, at least one digit, and a value that fits. Go reports bad syntax and
  // overflow as different errors, but no caller in the repository tells them apart.
  function Parse(s: string): Option<int> {
    if s == "" then None
    else
      var digits := if s[0] == '+' || s[0] == '-' then s[1..] else s;
      if digits == "" || !AllDigits(digits) then None
      else
        var value := if s[0] == '-' then -DigitsValue(digits) else DigitsValue(digits);
        if InRange(value) then Some(value) else None
  }

  const DECIMAL := "0123456789"

  // Decimal notation: one digit more is ten times the value, and the digit.
  lemma DigitAppended(s: string, n: nat)
    requires AllDigits(s) && n < 10
    ensures AllDigits(s + [DECIMAL[n]]) && DigitsValue(s + [DECIMAL[n]]) == 10 * DigitsValue(s) + n
    ensures DigitsValue("") == 0
  {
    assert (s + [DECIMAL[n]])[..|s|] == s;
  }

  lemma DigitsExactly(c: char)
    ensures IsDigit(c) <==> c in DECIMAL
  {
    assert IsDigit(c) ==> DECIMAL[c as int - '0' as int] == c;
  }

  // Digits, with or without a sign, are read as the number they write, if that fits; nothing else is
  // read as a number.
  lemma ParseReads(s: string)
    requires s != "" && AllDigits(s)
    ensures var value := DigitsValue(s);
            && Parse(s) == (if value < 0x8000_0000_0000_0000 then Some(value) else None)
            && Parse("+" + s) == Parse(s)
            && Parse("-" + s) == (if value <= 0x8000_0000_0000_0000 then Some(-value) else None)
  {
    DigitsNotNegative(s);
    assert IsDigit(s[0]);
    assert ("+" + s)[1..] == s && ("-" + s)[1..] == s;
  }

  lemma ParseRejects(s: string)
    requires s == "" || !AllDigits(s)
    ensures Parse("+" + s) == None && Parse("-" + s) == None
    ensures s == "" || (s[0] != '+' && s[0] != '-') ==> Parse(s) == None
  {
    assert ("+" + s)[1..] == s && ("-" + s)[1..] == s;
  }

  lemma {:induction false} DigitsNotNegative(s: string)
    ensures AllDigits(s) ==> DigitsValue(s) >= 0
    decreases |s|
  {
    if s != "" {
      DigitsNotNegative(s[..|s| - 1]);
    }
  }

  function FormatNat(n: nat): string {
    var digit := ('0' as int + n % 10) as char;
    if n < 10 then [digit] else FormatNat(n / 10) + [digit]
  }

  function Format(n: int): string {
    if n < 0 then "-" + FormatNat(-n) else FormatNat(n)
  }

  lemma {:induction false} FormatNatReadsBack(n: nat)
    ensures FormatNat(n) != "" && AllDigits(FormatNat(n))
    ensures DigitsValue(FormatNat(n)) == n
    ensures n > 0 ==> FormatNat(n)[0] != '0'
  {
    var s := FormatNat(n);
    if n >= 10 {
      FormatNatReadsBack(n / 10);
      assert s[..|s| - 1] == FormatNat(n / 10);
    } else {
      assert s[..|s| - 1] == "";
    }
  }

  // What FormatInt prints, ParseInt reads back, over the whole 64-bit range.
  lemma ParseFormat(n: int)
    requires InRange(n)
    ensures Parse(Format(n)) == Some(n)
  {
    var magnitude := if n < 0 then -n else n;
    FormatNatReadsBack(magnitude);
    assert IsDigit(FormatNat(magnitude)[0]);
    assert n < 0 ==> Format(n)[1..] == FormatNat(magnitude);
  }

  lemma FormatInjective(m: int, n: int)
    requires Format(m) == Format(n)
    ensures m == n
  {
    FormatNatReadsBack(if m < 0 then -m else m);
    FormatNatReadsBack(if n < 0 then -n else n);
    assert IsDigit(FormatNat(if m < 0 then -m else m)[0]);
    assert IsDigit(FormatNat(if n < 0 then -n else n)[0]);
    if m < 0 && n < 0 {
      assert Format(m)[1..] == FormatNat(-m);
      assert Format(n)[1..] == FormatNat(-n);
    }
  }

  lemma FormatHasNoNul(n: int)
    ensures '\0' !in Format(n)
  {
    FormatNatReadsBack(if n < 0 then -n else n);
  }
}
