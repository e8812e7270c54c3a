/** Decimal text of integers: what Rust's `{}` formatting prints and what `str::parse` reads back. */
module Decimal {
  import opened Results

  const I64_MIN: int := -0x8000_0000_0000_0000
  const I64_MAX: int := 0x7fff_ffff_ffff_ffff
  const USIZE_MAX: int := 0xffff_ffff_ffff_ffff

  predicate IsDigit(c: char) {
    '0' <= c <= '9'
  }

  predicate AllDigits(s: string) {
    forall i | 0 <= i < |s| :: IsDigit(s[i])
  }

  function DigitChar(d: nat): (c: char)
    requires d < 10
    ensures IsDigit(c) && DigitValue(c) == d
  {
    (d + 48) as char
  }

  function DigitValue(c: char): nat
    requires IsDigit(c)
  {
    c as int - 48
  }

  function OfNat(n: nat): (s: string)
    ensures s != [] && AllDigits(s)
  {
    if n < 10 then [DigitChar(n)] else OfNat(n / 10) + [DigitChar(n % 10)]
  }

  function OfInt(n: int): (s: string)
    ensures s != [] && forall i | 0 <= i < |s| :: IsDigit(s[i]) || s[i] == '-'
  {
    if n < 0 then "-" + OfNat(-n) else OfNat(n)
  }

  function DigitsValue(s: string): nat
    requires AllDigits(s)
  {
    if s == [] then 0 else 10 * DigitsValue(s[..|s| - 1]) + DigitValue(s[|s| - 1])
  }

  /** Unsigned digits, at least one. */
  function ParseNat(s: string): Option<nat> {
    if s == [] || !AllDigits(s) then None else Some(DigitsValue(s))
  }

  /** A JSON integer, section 6 of RFC 8259: an optional minus sign and digits, with no zero before another digit. */
  function ParseInt(s: string): Option<int> {
    var negative := s != [] && s[0] == '-';
    var digits := if negative then s[1..] else s;
    if |digits| > 1 && digits[0] == '0' then None
    else
      match ParseNat(digits)
      case None => None
      case Some(n) => Some(if negative then 0 - n else n as int)
  }

  /** `str::parse::<i64>`: an optional sign, at least one digit, and no overflow. */
  function ParseI64(s: string): Option<int> {
    var negative := s != [] && s[0] == '-';
    var digits := if s != [] && (s[0] == '-' || s[0] == '+') then s[1..] else s;
    match ParseNat(digits)
    case None => None
    case Some(n) =>
      var value := if negative then 0 - n else n as int;
      if I64_MIN <= value <= I64_MAX then Some(value) else None
  }

  /** `str::parse::<usize>`: an optional plus sign, at least one digit, and no overflow. */
  function ParseUsize(s: string): Option<nat> {
    match ParseNat(if s != [] && s[0] == '+' then s[1..] else s)
    case None => None
    case Some(n) => if n <= USIZE_MAX then Some(n) else None
  }

  lemma {:induction false} DigitsValueOfNat(n: nat)
    ensures DigitsValue(OfNat(n)) == n
  {
    if n < 10 {
      assert DigitsValue([DigitChar(n)]) == 10 * DigitsValue([]) + n;
    } else {
      DigitsValueOfNat(n / 10);
      assert OfNat(n)[..|OfNat(n)| - 1] == OfNat(n / 10);
    }
  }

  lemma ParseUsizeOfNat(n: nat)
    requires n <= USIZE_MAX
    ensures ParseUsize(OfNat(n)) == Some(n)
  {
    DigitsValueOfNat(n);
    assert IsDigit(OfNat(n)[0]);
  }

  lemma ParseI64OfInt(n: int)
    requires I64_MIN <= n <= I64_MAX
    ensures ParseI64(OfInt(n)) == Some(n)
  {
    var magnitude := if n < 0 then -n else n;
    DigitsValueOfNat(magnitude);
    assert IsDigit(OfNat(magnitude)[0]);
    if n < 0 {
      assert OfInt(n)[1..] == OfNat(-n);
    }
  }

  lemma {:induction false} NoLeadingZero(n: nat)
    ensures if n == 0 then OfNat(n) == "0" else OfNat(n)[0] != '0'
  {
    if n >= 10 {
      NoLeadingZero(n / 10);
    }
  }

  /** Decimal text is the one text of digits with that value and no zero in front of another digit. */
  lemma {:induction false} OfNatIs(n: nat, s: string)
    ensures s == OfNat(n) <==>
            s != [] && AllDigits(s) && DigitsValue(s) == n && (|s| > 1 ==> s[0] != '0')
    decreases |s|
  {
    NoLeadingZero(n);
    DigitsValueOfNat(n);
    if s != [] && AllDigits(s) && DigitsValue(s) == n && (|s| > 1 ==> s[0] != '0') {
      var front, last := s[..|s| - 1], DigitValue(s[|s| - 1]);
      assert DigitsValue(s) == 10 * DigitsValue(front) + last;
      if front == [] {
        assert s == [DigitChar(n)];
      } else {
        OfNatIs(DigitsValue(front), front);
        NoLeadingZero(DigitsValue(front));
        assert front == OfNat(DigitsValue(front)) && DigitsValue(front) > 0;
        assert n / 10 == DigitsValue(front) && n % 10 == last;
        assert s == front + [DigitChar(last)];
      }
    }
  }

  /** Base ten, with the usual digits and a minus sign. */
  lemma WritesDecimal(m: nat, d: nat)
    requires d < 10
    ensures OfNat(d) == ["0123456789"[d]]
    ensures m > 0 ==> OfNat(10 * m + d) == OfNat(m) + OfNat(d) && OfInt(0 - m) == "-" + OfNat(m)
    ensures OfInt(m) == OfNat(m)
  {
    assert (10 * m + d) / 10 == m && (10 * m + d) % 10 == d;
  }

  lemma ParseIntOfInt(n: int)
    ensures ParseInt(OfInt(n)) == Some(n)
  {
    NoLeadingZero(if n < 0 then -n else n);
    DigitsValueOfNat(if n < 0 then -n else n);
    assert n >= 0 ==> IsDigit(OfInt(n)[0]);
    assert n < 0 ==> OfInt(n)[1..] == OfNat(-n);
  }

  lemma OfIntInjective(m: int, n: int)
    requires OfInt(m) == OfInt(n)
    ensures m == n
  {
    ParseIntOfInt(m);
    ParseIntOfInt(n);
  }

  predicate IsNumeral(s: string, n: int) {
    s != [] && AllDigits(s) && DigitsValue(s) == n
  }

  /** What Rust reads as a 64-bit integer: an optional sign, digits, and a value in range. */
  lemma ParseI64Iff(s: string, n: int)
    ensures ParseI64(s) == Some(n) <==>
            && -9223372036854775808 <= n <= 9223372036854775807
            && (IsNumeral(s, n) || ("+" <= s && IsNumeral(s[1..], n)) || ("-" <= s && IsNumeral(s[1..], -n)))
  {
    assert s != [] && AllDigits(s) ==> IsDigit(s[0]);
  }

  /** What Rust reads as a length: an optional plus sign, digits, and a value in range. */
  lemma ParseUsizeIff(s: string, n: nat)
    ensures ParseUsize(s) == Some(n) <==>
            n <= 18446744073709551615 && (IsNumeral(s, n) || ("+" <= s && IsNumeral(s[1..], n)))
  {
    assert s != [] && AllDigits(s) ==> IsDigit(s[0]);
  }
}
