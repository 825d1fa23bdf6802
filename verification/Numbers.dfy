/** Decimal text of the fixed-width integers: `str::parse` for `i64` and `u32`
    with its checked arithmetic, and the text `format!` prints. */
module Numbers {
  import opened Wrappers

  const I64_MIN: int := -0x8000_0000_0000_0000
  const I64_MAX: int := 0x7FFF_FFFF_FFFF_FFFF
  const U32_MAX: int := 0xFFFF_FFFF

  type i64 = n: int | I64_MIN <= n <= I64_MAX
  type u32 = n: int | 0 <= n <= U32_MAX

  // ---------- parsing ----------

  predicate IsDigit(c: char) { '0' <= c <= '9' }

  function DigitValue(c: char): (d: nat)
    requires IsDigit(c)
    ensures d < 10
  {
    c as int - '0' as int
  }

  /** One pass over the digits with an overflow check after the multiplication and after the
      addition (subtraction for negative numbers), as fixed-width checked arithmetic does. */
  function CheckedDigits(s: string, acc: int, negative: bool, lo: int, hi: int): Option<int> {
    if s == "" then Some(acc)
    else if !IsDigit(s[0]) || !(lo <= acc * 10 <= hi) then None
    else
      var next := if negative then acc * 10 - DigitValue(s[0]) else acc * 10 + DigitValue(s[0]);
      if lo <= next <= hi then CheckedDigits(s[1..], next, negative, lo, hi) else None
  }

  function ParseInteger(s: string, signed: bool, lo: int, hi: int): Option<int> {
    if s == "" || s == "+" || s == "-" then None
    else if s[0] == '+' then CheckedDigits(s[1..], 0, false, lo, hi)
    else if s[0] == '-' && signed then CheckedDigits(s[1..], 0, true, lo, hi)
    else CheckedDigits(s, 0, false, lo, hi)
  }

  function ParseI64(s: string): (r: Option<i64>) {
    ParseExact(s, true, I64_MIN, I64_MAX);
    match ParseInteger(s, true, I64_MIN, I64_MAX)
    case Some(n) => Some(n)
    case None => None
  }

  function ParseU32(s: string): (r: Option<u32>) {
    ParseExact(s, false, 0, U32_MAX);
    match ParseInteger(s, false, 0, U32_MAX)
    case Some(n) => Some(n)
    case None => None
  }

  /** `parse::<i64>().unwrap_or(0)` */
  function I64OrZero(s: string): i64 {
    ParseI64(s).GetOr(0)
  }

  // ---------- the exact value, without any machine width ----------

  predicate AllDigits(s: string) {
    forall i :: 0 <= i < |s| ==> IsDigit(s[i])
  }

  function Signed(m: nat, negative: bool): int {
    if negative then 0 - m else m
  }

  function Horner(acc: nat, s: string): (v: nat)
    requires AllDigits(s)
    ensures acc <= v
    decreases s
  {
    if s == "" then acc else Horner(acc * 10 + DigitValue(s[0]), s[1..])
  }

  /** A nonempty run of digits after at most one sign. */
  predicate IsNumeral(s: string, signed: bool) {
    AllDigits(Magnitude(s, signed)) && Magnitude(s, signed) != ""
  }

  function Magnitude(s: string, signed: bool): string {
    if s != "" && (s[0] == '+' || (signed && s[0] == '-')) then s[1..] else s
  }

  function ExactValue(s: string, signed: bool): int
    requires IsNumeral(s, signed)
  {
    Signed(Horner(0, Magnitude(s, signed)), signed && s[0] == '-')
  }

  lemma {:induction false} CheckedIsExact(s: string, m: nat, negative: bool, lo: int, hi: int)
    requires lo <= 0 <= hi
    requires lo <= Signed(m, negative) <= hi
    ensures CheckedDigits(s, Signed(m, negative), negative, lo, hi) ==
            if AllDigits(s) && lo <= Signed(Horner(m, s), negative) <= hi
            then Some(Signed(Horner(m, s), negative)) else None
    decreases s
  {
    if s != "" && IsDigit(s[0]) {
      var next := m * 10 + DigitValue(s[0]);
      assert AllDigits(s) <==> AllDigits(s[1..]) by {
        assert AllDigits(s[1..]) ==> forall i :: 1 <= i < |s| ==> s[i] == s[1..][i - 1];
      }
      if lo <= Signed(next, negative) <= hi {
        CheckedIsExact(s[1..], next, negative, lo, hi);
      }
    }
  }

  /** Checked parsing gives the exact mathematical value when the text is a numeral whose value
      fits, and fails otherwise: it never wraps, saturates or stops early. */
  lemma ParseExact(s: string, signed: bool, lo: int, hi: int)
    requires lo <= 0 <= hi
    ensures ParseInteger(s, signed, lo, hi) ==
            if IsNumeral(s, signed) && lo <= ExactValue(s, signed) <= hi
            then Some(ExactValue(s, signed)) else None
  {
    if s == "" || s == "+" {
    } else if s == "-" {
      assert !IsDigit(s[0]);
    } else if s[0] == '+' {
      CheckedIsExact(s[1..], 0, false, lo, hi);
    } else if s[0] == '-' && signed {
      CheckedIsExact(s[1..], 0, true, lo, hi);
    } else {
      CheckedIsExact(s, 0, false, lo, hi);
    }
  }

  lemma ParseI64Exact(s: string, v: int)
    ensures (ParseI64(s).Some? && ParseI64(s).value == v) <==>
            (IsNumeral(s, true) && ExactValue(s, true) == v && -9223372036854775808 <= v <= 9223372036854775807)
  {
    ParseExact(s, true, I64_MIN, I64_MAX);
  }

  lemma ParseU32Exact(s: string, v: int)
    ensures (ParseU32(s).Some? && ParseU32(s).value == v) <==>
            (IsNumeral(s, false) && ExactValue(s, false) == v && v <= 4294967295)
  {
    ParseExact(s, false, 0, U32_MAX);
  }

  lemma DigitLetters(c: char)
    ensures IsDigit(c) <==> c in "0123456789"
    ensures IsDigit(c) ==> c == "0123456789"[DigitValue(c)]
  {
    if IsDigit(c) {
      assert DigitValue(c) in {0, 1, 2, 3, 4, 5, 6, 7, 8, 9};
    }
  }

  lemma {:induction false} AllDigitsIs(s: string)
    ensures AllDigits(s) <==> forall i :: 0 <= i < |s| ==> s[i] in "0123456789"
  {
    forall i | 0 <= i < |s| ensures IsDigit(s[i]) <==> s[i] in "0123456789" {
      DigitLetters(s[i]);
    }
  }

  lemma SignAndDigits(sign: string, digits: string, signed: bool)
    requires sign in {"", "+"} || (signed && sign == "-")
    requires digits != "" && AllDigits(digits)
    ensures IsNumeral(sign + digits, signed)
    ensures ExactValue(sign + digits, signed) == if sign == "-" then 0 - Horner(0, digits) else Horner(0, digits)
  {
    assert IsDigit(digits[0]);
    if sign == "" {
      assert sign + digits == digits;
    } else {
      assert (sign + digits)[1..] == digits;
    }
  }

  /** A numeral is a sign or none and then digits, and the value of the digits takes that sign. */
  lemma NumeralOf(sign: string, digits: string, signed: bool)
    requires sign in {"", "+"} || (signed && sign == "-")
    requires digits != "" && forall i :: 0 <= i < |digits| ==> digits[i] in "0123456789"
    ensures IsNumeral(sign + digits, signed) && AllDigits(digits)
    ensures ExactValue(sign + digits, signed) == if sign == "-" then 0 - Horner(0, digits) else Horner(0, digits)
  {
    AllDigitsIs(digits);
    SignAndDigits(sign, digits, signed);
  }

  lemma NumeralParts(s: string, signed: bool) returns (sign: string, digits: string)
    requires IsNumeral(s, signed)
    ensures s == sign + digits && (sign in {"", "+"} || (signed && sign == "-"))
    ensures digits != "" && forall i :: 0 <= i < |digits| ==> digits[i] in "0123456789"
  {
    digits := Magnitude(s, signed);
    sign := if |s| == |digits| then "" else [s[0]];
    AllDigitsIs(digits);
  }

  /** A text that is no numeral, or one that does not fit, counts as 0. */
  lemma OrZero(s: string)
    ensures I64OrZero(s) ==
            if IsNumeral(s, true) && -9223372036854775808 <= ExactValue(s, true) <= 9223372036854775807
            then ExactValue(s, true) else 0
  {
    ParseExact(s, true, I64_MIN, I64_MAX);
  }

  // ---------- printing ----------

  function Digit(d: nat): (c: char)
    requires d < 10
    ensures IsDigit(c) && DigitValue(c) == d
  {
    ('0' as int + d) as char
  }

  function NatText(n: nat): (s: string)
    ensures s != "" && AllDigits(s)
  {
    if n < 10 then [Digit(n)] else NatText(n / 10) + [Digit(n % 10)]
  }

  function IntText(n: int): (s: string)
    ensures s != ""
  {
    if n < 0 then "-" + NatText(-n) else NatText(n)
  }

  lemma {:induction false} HornerAppend(acc: nat, s: string, c: char)
    requires AllDigits(s) && IsDigit(c)
    ensures Horner(acc, s + [c]) == Horner(acc, s) * 10 + DigitValue(c)
    decreases s
  {
    if s == "" {
      assert s + [c] == [c];
    } else {
      assert (s + [c])[1..] == s[1..] + [c];
      HornerAppend(acc * 10 + DigitValue(s[0]), s[1..], c);
    }
  }

  lemma {:induction false} NatTextValue(n: nat)
    ensures Horner(0, NatText(n)) == n
  {
    if n >= 10 {
      NatTextValue(n / 10);
      HornerAppend(0, NatText(n / 10), Digit(n % 10));
    }
  }

  lemma DigitLetter(d: nat)
    requires d < 10
    ensures "0123456789"[d] == Digit(d)
  {
    assert d in {0, 1, 2, 3, 4, 5, 6, 7, 8, 9};
  }

  /** Decimal notation, read and written: one more digit d makes 10 * n + d of n. */
  lemma DecimalNotation(s: string, n: nat, d: nat)
    requires AllDigits(s) && d < 10
    ensures IsDigit("0123456789"[d]) && Horner(0, ["0123456789"[d]]) == d
    ensures Horner(0, s + ["0123456789"[d]]) == 10 * Horner(0, s) + d
    ensures NatText(d) == ["0123456789"[d]]
    ensures n > 0 ==> NatText(10 * n + d) == NatText(n) + ["0123456789"[d]]
  {
    DigitLetter(d);
    OneMoreDigit(s, n, d);
  }

  lemma OneMoreDigit(s: string, n: nat, d: nat)
    requires AllDigits(s) && d < 10
    ensures Horner(0, [Digit(d)]) == d
    ensures Horner(0, s + [Digit(d)]) == 10 * Horner(0, s) + d
    ensures NatText(d) == [Digit(d)]
    ensures n > 0 ==> NatText(10 * n + d) == NatText(n) + [Digit(d)]
  {
    HornerAppend(0, s, Digit(d));
    HornerAppend(0, "", Digit(d));
    assert "" + [Digit(d)] == [Digit(d)];
    assert (10 * n + d) / 10 == n && (10 * n + d) % 10 == d;
  }

  lemma NatTextInjective(m: nat, n: nat)
    requires NatText(m) == NatText(n)
    ensures m == n
  {
    NatTextValue(m);
    NatTextValue(n);
  }

  lemma IntTextValue(n: int)
    ensures IsNumeral(IntText(n), true) && ExactValue(IntText(n), true) == n
  {
    if n < 0 {
      NatTextValue(0 - n);
      assert IntText(n)[1..] == NatText(0 - n);
    } else {
      NatTextValue(n);
      assert IsDigit(NatText(n)[0]);
    }
  }

  /** Every `i64`, the smallest included, is read back from its printed text. */
  lemma I64RoundTrip(n: i64)
    ensures ParseI64(IntText(n)) == Some(n)
  {
    IntTextValue(n);
    ParseI64Exact(IntText(n), n);
  }

  /** Leading zeros and one plus sign do not change the index that is read. */
  lemma U32RoundTrip(n: u32, zeros: string)
    requires forall i :: 0 <= i < |zeros| ==> zeros[i] == '0'
    ensures ParseU32(NatText(n)) == Some(n)
    ensures ParseU32(zeros + NatText(n)) == Some(n)
    ensures ParseU32("+" + zeros + NatText(n)) == Some(n)
  {
    var t := zeros + NatText(n);
    HornerZeros(zeros, NatText(n));
    NatTextValue(n);
    ParseU32Exact(NatText(n), n);
    ParseU32Exact(t, n);
    assert ("+" + zeros + NatText(n))[1..] == t;
    ParseU32Exact("+" + zeros + NatText(n), n);
  }

  lemma {:induction false} HornerZeros(zeros: string, s: string)
    requires forall i :: 0 <= i < |zeros| ==> zeros[i] == '0'
    requires AllDigits(s)
    ensures AllDigits(zeros + s) && Horner(0, zeros + s) == Horner(0, s)
  {
    if zeros == "" {
      assert zeros + s == s;
    } else {
      assert (zeros + s)[1..] == zeros[1..] + s;
      HornerZeros(zeros[1..], s);
    }
  }
}
