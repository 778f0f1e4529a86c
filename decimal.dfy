/**
 * Base-10 integers as the handlers see them: Go's `int` (64 bits on the
 * platforms the service targets), `strconv.Atoi` for reading a query
 * parameter and the `%d` verb of `fmt.Sprintf` for writing one.
 */
module Decimal {
  import opened Options

  const MaxInt64: int := 0x7FFF_FFFF_FFFF_FFFF
  const MinInt64: int := -0x8000_0000_0000_0000
  const MaxUint64: int := 0xFFFF_FFFF_FFFF_FFFF
  /** 2^64, the modulus of Go's 64-bit integer arithmetic. */
  const Modulus: int := 0x1_0000_0000_0000_0000

  predicate IsInt64(n: int) {
    MinInt64 <= n <= MaxInt64
  }

  /**
   * Go's `+` and `-` on two `int`s: the mathematical result, which lies
   * within 2^64 of the int64 range, wrapped back into it.
   */
  function Wrap64(n: int): (r: int)
    requires -Modulus <= n < Modulus
    ensures IsInt64(r)
    ensures r == n || r == n - Modulus || r == n + Modulus
  {
    if n > MaxInt64 then n - Modulus
    else if n < MinInt64 then n + Modulus
    else n
  }

  /** `a + b` on Go ints: exact unless it overflows; a sum above the range comes out negative, one below it non-negative. */
  function Add64(a: int, b: int): (r: int)
    requires IsInt64(a) && IsInt64(b)
    ensures IsInt64(r)
    ensures IsInt64(a + b) ==> r == a + b
    ensures a + b > MaxInt64 ==> r == a + b - Modulus && r < 0
    ensures a + b < MinInt64 ==> r == a + b + Modulus && r >= 0
  {
    Wrap64(a + b)
  }

  /** `a - b` on Go ints: exact unless it overflows; a difference below the range comes out non-negative, one above it negative. */
  function Sub64(a: int, b: int): (r: int)
    requires IsInt64(a) && IsInt64(b)
    ensures IsInt64(r)
    ensures IsInt64(a - b) ==> r == a - b
    ensures a - b < MinInt64 ==> r == a - b + Modulus && r >= 0
    ensures a - b > MaxInt64 ==> r == a - b - Modulus && r < 0
  {
    Wrap64(a - b)
  }

  predicate IsDigit(c: char) {
    '0' <= c <= '9'
  }

  predicate AllDigits(s: string) {
    forall i :: 0 <= i < |s| ==> IsDigit(s[i])
  }

  function DigitValue(c: char): (d: nat)
    requires IsDigit(c)
    ensures d < 10
  {
    c as int - '0' as int
  }

  function DigitChar(d: nat): (c: char)
    requires d < 10
    ensures IsDigit(c) && DigitValue(c) == d
  {
    (d + '0' as int) as char
  }

  /** The value a left-to-right `n = n*10 + digit` accumulation gives for a digit string. */
  function DigitsValue(s: string): nat
    requires AllDigits(s)
  {
    if s == [] then 0 else 10 * DigitsValue(s[..|s| - 1]) + DigitValue(s[|s| - 1])
  }

  /** The decimal digits of a natural number, most significant first, no leading zero. */
  function Digits(n: nat): (s: string)
    ensures |s| > 0 && AllDigits(s)
    ensures |s| > 1 ==> s[0] != '0'
  {
    if n < 10 then [DigitChar(n)] else Digits(n / 10) + [DigitChar(n % 10)]
  }

  /** `fmt.Sprintf("%d", n)`: a minus sign for negative numbers, then the digits of |n|. */
  function Dec(n: int): (s: string)
    ensures |s| > 0
    ensures n < 0 <==> s[0] == '-'
    ensures forall i :: 0 <= i < |s| ==> IsDigit(s[i]) || (i == 0 && s[i] == '-')
  {
    if n < 0 then "-" + Digits(-n) else Digits(n)
  }

  /** Why `strconv.Atoi` rejected its input. */
  datatype NumError = ErrSyntax | ErrRange

  /** The pair `(int, error)` returned by `strconv.Atoi`. */
  datatype Conversion = Conversion(value: int, err: Option<NumError>)

  /** The text after an optional leading sign. */
  function Unsigned(s: string): (body: string)
    ensures |body| <= |s|
  {
    if |s| > 0 && (s[0] == '-' || s[0] == '+') then s[1..] else s
  }

  /** The grammar `[+-]?[0-9]+` that `strconv.Atoi` accepts, range aside. */
  predicate IsDecimal(s: string) {
    |Unsigned(s)| > 0 && AllDigits(Unsigned(s))
  }

  /** The integer a string of the grammar above denotes, unbounded. */
  function SignedValue(s: string): int
    requires IsDecimal(s)
  {
    if s[0] == '-' then -(DigitsValue(Unsigned(s)) as int) else DigitsValue(Unsigned(s))
  }

  /** The length of the run of digits that starts a string. */
  function DigitRun(s: string): (k: nat)
    ensures k <= |s| && AllDigits(s[..k])
    ensures k < |s| ==> !IsDigit(s[k])
  {
    if s == [] || !IsDigit(s[0]) then 0
    else
      var k := 1 + DigitRun(s[1..]);
      assert s[..k] == [s[0]] + s[1..][..k - 1];
      k
  }

  /**
   * `strconv.Atoi`. A sign, then base-10 digits scanned left to right: a
   * non-digit met before the accumulated value overflows 64 bits is a syntax
   * error with value 0; an overflow met first, or a complete number outside
   * the int64 range, is a range error with the value clamped to the nearest
   * int64 bound.
   */
  function Atoi(s: string): (c: Conversion)
    ensures IsInt64(c.value)
    ensures c.err.None? <==> IsDecimal(s) && IsInt64(SignedValue(s))
    ensures c.err.None? ==> c.value == SignedValue(s)
    ensures c.err == Some(ErrSyntax) ==> c.value == 0 && !IsDecimal(s)
    ensures c.err == Some(ErrRange) ==> c.value == MaxInt64 || c.value == MinInt64
  {
    var neg := |s| > 0 && s[0] == '-';
    var body := Unsigned(s);
    var k := DigitRun(body);
    if body == [] then
      Conversion(0, Some(ErrSyntax))
    else if DigitsValue(body[..k]) > MaxUint64 then
      assert AllDigits(body) ==> body[..k] == body;
      Conversion(if neg then MinInt64 else MaxInt64, Some(ErrRange))
    else if k < |body| then
      Conversion(0, Some(ErrSyntax))
    else
      assert body[..k] == body;
      var m: int := if neg then -(DigitsValue(body) as int) else DigitsValue(body);
      if IsInt64(m) then Conversion(m, None)
      else Conversion(if neg then MinInt64 else MaxInt64, Some(ErrRange))
  }

  lemma {:induction false} DigitsValueOfDigits(n: nat)
    ensures DigitsValue(Digits(n)) == n
  {
    var s := Digits(n);
    if n >= 10 {
      DigitsValueOfDigits(n / 10);
      assert s[..|s| - 1] == Digits(n / 10);
    }
  }

  /** Every int64 survives being written with `%d` and read back with `strconv.Atoi`. */
  lemma {:induction false} AtoiDec(n: int)
    requires IsInt64(n)
    ensures Atoi(Dec(n)) == Conversion(n, None)
  {
    var s := Dec(n);
    if n < 0 {
      assert Unsigned(s) == Digits(-n);
      DigitsValueOfDigits(-n);
    } else {
      assert Unsigned(s) == Digits(n);
      DigitsValueOfDigits(n);
    }
    assert IsDecimal(s) && SignedValue(s) == n;
  }

  /** A missing query parameter reads as the empty string, which `strconv.Atoi` rejects as syntax. */
  lemma AtoiEmpty()
    ensures Atoi("") == Conversion(0, Some(ErrSyntax))
  {
  }
}
