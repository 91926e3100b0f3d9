/**
 * `str::parse::<i64>` (Rust's `i64::from_str`): an optional '+' or '-',
 * then one or more ASCII decimal digits, with a value that fits in 64 bits.
 * The digits are read left to right; the first offending character, or the
 * first digit that takes the running value out of range, decides the error.
 */
module IntParse {
  import opened Wrappers

  const I64Min: int := -0x8000_0000_0000_0000
  const I64Max: int := 0x7FFF_FFFF_FFFF_FFFF

  predicate IsI64(n: int) {
    I64Min <= n <= I64Max
  }

  /** `core::num::IntErrorKind`, restricted to the kinds `i64` parsing reports. */
  datatype IntErrorKind = Empty | InvalidDigit | PosOverflow | NegOverflow

  /** `core::num::ParseIntError`. */
  datatype ParseIntError = ParseIntError(kind: IntErrorKind)

  predicate IsDigit(c: char) {
    '0' <= c <= '9'
  }

  predicate AllDigits(s: string) {
    forall i :: 0 <= i < |s| ==> IsDigit(s[i])
  }

  function DigitValue(c: char): (d: nat)
    requires IsDigit(c)
    ensures d < 10
  {
    c as int - '0' as int
  }

  function Pow10(n: nat): (p: nat)
    ensures p >= 1
  {
    if n == 0 then 1 else 10 * Pow10(n - 1)
  }

  /** The number a string of decimal digits denotes (most significant first). */
  function DecimalValue(ds: string): nat
    requires AllDigits(ds)
  {
    if ds == [] then 0 else DigitValue(ds[0]) * Pow10(|ds| - 1) + DecimalValue(ds[1..])
  }

  /** The digits after an optional leading sign. */
  function Magnitude(s: string): string
  {
    if s != [] && (s[0] == '+' || s[0] == '-') then s[1..] else s
  }

  /** A decimal integer literal as `i64::from_str` reads it. */
  predicate IsIntLiteral(s: string) {
    Magnitude(s) != [] && AllDigits(Magnitude(s))
  }

  /** The value of a literal, before any range check. */
  function LiteralValue(s: string): int
    requires IsIntLiteral(s)
  {
    if s[0] == '-' then -(DecimalValue(Magnitude(s)) as int) else DecimalValue(Magnitude(s))
  }

  /**
   * The digit loop of `from_str_radix`: multiply by ten, then add (or, after
   * a '-', subtract) the next digit, checking the range at every step.
   * A success means every character was a digit.
   */
  function Accumulate(ds: string, acc: int, negative: bool): (r: Result<int, ParseIntError>)
    ensures r.Ok? ==> AllDigits(ds)
  {
    if ds == [] then Ok(acc)
    else if !IsDigit(ds[0]) then Err(ParseIntError(InvalidDigit))
    else if negative then
      var next := acc * 10 - DigitValue(ds[0]);
      if next < I64Min then Err(ParseIntError(NegOverflow))
      else
        var r := Accumulate(ds[1..], next, negative);
        assert r.Ok? ==> ds == [ds[0]] + ds[1..];
        r
    else
      var next := acc * 10 + DigitValue(ds[0]);
      if next > I64Max then Err(ParseIntError(PosOverflow))
      else
        var r := Accumulate(ds[1..], next, negative);
        assert r.Ok? ==> ds == [ds[0]] + ds[1..];
        r
  }

  /** `"…".parse::<i64>()`. */
  function ParseI64(s: string): Result<int, ParseIntError>
  {
    if s == [] then Err(ParseIntError(Empty))
    else if (s[0] == '+' || s[0] == '-') && |s| == 1 then Err(ParseIntError(InvalidDigit))
    else if s[0] == '+' then Accumulate(s[1..], 0, false)
    else if s[0] == '-' then Accumulate(s[1..], 0, true)
    else Accumulate(s, 0, false)
  }

  lemma MulStep(acc: int, d: int, n: nat)
    requires n >= 1
    ensures acc * Pow10(n) + d * Pow10(n - 1) == (acc * 10 + d) * Pow10(n - 1)
  {
    assert Pow10(n) == 10 * Pow10(n - 1);
  }

  /** The non-negative loop computes `acc * 10^|ds| + value(ds)`, or overflows. */
  lemma {:induction false} AccumulatePositive(ds: string, acc: int)
    requires AllDigits(ds) && 0 <= acc <= I64Max
    ensures var v := acc * Pow10(|ds|) + DecimalValue(ds);
      Accumulate(ds, acc, false) == if v <= I64Max then Ok(v) else Err(ParseIntError(PosOverflow))
  {
    if ds != [] {
      var n := |ds|;
      var d := DigitValue(ds[0]);
      var next := acc * 10 + d;
      var p := Pow10(n - 1);
      var rest := DecimalValue(ds[1..]);
      PositiveStep(acc, d, n, rest);
      if next > I64Max {
        PositiveScale(next, p, rest);
      } else {
        AccumulatePositive(ds[1..], next);
      }
    }
  }

  /** One digit of the non-negative loop, as arithmetic. */
  lemma PositiveStep(acc: int, d: nat, n: nat, rest: nat)
    requires n >= 1
    ensures acc * Pow10(n) + (d * Pow10(n - 1) + rest) == (acc * 10 + d) * Pow10(n - 1) + rest
  {
    MulStep(acc, d, n);
  }

  /** Scaling a positive number by a positive power of ten only makes it larger. */
  lemma PositiveScale(x: int, p: int, rest: nat)
    requires x > 0 && p >= 1
    ensures x * p + rest >= x
  {
  }

  /** After a '-', the loop computes `acc * 10^|ds| - value(ds)`, or overflows. */
  lemma {:induction false} AccumulateNegative(ds: string, acc: int)
    requires AllDigits(ds) && I64Min <= acc <= 0
    ensures var v := acc * Pow10(|ds|) - DecimalValue(ds);
      Accumulate(ds, acc, true) == if v >= I64Min then Ok(v) else Err(ParseIntError(NegOverflow))
  {
    if ds != [] {
      var n := |ds|;
      var d := DigitValue(ds[0]);
      var next := acc * 10 - d;
      var p := Pow10(n - 1);
      var rest := DecimalValue(ds[1..]);
      NegativeStep(acc, d, n, rest);
      if next < I64Min {
        NegativeScale(next, p, rest);
      } else {
        AccumulateNegative(ds[1..], next);
      }
    }
  }

  /** One digit of the negative loop, as arithmetic. */
  lemma NegativeStep(acc: int, d: nat, n: nat, rest: nat)
    requires n >= 1
    ensures acc * Pow10(n) - (d * Pow10(n - 1) + rest) == (acc * 10 - d) * Pow10(n - 1) - rest
  {
    MulStep(acc, -(d as int), n);
  }

  /** Scaling a negative number by a positive power of ten only makes it smaller. */
  lemma NegativeScale(x: int, p: int, rest: nat)
    requires x < 0 && p >= 1
    ensures x * p - rest <= x
  {
  }

  /**
   * `parse::<i64>` succeeds exactly on literals whose value is an `i64`,
   * and then returns that value.
   */
  lemma ParseI64Ok(s: string)
    ensures ParseI64(s).Ok? <==> IsIntLiteral(s) && IsI64(LiteralValue(s))
    ensures ParseI64(s).Ok? ==> ParseI64(s).value == LiteralValue(s)
  {
    var m := Magnitude(s);
    if s != [] && !(|s| == 1 && (s[0] == '+' || s[0] == '-')) && AllDigits(m) {
      if s[0] == '-' {
        AccumulateNegative(m, 0);
      } else {
        AccumulatePositive(m, 0);
      }
    }
  }

  /** A literal out of range fails with the overflow of its sign. */
  lemma ParseI64Overflow(s: string)
    requires IsIntLiteral(s) && !IsI64(LiteralValue(s))
    ensures ParseI64(s) == Err(ParseIntError(if s[0] == '-' then NegOverflow else PosOverflow))
  {
    if s[0] == '-' {
      AccumulateNegative(Magnitude(s), 0);
    } else {
      AccumulatePositive(Magnitude(s), 0);
    }
  }

  /** The empty string and a lone sign are the two errors decided before any digit. */
  lemma ParseI64NoDigits(s: string)
    ensures s == "" ==> ParseI64(s) == Err(ParseIntError(Empty))
    ensures s == "+" || s == "-" ==> ParseI64(s) == Err(ParseIntError(InvalidDigit))
  {
  }

  /** The decimal digits of a natural number, most significant first, no leading zero. */
  function NatDigits(n: nat): (s: string)
    ensures s != [] && AllDigits(s) && DecimalValue(s) == n
  {
    var c := ('0' as int + n % 10) as char;
    if n < 10 then [c]
    else
      var s := NatDigits(n / 10) + [c];
      DecimalValueSnoc(NatDigits(n / 10), c);
      s
  }

  /** Appending a digit multiplies by ten and adds it. */
  lemma {:induction false} DecimalValueSnoc(ds: string, c: char)
    requires AllDigits(ds) && IsDigit(c)
    ensures AllDigits(ds + [c])
    ensures DecimalValue(ds + [c]) == 10 * DecimalValue(ds) + DigitValue(c)
  {
    if ds != [] {
      assert (ds + [c])[1..] == ds[1..] + [c];
      DecimalValueSnoc(ds[1..], c);
      var d := DigitValue(ds[0]);
      assert Pow10(|ds|) == 10 * Pow10(|ds| - 1);
      assert d * Pow10(|ds|) == 10 * (d * Pow10(|ds| - 1));
    }
  }

  /** `i64`'s `Display`: a '-' for negatives, then the decimal digits. */
  function I64ToString(n: int): string
  {
    if n < 0 then "-" + NatDigits(-n) else NatDigits(n)
  }

  /** Parsing gives back every `i64` that `Display` wrote. */
  lemma ParseI64ToString(n: int)
    requires IsI64(n)
    ensures ParseI64(I64ToString(n)) == Ok(n)
  {
    var s := I64ToString(n);
    if n < 0 {
      assert Magnitude(s) == NatDigits(-n);
    } else {
      assert Magnitude(s) == NatDigits(n);
    }
    ParseI64Ok(s);
  }
}
