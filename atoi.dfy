/** Go's `strconv.Atoi` on a 64-bit platform: a short fast path for strings under 19
    characters, and `ParseInt(s, 10, 64)` for longer ones, whose digit loop reports
    an overflow as soon as it happens. */
module GoAtoi {
  import opened Wrappers
  import opened GoFormat

  const MaxUint64: nat := 0xFFFF_FFFF_FFFF_FFFF
  const MaxInt64: int := 0x7FFF_FFFF_FFFF_FFFF
  const MinInt64: int := -0x8000_0000_0000_0000

  /** `ErrSyntax` and `ErrRange`. */
  datatype NumError = ErrSyntax | ErrRange

  /** The text of the `*NumError` that `Atoi` returns for the input `s`. */
  function AtoiErrorText(s: string, e: NumError): string {
    "strconv.Atoi: parsing " + Quote(s) + ": " +
    (if e == ErrSyntax then "invalid syntax" else "value out of range")
  }

  predicate IsDigit(c: char) {
    '0' <= c <= '9'
  }

  predicate AllDigits(s: string) {
    forall i :: 0 <= i < |s| ==> IsDigit(s[i])
  }

  function DigitValue(c: char): nat
    requires IsDigit(c)
  {
    c as int - '0' as int
  }

  function Pow10(n: nat): (p: nat)
    ensures p >= 1
  {
    if n == 0 then 1 else 10 * Pow10(n - 1)
  }

  /** The value of the digits `s` read after the digits already worth `n`. */
  function ValueFrom(n: nat, s: string): nat
    requires AllDigits(s)
    decreases |s|
  {
    if s == [] then n else ValueFrom(n * 10 + DigitValue(s[0]), s[1..])
  }

  /** The text after one leading sign. */
  function Unsigned(s: string): string {
    if |s| > 0 && (s[0] == '-' || s[0] == '+') then s[1..] else s
  }

  /** An optional sign then one or more decimal digits. */
  predicate IsDecimal(s: string) {
    |s| > 0 && |Unsigned(s)| > 0 && AllDigits(Unsigned(s))
  }

  /** The value an `IsDecimal` text denotes. */
  function DecimalValue(s: string): int
    requires IsDecimal(s)
  {
    var m: int := ValueFrom(0, Unsigned(s));
    if s[0] == '-' then -m else m
  }

  /** The fast path: digits only, no overflow possible. */
  function FastAtoi(s: string): Result<int, NumError>
    requires 0 < |s|
  {
    var body := Unsigned(s);
    if |body| < 1 || !AllDigits(body) then Failure(ErrSyntax)
    else
      var m: int := ValueFrom(0, body);
      Success(if s[0] == '-' then -m else m)
  }

  /** The digit loop of `ParseUint(s, 10, 64)` after the digits worth `n`: a
      non-digit is a syntax error, and the first step past 2^64 - 1 is a range
      error, whatever follows. */
  function AccumulateDigits(n: nat, s: string): Result<nat, NumError>
    decreases |s|
  {
    if s == [] then Success(n)
    else if !IsDigit(s[0]) then Failure(ErrSyntax)
    else if n >= MaxUint64 / 10 + 1 then Failure(ErrRange)
    else if n * 10 + DigitValue(s[0]) > MaxUint64 then Failure(ErrRange)
    else AccumulateDigits(n * 10 + DigitValue(s[0]), s[1..])
  }

  /** `ParseInt(s, 10, 64)` as `Atoi` reports it. */
  function SlowAtoi(s: string): Result<int, NumError> {
    if s == [] then Failure(ErrSyntax)
    else
      var neg := s[0] == '-';
      var body := Unsigned(s);
      if body == [] then Failure(ErrSyntax)
      else match AccumulateDigits(0, body)
        case Failure(e) => Failure(e)
        case Success(u) =>
          if !neg && u > MaxInt64 then Failure(ErrRange)
          else if neg && u > -MinInt64 then Failure(ErrRange)
          else
            var v: int := u;
            Success(if neg then -v else v)
  }

  /** `strconv.Atoi`. The fast path is chosen by length in characters; it differs
      from the byte length only for non-ASCII text, which both paths reject before
      any overflow could be reached. */
  function Atoi(s: string): Result<int, NumError> {
    if 0 < |s| < 19 then FastAtoi(s) else SlowAtoi(s)
  }

  lemma {:induction false} ValueFromAtLeast(n: nat, s: string)
    requires AllDigits(s)
    ensures ValueFrom(n, s) >= n
    decreases |s|
  {
    if s != [] {
      ValueFromAtLeast(n * 10 + DigitValue(s[0]), s[1..]);
    }
  }

  lemma {:induction false} ValueFromBelow(n: nat, s: string)
    requires AllDigits(s)
    ensures ValueFrom(n, s) < (n + 1) * Pow10(|s|)
    decreases |s|
  {
    if s != [] {
      var m := n * 10 + DigitValue(s[0]);
      ValueFromBelow(m, s[1..]);
      assert (m + 1) * Pow10(|s| - 1) <= (n + 1) * 10 * Pow10(|s| - 1);
    }
  }

  /** The digit loop computes the value of the digits, and fails with a range error
      exactly when that value exceeds 2^64 - 1. */
  lemma {:induction false} AccumulateDigitsValue(n: nat, s: string)
    requires n <= MaxUint64
    ensures AccumulateDigits(n, s).Success? ==> AllDigits(s)
    ensures AllDigits(s) ==>
              AccumulateDigits(n, s) ==
                (if ValueFrom(n, s) <= MaxUint64 then Success(ValueFrom(n, s)) else Failure(ErrRange))
    decreases |s|
  {
    if s != [] && IsDigit(s[0]) {
      var m := n * 10 + DigitValue(s[0]);
      if n >= MaxUint64 / 10 + 1 || m > MaxUint64 {
        if AllDigits(s) {
          ValueFromAtLeast(m, s[1..]);
        }
      } else {
        AccumulateDigitsValue(m, s[1..]);
        if AccumulateDigits(n, s).Success? {
          assert AllDigits(s[1..]);
          assert forall i :: 0 < i < |s| ==> s[i] == s[1..][i - 1];
        }
      }
    }
  }

  /** `Atoi` accepts exactly an optional sign followed by decimal digits whose value
      fits in 64 bits, and returns that value. */
  lemma AtoiAccepts(s: string)
    ensures Atoi(s).Success? <==> IsDecimal(s) && MinInt64 <= DecimalValue(s) <= MaxInt64
    ensures Atoi(s).Success? ==> Atoi(s).value == DecimalValue(s)
  {
    if 0 < |s| < 19 {
      FastAtoiAccepts(s);
    } else {
      SlowAtoiAccepts(s);
    }
  }

  lemma FastAtoiAccepts(s: string)
    requires 0 < |s| < 19
    ensures FastAtoi(s).Success? <==> IsDecimal(s) && MinInt64 <= DecimalValue(s) <= MaxInt64
    ensures FastAtoi(s).Success? ==> FastAtoi(s).value == DecimalValue(s)
  {
    var body := Unsigned(s);
    if |body| > 0 && AllDigits(body) {
      ValueFromBelow(0, body);
      Pow10Monotone(|body|, 18);
      Pow10Add(9, 9);
      assert ValueFrom(0, body) < 1_000_000_000_000_000_000;
    }
  }

  lemma SlowAtoiAccepts(s: string)
    ensures SlowAtoi(s).Success? <==> IsDecimal(s) && MinInt64 <= DecimalValue(s) <= MaxInt64
    ensures SlowAtoi(s).Success? ==> SlowAtoi(s).value == DecimalValue(s)
  {
    var body := Unsigned(s);
    if s != [] && body != [] {
      AccumulateDigitsValue(0, body);
    }
  }

  lemma {:induction false} Pow10Add(a: nat, b: nat)
    ensures Pow10(a + b) == Pow10(a) * Pow10(b)
  {
    if a > 0 {
      Pow10Add(a - 1, b);
      assert Pow10(a + b) == 10 * Pow10(a - 1 + b);
    }
  }

  lemma {:induction false} Pow10Monotone(m: nat, n: nat)
    requires m <= n
    ensures Pow10(m) <= Pow10(n)
    decreases n - m
  {
    if m < n {
      Pow10Monotone(m + 1, n);
    }
  }

  /** On long inputs the overflow is reported before a later non-digit is seen: 20
      nines then a letter is out of range, not a syntax error. */
  lemma RangeBeforeSyntax()
    ensures Atoi("99999999999999999999x") == Failure(ErrRange)
  {
    var digits := "99999999999999999999";
    TwentyNinesOverflow(digits);
    AccumulatePrefix(0, digits, "x");
    assert digits + "x" == "99999999999999999999x";
    SlowAtoiLoopFailure(digits + "x");
  }

  /** The digit loop fails on twenty nines with a range error. */
  lemma TwentyNinesOverflow(digits: string)
    requires digits == "99999999999999999999"
    ensures AccumulateDigits(0, digits) == Failure(ErrRange)
  {
    ValueFromAtLeastPow(digits);
    AccumulateDigitsValue(0, digits);
  }

  /** An unsigned text on which the digit loop fails makes `SlowAtoi` fail the same way. */
  lemma SlowAtoiLoopFailure(s: string)
    requires s != [] && IsDigit(s[0]) && AccumulateDigits(0, s).Failure?
    ensures SlowAtoi(s) == AccumulateDigits(0, s)
  {
    assert Unsigned(s) == s;
  }

  /** Once the loop has failed on a prefix, the rest is never read. */
  lemma {:induction false} AccumulatePrefix(n: nat, a: string, b: string)
    requires AccumulateDigits(n, a).Failure?
    ensures AccumulateDigits(n, a + b) == AccumulateDigits(n, a)
    decreases |a|
  {
    assert a != [];
    assert (a + b)[0] == a[0];
    if IsDigit(a[0]) && n < MaxUint64 / 10 + 1 && n * 10 + DigitValue(a[0]) <= MaxUint64 {
      assert (a + b)[1..] == a[1..] + b;
      AccumulatePrefix(n * 10 + DigitValue(a[0]), a[1..], b);
    }
  }

  /** Twenty nines are worth more than 2^64 - 1. */
  lemma ValueFromAtLeastPow(s: string)
    requires |s| == 20 && forall i :: 0 <= i < 20 ==> s[i] == '9'
    ensures AllDigits(s) && ValueFrom(0, s) > MaxUint64
  {
    NinesValue(0, s);
    Pow10Add(10, 10);
    assert Pow10(10) == 10_000_000_000;
  }

  lemma {:induction false} NinesValue(n: nat, s: string)
    requires forall i :: 0 <= i < |s| ==> s[i] == '9'
    ensures AllDigits(s) && ValueFrom(n, s) == (n + 1) * Pow10(|s|) - 1
    decreases |s|
  {
    if s != [] {
      assert forall i :: 0 <= i < |s[1..]| ==> s[1..][i] == '9';
      NinesValue(n * 10 + 9, s[1..]);
    }
  }
}
