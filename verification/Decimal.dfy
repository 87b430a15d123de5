/** Decimal numerals and the exactness of the double fast path
    (packages/client/lib/RESP/decoder.ts:34-64, 312-325, 377-442). */
module Decimal {
  import opened RespTypes

  predicate IsDigit(b: Byte) { ZERO <= b <= ZERO + 9 }

  predicate AllDigits(s: Bytes) { forall i :: 0 <= i < |s| ==> IsDigit(s[i]) }

  // What reading the bytes `s` one by one into a decimal accumulator leaves in it.
  function Accumulate(acc: int, s: Bytes): int
    decreases |s|
  {
    if s == [] then acc else Accumulate(acc * 10 + (s[0] - ZERO), s[1..])
  }

  lemma {:induction false} AccumulateSnoc(acc: int, s: Bytes, b: Byte)
    ensures Accumulate(acc, s + [b]) == Accumulate(acc, s) * 10 + (b - ZERO)
    decreases |s|
  {
    if s == [] {
      assert [b][1..] == [];
    } else {
      assert (s + [b])[1..] == s[1..] + [b];
      AccumulateSnoc(acc * 10 + (s[0] - ZERO), s[1..], b);
    }
  }

  /** The decimal numeral of `n`, as JavaScript prints a non-negative integer. */
  function PrintNat(n: nat): (s: Bytes)
    ensures |s| > 0 && AllDigits(s)
  {
    if n < 10 then [ZERO + n] else PrintNat(n / 10) + [ZERO + n % 10]
  }

  lemma {:induction false} ReadPrintedNat(n: nat)
    ensures Accumulate(0, PrintNat(n)) == n
  {
    if n < 10 {
      assert [ZERO + n][1..] == [];
    } else {
      ReadPrintedNat(n / 10);
      AccumulateSnoc(0, PrintNat(n / 10), ZERO + n % 10);
    }
  }

  function Pow10(k: nat): (p: nat)
    ensures p > 0
  {
    if k == 0 then 1 else 10 * Pow10(k - 1)
  }

  function Pow2(k: nat): (p: nat)
    ensures p > 0
  {
    if k == 0 then 1 else 2 * Pow2(k - 1)
  }

  const MAX_SAFE_INTEGER: nat := 0x1F_FFFF_FFFF_FFFF
  const MAX_SIGNIFICAND_BEFORE_DIGIT: nat := 900719925474098
  const POWERS_OF_10_LENGTH: nat := 23

  function Scaled(m: nat, e: nat): nat { m * Pow2(e) }

  // A double-precision rounding: it leaves alone every m * 2^e with m <= 2^53 and 0 <= e <= 970,
  // all of which are doubles.
  ghost predicate ExactOnRepresentable(round: real -> real) {
    forall m: nat, e: nat :: m <= MAX_SAFE_INTEGER + 1 && e <= 970 ==> round(Scaled(m, e) as real) == Scaled(m, e) as real
  }

  type Rounding = round: real -> real | ExactOnRepresentable(round) witness (x: real) => x

  /** The arithmetic of the host: how it rounds, and what `Number(...)` returns on a token that is
      not a plain decimal (exponents, garbage), about which nothing is assumed. */
  datatype Arithmetic = Arithmetic(round: Rounding, other: Bytes -> Double)

  // [sign] digits [. digits], with at least one digit.
  function Sign(token: Bytes): Bytes {
    if token != [] && (token[0] == MINUS || token[0] == PLUS) then token[..1] else []
  }

  function DotIndex(body: Bytes): (i: nat)
    ensures i <= |body| && DOT !in body[..i] && (i < |body| ==> body[i] == DOT)
  {
    if body == [] || body[0] == DOT then 0
    else
      var i := 1 + DotIndex(body[1..]);
      assert body[..i] == [body[0]] + body[1..][..i - 1];
      i
  }

  function Whole(body: Bytes): Bytes { body[..DotIndex(body)] }

  function Fraction(body: Bytes): Bytes {
    if DotIndex(body) < |body| then body[DotIndex(body) + 1..] else []
  }

  predicate IsPlainDecimal(token: Bytes) {
    var body := token[|Sign(token)|..];
    Whole(body) + Fraction(body) != [] && AllDigits(Whole(body) + Fraction(body))
  }

  function DecimalMagnitude(token: Bytes): real {
    var body := token[|Sign(token)|..];
    Accumulate(0, Whole(body) + Fraction(body)) as real / Pow10(|Fraction(body)|) as real
  }

  predicate Negative(token: Bytes) { token != [] && token[0] == MINUS }

  /** `slowParseDouble`: `Number` rounds the exact value of a plain decimal once. */
  function SlowParseDouble(arith: Arithmetic, token: Bytes): Double {
    if token == [105, 110, 102] || token == [PLUS, 105, 110, 102] then PosInfinity
    else if token == [MINUS, 105, 110, 102] then NegInfinity
    else if token == [110, 97, 110] then NaN
    else if IsPlainDecimal(token) then Finite(Negative(token), arith.round(DecimalMagnitude(token)))
    else arith.other(token)
  }

  function ParserOf(arith: Arithmetic): Bytes -> Double {
    (token: Bytes) => SlowParseDouble(arith, token)
  }

  // The fast path's counters; `fractionDigits` is -1 until the decimal point is seen.
  datatype Counters = Counters(significand: real, digits: nat, fractionDigits: int)

  // The bytes the fast path goes on with.
  predicate Takes(c: Counters, b: Byte) {
    || (b == DOT && c.fractionDigits == -1)
    || (IsDigit(b) && c.significand <= MAX_SIGNIFICAND_BEFORE_DIGIT as real)
  }

  // The accumulation is in doubles: both operations round.
  function Take(arith: Arithmetic, c: Counters, b: Byte): Counters {
    if b == DOT && c.fractionDigits == -1 then c.(fractionDigits := 0)
    else Counters(arith.round(arith.round(c.significand * 10.0) + (b - ZERO) as real), c.digits + 1,
                  if c.fractionDigits == -1 then -1 else c.fractionDigits + 1)
  }

  // The counters after `chunk[from..to]`.
  function Scan(arith: Arithmetic, chunk: Bytes, from: nat, to: nat): Counters
    requires from <= to <= |chunk|
  {
    if from == to then Counters(0.0, 0, -1) else Take(arith, Scan(arith, chunk, from, to - 1), chunk[to - 1])
  }

  // The fast path scans `chunk[from..to]` without giving up.
  predicate Accepted(arith: Arithmetic, chunk: Bytes, from: nat, to: nat)
    requires from <= to <= |chunk|
  {
    from == to ||
    (Accepted(arith, chunk, from, to - 1) && Takes(Scan(arith, chunk, from, to - 1), chunk[to - 1]))
  }

  /** What the counters mean after the fast path has scanned `body`: nothing was rounded away. */
  ghost predicate Exact(body: Bytes, c: Counters) {
    && AllDigits(Whole(body) + Fraction(body))
    && c.digits == |Whole(body) + Fraction(body)|
    && c.fractionDigits == (if DotIndex(body) < |body| then |Fraction(body)| else -1)
    && 0 <= Accumulate(0, Whole(body) + Fraction(body)) <= MAX_SAFE_INTEGER
    && c.significand == Accumulate(0, Whole(body) + Fraction(body)) as real
  }

  lemma {:induction false} DotIndexSnoc(body: Bytes, b: Byte)
    ensures DotIndex(body + [b]) == if DotIndex(body) < |body| then DotIndex(body)
                                    else if b == DOT then |body| else |body| + 1
    decreases |body|
  {
    if body == [] {
      assert [b][1..] == [];
    } else if body[0] != DOT {
      assert (body + [b])[1..] == body[1..] + [b];
      DotIndexSnoc(body[1..], b);
    }
  }

  lemma RoundExactInteger(arith: Arithmetic, n: nat)
    requires n <= MAX_SAFE_INTEGER + 1
    ensures arith.round(n as real) == n as real
  {
    assert Scaled(n, 0) == n;
  }

  /** One digit more stays exact: the significand was small enough for neither operation to round. */
  lemma AppendDigitExactly(arith: Arithmetic, significand: real, n: nat, digit: nat)
    requires significand == n as real && n <= MAX_SIGNIFICAND_BEFORE_DIGIT && digit < 10
    ensures arith.round(arith.round(significand * 10.0) + digit as real) == (n * 10 + digit) as real
  {
    RoundExactInteger(arith, n * 10);
    RoundExactInteger(arith, n * 10 + digit);
    assert significand * 10.0 == (n * 10) as real;
  }

  lemma EmptyIsExact()
    ensures Exact([], Counters(0.0, 0, -1))
  {
    assert Whole([]) + Fraction([]) == [];
  }

  lemma TakeDotIsExact(arith: Arithmetic, body: Bytes, c: Counters, longer: Bytes)
    requires Exact(body, c) && c.fractionDigits == -1 && longer == body + [DOT]
    ensures Exact(longer, c.(fractionDigits := 0))
  {
    DotIndexSnoc(body, DOT);
    assert Whole(longer) + Fraction(longer) == Whole(body) + Fraction(body);
  }

  lemma TakeDigitIsExact(arith: Arithmetic, body: Bytes, c: Counters, b: Byte, longer: Bytes)
    requires Exact(body, c) && IsDigit(b) && c.significand <= MAX_SIGNIFICAND_BEFORE_DIGIT as real && longer == body + [b]
    ensures Exact(longer, Take(arith, c, b))
  {
    hide Accumulate, DotIndex;
    var all := Whole(body) + Fraction(body);
    DotIndexSnoc(body, b);
    assert Whole(longer) + Fraction(longer) == all + [b];
    AccumulateSnoc(0, all, b);
    AppendDigitExactly(arith, c.significand, Accumulate(0, all), b - ZERO);
  }

  /** The accumulated significand is the token's, never above 2^53 - 1. */
  lemma {:induction false} ScanIsExact(arith: Arithmetic, chunk: Bytes, from: nat, to: nat)
    requires from <= to <= |chunk| && Accepted(arith, chunk, from, to)
    ensures Exact(chunk[from..to], Scan(arith, chunk, from, to))
  {
    hide Accumulate, DotIndex, Whole, Fraction, AllDigits;
    if from == to {
      EmptyIsExact();
      assert chunk[from..to] == [];
    } else {
      ScanIsExact(arith, chunk, from, to - 1);
      var c, b := Scan(arith, chunk, from, to - 1), chunk[to - 1];
      if b == DOT && c.fractionDigits == -1 {
        TakeDotIsExact(arith, chunk[from..to - 1], c, chunk[from..to]);
      } else {
        TakeDigitIsExact(arith, chunk[from..to - 1], c, b, chunk[from..to]);
      }
    }
  }

  function Pow5(k: nat): nat {
    if k == 0 then 1 else 5 * Pow5(k - 1)
  }

  lemma Regroup(a: nat, b: nat)
    ensures (5 * a) * (2 * b) == 10 * (a * b)
  {
  }

  lemma {:induction false} Pow10Factors(k: nat)
    ensures Pow10(k) == Pow5(k) * Pow2(k)
  {
    if k > 0 {
      Pow10Factors(k - 1);
      Regroup(Pow5(k - 1), Pow2(k - 1));
    }
  }

  lemma {:induction false} Pow5Bound(k: nat)
    requires k <= 22
    ensures Pow5(k) <= MAX_SAFE_INTEGER
  {
    Pow5Monotone(k, 22);
    assert Pow5(4) == 625;
    assert Pow5(8) == 390625;
    assert Pow5(12) == 244140625;
    assert Pow5(16) == 152587890625;
    assert Pow5(20) == 95367431640625;
    assert Pow5(22) == 2384185791015625;
  }

  lemma {:induction false} Pow5Monotone(j: nat, k: nat)
    requires j <= k
    ensures 0 < Pow5(j) <= Pow5(k)
    decreases k
  {
    if k > 0 { Pow5Monotone(if j < k then j else j - 1, k - 1); }
  }

  /** Every entry of the table of powers is representable: 10^k = 5^k * 2^k with 5^k < 2^53. */
  lemma PowerOfTenExact(arith: Arithmetic, k: nat)
    requires k < POWERS_OF_10_LENGTH
    ensures arith.round(Pow10(k) as real) == Pow10(k) as real
  {
    Pow10Factors(k);
    Pow5Bound(k);
    assert Scaled(Pow5(k), k) == Pow10(k);
  }

  /** What the fast path returns: at most one division, by a tabulated (hence rounded) power. */
  function FastDouble(arith: Arithmetic, negative: bool, c: Counters): Double
    requires c.fractionDigits < POWERS_OF_10_LENGTH
  {
    if c.fractionDigits > 0 then
      PowerOfTenNonZero(arith, c.fractionDigits);
      Finite(negative, arith.round(c.significand / arith.round(Pow10(c.fractionDigits) as real)))
    else Finite(negative, c.significand)
  }

  lemma PowerOfTenNonZero(arith: Arithmetic, k: nat)
    requires k < POWERS_OF_10_LENGTH
    ensures arith.round(Pow10(k) as real) != 0.0
  {
    PowerOfTenExact(arith, k);
  }

  // Exact counters make the fast result the slow one.
  lemma ExactIsSlow(arith: Arithmetic, token: Bytes, c: Counters)
    requires Exact(token[|Sign(token)|..], c) && c.digits > 0 && c.fractionDigits < POWERS_OF_10_LENGTH
    ensures SlowParseDouble(arith, token) == FastDouble(arith, Negative(token), c)
  {
    var body := token[|Sign(token)|..];
    NotAWord(token, body);
    assert IsPlainDecimal(token);
    if c.fractionDigits > 0 {
      PowerOfTenExact(arith, c.fractionDigits);
    } else {
      assert |Fraction(body)| == 0;
      assert DecimalMagnitude(token) == c.significand;
      RoundExactInteger(arith, Accumulate(0, Whole(body) + Fraction(body)));
    }
  }

  /** The fast path is exact: on every token `chunk[start..end]` it accepts, with its body from
      `bodyStart` on, it returns what the slow path returns. */
  lemma FastPathIsExact(arith: Arithmetic, chunk: Bytes, start: nat, bodyStart: nat, end: nat)
    requires start <= bodyStart <= end <= |chunk| && start < |chunk| && bodyStart == start + |Sign(chunk[start..])|
    requires Accepted(arith, chunk, bodyStart, end)
    requires var c := Scan(arith, chunk, bodyStart, end); c.digits > 0 && c.fractionDigits < POWERS_OF_10_LENGTH
    ensures SlowParseDouble(arith, chunk[start..end])
         == FastDouble(arith, chunk[start] == MINUS, Scan(arith, chunk, bodyStart, end))
  {
    var token := chunk[start..end];
    assert token != [] && token[0] == chunk[start] by { assert start < end; }
    assert |Sign(token)| == |Sign(chunk[start..])|;
    assert token[|Sign(token)|..] == chunk[bodyStart..end];
    ScanIsExact(arith, chunk, bodyStart, end);
    ExactIsSlow(arith, token, Scan(arith, chunk, bodyStart, end));
  }

  lemma NotAWord(token: Bytes, body: Bytes)
    requires body == token[|Sign(token)|..]
    requires AllDigits(Whole(body) + Fraction(body))
    ensures token !in {[105, 110, 102], [PLUS, 105, 110, 102], [MINUS, 105, 110, 102], [110, 97, 110]}
  {
    if body != [] && body[0] != DOT {
      assert (Whole(body) + Fraction(body))[0] == body[0];
    }
  }
}
