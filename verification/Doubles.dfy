/** Doubles as a server prints them, and what they are read as
    (packages/client/lib/RESP/decoder.ts:45-64, 377-442). */
module Doubles {
  import opened RespTypes
  import opened Decimal

  // Infinities, NaN, and n / 10^k with `k` digits behind the point; `plus` for an explicit plus sign.
  datatype Printed =
    | Infinite(negative: bool, plus: bool)
    | NotANumber
    | Scaled(negative: bool, plus: bool, n: nat, k: nat)

  function Code(c: char): (b: Byte)
    requires c < 128 as char
  {
    c as int
  }

  function PrintedSign(negative: bool, plus: bool): Bytes {
    if negative then [Code('-')] else if plus then [Code('+')] else []
  }

  // The last `k` decimal digits of `n`.
  function LastDigits(n: nat, k: nat): (s: Bytes)
    ensures |s| == k && AllDigits(s)
  {
    if k == 0 then [] else LastDigits(n / 10, k - 1) + [ZERO + n % 10]
  }

  // `n` without them.
  function FirstDigits(n: nat, k: nat): nat { if k == 0 then n else FirstDigits(n / 10, k - 1) }

  function PrintScaled(n: nat, k: nat): Bytes {
    PrintNat(FirstDigits(n, k)) + (if k == 0 then [] else [Code('.')] + LastDigits(n, k))
  }

  function Token(p: Printed): Bytes {
    match p
    case Infinite(negative, plus) => PrintedSign(negative, plus) + [Code('i'), Code('n'), Code('f')]
    case NotANumber => [Code('n'), Code('a'), Code('n')]
    case Scaled(negative, plus, n, k) =>
      PrintedSign(negative, plus) + PrintScaled(n, k)
  }

  /** The double that is meant: of a decimal, the one its exact value rounds to. */
  function Meant(arith: Arithmetic, p: Printed): Double {
    match p
    case Infinite(negative, _) => if negative then NegInfinity else PosInfinity
    case NotANumber => NaN
    case Scaled(negative, _, n, k) => Finite(negative, arith.round(n as real / Pow10(k) as real))
  }

  lemma {:induction false} AccumulateConcat(acc: int, s: Bytes, t: Bytes)
    ensures Accumulate(acc, s + t) == Accumulate(Accumulate(acc, s), t)
    decreases |s|
  {
    if s == [] {
      assert s + t == t;
    } else {
      assert (s + t)[1..] == s[1..] + t;
      AccumulateConcat(acc * 10 + (s[0] - ZERO), s[1..], t);
    }
  }

  lemma {:induction false} ReadLastDigits(n: nat, k: nat)
    ensures Accumulate(FirstDigits(n, k), LastDigits(n, k)) == n
    decreases k
  {
    if k > 0 {
      ReadLastDigits(n / 10, k - 1);
      AccumulateSnoc(FirstDigits(n, k), LastDigits(n / 10, k - 1), ZERO + n % 10);
    }
  }

  lemma {:induction false} NoDotInDigits(s: Bytes)
    requires AllDigits(s)
    ensures DOT !in s && DotIndex(s) == |s|
    decreases |s|
  {
    if s != [] {
      NoDotInDigits(s[1..]);
      assert s == [s[0]] + s[1..];
    }
  }

  lemma {:induction false} DotAfterDigits(s: Bytes, rest: Bytes)
    requires AllDigits(s)
    ensures DotIndex(s + [DOT] + rest) == |s|
    decreases |s|
  {
    if s == [] {
      assert (s + [DOT] + rest)[0] == DOT;
    } else {
      assert (s + [DOT] + rest)[1..] == s[1..] + [DOT] + rest;
      DotAfterDigits(s[1..], rest);
    }
  }

  // Reading a decimal apart: the digits in front of the point, and those behind it.
  lemma BodyParts(whole: Bytes, fraction: Bytes, body: Bytes)
    requires AllDigits(whole) && AllDigits(fraction)
    requires body == whole + (if fraction == [] then [] else [DOT] + fraction)
    ensures Whole(body) == whole && Fraction(body) == fraction
  {
    if fraction == [] {
      assert body == whole;
      NoDotInDigits(whole);
    } else {
      assert body == whole + [DOT] + fraction;
      DotAfterDigits(whole, fraction);
    }
  }

  lemma SignOf(negative: bool, plus: bool, body: Bytes)
    requires body != [] && body[0] != MINUS && body[0] != PLUS
    ensures var token := PrintedSign(negative, plus) + body;
            Sign(token) == PrintedSign(negative, plus) && token[|Sign(token)|..] == body && Negative(token) == negative
  {
  }

  // The digits of a printed decimal are those of `n`, `k` of them behind the point.
  lemma ReadScaled(n: nat, k: nat)
    ensures var body := PrintScaled(n, k);
            && IsDigit(body[0]) && AllDigits(Whole(body) + Fraction(body)) && |Fraction(body)| == k
            && Whole(body) != [] && Accumulate(0, Whole(body) + Fraction(body)) == n
  {
    var whole, fraction := PrintNat(FirstDigits(n, k)), LastDigits(n, k);
    hide PrintNat, LastDigits, Accumulate, DotIndex;
    BodyParts(whole, fraction, PrintScaled(n, k));
    ReadPrintedNat(FirstDigits(n, k));
    AccumulateConcat(0, whole, fraction);
    ReadLastDigits(n, k);
    assert PrintScaled(n, k)[0] == whole[0];
  }

  lemma PlainIsRead(arith: Arithmetic, token: Bytes, n: nat, k: nat)
    requires var body := token[|Sign(token)|..];
             && AllDigits(Whole(body) + Fraction(body)) && Whole(body) != [] && |Fraction(body)| == k
             && Accumulate(0, Whole(body) + Fraction(body)) == n
    ensures SlowParseDouble(arith, token) == Finite(Negative(token), arith.round(n as real / Pow10(k) as real))
  {
    var body := token[|Sign(token)|..];
    NotAWord(token, body);
    hide Accumulate, Whole, Fraction, Sign, AllDigits, Negative;
    assert |Whole(body) + Fraction(body)| > 0;
    assert IsPlainDecimal(token) && DecimalMagnitude(token) == n as real / Pow10(k) as real;
  }

  lemma WordIsRead(arith: Arithmetic, p: Printed)
    requires !p.Scaled?
    ensures SlowParseDouble(arith, Token(p)) == Meant(arith, p)
  {
    assert Token(p) == if p.NotANumber? then [110, 97, 110]
                       else if p.negative then [MINUS, 105, 110, 102]
                       else if p.plus then [PLUS, 105, 110, 102] else [105, 110, 102];
  }

  /** What is printed is read as what is meant. */
  lemma PrintedIsRead(arith: Arithmetic, p: Printed)
    ensures SlowParseDouble(arith, Token(p)) == Meant(arith, p)
  {
    if p.Scaled? {
      var token, body := Token(p), PrintScaled(p.n, p.k);
      ReadScaled(p.n, p.k);
      SignOf(p.negative, p.plus, body);
      hide PrintScaled, SlowParseDouble, Accumulate, Whole, Fraction, AllDigits;
      assert token[|Sign(token)|..] == body;
      PlainIsRead(arith, token, p.n, p.k);
    } else {
      WordIsRead(arith, p);
    }
  }
}
