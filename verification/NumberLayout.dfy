/**
 The layout of printed numbers, stated on the number itself: which words are printed with an
 exponent, which with a point, and which as whole numbers digit by digit.

 The lower bound of the plain layouts is the word nearest to 10^-6, whose value is a little less
 than 10^-6; the upper bound is 10^21, which is a word's value.
 */
module NumberLayout {
  import opened Common
  import opened Binary64
  import opened DecimalText
  import opened ShortestDecimal

  // ----- The two forms -----

  function SignText(negative: bool): string {
    if negative then "-" else ""
  }

  /** The point and the digits behind it, if there are any. */
  function PointText(fraction: string): string {
    if fraction == "" then "" else "." + fraction
  }

  /** Digits that do not end in zero, or none. */
  predicate Trimmed(fraction: string) {
    AllDigits(fraction) && (fraction != "" ==> fraction[|fraction| - 1] != '0')
  }

  /** A whole part without leading zeros, and a fraction without trailing ones. */
  predicate Plain(text: string, negative: bool, whole: string, fraction: string) {
    && whole != "" && AllDigits(whole) && (whole[0] == '0' ==> whole == "0") && Trimmed(fraction)
    && text == SignText(negative) + whole + PointText(fraction)
  }

  /** One digit before the point, not zero, and a signed power of ten without leading zeros. */
  predicate Scientific(text: string, negative: bool, lead: char, fraction: string, power: int) {
    && IsDigit(lead) && lead != '0' && Trimmed(fraction)
    && text == SignText(negative) + [lead] + PointText(fraction) + "e"
               + if power >= 0 then "+" + Dec(power) else "-" + Dec(-power)
  }

  // ----- What is printed for a decimal -----

  /** A number that ten does not divide does not end in zero. */
  lemma LastDigit(n: nat)
    requires n % 10 != 0
    ensures |Dec(n)| > 0 && AllDigits(Dec(n)) && Dec(n)[0] != '0' && Dec(n)[|Dec(n)| - 1] != '0'
  {
    DecIsNumeral(n);
    if n >= 10 {
      assert Dec(n)[|Dec(n)| - 1] == DigitChar(n % 10);
    }
  }

  lemma ZeroRun(n: nat)
    ensures |Zeros(n)| == n && AllDigits(Zeros(n))
  {
    ZerosValue(n);
    if n > 0 {
      ZeroRun(n - 1);
    }
  }

  /** Where the point stands among the digits. */
  function Position(d: Decimal): int {
    |Dec(d.coefficient)| + d.exponent
  }

  /** Small exponents are printed plainly, with a fraction exactly when the exponent is negative. */
  lemma PlainRendered(negative: bool, d: Decimal) returns (whole: string, fraction: string)
    requires d.coefficient % 10 != 0 && -6 < Position(d) <= 21
    ensures Plain(Render(negative, d), negative, whole, fraction) && (fraction == "" <==> d.exponent >= 0)
    ensures d.exponent >= 0 ==> whole == Dec(d.coefficient) + Zeros(d.exponent)
  {
    var digits, position := Dec(d.coefficient), Position(d);
    LastDigit(d.coefficient);
    ZeroRun(if d.exponent >= 0 then d.exponent else 0);
    ZeroRun(if position <= 0 then -position else 0);
    hide Dec, Zeros;
    if d.exponent >= 0 {
      whole, fraction := digits + Zeros(d.exponent), "";
    } else if position > 0 {
      whole, fraction := digits[..position], digits[position..];
      assert SignText(negative) + digits[..position] + ("." + digits[position..])
          == SignText(negative) + digits[..position] + "." + digits[position..];
    } else {
      whole, fraction := "0", Zeros(-position) + digits;
      assert SignText(negative) + "0" + ("." + fraction) == SignText(negative) + "0." + Zeros(-position) + digits;
    }
  }

  lemma ScientificRendered(negative: bool, d: Decimal) returns (lead: char, fraction: string)
    requires d.coefficient % 10 != 0 && !(-6 < Position(d) <= 21)
    ensures Scientific(Render(negative, d), negative, lead, fraction, Position(d) - 1)
  {
    var digits, power := Dec(d.coefficient), Position(d) - 1;
    LastDigit(d.coefficient);
    hide Dec, Zeros;
    lead, fraction := digits[0], digits[1..];
    assert digits[..1] == [lead];
    var sign := SignText(negative);
    var mark := if power >= 0 then "+" + Dec(power) else "-" + Dec(-power);
    assert sign + [lead] + PointText(fraction) + "e" + mark == Render(negative, d) by {
      assert PointText(fraction) == if |digits| > 1 then "." + digits[1..] else "";
    }
  }

  // ----- Decimals and powers of ten -----

  /** A decimal lies in the decade of its position. */
  lemma InDecade(d: Decimal)
    requires d.coefficient > 0
    ensures Exp10(Position(d) - 1) <= d.Number() < Exp10(Position(d))
  {
    var n := |Dec(d.coefficient)|;
    DigitCount(d.coefficient);
    DecIsNumeral(d.coefficient);
    hide Dec, Exp10, Pow10, Scaled;
    ScaledShift(1, d.exponent, n - 1);
    ScaledShift(1, d.exponent, n);
    ScaledOrder(1, 0, Position(d) - 1);
    ScaledOrder(1, 0, Position(d));
    ScaledOrder(d.coefficient, Pow10(n - 1), d.exponent);
    ScaledOrder(d.coefficient, Pow10(n), d.exponent);
  }

  lemma TenPositive(k: int)
    ensures Exp10(k) > 0.0
  {
  }

  /** Between nine tenths of 10^k and 10^k there are two words. */
  ghost predicate Resolves(k: int) {
    exists a: Magnitude, b: Magnitude :: a < b && Scaled(9, k - 1) < Value(a) && Value(b) < Exp10(k)
  }

  lemma OnePlace(k: int)
    ensures Scaled(1, k) == Exp10(k)
  {
    ScaledOrder(1, 0, k);
  }

  /** The shortest decimal reaches 10^k exactly when the word is at least the one nearest to 10^k. */
  lemma DecadeOfWord(word: nat, k: int)
    requires 0 < word <= MAX && Resolves(k)
    ensures Exp10(k) > 0.0 && (Position(Shortest(word)) > k <==> word >= NearestMagnitude(Exp10(k)))
  {
    hide *;
    TenPositive(k);
    var d := Shortest(word);
    ShortestFacts(word);
    InDecade(d);
    if Position(d) > k {
      Exp10Order(k, Position(d) - 1);
      NearestMagnitudeMonotone(Exp10(k), d.Number());
    } else {
      Exp10Order(Position(d), k);
      NearestMagnitudeMonotone(d.Number(), Exp10(k));
      if word == NearestMagnitude(Exp10(k)) {
        OneDigit(word, k);
        TooFar(d, k);
      }
    }
  }

  lemma ShortestFacts(word: nat)
    requires 0 < word <= MAX
    ensures var d := Shortest(word);
            d.coefficient > 0 && d.coefficient % 10 != 0 && d.Number() > 0.0 && NearestMagnitude(d.Number()) == word
  {
    ShortestIsShortest(word);
    var d := Shortest(word);
    ScaledOrder(0, d.coefficient, d.exponent);
    hide Shortest, Scaled, NearestMagnitude, Dec;
  }

  /** A word that 10^k rounds to is printed with one digit. */
  lemma OneDigit(word: nat, k: int)
    requires 0 < word <= MAX && Exp10(k) > 0.0 && NearestMagnitude(Exp10(k)) == word
    ensures |Dec(Shortest(word).coefficient)| <= 1
  {
    ShortestIsShortest(word);
    OnePlace(k);
    assert RoundsTo(1, k, word) by {
      hide Scaled, NearestMagnitude, Exp10;
    }
    assert Dec(1) == "1";
    hide Shortest, RoundsTo, Exp10;
  }

  /** A one-digit decimal below 10^k rounds to another word. */
  lemma TooFar(d: Decimal, k: int)
    requires d.coefficient > 0 && |Dec(d.coefficient)| <= 1 && Position(d) <= k && Resolves(k) && Exp10(k) > 0.0
    requires d.Number() >= 0.0
    ensures NearestMagnitude(d.Number()) != NearestMagnitude(Exp10(k))
  {
    var a: Magnitude, b: Magnitude :| a < b && Scaled(9, k - 1) < Value(a) && Value(b) < Exp10(k);
    AtMostNine(d, k);
    hide Dec, Exp10, Scaled, Value, NearestMagnitude, Position;
    ValueNonnegative(a);
    ValueNonnegative(b);
    NearestMagnitudeMonotone(d.Number(), Value(a));
    NearestMagnitudeMonotone(Value(b), Exp10(k));
    NearestOfValue(a);
    NearestOfValue(b);
  }

  lemma AtMostNine(d: Decimal, k: int)
    requires d.coefficient > 0 && |Dec(d.coefficient)| <= 1 && Position(d) <= k
    ensures d.Number() <= Scaled(9, k - 1)
  {
    DecIsNumeral(d.coefficient);
    DigitCount(d.coefficient);
    assert Pow10(1) == 10;
    var j := k - 1 - d.exponent;
    hide Dec, Exp10, Scaled, Pow10;
    ScaledShift(9, d.exponent, j);
    Pow10AtLeast(j);
    ScaledOrder(9 * Pow10(j), d.coefficient, d.exponent);
  }

  lemma Pow10AtLeast(j: nat)
    ensures 9 * Pow10(j) >= 9
  {
  }

  // ----- The two bounds -----

  const E21: int := 1_000_000_000_000_000_000_000

  lemma TenTo21()
    ensures Pow10(21) == E21 && Exp10(21) == E21 as real
  {
    TenToSixteen();
    assert Pow10(5) == 100_000;
    Pow10Sum(16, 5);
    ScaledShift(1, 0, 21);
    ExpTenZero();
    OnePlace(21);
    hide Pow10, Exp10;
    assert Scaled(Pow10(21), 0) == Pow10(21) as real;
  }

  lemma TwoTo17()
    ensures Exp2(17) == 131072.0
  {
    assert Exp2(8) == 256.0 && Exp2(9) == 512.0;
    Exp2Sum(8, 9);
  }

  /** A word of the binade of 10^21, from its significand. */
  lemma NearE21(s: nat)
    requires HIDDEN <= s < 2 * HIDDEN
    ensures var m := 1091 * HIDDEN + s; m <= MAX && Value(m) == (s * 131072) as real
  {
    var m := 1091 * HIDDEN + s;
    assert m / HIDDEN == 1092 && m % HIDDEN == s - HIDDEN;
    TwoTo17();
    hide Exp2;
    assert Place(m) == 17 && Significand(m) == s;
    assert (s * 131072) as real == s as real * 131072.0;
  }

  const WORD_E21: nat := 1091 * HIDDEN + 7_629_394_531_250_000

  /** 10^21 is a word's value. */
  lemma E21IsWord()
    ensures WORD_E21 <= MAX && Value(WORD_E21) == Exp10(21) && NearestMagnitude(Exp10(21)) == WORD_E21
  {
    NearE21(7_629_394_531_250_000);
    TenTo21();
    hide Value, Exp10, Pow10, NearestMagnitude;
    NearestOfValue(WORD_E21);
  }

  lemma E21Resolves()
    ensures Resolves(21)
  {
    NearE21(7_318_349_394_477_056);
    NearE21(7_599_824_371_187_712);
    TenTo21();
    var a: Magnitude, b: Magnitude := 1091 * HIDDEN + 7_318_349_394_477_056, 1091 * HIDDEN + 7_599_824_371_187_712;
    ScaledTenfold(9, 20);
    Exp10Step(20);
    hide Value, Pow10, Exp10;
    NineTenths(20);
    assert Scaled(9, 21 - 1) < Value(a) && Value(b) < Exp10(21);
  }

  lemma NineTenths(k: int)
    ensures 10.0 * Scaled(9, k) == 9.0 * Exp10(k + 1)
  {
    Exp10Step(k);
    hide Exp10;
    assert Scaled(9, k) == 9.0 * Exp10(k);
  }

  const TWO72: int := 4_722_366_482_869_645_213_696

  lemma TwoTo72()
    ensures Exp2(-72) * TWO72 as real == 1.0
  {
    assert Exp2(9) == 512.0;
    Exp2Sum(9, 9);
    Exp2Sum(18, 18);
    Exp2Sum(36, 36);
    Exp2Sum(-72, 72);
    ExpZero();
    hide Exp2;
    assert Exp2(36) == 68719476736.0;
    assert Exp2(72) == TWO72 as real;
  }

  lemma TenToMinus6()
    ensures Exp10(-6) * 1000000.0 == 1.0
  {
    assert Pow10(6) == 1_000_000;
    ScaledShift(1, -6, 6);
    ExpTenZero();
    OnePlace(0);
    hide Exp10, Pow10;
    assert Scaled(1_000_000, -6) == 1000000.0 * Exp10(-6);
  }

  /** Comparing s * 2^-72 with c * 10^-6 is comparing whole numbers. */
  lemma CrossCompare(s: real, u: real, p: real, c: real, t: real, q: real)
    requires p > 0.0 && q > 0.0 && u * p == 1.0 && t * q == 1.0
    ensures s * u < c * t <==> s * q < c * p
    ensures s * u > c * t <==> s * q > c * p
  {
    var x, y := s * u, c * t;
    assert x * (p * q) == (s * q) * (u * p);
    assert y * (p * q) == (c * p) * (t * q);
    ScaleOrder(x, y, p * q);
  }

  lemma ScaleOrder(x: real, y: real, k: real)
    requires k > 0.0
    ensures x < y <==> x * k < y * k
    ensures x > y <==> x * k > y * k
  {
  }

  /** A word of the binade of 10^-6, from its significand. */
  lemma NearMillionth(s: nat)
    requires HIDDEN <= s < 2 * HIDDEN
    ensures var m := 1002 * HIDDEN + s; m <= MAX && Value(m) == s as real * Exp2(-72) && Place(m) == -72
  {
    var m := 1002 * HIDDEN + s;
    assert m / HIDDEN == 1003 && m % HIDDEN == s - HIDDEN;
    hide Exp2;
  }

  lemma MillionthResolves()
    ensures Resolves(-6)
  {
    var s, r := HIDDEN, HIDDEN + HIDDEN / 32;
    NearMillionth(s);
    NearMillionth(r);
    TwoTo72();
    TenToMinus6();
    var a: Magnitude, b: Magnitude := 1002 * HIDDEN + s, 1002 * HIDDEN + r;
    hide Value, Exp10, Exp2;
    NineTenths(-7);
    CrossCompare(s as real, Exp2(-72), TWO72 as real, 0.9, Exp10(-6), 1000000.0);
    CrossCompare(r as real, Exp2(-72), TWO72 as real, 1.0, Exp10(-6), 1000000.0);
    assert 0.9 * Exp10(-6) == Scaled(9, -6 - 1);
    assert Scaled(9, -6 - 1) < Value(a) && Value(b) < Exp10(-6);
  }

  const WORD_MILLIONTH: nat := 1002 * HIDDEN + 4_722_366_482_869_645

  /** The word nearest to 10^-6, which lies below it. */
  lemma MillionthWord()
    ensures Exp10(-6) > 0.0 && NearestMagnitude(Exp10(-6)) == WORD_MILLIONTH
    ensures 0 < WORD_MILLIONTH <= MAX && Value(WORD_MILLIONTH) < Exp10(-6)
  {
    var s := 4_722_366_482_869_645;
    NearMillionth(s);
    NearMillionth(s - 1);
    TenPositive(-6);
    TwoTo72();
    TenToMinus6();
    ValueStep(WORD_MILLIONTH);
    hide Value, Exp10, Exp2, NearestMagnitude, Place;
    CrossCompare(s as real, Exp2(-72), TWO72 as real, 1.0, Exp10(-6), 1000000.0);
    CrossCompare(s as real + 0.5, Exp2(-72), TWO72 as real, 1.0, Exp10(-6), 1000000.0);
    HalfStep(s as real, Exp2(-72));
    assert 1002 * HIDDEN + (s - 1) == WORD_MILLIONTH - 1;
    NearestBetweenMidpoints(Exp10(-6), WORD_MILLIONTH);
  }

  lemma HalfStep(s: real, u: real)
    ensures (s + 0.5) * u == (s * u + (s * u + u)) / 2.0 && (s - 1.0) * u == s * u - u
  {
  }

  // ----- Whole numbers -----

  const SAFE: nat := 2 * HIDDEN

  ghost predicate WholeNumber(v: real) {
    v == v.Floor as real
  }

  lemma WholeIsNumber(n: int)
    ensures WholeNumber(n as real) && (n as real).Floor == n
  {
  }

  lemma {:induction false} Log2(n: nat, top: nat) returns (j: nat)
    requires 0 < n < Pow2(top)
    ensures j < top && Pow2(j) <= n < Pow2(j + 1)
  {
    assert Pow2(0) == 1;
    if top == 1 || n >= Pow2(top - 1) {
      j := top - 1;
    } else {
      j := Log2(n, top - 1);
    }
  }

  lemma TwoTo53()
    ensures Pow2(53) == SAFE == 2 * HIDDEN && Pow2(52) == HIDDEN
  {
    assert Pow2(13) == 8192;
    Pow2Sum(13, 13);
    Pow2Sum(26, 26);
    assert 8192 * 8192 == 67108864 && 67108864 * 67108864 == HIDDEN;
  }

  /** Every positive whole number below 2^53 is a word's value. */
  lemma SafeIsWord(n: nat) returns (m: Magnitude)
    requires 0 < n < SAFE
    ensures m <= MAX && Value(m) == n as real
  {
    hide *;
    TwoTo53();
    var j := Log2(n, 53);
    var k := 52 - j;
    Pow2Sum(j, k);
    Pow2Sum(j + 1, k);
    SomePower(k);
    Between2(n, Pow2(j), Pow2(j + 1), Pow2(k));
    WordOf(j, n * Pow2(k));
    m := (1022 + j) * HIDDEN + n * Pow2(k);
    Unscaled(n, k);
  }

  lemma SomePower(k: nat)
    ensures Pow2(k) > 0
  {
  }

  lemma Between2(n: nat, a: nat, b: nat, k: nat)
    requires a <= n < b && k > 0
    ensures a * k <= n * k < b * k
  {
  }

  lemma WordOf(j: nat, s: nat)
    requires j <= 52 && HIDDEN <= s < 2 * HIDDEN
    ensures var m := (1022 + j) * HIDDEN + s; 0 <= m <= MAX < INF && Value(m) == s as real * Exp2(j - 52)
  {
    var m := (1022 + j) * HIDDEN + s;
    assert m == (1023 + j) * HIDDEN + (s - HIDDEN);
    assert m / HIDDEN == 1023 + j && m % HIDDEN == s - HIDDEN;
    hide Exp2;
  }

  lemma Unscaled(n: nat, k: nat)
    ensures (n * Pow2(k)) as real * Exp2(-(k as int)) == n as real
  {
    Pow2AsReal(k);
    Exp2Sum(-(k as int), k);
    ExpZero();
    hide Exp2, Pow2;
    assert (n * Pow2(k)) as real == n as real * Pow2(k) as real;
    Cancelled(n as real, Pow2(k) as real, Exp2(-(k as int)));
  }

  lemma Cancelled(n: real, p: real, u: real)
    requires u * p == 1.0
    ensures (n * p) * u == n
  {
    assert (n * p) * u == n * (u * p);
  }

  /** From 2^53 on, every word's value is whole. */
  lemma LargeIsWhole(m: nat)
    requires 1076 * HIDDEN <= m <= MAX
    ensures WholeNumber(Value(m))
  {
    LargePlace(m);
    hide *;
    var n := Significand(m) * Pow2(Place(m));
    Pow2AsReal(Place(m));
    WholeProduct(Significand(m), Pow2(Place(m)));
    ValueParts(m);
    assert Value(m) == n as real;
    WholeIsNumber(n);
  }

  lemma LargePlace(m: nat)
    requires 1076 * HIDDEN <= m <= MAX
    ensures Place(m) >= 1
  {
    assert m / HIDDEN >= 1076;
  }

  lemma ValueParts(m: nat)
    ensures Value(m) == Significand(m) as real * Exp2(Place(m))
  {
    hide Exp2, Place, Significand;
  }

  lemma WholeProduct(a: nat, b: nat)
    ensures (a * b) as real == a as real * b as real
  {
  }

  /** 2^53 is the first word of its binade. */
  lemma SafeWord()
    ensures 1076 * HIDDEN <= MAX < INF && Value(1076 * HIDDEN) == SAFE as real
  {
    PowerWord(53);
    Exp2Sum(1, 52);
    PowerOf52();
    assert Exp2(1) == 2.0;
    hide Exp2;
  }

  /** A whole value is printed without a fraction. */
  lemma WholePrinted(word: nat, n: nat)
    requires 0 < word <= MAX && Value(word) == n as real
    ensures Shortest(word).exponent >= 0
    ensures |Dec(Shortest(word).coefficient)| == |Dec(n)| ==> Shortest(word).Number() == Value(word)
  {
    hide *;
    var d, length := Shortest(word), |Dec(n)|;
    ShortestFacts(word);
    NumberFits(word, n);
    DigitsOf(n);
    InDecade(d);
    if |Dec(d.coefficient)| == length {
      ExactExponent(d, n);
    } else {
      BelowDecade(word, n);
      PositionIs(d);
    }
  }

  lemma PositionIs(d: Decimal)
    ensures Position(d) == |Dec(d.coefficient)| + d.exponent
  {
  }

  /** The number itself is a decimal that rounds to its word. */
  lemma NumberFits(word: nat, n: nat)
    requires 0 < word <= MAX && Value(word) == n as real
    ensures n > 0 && |Dec(Shortest(word).coefficient)| <= |Dec(n)|
    ensures |Dec(Shortest(word).coefficient)| == |Dec(n)| ==> Shortest(word).Number() == n as real
  {
    ValueZero();
    ValueOrder(0, word);
    WholeScaled(n);
    NearestOfValue(word);
    ShortestIsShortest(word);
    assert RoundsTo(n, 0, word) by {
      hide Value, Scaled, NearestMagnitude;
    }
    hide Shortest, Scaled, RoundsTo, Value, Dec;
    if |Dec(Shortest(word).coefficient)| == |Dec(n)| {
      assert NoFarther(word, Shortest(word), n, 0);
      assert Distance(n, 0, Value(word)) == 0.0;
    }
  }

  lemma WholeScaled(n: int)
    ensures Scaled(n, 0) == n as real
  {
    ExpTenZero();
    hide Exp10;
  }

  lemma DigitsOf(n: nat)
    requires n > 0
    ensures |Dec(n)| > 0 && Exp10(|Dec(n)| - 1) <= n as real < Exp10(|Dec(n)|)
  {
    DecIsNumeral(n);
    DigitCount(n);
    var length := |Dec(n)|;
    hide Dec, Exp10, Pow10, Scaled;
    WholeScaled(Pow10(length - 1));
    WholeScaled(Pow10(length));
    ScaledShift(1, 0, length - 1);
    ScaledShift(1, 0, length);
    OnePlace(length - 1);
    OnePlace(length);
    assert 1 * Pow10(length - 1) == Pow10(length - 1) && 1 * Pow10(length) == Pow10(length);
  }

  /** An exact decimal of a whole number, stripped of its zeros, has no negative exponent. */
  lemma ExactExponent(d: Decimal, n: nat)
    requires d.coefficient % 10 != 0 && d.Number() == n as real
    ensures d.exponent >= 0
  {
    if d.exponent < 0 {
      var k := -d.exponent;
      WholeScaled(n);
      ScaledShift(n, d.exponent, k);
      ScaledOrder(d.coefficient, n * Pow10(k), d.exponent);
      assert Pow10(k) == 10 * Pow10(k - 1);
      hide Scaled, Pow10;
      TenDivides(n, Pow10(k - 1));
    }
  }

  lemma TenDivides(n: nat, p: nat)
    ensures n * (10 * p) % 10 == 0
  {
    assert n * (10 * p) == 10 * (n * p);
  }

  /** A decimal cannot stop below the decade of the whole number it is printed for. */
  lemma BelowDecade(word: nat, n: nat)
    requires 0 < word <= MAX && Value(word) == n as real && n > 0 && |Dec(n)| > 0
    requires Exp10(|Dec(n)| - 1) <= n as real
    ensures Position(Shortest(word)) >= |Dec(n)|
  {
    hide *;
    var d, k := Shortest(word), |Dec(n)| - 1;
    ShortestFacts(word);
    InDecade(d);
    TenPositive(k);
    if Position(d) <= k {
      Exp10Order(Position(d), k);
      NearestMagnitudeMonotone(d.Number(), Exp10(k));
      NearestMagnitudeMonotone(Exp10(k), Value(word));
      NearestOfValue(word);
      Nearer(word, k);
    }
  }

  lemma Nearer(word: nat, k: int)
    requires 0 < word <= MAX && Exp10(k) > 0.0 && NearestMagnitude(Exp10(k)) == word
    ensures !(Shortest(word).Number() < Exp10(k) <= Value(word))
  {
    ShortestIsShortest(word);
    OnePlace(k);
    assert RoundsTo(1, k, word) by {
      hide Scaled, NearestMagnitude, Exp10;
    }
    assert Dec(1) == "1";
    DecIsNumeral(Shortest(word).coefficient);
    hide Shortest, RoundsTo, Exp10, Scaled, Value, Dec;
    assert NoFarther(word, Shortest(word), 1, k);
  }

  /** In the plain range, no fraction is printed exactly for whole values. */
  lemma WholeIff(word: nat)
    requires 0 < word <= MAX
    ensures Shortest(word).exponent >= 0 <==> WholeNumber(Value(word))
  {
    hide *;
    ValuePositive(word);
    if WholeNumber(Value(word)) {
      WholeFloor(Value(word));
      WholePrinted(word, Value(word).Floor);
    } else if Shortest(word).exponent >= 0 {
      WholeDecimal(word);
    }
  }

  lemma ValuePositive(word: nat)
    requires 0 < word
    ensures Value(word) > 0.0
  {
    ValueZero();
    ValueOrder(0, word);
    hide Value;
  }

  lemma WholeFloor(v: real)
    requires WholeNumber(v) && v > 0.0
    ensures v.Floor > 0 && v == v.Floor as real
  {
  }

  /** A word whose decimal is whole has a whole value. */
  lemma WholeDecimal(word: nat)
    requires 0 < word <= MAX && Shortest(word).exponent >= 0
    ensures WholeNumber(Value(word))
  {
    hide *;
    var d := Shortest(word);
    ShortestFacts(word);
    var n := DecimalWhole(d);
    if n < SAFE {
      var m := SafeIsWord(n);
      NearestOfValue(m);
      WholeIsNumber(n);
    } else {
      SafeWord();
      WholeIsNumber(SAFE);
      NearestMagnitudeMonotone(SAFE as real, d.Number());
      NearestOfValue(1076 * HIDDEN);
      LargeIsWhole(word);
    }
  }

  lemma DecimalWhole(d: Decimal) returns (n: nat)
    requires d.coefficient > 0 && d.exponent >= 0
    ensures n > 0 && d.Number() == n as real && n == d.coefficient * Pow10(d.exponent)
  {
    n := d.coefficient * Pow10(d.exponent);
    ScaledShift(d.coefficient, 0, d.exponent);
    WholeScaled(n);
    PositiveProduct(d.coefficient, Pow10(d.exponent));
    hide Scaled, Pow10;
  }

  lemma PositiveProduct(a: nat, b: nat)
    requires a > 0 && b > 0
    ensures a * b > 0
  {
  }

  // ----- The layout of a word's text -----

  /** The magnitudes printed without an exponent. */
  ghost predicate PlainRange(word: nat) {
    WORD_MILLIONTH <= word && Value(word) < E21 as real
  }

  lemma PlainPosition(word: nat)
    requires 0 < word <= MAX
    ensures PlainRange(word) <==> -6 < Position(Shortest(word)) <= 21
  {
    hide *;
    E21Resolves();
    MillionthResolves();
    DecadeOfWord(word, 21);
    DecadeOfWord(word, -6);
    MillionthWord();
    E21IsWord();
    TenTo21();
    ValueOrder(word, WORD_E21);
    RangeIs(word);
  }

  lemma RangeIs(word: nat)
    ensures PlainRange(word) <==> WORD_MILLIONTH <= word && Value(word) < E21 as real
  {
    hide Value;
  }

  /** Without an exponent: plainly, with a point exactly when the value is not whole. */
  lemma PlainLayout(bits: Word) returns (whole: string, fraction: string)
    requires Finite(bits) && 0 < bits % SIGN && PlainRange(bits % SIGN)
    ensures TextOf(bits).Some? && Plain(TextOf(bits).value, bits >= SIGN, whole, fraction)
    ensures fraction == "" <==> WholeNumber(Value(bits % SIGN))
  {
    hide *;
    TextOfNonzero(bits);
    var d := Shortest(bits % SIGN);
    ShortestFacts(bits % SIGN);
    PlainPosition(bits % SIGN);
    whole, fraction := PlainRendered(bits >= SIGN, d);
    WholeIff(bits % SIGN);
  }

  /** With an exponent: from 10^21 on, and below the word nearest to 10^-6. */
  lemma ScientificLayout(bits: Word) returns (lead: char, fraction: string, power: int)
    requires Finite(bits) && 0 < bits % SIGN && !PlainRange(bits % SIGN)
    ensures TextOf(bits).Some? && Scientific(TextOf(bits).value, bits >= SIGN, lead, fraction, power)
    ensures power >= 21 || power <= -7
  {
    hide *;
    TextOfNonzero(bits);
    var d := Shortest(bits % SIGN);
    ShortestFacts(bits % SIGN);
    PlainPosition(bits % SIGN);
    lead, fraction := ScientificRendered(bits >= SIGN, d);
    power := Position(d) - 1;
  }

  /** A whole number below 2^53 is printed digit by digit. */
  lemma SafeText(bits: Word, n: nat)
    requires Finite(bits) && Value(bits % SIGN) == n as real && 0 < n < SAFE
    ensures TextOf(bits) == Some(SignText(bits >= SIGN) + Dec(n))
  {
    hide *;
    var word := bits % SIGN;
    SafeMagnitude(bits);
    TextOfNonzero(bits);
    var d := Shortest(word);
    ShortestFacts(word);
    WholePrinted(word, n);
    var k := DecimalWhole(d);
    SafeExact(word, n, k);
    PlainPosition(word);
    SafeInRange(word, n);
    var whole, fraction := PlainRendered(bits >= SIGN, d);
    WholeDigits(whole, k, d);
    NoFraction(TextOf(bits).value, bits >= SIGN, whole);
  }

  lemma SafeMagnitude(bits: Word)
    requires Finite(bits) && Value(bits % SIGN) > 0.0
    ensures 0 < bits % SIGN <= MAX
  {
    FiniteFields(bits);
    ValueZero();
    hide Value;
  }

  /** No other whole number rounds to the word. */
  lemma SafeExact(word: nat, n: nat, k: nat)
    requires 0 < word <= MAX && Value(word) == n as real && n < SAFE && k > 0
    requires Shortest(word).Number() == k as real && NearestMagnitude(k as real) == word
    ensures k == n
  {
    hide *;
    if k < SAFE {
      var m := SafeIsWord(k);
      NearestOfValue(m);
    } else {
      SafeWord();
      NearestMagnitudeMonotone(SAFE as real, k as real);
      NearestOfValue(1076 * HIDDEN);
      ValueOrder(word, 1076 * HIDDEN);
    }
  }

  lemma SafeInRange(word: nat, n: nat)
    requires 0 < word <= MAX && Value(word) == n as real && 0 < n < SAFE
    ensures PlainRange(word)
  {
    SafeBelow();
    MillionthWord();
    OneAbove();
    hide Value, Exp10, NearestMagnitude;
    ValueOrder(WORD_MILLIONTH, word);
  }

  lemma SafeBelow()
    ensures SAFE < E21
  {
  }

  lemma OneAbove()
    ensures Exp10(-6) < 1.0
  {
    TenToMinus6();
    TenPositive(-6);
    hide Exp10;
  }

  lemma WholeDigits(whole: string, k: nat, d: Decimal)
    requires d.coefficient > 0 && d.exponent >= 0 && k == d.coefficient * Pow10(d.exponent)
    requires whole == Dec(d.coefficient) + Zeros(d.exponent)
    ensures whole == Dec(k)
  {
    DecIsNumeral(d.coefficient);
    ZerosValue(d.exponent);
    ZeroRun(d.exponent);
    NatJoin(Dec(d.coefficient), Zeros(d.exponent));
    hide Dec, Zeros, Pow10, Nat;
    assert whole[0] == Dec(d.coefficient)[0];
    NumeralIsDec(whole);
  }

  lemma NoFraction(text: string, negative: bool, whole: string)
    requires Plain(text, negative, whole, "")
    ensures text == SignText(negative) + whole
  {
    hide AllDigits;
  }

  /**
   The bound below is not 10^-6: the word nearest to it lies below it and is printed plainly, the
   word before it is not.
   */
  lemma MillionthPlain()
    ensures Value(WORD_MILLIONTH) < Exp10(-6)
    ensures PlainRange(WORD_MILLIONTH) && !PlainRange(WORD_MILLIONTH - 1)
  {
    MillionthWord();
    OneAbove();
    SafeBelow();
    hide Value, Exp10, NearestMagnitude;
  }

  // ----- Large whole numbers -----

  function SignificantDigits(n: nat): nat {
    |Dec(Strip(Decimal(n, 0)).coefficient)|
  }

  /** Some decimal of fewer digits than the number's own rounds to the word. */
  ghost predicate Shortened(word: nat, n: nat) {
    exists c: nat, e: int :: c > 0 && |Dec(c)| < SignificantDigits(n) && RoundsTo(c, e, word)
  }

  /** A whole value below 10^21 is printed digit by digit exactly when no shorter decimal rounds to its word. */
  lemma WholeTextIff(bits: Word, n: nat)
    requires Finite(bits) && Value(bits % SIGN) == n as real && 0 < n < E21
    ensures TextOf(bits) == Some(SignText(bits >= SIGN) + Dec(n)) <==> !Shortened(bits % SIGN, n)
  {
    hide *;
    var word := bits % SIGN;
    SafeMagnitude(bits);
    TextOfNonzero(bits);
    var d := Shortest(word);
    ShortestFacts(word);
    WholeInRange(word, n);
    PlainPosition(word);
    WholeIsNumber(n);
    WholeIff(word);
    var whole, fraction := PlainRendered(bits >= SIGN, d);
    var k := DecimalWhole(d);
    WholeDigits(whole, k, d);
    NoFraction(TextOf(bits).value, bits >= SIGN, whole);
    SameDigits(SignText(bits >= SIGN), k, n);
    ExactIff(word, n);
  }

  lemma WholeInRange(word: nat, n: nat)
    requires 0 < word <= MAX && Value(word) == n as real && 0 < n < E21
    ensures PlainRange(word)
  {
    MillionthWord();
    OneAbove();
    hide Value, Exp10, NearestMagnitude;
    ValueOrder(WORD_MILLIONTH, word);
  }

  lemma SameDigits(sign: string, k: nat, n: nat)
    ensures sign + Dec(k) == sign + Dec(n) <==> k == n
  {
    hide Dec;
    if sign + Dec(k) == sign + Dec(n) {
      assert Dec(k) == (sign + Dec(k))[|sign|..] == (sign + Dec(n))[|sign|..] == Dec(n);
      DecInjective(k, n);
    }
  }

  /** The shortest decimal is the value itself exactly when nothing shorter rounds to the word. */
  lemma ExactIff(word: nat, n: nat)
    requires 0 < word <= MAX && Value(word) == n as real && n > 0
    ensures Shortest(word).Number() == n as real <==> !Shortened(word, n)
  {
    hide *;
    var d, s := Shortest(word), Strip(Decimal(n, 0));
    ShortestIsShortest(word);
    ShortestFacts(word);
    StrippedFits(word, n);
    ShortestOfLength(word, d, s, n);
    if d.Number() == n as real {
      SameStripped(d, s);
    }
  }

  lemma StrippedFits(word: nat, n: nat)
    requires 0 < word <= MAX && Value(word) == n as real && n > 0
    ensures var s := Strip(Decimal(n, 0));
            && s.coefficient > 0 && s.coefficient % 10 != 0 && s.Number() == n as real
            && RoundsTo(s.coefficient, s.exponent, word) && SignificantDigits(n) == |Dec(s.coefficient)|
  {
    StripKeepsNumber(Decimal(n, 0));
    WholeScaled(n);
    NearestOfValue(word);
    hide Value, Scaled, NearestMagnitude, Strip, Dec;
  }

  /** Two decimals of one number, neither ending in zero, are the same. */
  lemma SameStripped(a: Decimal, b: Decimal)
    requires a.coefficient % 10 != 0 && b.coefficient % 10 != 0 && a.Number() == b.Number()
    ensures a == b
  {
    if a.exponent < b.exponent {
      MoreZeros(a, b);
    } else if b.exponent < a.exponent {
      MoreZeros(b, a);
    } else {
      ScaledOrder(a.coefficient, b.coefficient, a.exponent);
    }
    hide Scaled;
  }

  lemma MoreZeros(a: Decimal, b: Decimal)
    requires a.Number() == b.Number() && a.exponent < b.exponent
    ensures a.coefficient % 10 == 0
  {
    var k := b.exponent - a.exponent;
    ScaledShift(b.coefficient, a.exponent, k);
    ScaledOrder(a.coefficient, b.coefficient * Pow10(k), a.exponent);
    assert Pow10(k) == 10 * Pow10(k - 1);
    hide Scaled, Pow10;
    TenDivides(b.coefficient, Pow10(k - 1));
  }

  lemma ShortestOfLength(word: nat, d: Decimal, s: Decimal, n: nat)
    requires 0 < word <= MAX && IsShortest(word, d) && Value(word) == n as real
    requires s.coefficient > 0 && s.Number() == n as real && RoundsTo(s.coefficient, s.exponent, word)
    requires SignificantDigits(n) == |Dec(s.coefficient)|
    ensures Shortened(word, n) <==> |Dec(d.coefficient)| < |Dec(s.coefficient)|
    ensures |Dec(d.coefficient)| == |Dec(s.coefficient)| ==> d.Number() == n as real
    ensures |Dec(d.coefficient)| <= |Dec(s.coefficient)|
    ensures d.Number() == n as real && d.coefficient == s.coefficient ==> !Shortened(word, n)
  {
    hide RoundsTo, Scaled, Value, Dec, SignificantDigits;
    if |Dec(d.coefficient)| == |Dec(s.coefficient)| {
      assert NoFarther(word, d, s.coefficient, s.exponent);
    }
  }

  const TWO69: nat := 590_295_810_358_705_651_712

  /** 2^69 has more digits than its word needs, so it is not printed digit by digit. */
  lemma TwoTo69Rounded()
    ensures Value(1092 * HIDDEN) == TWO69 as real && 1092 * HIDDEN < SIGN
    ensures TextOf(1092 * HIDDEN) != Some(Dec(TWO69))
  {
    var word := 1092 * HIDDEN;
    NearE21(HIDDEN);
    assert 1091 * HIDDEN + HIDDEN == word && word % SIGN == word;
    FiniteFields(word);
    Two69Shortened();
    hide Value, TextOf, Dec, Shortest, Finite, Shortened;
    WholeTextIff(word, TWO69);
    assert SignText(false) + Dec(TWO69) == Dec(TWO69);
  }

  /** 5902958103587057e5 is 48288 above 2^69, and words there are 131072 apart. */
  lemma Two69Shortened()
    ensures Shortened(1092 * HIDDEN, TWO69)
  {
    var word, c := 1092 * HIDDEN, 5_902_958_103_587_057;
    NearE21(HIDDEN);
    assert 1091 * HIDDEN + HIDDEN == word;
    Two69Value(c);
    Two69Midpoints();
    TenToSixteen();
    hide Value, Scaled, NearestMagnitude, Pow10;
    NearestBetweenMidpoints(Scaled(c, 5), word);
    DigitCountOrder(c, 16);
    Two69Digits();
    assert RoundsTo(c, 5, word);
  }

  lemma Two69Value(c: nat)
    ensures Scaled(c, 5) == (c * 100_000) as real
  {
    assert Pow10(5) == 100_000;
    ScaledShift(c, 0, 5);
    hide Scaled, Pow10;
    WholeScaled(c * 100_000);
  }

  lemma Two69Midpoints()
    ensures var m := 1092 * HIDDEN;
            Midpoint(m - 1) <= TWO69 as real && Midpoint(m) == (TWO69 + 65_536) as real
  {
    var m := 1092 * HIDDEN;
    NearE21(HIDDEN);
    NearE21(HIDDEN + 1);
    assert 1091 * HIDDEN + HIDDEN == m && 1091 * HIDDEN + (HIDDEN + 1) == m + 1;
    ValueOrder(m - 1, m);
    hide Value;
  }

  lemma Two69Digits()
    ensures SignificantDigits(TWO69) > 16
  {
    TenToSixteen();
    assert Strip(Decimal(TWO69, 0)) == Decimal(TWO69, 0);
    hide Strip, Dec, Pow10;
    DigitCountOrder(TWO69, 16);
  }
}
