/**
 The shortest decimal that rounds back to a binary64 word: the exact-rational search used for
 evidence, the cross-multiplied integer search used for canonical JSON, and the text both print
 (Number::toString of ECMAScript, by section 3.2.2.3 of RFC 8785).
 */
module ShortestDecimal {
  import opened Binary64
  import opened DecimalText
  import opened Common
  import PowerOracle

  /** coefficient * 10^exponent. */
  datatype Decimal = Decimal(coefficient: nat, exponent: int) {
    function Number(): real {
      Scaled(coefficient, exponent)
    }
  }

  /** 10^m <= v < 10^(m+1). */
  ghost predicate HasMagnitude(v: real, m: int) {
    Exp10(m) <= v < Exp10(m + 1)
  }

  // ----- One length of the search -----

  function Quotient(v: real, u: real): real
    requires u > 0.0
  {
    v / u
  }

  function Floor(v: real, e: int): int {
    Quotient(v, Exp10(e)).Floor
  }

  lemma FloorBrackets(v: real, e: int)
    ensures Scaled(Floor(v, e), e) <= v < Scaled(Floor(v, e) + 1, e)
  {
    hide Exp10, Quotient, Times;
    var u := Exp10(e);
    var x := Quotient(v, u);
    QuotientTimes(v, u);
    TimesOrder(x.Floor as real, x, u);
    TimesOrder(x, (x.Floor + 1) as real, u);
  }

  lemma QuotientTimes(v: real, u: real)
    requires u > 0.0
    ensures Times(Quotient(v, u), u) == v
  {
  }

  /** Does c * 10^e round back to the word? */
  predicate RoundsTo(c: int, e: int, word: nat) {
    c > 0 && NearestMagnitude(Abs(Scaled(c, e))) == word
  }

  function Distance(c: int, e: int, v: real): real {
    Abs(Scaled(c, e) - v)
  }

  /** The accepted neighbour of v on the grid of 10^e, nearer first, even on ties. */
  function Candidate(v: real, word: nat, e: int): Option<nat> {
    var low := Floor(v, e);
    var first, second := RoundsTo(low, e, word), RoundsTo(low + 1, e, word);
    if first && second then
      var a, b := Distance(low, e, v), Distance(low + 1, e, v);
      Some(if a < b || (a == b && low % 2 == 0) then low else low + 1)
    else if first then Some(low)
    else if second then Some(low + 1)
    else None
  }

  const MAX_DIGITS: nat := 17

  /** Lengths digits, digits + 1, ..., 17 in turn. */
  function Search(v: real, word: nat, m: int, digits: nat): Option<Decimal>
    decreases MAX_DIGITS + 1 - digits
  {
    if digits > MAX_DIGITS then None
    else
      match Candidate(v, word, m - digits + 1)
      case Some(c) => Some(Decimal(c, m - digits + 1))
      case None => Search(v, word, m, digits + 1)
  }

  /** Trailing zeros moved into the exponent. */
  function Strip(d: Decimal): Decimal
    decreases d.coefficient
  {
    if d.coefficient > 0 && d.coefficient % 10 == 0 then Strip(Decimal(d.coefficient / 10, d.exponent + 1)) else d
  }

  lemma {:induction false} StripKeepsNumber(d: Decimal)
    ensures Strip(d).Number() == d.Number()
    ensures d.coefficient > 0 ==> Strip(d).coefficient > 0 && Strip(d).coefficient % 10 != 0
    ensures Strip(d).coefficient <= d.coefficient
    decreases d.coefficient
  {
    hide Scaled;
    if d.coefficient > 0 && d.coefficient % 10 == 0 {
      StripKeepsNumber(Decimal(d.coefficient / 10, d.exponent + 1));
      ScaledTenfold(d.coefficient / 10, d.exponent);
    }
  }

  // ----- Every decimal that rounds to the word is beaten on the grid -----

  /** Rounding intervals are convex. */
  lemma Between(word: nat, x: real, y: real)
    requires word <= MAX && 0.0 <= x && 0.0 <= y
    requires NearestMagnitude(x) == word
    requires x <= y <= Value(word) || Value(word) <= y <= x
    ensures NearestMagnitude(y) == word
  {
    hide Value, NearestMagnitude;
    NearestOfValue(word);
    ValueNonnegative(word);
    if x < y {
      NearestMagnitudeMonotone(x, y);
      NearestMagnitudeMonotone(y, Value(word));
    } else if y < x {
      NearestMagnitudeMonotone(y, x);
      NearestMagnitudeMonotone(Value(word), y);
    }
  }

  /**
   A decimal of at most `digits` digits that rounds to the word is no nearer to v than one of the
   two grid neighbours of that length, which then also rounds to it.
   */
  lemma GridBeats(v: real, word: nat, m: int, digits: nat, c: nat, e: int)
    requires word <= MAX && v == Value(word) && HasMagnitude(v, m) && digits > 0
    requires 0 < c < Pow10(digits) && RoundsTo(c, e, word)
    ensures var g := m - digits + 1;
            var low := Floor(v, g);
            || (RoundsTo(low, g, word) && Scaled(c, e) <= Scaled(low, g) <= v)
            || (RoundsTo(low + 1, g, word) && v < Scaled(low + 1, g) <= Scaled(c, e))
            || (RoundsTo(low, g, word) && Scaled(low, g) == v)
  {
    hide Value, NearestMagnitude, Scaled, Floor, Exp10;
    var g := m - digits + 1;
    var low := Floor(v, g);
    FloorBrackets(v, g);
    GridFloor(v, m, digits);
    ScaledOrder(c, 0, e);
    ScaledOrder(low, 0, g);
    ScaledOrder(low + 1, 0, g);
    var d := Scaled(c, e);
    if e >= g {
      ScaledShift(c, g, e - g);
      var k := c * Pow10(e - g);
      assert d == Scaled(k, g);
      ScaledOrder(k, low, g);
      ScaledOrder(k, low + 1, g);
    } else {
      BelowGrid(c, e, m, digits);
    }
    if d <= Scaled(low, g) {
      Between(word, d, Scaled(low, g));
    } else {
      Between(word, d, Scaled(low + 1, g));
    }
  }

  /** The leading grid point 10^m is at most v, so the lower neighbour has it below. */
  lemma GridFloor(v: real, m: int, digits: nat)
    requires HasMagnitude(v, m) && digits > 0
    ensures var g := m - digits + 1;
            && Floor(v, g) >= Pow10(digits - 1)
            && Floor(v, g) < Pow10(digits)
            && Exp10(m) <= Scaled(Floor(v, g), g)
  {
    hide Floor, Scaled, Exp10;
    var g := m - digits + 1;
    var low := Floor(v, g);
    FloorBrackets(v, g);
    ScaledShift(1, g, digits - 1);
    ScaledShift(1, g, digits);
    ScaledOrder(1, 0, m);
    ScaledOrder(1, 0, m + 1);
    ScaledOrder(Pow10(digits - 1), low + 1, g);
    ScaledOrder(Pow10(digits), low, g);
    ScaledOrder(Pow10(digits - 1), low, g);
  }

  lemma BelowGrid(c: nat, e: int, m: int, digits: nat)
    requires c < Pow10(digits) && e < m - digits + 1
    ensures Scaled(c, e) < Exp10(m)
  {
    hide Scaled, Exp10;
    ScaledOrder(c, Pow10(digits), e);
    ScaledShift(1, e, digits);
    ScaledShift(1, e + digits, m - e - digits);
    ScaledOrder(1, Pow10(m - e - digits), e + digits);
    ScaledOrder(1, 0, m);
  }

  // ----- Seventeen digits always suffice -----

  /** 2^53 units of the last place exceed the value. */
  lemma BelowTopOfBinade(k: nat)
    ensures Value(k) + Exp2(Place(k)) <= Times((2 * HIDDEN) as real, Exp2(Place(k)))
  {
    var s, u := Significand(k), Exp2(Place(k));
    hide Exp2, Place;
    assert s + 1 <= 2 * HIDDEN;
    UnitsAtMost((s + 1) as real, (2 * HIDDEN) as real, u);
    assert (s + 1) as real * u == s as real * u + u;
  }

  lemma UnitsAtMost(a: real, b: real, u: real)
    requires a <= b && u > 0.0
    ensures a * u <= b * u
  {
  }

  /** 2 * 10^16 > 2^54: the seventeen-digit grid is finer than the rounding interval. */
  lemma GridIsFine(word: nat, m: int)
    requires 0 < word <= MAX && HasMagnitude(Value(word), m)
    ensures Exp10(m - 16) < Exp2(Place(word - 1)) <= Exp2(Place(word))
  {
    hide Exp10, Exp2, Value, Place, Times;
    BelowTopOfBinade(word - 1);
    ValueStep(word - 1);
    PlaceStep(word - 1);
    ScaledShift(1, m - 16, 16);
    ScaledOrder(1, 0, m);
    TenToSixteen();
    SixteenZeros(Exp10(m - 16), Exp2(Place(word - 1)));
  }

  lemma TenToSixteen()
    ensures Pow10(16) == 10_000_000_000_000_000
  {
    assert Pow10(4) == 10_000;
    Pow10Sum(4, 4);
    Pow10Sum(8, 8);
  }

  lemma SixteenZeros(u: real, p: real)
    requires 0.0 < u && 0.0 < p
    requires Times(10_000_000_000_000_000.0, u) <= Times((2 * HIDDEN) as real, p)
    ensures u < p
  {
  }

  lemma SeventeenDigits(word: nat, m: int)
    requires 0 < word <= MAX && HasMagnitude(Value(word), m)
    ensures Candidate(Value(word), word, m - 16).Some?
  {
    hide *;
    SeventeenNear(word, m);
    NeighbourChosen(Value(word), word, m - 16);
  }

  lemma NeighbourChosen(v: real, word: nat, g: int)
    requires RoundsTo(Floor(v, g), g, word) || RoundsTo(Floor(v, g) + 1, g, word)
    ensures Candidate(v, word, g).Some?
  {
    hide RoundsTo, Floor, Distance;
  }

  /** One of the two grid neighbours lies inside the rounding interval. */
  lemma SeventeenNear(word: nat, m: int)
    requires 0 < word <= MAX && HasMagnitude(Value(word), m)
    ensures var g := m - 16;
            var low := Floor(Value(word), g);
            RoundsTo(low, g, word) || RoundsTo(low + 1, g, word)
  {
    hide *;
    var v, g := Value(word), m - 16;
    var low := Floor(v, g);
    GridIsFine(word, m);
    FloorBrackets(v, g);
    ScaledOrder(low, 0, g);
    GridFloor(v, m, 17);
    SomeDigits(16);
    if v - Scaled(low, g) <= Scaled(low + 1, g) - v {
      NearRounds(low, g, word);
    } else {
      NearRounds(low + 1, g, word);
    }
  }

  lemma SomeDigits(n: nat)
    ensures Pow10(n) > 0
  {
  }

  /** Less than half a unit from the value, on either side: the decimal rounds to the word. */
  lemma NearRounds(c: int, g: int, word: nat)
    requires 0 < word <= MAX && c > 0
    requires Value(word) - Exp2(Place(word - 1)) / 2.0 < Scaled(c, g) < Value(word) + Exp2(Place(word)) / 2.0
    ensures RoundsTo(c, g, word)
  {
    ValueStep(word - 1);
    ValueStep(word);
    ScaledOrder(0, c, g);
    hide Exp2, Value, Place, Scaled, NearestMagnitude;
    NearestBetweenMidpoints(Scaled(c, g), word);
  }

  // ----- What the search returns -----

  ghost predicate LengthFails(word: nat, m: int, digits: nat) {
    Candidate(Value(word), word, m - digits + 1).None?
  }

  /** The search from `digits` on, when no shorter length has a candidate. */
  lemma {:induction false} SearchFinds(word: nat, m: int, digits: nat)
    requires 0 < word <= MAX && HasMagnitude(Value(word), m) && 1 <= digits <= MAX_DIGITS
    requires forall d :: 1 <= d < digits ==> LengthFails(word, m, d)
    ensures var r := Search(Value(word), word, m, digits);
            && r.Some?
            && var n := m - r.value.exponent + 1;
            && digits <= n <= MAX_DIGITS
            && Candidate(Value(word), word, m - n + 1) == Some(r.value.coefficient)
            && forall d :: 1 <= d < n ==> LengthFails(word, m, d)
    decreases MAX_DIGITS - digits
  {
    hide Candidate, Value, Exp10;
    if digits == MAX_DIGITS {
      SeventeenDigits(word, m);
    } else if LengthFails(word, m, digits) {
      SearchFinds(word, m, digits + 1);
    }
  }

  /** What ECMAScript asks of the decimal printed for a word; `n` is its number of digits. */
  ghost predicate IsShortest(word: nat, d: Decimal) {
    var n := |Dec(d.coefficient)|;
    && d.coefficient > 0 && d.coefficient % 10 != 0
    && RoundsTo(d.coefficient, d.exponent, word)
    && (forall c: nat, e :: c > 0 && RoundsTo(c, e, word) ==> n <= |Dec(c)|)
    && (forall c: nat, e :: c > 0 && RoundsTo(c, e, word) && |Dec(c)| <= n ==> NoFarther(word, d, c, e))
  }

  /** d is at least as near as c * 10^e, and even (or a carry to a power of ten) when another is as near. */
  ghost predicate NoFarther(word: nat, d: Decimal, c: nat, e: int) {
    var ours, theirs := Distance(d.coefficient, d.exponent, Value(word)), Distance(c, e, Value(word));
    && ours <= theirs
    && (ours == theirs && d.Number() != Scaled(c, e) ==> d.coefficient % 2 == 0 || d.coefficient == 1)
  }

  /** A chosen candidate is the nearer accepted neighbour, even on a tie. */
  lemma CandidateIsNearest(v: real, word: nat, g: int, c: nat)
    requires Candidate(v, word, g) == Some(c)
    ensures var low := Floor(v, g);
            && RoundsTo(c, g, word) && (c == low || c == low + 1)
            && (RoundsTo(low, g, word) ==> Distance(c, g, v) <= Distance(low, g, v))
            && (RoundsTo(low + 1, g, word) ==> Distance(c, g, v) <= Distance(low + 1, g, v))
            && (RoundsTo(low, g, word) && RoundsTo(low + 1, g, word) && Distance(low, g, v) == Distance(low + 1, g, v)
                ==> c % 2 == 0)
  {
    hide NearestMagnitude, Scaled, Floor;
  }

  /** No decimal of at most `digits` digits beats the candidate of that length. */
  lemma CandidateBeats(word: nat, m: int, digits: nat, c: nat, other: nat, e: int)
    requires 0 < word <= MAX && HasMagnitude(Value(word), m) && digits > 0
    requires 0 < other < Pow10(digits) && RoundsTo(other, e, word)
    ensures !LengthFails(word, m, digits)
    ensures var g, v := m - digits + 1, Value(word);
            Candidate(v, word, g) == Some(c) ==>
              && Distance(c, g, v) <= Distance(other, e, v)
              && (Distance(c, g, v) == Distance(other, e, v) && Scaled(c, g) != Scaled(other, e) ==> c % 2 == 0)
  {
    var g, v := m - digits + 1, Value(word);
    hide NearestMagnitude, Scaled, Floor, Value, HasMagnitude, Pow10, RoundsTo, Candidate;
    GridBeats(v, word, m, digits, other, e);
    FloorBrackets(v, g);
    NeighbourChosen(v, word, g);
    if Candidate(v, word, g) == Some(c) {
      CandidateIsNearest(v, word, g, c);
    }
  }

  // ----- The magnitude, and the decimal it determines -----

  lemma MagnitudeUnique(v: real, m: int, m': int)
    requires HasMagnitude(v, m) && HasMagnitude(v, m')
    ensures m == m'
  {
    hide Exp10;
    if m < m' {
      Exp10Order(m + 1, m');
    } else if m' < m {
      Exp10Order(m' + 1, m);
    }
  }

  lemma Exp10Order(a: int, b: int)
    requires a <= b
    ensures Exp10(a) <= Exp10(b)
  {
    hide Exp10;
    ScaledShift(1, a, b - a);
    ScaledOrder(1, Pow10(b - a), a);
    ScaledOrder(1, 0, b);
    ScaledOrder(1, 0, a);
  }

  /** Numerator and denominator of the word's exact value, in lowest terms. */
  function Numerator(word: nat): nat
    requires 0 < word <= MAX
  {
    FractionOf(word);
    PowerOracle.Lowest(word).numerator
  }

  function Denominator(word: nat): nat
    requires 0 < word <= MAX
  {
    FiniteFields(word);
    Pow2(PowerOracle.Lowest(word).log)
  }

  lemma FractionOf(word: nat)
    requires 0 < word <= MAX
    ensures Finite(word) && PowerOracle.Lowest(word).numerator > 0
    ensures Times(Value(word), Pow2(PowerOracle.Lowest(word).log) as real) == PowerOracle.Lowest(word).numerator as real
  {
    hide Value, PowerOracle.Lowest, Exp2, Pow2;
    FiniteFields(word);
    PowerOracle.LowestExact(word);
    PowerOracle.LowestSign(word);
    ValueNonnegative(word);
    Pow2AsReal(PowerOracle.Lowest(word).log);
    PositiveRational(word);
    hide Rational;
  }

  lemma PositiveRational(word: nat)
    requires 0 < word <= MAX
    ensures Finite(word) && Rational(word) == Value(word)
  {
    hide Value;
    FiniteFields(word);
    assert word < SIGN && word % SIGN == word;
  }

  /** First guess of the magnitude: the difference of the two digit counts. */
  function Estimate(word: nat): int
    requires 0 < word <= MAX
  {
    |Dec(Numerator(word))| - |Dec(Denominator(word))|
  }

  /** The guess is the magnitude or one more. */
  lemma EstimateIsClose(word: nat)
    requires 0 < word <= MAX
    ensures Exp10(Estimate(word) - 1) < Value(word) < Exp10(Estimate(word) + 1)
  {
    var n, d := Numerator(word), Denominator(word);
    FractionOf(word);
    assert Times(Value(word), d as real) == n as real && n > 0;
    assert d > 0;
    DigitCount(n);
    DigitCount(d);
    hide Numerator, Denominator, Value, Exp10;
    QuotientOfPowers(Value(word), n, d, |Dec(n)|, |Dec(d)|);
  }

  lemma QuotientOfPowers(v: real, n: nat, d: nat, a: nat, b: nat)
    requires a >= 1 && b >= 1 && d > 0
    requires Times(v, d as real) == n as real
    requires Pow10(a - 1) <= n < Pow10(a) && Pow10(b - 1) <= d < Pow10(b)
    ensures Exp10(a - b - 1) < v < Exp10(a - b + 1)
  {
    hide Exp10;
    ExpProduct(a - b - 1, b, a - 1);
    ExpProduct(a - b + 1, b - 1, a);
    var x, y := Exp10(a - b - 1), Exp10(a - b + 1);
    LowerQuotient(v, x, d as real, Pow10(b) as real, n as real);
    UpperQuotient(v, y, d as real, Pow10(b - 1) as real, n as real);
  }

  lemma ExpProduct(e: int, k: nat, r: int)
    requires e + k == r && r >= 0
    ensures Times(Exp10(e), Pow10(k) as real) == Pow10(r) as real
  {
    hide Exp10;
    ScaledShift(1, e, k);
    ScaledShift(1, 0, r);
    ScaledOrder(1, 0, r);
    ExpTenZero();
    assert Scaled(Pow10(k), e) == Times(Pow10(k) as real, Exp10(e));
    assert Scaled(Pow10(r), 0) == Times(Pow10(r) as real, 1.0);
  }

  lemma ExpTenZero()
    ensures Exp10(0) == 1.0
  {
  }

  lemma LowerQuotient(v: real, x: real, d: real, p: real, n: real)
    requires 0.0 < d < p && x > 0.0 && Times(v, d) == n && Times(x, p) <= n
    ensures x < v
  {
    assert v <= x ==> v * d <= x * d;
  }

  lemma UpperQuotient(v: real, y: real, d: real, p: real, n: real)
    requires 0.0 < p <= d && y > 0.0 && Times(v, d) == n && n < Times(y, p)
    ensures v < y
  {
    assert y <= v ==> y * d <= v * d;
  }

  lemma MagnitudeExists(word: nat)
    requires 0 < word <= MAX
    ensures exists m :: HasMagnitude(Value(word), m)
  {
    EstimateIsClose(word);
    hide Exp10, Value, Estimate;
    var e := Estimate(word);
    if Value(word) < Exp10(e) {
      assert HasMagnitude(Value(word), e - 1);
    } else {
      assert HasMagnitude(Value(word), e);
    }
  }

  ghost function MagnitudeOf(word: nat): (m: int)
    requires 0 < word <= MAX
    ensures HasMagnitude(Value(word), m)
  {
    MagnitudeExists(word);
    var m :| HasMagnitude(Value(word), m);
    m
  }

  ghost function Shortest(word: nat): Decimal
    requires 0 < word <= MAX
  {
    NothingShorter(word);
    Strip(Search(Value(word), word, MagnitudeOf(word), 1).value)
  }

  lemma NothingShorter(word: nat)
    requires 0 < word <= MAX
    ensures Search(Value(word), word, MagnitudeOf(word), 1).Some?
  {
    SearchFinds(word, MagnitudeOf(word), 1);
  }

  lemma {:induction false} StripPowerOfTen(n: nat, e: int)
    ensures Strip(Decimal(Pow10(n), e)).coefficient == 1
    decreases n
  {
    if n > 0 {
      StripPowerOfTen(n - 1, e + 1);
    }
  }

  lemma RoundsToNumber(a: Decimal, b: Decimal, word: nat)
    requires a.Number() == b.Number() && a.coefficient > 0 && b.coefficient > 0
    ensures RoundsTo(a.coefficient, a.exponent, word) <==> RoundsTo(b.coefficient, b.exponent, word)
    ensures forall v :: Distance(a.coefficient, a.exponent, v) == Distance(b.coefficient, b.exponent, v)
  {
    hide Scaled, NearestMagnitude;
  }

  /** A shorter decimal would have been found at a shorter length. */
  lemma NoShorterDecimal(word: nat, m: int, n: nat, c: nat, e: int)
    requires 0 < word <= MAX && HasMagnitude(Value(word), m)
    requires forall d :: 1 <= d < n ==> LengthFails(word, m, d)
    requires c > 0 && RoundsTo(c, e, word)
    ensures n <= |Dec(c)|
  {
    hide RoundsTo, LengthFails, Value, Exp10;
    DecIsNumeral(c);
    if |Dec(c)| < n {
      DigitCount(c);
      CandidateBeats(word, m, |Dec(c)|, c, c, e);
    }
  }

  /** The stripped coefficient has exactly as many digits as the search length. */
  lemma StrippedLength(word: nat, m: int, n: nat, d: Decimal)
    requires 0 < word <= MAX && HasMagnitude(Value(word), m) && n >= 1
    requires forall k :: 1 <= k < n ==> LengthFails(word, m, k)
    requires 0 < d.coefficient <= Pow10(n) && RoundsTo(d.coefficient, d.exponent, word)
    ensures |Dec(Strip(d).coefficient)| == n
    ensures Strip(d) == d || (n == 1 && Strip(d).coefficient == 1)
  {
    hide RoundsTo, LengthFails, Value, Exp10, Scaled;
    var s := Strip(d);
    StripKeepsNumber(d);
    RoundsToNumber(s, d, word);
    NoShorterDecimal(word, m, n, s.coefficient, s.exponent);
    if d.coefficient == Pow10(n) {
      StripPowerOfTen(n, d.exponent);
      assert Dec(1) == "1";
    } else {
      DigitCountOrder(s.coefficient, n);
      if d.coefficient % 10 == 0 {
        ShorterWhenStripped(d, n);
      }
    }
  }

  lemma ShorterWhenStripped(d: Decimal, n: nat)
    requires n >= 1 && 0 < d.coefficient < Pow10(n) && d.coefficient % 10 == 0
    ensures |Dec(Strip(d).coefficient)| < n
  {
    StripKeepsNumber(d);
    StripKeepsNumber(Decimal(d.coefficient / 10, d.exponent + 1));
    hide Scaled, Exp10;
    var s := Strip(d).coefficient;
    assert s <= d.coefficient / 10;
    assert n > 1;
    DigitCountOrder(s, n - 1);
  }

  /** The search returns what ECMAScript prescribes. */
  lemma ShortestIsShortest(word: nat)
    requires 0 < word <= MAX
    ensures IsShortest(word, Shortest(word))
  {
    var m, v := MagnitudeOf(word), Value(word);
    hide RoundsTo, LengthFails, Value, Exp10, Scaled, Distance, Candidate;
    SearchFinds(word, m, 1);
    var found := Search(v, word, m, 1).value;
    var n := m - found.exponent + 1;
    var d := Strip(found);
    FoundIsBounded(word, m, n, found);
    StripKeepsNumber(found);
    RoundsToNumber(d, found, word);
    StrippedLength(word, m, n, found);
    forall c: nat, e | c > 0 && RoundsTo(c, e, word)
      ensures n <= |Dec(c)| && (|Dec(c)| <= n ==> NoFarther(word, d, c, e))
    {
      NoShorterDecimal(word, m, n, c, e);
      if |Dec(c)| <= n {
        NoNearerDecimal(word, m, n, found, d, c, e);
      }
    }
    hide NoFarther;
  }

  lemma NoNearerDecimal(word: nat, m: int, n: nat, found: Decimal, d: Decimal, c: nat, e: int)
    requires 0 < word <= MAX && HasMagnitude(Value(word), m) && n >= 1
    requires found.exponent == m - n + 1
    requires Candidate(Value(word), word, found.exponent) == Some(found.coefficient)
    requires d.Number() == found.Number() && (d == found || d.coefficient == 1)
    requires c > 0 && RoundsTo(c, e, word) && |Dec(c)| <= n
    ensures NoFarther(word, d, c, e)
  {
    hide RoundsTo, LengthFails, Value, Exp10, Scaled, Distance, Candidate, Dec, HasMagnitude;
    DigitCountOrder(c, n);
    CandidateBeats(word, m, n, found.coefficient, c, e);
    SameDistance(d, found, Value(word));
  }

  lemma SameDistance(a: Decimal, b: Decimal, v: real)
    requires a.Number() == b.Number()
    ensures Distance(a.coefficient, a.exponent, v) == Distance(b.coefficient, b.exponent, v)
  {
    hide Scaled;
  }

  lemma FoundIsBounded(word: nat, m: int, n: nat, found: Decimal)
    requires 0 < word <= MAX && HasMagnitude(Value(word), m) && n >= 1
    requires found.exponent == m - n + 1
    requires Candidate(Value(word), word, found.exponent) == Some(found.coefficient)
    ensures 0 < found.coefficient <= Pow10(n)
    ensures RoundsTo(found.coefficient, found.exponent, word)
  {
    hide Value, Exp10, Scaled, Floor, NearestMagnitude;
    CandidateIsNearest(Value(word), word, found.exponent, found.coefficient);
    GridFloor(Value(word), m, n);
  }

  // ----- Text -----

  /** Fixed or scientific notation of a signed coefficient and exponent. */
  function Render(negative: bool, d: Decimal): string {
    var sign := if negative then "-" else "";
    var digits := Dec(d.coefficient);
    var position := |digits| + d.exponent;
    if |digits| <= position <= 21 then sign + digits + Zeros(position - |digits|)
    else if 0 < position <= 21 then sign + digits[..position] + "." + digits[position..]
    else if -6 < position <= 0 then sign + "0." + Zeros(-position) + digits
    else
      var power := position - 1;
      var tail := if |digits| > 1 then "." + digits[1..] else "";
      DecIsNumeral(d.coefficient);
      sign + digits[..1] + tail + "e" + (if power >= 0 then "+" + Dec(power) else "-" + Dec(-power))
  }

  /** The text of a binary64 word in canonical JSON; nonfinite words have none. */
  ghost function TextOf(bits: Word): Option<string> {
    if !Finite(bits) then None
    else
      FiniteFields(bits);
      if bits % SIGN == 0 then Some("0")
      else Some(Render(bits >= SIGN, Shortest(bits % SIGN)))
  }

  // ----- `shortest` and `number_token`: exact fractions -----

  lemma SearchUnfolds(v: real, word: nat, m: int, digits: nat)
    requires digits <= MAX_DIGITS
    ensures var c := Candidate(v, word, m - digits + 1);
            Search(v, word, m, digits) ==
            (if c.Some? then Some(Decimal(c.value, m - digits + 1)) else Search(v, word, m, digits + 1))
  {
  }

  method FindMagnitude(word: nat) returns (magnitude: int)
    requires 0 < word <= MAX
    ensures HasMagnitude(Value(word), magnitude)
  {
    EstimateIsClose(word);
    hide Value, Exp10, Estimate;
    magnitude := Estimate(word);
    ghost var start := magnitude;
    while Value(word) < Exp10(magnitude)
      invariant start - 1 <= magnitude <= start
      decreases magnitude - start + 1
    {
      magnitude := magnitude - 1;
    }
    while Value(word) >= Exp10(magnitude + 1)
      invariant start - 1 <= magnitude <= start
      invariant Exp10(magnitude) <= Value(word)
      decreases start - magnitude
    {
      magnitude := magnitude + 1;
    }
  }

  /** `shortest`: signed coefficient and exponent, or None for a nonfinite word. */
  method ShortestOf(bits: Word) returns (decimal: Option<(int, int)>)
    ensures decimal == (if !Finite(bits) then None
                        else if bits % SIGN == 0 then Some((0, 0))
                        else SignedShortest(bits))
  {
    hide Value, Exp10, Shortest;
    if !Finite(bits) {
      return None;
    }
    FiniteFields(bits);
    var word := bits % SIGN;
    ValueNonnegative(word);
    if Value(word) == 0.0 {
      return Some((0, 0));
    }
    var found := SearchLengths(word);
    var coefficient, exponent := StripZeros(found);
    return Some((if bits >= SIGN then -(coefficient as int) else coefficient, exponent));
  }

  ghost function SignedShortest(bits: Word): Option<(int, int)>
    requires Finite(bits) && bits % SIGN != 0
  {
    FiniteFields(bits);
    var d := Shortest(bits % SIGN);
    Some((if bits >= SIGN then -(d.coefficient as int) else d.coefficient, d.exponent))
  }

  method SearchLengths(word: nat) returns (found: Decimal)
    requires 0 < word <= MAX
    ensures found.coefficient > 0
    ensures Strip(found) == Shortest(word)
  {
    var magnitude := FindMagnitude(word);
    ShortestByMagnitude(word, magnitude);
    hide *;
    var result := TryLengths(word, magnitude);
    found := result.value;
    SearchPositive(Value(word), word, magnitude, 1);
  }

  /** The loop over lengths; running out is the source's error, which no word reaches. */
  method TryLengths(word: nat, magnitude: int) returns (result: Option<Decimal>)
    ensures result == Search(Value(word), word, magnitude, 1)
  {
    hide *;
    for digits := 1 to MAX_DIGITS + 1
      invariant Search(Value(word), word, magnitude, 1) == Search(Value(word), word, magnitude, digits)
    {
      SearchUnfolds(Value(word), word, magnitude, digits);
      var exponent := magnitude - digits + 1;
      var candidate := Candidate(Value(word), word, exponent);
      if candidate.Some? {
        return Some(Decimal(candidate.value, exponent));
      }
    }
    SearchEnds(Value(word), word, magnitude);
    return None;
  }

  lemma {:induction false} SearchPositive(v: real, word: nat, m: int, digits: nat)
    ensures Search(v, word, m, digits).Some? ==> Search(v, word, m, digits).value.coefficient > 0
    decreases MAX_DIGITS + 1 - digits
  {
    hide Candidate;
    CandidatePositive(v, word, m - digits + 1);
    if digits <= MAX_DIGITS {
      SearchPositive(v, word, m, digits + 1);
    }
  }

  lemma SearchEnds(v: real, word: nat, m: int)
    ensures Search(v, word, m, MAX_DIGITS + 1).None?
  {
  }

  /** Any correct magnitude leads to the same decimal. */
  lemma ShortestByMagnitude(word: nat, m: int)
    requires 0 < word <= MAX && HasMagnitude(Value(word), m)
    ensures var r := Search(Value(word), word, m, 1);
            r.Some? && Shortest(word) == Strip(r.value)
  {
    hide Value, Exp10, Search;
    NothingShorter(word);
    MagnitudeUnique(Value(word), m, MagnitudeOf(word));
  }

  lemma CandidatePositive(v: real, word: nat, e: int)
    ensures Candidate(v, word, e).Some? ==> Candidate(v, word, e).value > 0
  {
    hide NearestMagnitude, Scaled, Floor;
  }

  method StripZeros(found: Decimal) returns (coefficient: nat, exponent: int)
    requires found.coefficient > 0
    ensures Decimal(coefficient, exponent) == Strip(found) && coefficient > 0
  {
    coefficient, exponent := found.coefficient, found.exponent;
    while coefficient % 10 == 0
      invariant coefficient > 0
      invariant Strip(Decimal(coefficient, exponent)) == Strip(found)
      decreases coefficient
    {
      coefficient := coefficient / 10;
      exponent := exponent + 1;
    }
  }

  method NumberToken(bits: Word) returns (token: Option<string>)
    ensures token == TextOf(bits)
  {
    var decimal := ShortestOf(bits);
    if decimal.None? {
      return None;
    }
    FiniteFields(bits);
    hide Shortest, Render;
    var (coefficient, exponent) := decimal.value;
    RenderZero();
    ShortestPositive(bits);
    token := Some(Render(coefficient < 0, Decimal(if coefficient < 0 then -coefficient else coefficient, exponent)));
  }

  lemma RenderZero()
    ensures Render(false, Decimal(0, 0)) == "0"
  {
    assert Zeros(0) == "";
  }

  lemma ShortestPositive(bits: Word)
    ensures Finite(bits) && bits % SIGN != 0 ==> 0 < bits % SIGN <= MAX && Shortest(bits % SIGN).coefficient > 0
  {
    FiniteFields(bits);
    if Finite(bits) && bits % SIGN != 0 {
      ShortestIsShortest(bits % SIGN);
    }
  }

  // ----- `_number`: the same search on integers -----

  /** 10^e as a ratio of two natural numbers. */
  function PowerRatio(e: int): (r: (nat, nat))
    ensures r.0 > 0 && r.1 > 0
  {
    if e >= 0 then (Pow10(e), 1) else (1, Pow10(-e))
  }

  lemma PowerRatioExact(e: int)
    ensures var (a, b) := PowerRatio(e); Times(b as real, Exp10(e)) == a as real
  {
    hide Exp10, Pow10;
    ExpTenZero();
    if e >= 0 {
      ScaledShift(1, 0, e);
      ScaledOrder(1, 0, e);
      assert Scaled(Pow10(e), 0) == Times(Pow10(e) as real, 1.0);
    } else {
      ScaledShift(1, e, -e);
      ScaledOrder(1, 0, 0);
    }
  }

  /** Cross-multiplied differences are the exact differences, scaled by a positive number. */
  lemma CrossMultiplied(v: real, n: nat, d: nat, e: int, c: int)
    requires d > 0 && Times(v, d as real) == n as real
    ensures var (a, b) := PowerRatio(e);
            (c * a * d - n * b) as real == Times(Scaled(c, e) - v, (d * b) as real)
  {
    var (a, b) := PowerRatio(e);
    PowerRatioExact(e);
    hide PowerRatio, Exp10;
    Regroup(c as real, Exp10(e), v, d as real, b as real, a as real, n as real);
    assert (c * a * d - n * b) as real == c as real * a as real * d as real - n as real * b as real by {
      CastProducts(c, a, d, n, b);
    }
    assert (d * b) as real == d as real * b as real;
  }

  lemma CastProducts(c: int, a: nat, d: nat, n: nat, b: nat)
    ensures (c * a * d - n * b) as real == c as real * a as real * d as real - n as real * b as real
  {
    assert (c * a) as real == c as real * a as real;
    assert (c * a * d) as real == (c * a) as real * d as real;
    assert (n * b) as real == n as real * b as real;
  }

  lemma Regroup(c: real, u: real, v: real, d: real, b: real, a: real, n: real)
    requires Times(b, u) == a && Times(v, d) == n
    ensures c * a * d - n * b == Times(Times(c, u) - v, d * b)
  {
    assert (c * u - v) * (d * b) == c * (b * u) * d - (v * d) * b;
  }

  /** Sign and size of the integer difference are those of the exact one. */
  lemma CrossOrder(v: real, n: nat, d: nat, e: int, c: int)
    requires d > 0 && Times(v, d as real) == n as real
    ensures var (a, b) := PowerRatio(e);
            && (n * b >= d * a * c <==> v >= Scaled(c, e))
            && IntAbs(c * a * d - n * b) as real == Times(Distance(c, e, v), (d * b) as real)
            && d * b > 0 && d * a > 0
  {
    var (a, b) := PowerRatio(e);
    CrossMultiplied(v, n, d, e, c);
    var p := d * b;
    PositiveScale(d, b);
    PositiveScale(d, a);
    Commuted(c, a, d);
    hide PowerRatio, Scaled;
    TimesOrder(Scaled(c, e) - v, 0.0, p as real);
    TimesZero(p as real);
    TimesNegated(Scaled(c, e) - v, p as real);
    hide Times;
  }

  function IntAbs(x: int): nat {
    if x < 0 then -x else x
  }

  lemma Commuted(c: int, a: nat, d: nat)
    ensures d * a * c == c * a * d
  {
  }

  lemma PositiveScale(a: nat, b: nat)
    requires a > 0 && b > 0
    ensures a * b > 0
  {
  }

  lemma TimesZero(p: real)
    ensures Times(0.0, p) == 0.0
  {
  }

  lemma TimesNegated(x: real, p: real)
    ensures Times(-x, p) == -Times(x, p)
  {
  }

  /** Integer quotient = floor on the grid of 10^e. */
  lemma QuotientIsFloor(v: real, n: nat, d: nat, e: int)
    requires d > 0 && Times(v, d as real) == n as real
    ensures var (a, b) := PowerRatio(e);
            && d * a > 0
            && n * b / (d * a) == Floor(v, e)
  {
    var (a, b) := PowerRatio(e);
    var q := Floor(v, e);
    FloorBrackets(v, e);
    CrossOrder(v, n, d, e, q);
    CrossOrder(v, n, d, e, q + 1);
    hide PowerRatio, Scaled, Floor;
    QuotientUnique(n * b, d * a, q);
  }

  lemma QuotientUnique(x: nat, y: nat, q: int)
    requires y > 0 && y * q <= x < y * (q + 1)
    ensures x / y == q
  {
    FactorBelow(q, x / y + 1, y);
    FactorBelow(x / y, q + 1, y);
  }

  lemma FactorBelow(p: int, r: int, y: nat)
    ensures y > 0 && y * p < y * r ==> p < r
  {
    if r <= p {
      assert y * r <= y * p;
    }
  }

  lemma SameOrder(v: real, n: nat, d: nat, e: int, c: int)
    requires d > 0 && Times(v, d as real) == n as real
    ensures var (a, b) := PowerRatio(e);
            var x, y := IntAbs(c * a * d - n * b), IntAbs((c + 1) * a * d - n * b);
            && (x < y <==> Distance(c, e, v) < Distance(c + 1, e, v))
            && (x == y <==> Distance(c, e, v) == Distance(c + 1, e, v))
  {
    CrossOrder(v, n, d, e, c);
    CrossOrder(v, n, d, e, c + 1);
    var (a, b) := PowerRatio(e);
    hide PowerRatio, Distance, IntAbs;
    TimesOrder(Distance(c, e, v), Distance(c + 1, e, v), (d * b) as real);
    hide Times;
  }

  /** One length of `_number`: both neighbours tested, the least (distance, parity) kept. */
  method CandidateOf(n: nat, d: nat, e: int, word: nat) returns (candidate: Option<nat>)
    requires d > 0 && 0 < word <= MAX && Times(Value(word), d as real) == n as real
    ensures candidate == Candidate(Value(word), word, e)
  {
    var (a, b) := PowerRatio(e);
    QuotientIsFloor(Value(word), n, d, e);
    var quotient := n * b / (d * a);
    SameOrder(Value(word), n, d, e, quotient);
    hide Value, Floor, Distance, RoundsTo, PowerRatio;
    var best: Option<(nat, nat, nat)> := None;
    if RoundsTo(quotient, e, word) {
      best := Some((IntAbs(quotient * a * d - n * b), quotient % 2, quotient));
    }
    if RoundsTo(quotient + 1, e, word) {
      var next := (IntAbs((quotient + 1) * a * d - n * b), (quotient + 1) % 2, quotient + 1);
      if best.None? || next.0 < best.value.0 || (next.0 == best.value.0 && next.1 < best.value.1) {
        best := Some(next);
      }
    }
    candidate := if best.Some? then Some(best.value.2) else None;
  }

  method CrossMagnitude(word: nat) returns (magnitude: int)
    requires 0 < word <= MAX
    ensures HasMagnitude(Value(word), magnitude - 1)
  {
    EstimateIsClose(word);
    FractionOf(word);
    var numerator, denominator := Numerator(word), Denominator(word);
    magnitude := |Dec(numerator)| - |Dec(denominator)|;
    var (a, b) := PowerRatio(magnitude);
    assert denominator > 0 && Times(Value(word), denominator as real) == numerator as real;
    hide Value, Exp10, PowerRatio, Numerator, Denominator;
    CrossOrder(Value(word), numerator, denominator, magnitude, 1);
    ScaledOrder(1, 0, magnitude);
    if numerator * b >= denominator * a {
      magnitude := magnitude + 1;
    }
  }

  /** `_number` on a binary64 value: the same text as `number_token`, by integer arithmetic alone. */
  method JcsNumber(bits: Word) returns (text: Option<string>)
    ensures text == TextOf(bits)
  {
    if !Finite(bits) {
      return None;
    }
    FiniteFields(bits);
    var word := bits % SIGN;
    if word == 0 {
      return Some("0");
    }
    var magnitude := CrossMagnitude(word);
    FractionOf(word);
    var numerator, denominator := Numerator(word), Denominator(word);
    assert denominator > 0 && Times(Value(word), denominator as real) == numerator as real;
    hide *;
    ShortestByMagnitude(word, magnitude - 1);
    SearchPositive(Value(word), word, magnitude - 1, 1);
    var found := TryPrecisions(word, numerator, denominator, magnitude);
    var coefficient, exponent := StripZeros(found.value);
    text := Some(Render(bits >= SIGN, Decimal(coefficient, exponent)));
    TextOfNonzero(bits);
  }

  /** The word holds exactly this integer. */
  ghost predicate Holds(bits: Word, value: int) {
    Finite(bits) && Rational(bits) == value as real
  }

  /** `_number` on an integer: refused when no binary64 word holds it, and the word's text otherwise. */
  method JcsInteger(value: int) returns (text: Option<string>)
    ensures text.Some? <==> exists bits: Word :: Holds(bits, value)
    ensures forall bits: Word :: Holds(bits, value) ==> text == TextOf(bits)
  {
    var converted := RoundToNearest(value as real, false);
    forall bits: Word | Holds(bits, value)
      ensures Holds(converted, value) && TextOf(bits) == TextOf(converted)
    {
      IntegerWord(bits, converted, value);
    }
    if !Finite(converted) || Rational(converted) != value as real {
      return None;
    }
    assert Holds(converted, value);
    text := JcsNumber(converted);
    hide TextOf;
  }

  lemma IntegerWord(bits: Word, converted: Word, value: int)
    requires Holds(bits, value) && converted == Nearest(value as real, false)
    ensures Holds(converted, value) && TextOf(bits) == TextOf(converted)
  {
    NearestOfRational(bits);
    if value == 0 {
      NearestOfRational(0);
      ZeroWord(bits);
      ZeroWord(0);
    }
    hide Rational, Nearest, Finite, TextOf;
  }

  /** The words of zero, and their text. */
  lemma ZeroWord(bits: Word)
    requires Finite(bits)
    ensures Rational(bits) == 0.0 <==> bits % SIGN == 0
    ensures bits % SIGN == 0 ==> TextOf(bits) == Some("0")
  {
    FiniteFields(bits);
    ValueNonnegative(bits % SIGN);
    hide Value, Render;
  }

  lemma TextOfNonzero(bits: Word)
    requires Finite(bits) && bits % SIGN != 0
    ensures 0 < bits % SIGN <= MAX && TextOf(bits) == Some(Render(bits >= SIGN, Shortest(bits % SIGN)))
  {
    FiniteFields(bits);
  }

  method TryPrecisions(word: nat, n: nat, d: nat, magnitude: int) returns (result: Option<Decimal>)
    requires 0 < word <= MAX && d > 0 && Times(Value(word), d as real) == n as real
    ensures result == Search(Value(word), word, magnitude - 1, 1)
  {
    hide *;
    for precision := 1 to MAX_DIGITS + 1
      invariant Search(Value(word), word, magnitude - 1, 1) == Search(Value(word), word, magnitude - 1, precision)
    {
      SearchUnfolds(Value(word), word, magnitude - 1, precision);
      var exponent := magnitude - precision;
      var candidate := CandidateOf(n, d, exponent, word);
      if candidate.Some? {
        return Some(Decimal(candidate.value, exponent));
      }
    }
    SearchEnds(Value(word), word, magnitude - 1);
    return None;
  }

  // ----- The text reads back as the same number -----

  lemma {:induction false} DigitsEndIs(text: string, i: nat, j: nat)
    requires i <= j <= |text|
    requires forall k :: i <= k < j ==> IsDigit(text[k])
    requires j < |text| ==> !IsDigit(text[j])
    ensures DigitsEnd(text, i) == j
    decreases j - i
  {
    if i < j {
      DigitsEndIs(text, i + 1, j);
    }
  }

  /** Digits after the point, if any. */
  function PointPart(fraction: string): string {
    if fraction == "" then "" else "." + fraction
  }

  function ExponentPart(exponent: Option<int>): string {
    match exponent
    case None => ""
    case Some(x) => "e" + if x >= 0 then "+" + Dec(x) else "-" + Dec(-x)
  }

  function ExponentOf(exponent: Option<int>): int {
    match exponent
    case None => 0
    case Some(x) => x
  }

  function Assemble(negative: bool, whole: string, fraction: string, exponent: Option<int>): string {
    (if negative then "-" else "") + whole + PointPart(fraction) + ExponentPart(exponent)
  }

  lemma ExponentPartShape(exponent: Option<int>)
    requires exponent.Some?
    ensures var s := ExponentPart(exponent);
            && |s| >= 3 && s[0] == 'e' && (s[1] == '+' || s[1] == '-')
            && s[2..] == Dec(if exponent.value >= 0 then exponent.value else -exponent.value)
            && AllDigits(s[2..])
            && (s[1] == '-' <==> exponent.value < 0)
  {
    var x := exponent.value;
    DecIsNumeral(if x >= 0 then x else -x);
  }

  /** text is a sign, a whole part, a fraction part and an exponent part, ending at a, b, c and |text|. */
  ghost predicate Parts(text: string, a: nat, b: nat, c: nat, negative: bool, whole: string, fraction: string,
      exponent: string)
  {
    && a <= b <= c <= |text|
    && text[..a] == (if negative then "-" else "")
    && text[a..b] == whole && text[b..c] == PointPart(fraction) && text[c..] == exponent
  }

  predicate CanonicalWhole(whole: string) {
    AllDigits(whole) && |whole| > 0 && (whole[0] == '0' ==> |whole| == 1)
  }

  lemma AssembledParts(negative: bool, whole: string, fraction: string, exponent: string)
    ensures var a := if negative then 1 else 0;
            var b := a + |whole|;
            Parts((if negative then "-" else "") + whole + PointPart(fraction) + exponent,
                  a, b, b + |PointPart(fraction)|, negative, whole, fraction, exponent)
  {
    hide PointPart;
    Slices(if negative then "-" else "", whole, PointPart(fraction), exponent);
  }

  lemma Slices(p: string, q: string, r: string, s: string)
    ensures var t := p + q + r + s;
            && t[..|p|] == p && t[|p|..|p| + |q|] == q
            && t[|p| + |q|..|p| + |q| + |r|] == r && t[|p| + |q| + |r|..] == s
  {
  }

  lemma SliceAt(text: string, i: nat, j: nat, part: string, k: nat)
    requires i <= j <= |text| && text[i..j] == part && i <= k < j
    ensures k - i < |part| && text[k] == part[k - i]
  {
  }

  /** A whole part is scanned exactly. */
  lemma WholeEnds(text: string, a: nat, b: nat, c: nat, negative: bool, whole: string, fraction: string,
      exponent: string)
    requires Parts(text, a, b, c, negative, whole, fraction, exponent) && CanonicalWhole(whole)
    requires b < |text| ==> !IsDigit(text[b])
    ensures MinusEnd(text, 0) == a && IntegerEnd(text, a) == b
    ensures NegativeNumber(text) <==> negative
  {
    SliceAt(text, a, b, whole, a);
    if negative {
      SliceAt(text, 0, a, "-", 0);
    }
    forall k | a <= k < b
      ensures IsDigit(text[k])
    {
      SliceAt(text, a, b, whole, k);
    }
    DigitsEndIs(text, a, b);
  }

  lemma FractionEnds(text: string, a: nat, b: nat, c: nat, negative: bool, whole: string, fraction: string,
      exponent: string)
    requires Parts(text, a, b, c, negative, whole, fraction, exponent) && AllDigits(fraction)
    requires exponent != "" ==> exponent[0] == 'e'
    ensures FractionEnd(text, b) == c
    ensures b < |text| ==> !IsDigit(text[b])
    ensures c < |text| ==> text[c] == 'e'
    ensures c == b + |PointPart(fraction)| && (c > b ==> text[b + 1..c] == fraction)
  {
    if c < |text| {
      SliceAt(text, c, |text|, exponent, c);
    }
    if fraction != "" {
      SliceAt(text, b, c, PointPart(fraction), b);
      forall k | b < k < c
        ensures IsDigit(text[k])
      {
        SliceAt(text, b, c, PointPart(fraction), k);
      }
      DigitsEndIs(text, b + 1, c);
      assert text[b + 1..c] == text[b..c][1..];
    }
  }

  lemma ExponentEnds(text: string, c: nat, exponent: int)
    requires c <= |text| && text[c..] == ExponentPart(Some(exponent))
    ensures c < |text| && ExponentEnd(text, c) == |text| && ExponentValue(text, c) == exponent
  {
    var s := ExponentPart(Some(exponent));
    var n: nat := if exponent >= 0 then exponent else -exponent;
    ExponentPartShape(Some(exponent));
    DecIsNumeral(n);
    hide Dec, ExponentPart, Nat;
    SliceAt(text, c, |text|, s, c);
    SliceAt(text, c, |text|, s, c + 1);
    assert text[c + 2..|text|] == text[c..][2..] == Dec(n);
    forall k | c + 2 <= k < |text|
      ensures IsDigit(text[k])
    {
      SliceAt(text, c + 2, |text|, Dec(n), k);
    }
    DigitsEndIs(text, c + 2, |text|);
    assert text[c + 1..c + 2] == [text[c + 1]];
  }

  lemma NoExponent(text: string)
    ensures ExponentEnd(text, |text|) == |text|
  {
  }

  lemma AssembledNumber(negative: bool, whole: string, fraction: string, exponent: Option<int>)
    requires CanonicalWhole(whole) && AllDigits(fraction)
    ensures var text := Assemble(negative, whole, fraction, exponent);
            && IsNumber(text) && (NegativeNumber(text) <==> negative)
            && AllDigits(whole + fraction)
            && Denoted(text) == Scaled(Nat(whole + fraction), ExponentOf(exponent) - |fraction|)
  {
    var text := Assemble(negative, whole, fraction, exponent);
    var a := if negative then 1 else 0;
    var b := a + |whole|;
    var c := b + |PointPart(fraction)|;
    AssembledParts(negative, whole, fraction, ExponentPart(exponent));
    if exponent.Some? {
      ExponentPartShape(exponent);
    }
    FractionEnds(text, a, b, c, negative, whole, fraction, ExponentPart(exponent));
    WholeEnds(text, a, b, c, negative, whole, fraction, ExponentPart(exponent));
    if exponent.Some? {
      ExponentEnds(text, c, exponent.value);
    } else {
      NoExponent(text);
    }
    ScannedNumber(text, a, b, c, negative, whole, fraction, exponent);
  }

  lemma ScannedNumber(text: string, a: nat, b: nat, c: nat, negative: bool, whole: string, fraction: string,
      exponent: Option<int>)
    requires a <= b <= c <= |text| && b > a && AllDigits(whole) && AllDigits(fraction)
    requires MinusEnd(text, 0) == a && IntegerEnd(text, a) == b && FractionEnd(text, b) == c
    requires ExponentEnd(text, c) == |text|
    requires text[a..b] == whole && c == b + |PointPart(fraction)| && (c > b ==> text[b + 1..c] == fraction)
    requires c < |text| <==> exponent.Some?
    requires c < |text| ==> ExponentValue(text, c) == exponent.value
    ensures IsNumber(text)
    ensures AllDigits(whole + fraction)
    ensures Denoted(text) == Scaled(Nat(whole + fraction), ExponentOf(exponent) - |fraction|)
  {
    hide MinusEnd, IntegerEnd, FractionEnd, ExponentEnd, Nat, Scaled, ExponentValue;
    assert Mantissa(text, a, b, c) == whole + fraction;
  }

  /** What Render prints denotes coefficient * 10^exponent, with its sign. */
  lemma RenderDenotes(negative: bool, d: Decimal)
    requires d.coefficient > 0
    ensures var text := Render(negative, d);
            && IsNumber(text) && (NegativeNumber(text) <==> negative)
            && Denoted(text) == d.Number()
  {
    hide Render, RenderParts, Assemble, IsNumber, NegativeNumber, Scaled, Nat, Denoted, CanonicalWhole, AllDigits;
    var (whole, fraction, exponent) := RenderParts(d);
    RenderAssembles(negative, d);
    RenderPartsDenote(d);
    AssembledNumber(negative, whole, fraction, exponent);
  }

  function RenderParts(d: Decimal): (string, string, Option<int>) {
    var digits := Dec(d.coefficient);
    var position := |digits| + d.exponent;
    DecIsNumeral(d.coefficient);
    if |digits| <= position <= 21 then (digits + Zeros(position - |digits|), "", None)
    else if 0 < position < |digits| && position <= 21 then (digits[..position], digits[position..], None)
    else if -6 < position <= 0 then ("0", Zeros(-position) + digits, None)
    else (digits[..1], digits[1..], Some(position - 1))
  }

  lemma RenderAssembles(negative: bool, d: Decimal)
    requires d.coefficient > 0
    ensures var (whole, fraction, exponent) := RenderParts(d);
            Render(negative, d) == Assemble(negative, whole, fraction, exponent)
  {
    hide Dec, Zeros, AllDigits, Nat;
    var position := |Dec(d.coefficient)| + d.exponent;
    if 0 < position <= 21 {
      RenderFixed(negative, d);
    } else if -6 < position <= 0 {
      DecIsNumeral(d.coefficient);
      JoinZero(if negative then "-" else "", Zeros(-position), Dec(d.coefficient));
    } else {
      RenderScientific(negative, d);
    }
  }

  lemma RenderFixed(negative: bool, d: Decimal)
    requires d.coefficient > 0 && 0 < |Dec(d.coefficient)| + d.exponent <= 21
    ensures var (whole, fraction, exponent) := RenderParts(d);
            Render(negative, d) == Assemble(negative, whole, fraction, exponent)
  {
    hide Dec, Zeros, AllDigits, Nat;
    var sign, digits := if negative then "-" else "", Dec(d.coefficient);
    var position := |digits| + d.exponent;
    if |digits| <= position {
      JoinWhole(sign, digits, Zeros(position - |digits|));
    } else {
      JoinPoint(sign, digits[..position], digits[position..]);
    }
  }

  lemma RenderScientific(negative: bool, d: Decimal)
    requires d.coefficient > 0
    requires var position := |Dec(d.coefficient)| + d.exponent; position > 21 || position <= -6
    ensures var (whole, fraction, exponent) := RenderParts(d);
            Render(negative, d) == Assemble(negative, whole, fraction, exponent)
  {
    DecIsNumeral(d.coefficient);
    hide Dec, Zeros, AllDigits, Nat;
    var sign, digits := if negative then "-" else "", Dec(d.coefficient);
    var position := |digits| + d.exponent;
    JoinExponent(sign + digits[..1] + PointPart(digits[1..]),
        if position >= 1 then "+" + Dec(position - 1) else "-" + Dec(1 - position));
  }

  lemma JoinWhole(sign: string, digits: string, zeros: string)
    ensures sign + digits + zeros == sign + (digits + zeros) + "" + ""
  {
  }

  lemma JoinPoint(sign: string, whole: string, fraction: string)
    ensures sign + whole + "." + fraction == sign + whole + ("." + fraction) + ""
  {
  }

  lemma JoinZero(sign: string, zeros: string, digits: string)
    ensures sign + "0." + zeros + digits == sign + "0" + ("." + (zeros + digits)) + ""
  {
  }

  lemma JoinExponent(mantissa: string, power: string)
    ensures mantissa + "e" + power == mantissa + ("e" + power)
  {
  }

  /** Digits followed by zeros. */
  lemma WholeDenotes(c: nat, k: nat)
    requires c > 0
    ensures var s := Dec(c) + Zeros(k);
            CanonicalWhole(s) && AllDigits(s + "") && Scaled(Nat(s + ""), 0) == Scaled(c, k)
  {
    DecIsNumeral(c);
    ZerosValue(k);
    NatJoin(Dec(c), Zeros(k));
    ScaledShift(c, 0, k);
    hide Nat, Dec, Scaled, Zeros;
    assert Dec(c) + Zeros(k) + "" == Dec(c) + Zeros(k);
  }

  /** A zero, then zeros, then digits. */
  lemma LeadingZerosDenote(c: nat, k: nat)
    ensures var s := "0" + (Zeros(k) + Dec(c));
            AllDigits(Zeros(k) + Dec(c)) && AllDigits(s) && Nat(s) == c
  {
    DecIsNumeral(c);
    ZerosValue(k);
    ZerosValue(1);
    assert Zeros(1) == "0";
    NatJoin(Zeros(k), Dec(c));
    NatJoin("0", Zeros(k) + Dec(c));
    hide Nat, Dec, Zeros;
    assert 0 * Pow10(|Dec(c)|) == 0;
    assert 0 * Pow10(|Zeros(k) + Dec(c)|) == 0;
  }

  lemma SplitDigits(s: string, k: nat)
    requires AllDigits(s) && k <= |s|
    ensures s[..k] + s[k..] == s && AllDigits(s[..k]) && AllDigits(s[k..])
  {
  }

  lemma RenderPartsDenote(d: Decimal)
    requires d.coefficient > 0
    ensures var (whole, fraction, exponent) := RenderParts(d);
            && CanonicalWhole(whole) && AllDigits(fraction)
            && AllDigits(whole + fraction)
            && Scaled(Nat(whole + fraction), ExponentOf(exponent) - |fraction|) == d.Number()
  {
    var c := d.coefficient;
    var digits := Dec(c);
    var position := |digits| + d.exponent;
    DecIsNumeral(c);
    if |digits| <= position <= 21 {
      WholeDenotes(c, d.exponent);
    } else if -6 < position <= 0 {
      LeadingZerosDenote(c, -position);
    } else if 0 < position < |digits| && position <= 21 {
      SplitDigits(digits, position);
    } else {
      SplitDigits(digits, 1);
    }
    hide Nat, Dec, Scaled;
  }

  /** Canonical JSON numbers keep every bit but the sign of zero: reading the text rounds back to the word. */
  lemma TextReadsBack(bits: Word)
    requires Finite(bits)
    ensures var text := TextOf(bits).value;
            && IsNumber(text)
            && NearestMagnitude(Abs(Denoted(text))) == bits % SIGN
            && (NegativeNumber(text) <==> bits >= SIGN && bits % SIGN != 0)
  {
    FiniteFields(bits);
    var word := bits % SIGN;
    if word == 0 {
      AssembledNumber(false, "0", "", None);
      assert Assemble(false, "0", "", None) == "0" == "0" + "";
      ZerosValue(1);
      assert Zeros(1) == "0";
      ScaledOrder(0, 0, 0);
      NearestOfValue(0);
      ValueZero();
      hide Value, NearestMagnitude, Scaled, Nat, Denoted, IsNumber;
    } else {
      ShortestIsShortest(word);
      RenderDenotes(bits >= SIGN, Shortest(word));
      hide Value, NearestMagnitude, Shortest, Render, Denoted, IsNumber;
    }
  }
}
