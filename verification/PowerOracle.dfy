/**
 The exact-midpoint oracle for |x|^(p/q): it compares candidate words raised to q with
 the exact rational |x|^p, and never forms a root.
 */
module PowerOracle {
  import opened Binary64
  import opened Common

  const LIMIT: int := 256

  /** A finite word's exact value in lowest terms: numerator / 2^log. */
  datatype Dyadic = Dyadic(numerator: int, log: nat)

  datatype Outcome =
    | NonfiniteInput
    | ZeroNegativeExponent
    | NegativeFractionalDomain
    | OutsideScope
    | RoundedOverflow(bits: nat)
    | Rounded(bits: nat)

  // ----- Integer powers of exact numbers -----

  function Power(x: real, n: nat): real {
    if n == 0 then 1.0 else x * Power(x, n - 1)
  }

  /** x^p for a nonzero x and any integer p. */
  function IntegerPower(x: real, p: int): real
    requires p < 0 ==> Power(x, -p) != 0.0
  {
    if p >= 0 then Power(x, p) else 1.0 / Power(x, -p)
  }

  lemma {:induction false} PowerPositive(x: real, n: nat)
    requires x > 0.0
    ensures Power(x, n) > 0.0
  {
    if n > 0 {
      PowerPositive(x, n - 1);
    }
  }

  lemma {:induction false} PowerNonnegative(x: real, n: nat)
    requires x >= 0.0
    ensures Power(x, n) >= 0.0
  {
    if n > 0 {
      PowerNonnegative(x, n - 1);
    }
  }

  /** Raising to a positive power preserves order, strictly. */
  lemma {:induction false} PowerIncreasing(a: real, b: real, n: nat)
    requires 0.0 <= a < b && n > 0
    ensures Power(a, n) < Power(b, n)
    ensures Power(b, n) > 0.0
  {
    if n == 1 {
      assert Power(a, 0) == 1.0 && Power(b, 0) == 1.0;
      assert a * 1.0 == a && b * 1.0 == b;
    } else {
      PowerIncreasing(a, b, n - 1);
      PowerNonnegative(a, n - 1);
      var c, d := Power(a, n - 1), Power(b, n - 1);
      hide Power;
      assert a * c <= a * d;
      assert a * d < b * d;
      assert Power(a, n) == a * c && Power(b, n) == b * d by { PowerUnfold(a, n); PowerUnfold(b, n); }
    }
  }

  lemma PowerUnfold(x: real, n: nat)
    requires n > 0
    ensures Power(x, n) == x * Power(x, n - 1)
  {
  }

  lemma PowerOrder(a: real, b: real, n: nat)
    requires a >= 0.0 && b >= 0.0 && n > 0
    ensures Power(a, n) < Power(b, n) <==> a < b
    ensures Power(a, n) == Power(b, n) <==> a == b
  {
    hide Power;
    if a < b {
      PowerIncreasing(a, b, n);
    } else if b < a {
      PowerIncreasing(b, a, n);
    }
  }

  lemma {:induction false} PowerOfOne(n: nat)
    ensures Power(1.0, n) == 1.0
  {
    if n > 0 {
      PowerOfOne(n - 1);
    }
  }

  lemma PowerOfZero(n: nat)
    ensures Power(0.0, n) == if n == 0 then 1.0 else 0.0
  {
  }

  // ----- Exponents as fractions, and the special cases -----

  function Reduce(n: nat, log: nat): (r: (nat, nat)) {
    if log > 0 && n % 2 == 0 then Reduce(n / 2, log - 1) else (n, log)
  }

  /** A magnitude word's value as n / 2^log, in lowest terms. */
  function LowestMagnitude(m: nat): (nat, nat) {
    if Place(m) >= 0 then (Significand(m) * Pow2(Place(m)), 0) else Reduce(Significand(m), -Place(m))
  }

  function Lowest(bits: Word): Dyadic
    requires Finite(bits)
  {
    var (n, log) := LowestMagnitude(bits % SIGN);
    Dyadic(if bits >= SIGN then -(n as int) else n, log)
  }

  /** n / 2^a and m / 2^b are the same number. */
  ghost predicate SameNumber(n: nat, a: nat, m: nat, b: nat) {
    n as real * Exp2(b) == m as real * Exp2(a)
  }

  lemma SameNumberDoubled(n: nat, a: nat, m: nat, b: nat)
    requires SameNumber(n, a, m, b)
    ensures SameNumber(2 * n, a + 1, m, b)
  {
    Exp2Step(a);
    hide Exp2;
    DoubleBoth(n as real, Exp2(b), m as real, Exp2(a));
    assert (2 * n) as real == 2.0 * n as real;
  }

  lemma {:induction false} ReduceExact(n: nat, log: nat)
    ensures var (m, k) := Reduce(n, log);
            && k <= log && SameNumber(n, log, m, k)
            && (k > 0 ==> m % 2 == 1)
  {
    hide SameNumber;
    if log > 0 && n % 2 == 0 {
      ReduceExact(n / 2, log - 1);
      var (m, k) := Reduce(n / 2, log - 1);
      SameNumberDoubled(n / 2, log - 1, m, k);
    } else {
      SameNumberRefl(n, log);
    }
  }

  lemma SameNumberRefl(n: nat, a: nat)
    ensures SameNumber(n, a, n, a)
  {
  }

  lemma DoubleBoth(a: real, b: real, c: real, d: real)
    requires a * b == c * d
    ensures (2.0 * a) * b == c * (2.0 * d)
  {
    assert (2.0 * a) * b == 2.0 * (a * b);
    assert c * (2.0 * d) == 2.0 * (c * d);
  }

  /** `Lowest` is the exact value, in lowest terms. */
  lemma LowestExact(bits: Word)
    requires Finite(bits)
    ensures var d := Lowest(bits);
            && Rational(bits) * Exp2(d.log) == d.numerator as real
            && (d.log > 0 ==> d.numerator % 2 == 1)
  {
    hide Value, Exp2, LowestMagnitude;
    var m := bits % SIGN;
    MagnitudeLowest(m);
    var (n, log) := LowestMagnitude(m);
    SignedProduct(bits >= SIGN, Value(m), Exp2(log), n);
  }

  lemma SignedProduct(negative: bool, a: real, b: real, n: nat)
    requires a * b == n as real
    ensures (if negative then -a else a) * b == (if negative then -(n as int) else n) as real
  {
    if negative {
      assert (-a) * b == -(a * b);
    }
  }

  lemma MagnitudeLowest(m: nat)
    ensures var (n, log) := LowestMagnitude(m);
            && Value(m) * Exp2(log) == n as real
            && (log > 0 ==> n % 2 == 1)
  {
    hide Exp2, Pow2, Reduce, Significand, Place;
    if Place(m) >= 0 {
      WholeNumber(Significand(m), Place(m));
    } else {
      FractionLowest(Significand(m), -Place(m));
      assert 0 - (-Place(m)) == Place(m);
    }
  }

  lemma WholeNumber(s: nat, e: nat)
    ensures (s as real * Exp2(e)) * Exp2(0) == (s * Pow2(e)) as real
  {
    assert Exp2(0) == 1.0;
    Pow2AsReal(e);
    hide Exp2, Pow2;
    assert (s * Pow2(e)) as real == s as real * Pow2(e) as real;
  }

  lemma FractionLowest(s: nat, e: nat)
    ensures var (n, log) := Reduce(s, e);
            && (s as real * Exp2(0 - e)) * Exp2(log) == n as real
            && (log > 0 ==> n % 2 == 1)
  {
    var (n, k) := Reduce(s, e);
    ReduceExact(s, e);
    hide Exp2, Reduce;
    InversePowers(e);
    CancelScale(s as real, Exp2(0 - e), Exp2(e), n as real, Exp2(k));
  }

  lemma InversePowers(e: nat)
    ensures Exp2(0 - e) * Exp2(e) == 1.0
  {
    assert Exp2(0) == 1.0;
    hide Exp2;
    Exp2Sum(0 - e, e);
  }

  lemma CancelScale(s: real, u: real, v: real, n: real, k: real)
    requires u * v == 1.0 && s * k == n * v
    ensures (s * u) * k == n
  {
    assert (s * u) * k == (s * k) * u;
    assert (n * v) * u == n * (u * v);
  }

  /** The table of special cases shared by every power graph; None leaves the general case. */
  function Dispatch(x: Word, y: Word): Option<Outcome> {
    if !Finite(x) || !Finite(y) then Some(NonfiniteInput)
    else
      var base, exponent, fraction := Rational(x), Rational(y), Lowest(y);
      var odd := fraction.log == 0 && fraction.numerator % 2 == 1;
      if exponent == 0.0 then Some(Rounded(ONE))
      else if base == 0.0 then
        if exponent < 0.0 then Some(ZeroNegativeExponent)
        else Some(Rounded(if x >= SIGN && odd then SIGN else 0))
      else if base < 0.0 && fraction.log != 0 then Some(NegativeFractionalDomain)
      else if base == 1.0 || base == -1.0 then Some(Rounded(ONE + if base < 0.0 && odd then SIGN else 0))
      else None
  }

  // ----- The oracle -----

  function FloorRoot(target: real, q: nat, lo: nat, hi: nat): nat
    requires lo <= hi
    decreases hi - lo
  {
    if lo == hi then lo
    else
      var mid := (lo + hi + 1) / 2;
      if Power(Value(mid), q) <= target then FloorRoot(target, q, mid, hi)
      else FloorRoot(target, q, lo, mid - 1)
  }

  /** The magnitude the oracle returns for the q-th root of `target`; INF is its overflow. */
  function OracleMagnitude(target: real, q: nat): nat {
    if target >= Power(Threshold(), q) then INF
    else
      var lo := FloorRoot(target, q, 0, MAX);
      if Power(Value(lo), q) == target || lo == MAX then lo
      else
        var comparison := target - Power(Midpoint(lo), q);
        if comparison < 0.0 || (comparison == 0.0 && lo % 2 == 0) then lo else lo + 1
  }

  lemma {:induction false} FloorRootIsFloorWord(target: real, q: nat, r: real, lo: nat, hi: nat)
    requires q > 0 && r >= 0.0 && Power(r, q) == target
    requires lo <= hi
    ensures FloorRoot(target, q, lo, hi) == FloorWord(r, lo, hi)
    decreases hi - lo
  {
    hide Power, Value;
    if lo < hi {
      var mid := (lo + hi + 1) / 2;
      ValueNonnegative(mid);
      PowerOrder(r, Value(mid), q);
      if Value(mid) <= r {
        FloorRootIsFloorWord(target, q, r, mid, hi);
      } else {
        FloorRootIsFloorWord(target, q, r, lo, mid - 1);
      }
    }
  }

  /** Comparing powers of candidates with the target is comparing candidates with the root. */
  lemma OracleRoundsTheRoot(target: real, q: nat, r: real)
    requires q > 0 && r >= 0.0 && Power(r, q) == target
    ensures OracleMagnitude(target, q) == NearestMagnitude(r)
  {
    hide Power, Value, Threshold, FloorRoot, FloorWord;
    var t, lo := Threshold(), FloorWord(r, 0, MAX);
    ThresholdPositive();
    PowerOrder(r, t, q);
    FloorRootIsFloorWord(target, q, r, 0, MAX);
    ValueNonnegative(lo);
    ValueNonnegative(lo + 1);
    PowerOrder(r, Value(lo), q);
    PowerOrder(r, Midpoint(lo), q);
  }

  lemma ThresholdPositive()
    ensures Threshold() > 0.0
  {
    hide Exp2, Value;
    ValueNonnegative(MAX);
  }

  /** Root-free form: the two neighbouring midpoints, raised to q, enclose the target. */
  lemma OracleBracketsTarget(target: real, q: nat)
    requires q > 0 && target >= 0.0
    ensures var m := OracleMagnitude(target, q);
            && m <= INF
            && (m == INF <==> target >= Power(Threshold(), q))
            && (m < INF ==> target <= Power(Midpoint(m), q))
            && (0 < m < INF ==> Power(Midpoint(m - 1), q) <= target)
            && (m % 2 == 1 && m < INF ==> Power(Midpoint(m - 1), q) < target < Power(Midpoint(m), q))
  {
    hide Power;
    ThresholdIsMidpoint();
    hide Value, Threshold, FloorRoot;
    if target < Power(Threshold(), q) {
      ValueZero();
      PowerZeroBelow(target, q);
      FloorRootBrackets(target, q, 0, MAX);
      var lo := FloorRoot(target, q, 0, MAX);
      MidpointsAround(lo, q);
      if lo > 0 {
        MidpointsAround(lo - 1, q);
      }
      if lo < MAX {
        MidpointsAround(lo + 1, q);
      }
    }
  }

  lemma PowerZeroBelow(target: real, q: nat)
    requires q > 0 && target >= 0.0
    ensures Power(0.0, q) <= target
  {
  }

  lemma MidpointsAround(m: nat, q: nat)
    requires q > 0
    ensures Power(Value(m), q) < Power(Midpoint(m), q) < Power(Value(m + 1), q)
  {
    hide Power, Value;
    ValueNonnegative(m);
    ValueIncreasing(m, m + 1);
    PowerOrder(Value(m), Midpoint(m), q);
    PowerOrder(Midpoint(m), Value(m + 1), q);
  }

  lemma {:induction false} FloorRootBrackets(target: real, q: nat, lo: nat, hi: nat)
    requires q > 0 && lo <= hi <= MAX
    requires Power(Value(lo), q) <= target
    requires hi == MAX ==> target < Power(Threshold(), q)
    requires hi < MAX ==> target < Power(Value(hi + 1), q)
    ensures var m := FloorRoot(target, q, lo, hi);
            && lo <= m <= hi && Power(Value(m), q) <= target
            && (m == MAX ==> target < Power(Threshold(), q))
            && (m < MAX ==> target < Power(Value(m + 1), q))
    decreases hi - lo
  {
    hide Power, Value, Threshold;
    if lo < hi {
      var mid := (lo + hi + 1) / 2;
      if Power(Value(mid), q) <= target {
        FloorRootBrackets(target, q, mid, hi);
      } else {
        FloorRootBrackets(target, q, lo, mid - 1);
      }
    }
  }

  // ----- `mathematical_power` -----

  predicate InScope(y: Word)
    requires Finite(y)
  {
    -LIMIT <= Lowest(y).numerator <= LIMIT && Pow2(Lowest(y).log) <= 16
  }

  predicate NegativeResult(x: Word, y: Word)
    requires Finite(x) && Finite(y)
  {
    Rational(x) < 0.0 && Lowest(y).numerator % 2 == 1
  }

  /** |x|^p for y = p/q in lowest terms. */
  function Target(x: Word, y: Word): real
    requires Finite(x) && Finite(y) && Rational(x) != 0.0
  {
    var p := Lowest(y).numerator;
    PowerPositive(Abs(Rational(x)), if p < 0 then -p else p);
    IntegerPower(Abs(Rational(x)), p)
  }

  lemma TargetPositive(x: Word, y: Word)
    requires Finite(x) && Finite(y) && Rational(x) != 0.0
    ensures Target(x, y) > 0.0
  {
    hide Lowest, Power, Rational;
    var p := Lowest(y).numerator;
    PowerPositive(Abs(Rational(x)), if p < 0 then -p else p);
  }

  function OraclePower(x: Word, y: Word): Outcome {
    match Dispatch(x, y)
    case Some(special) => special
    case None =>
      if !InScope(y) then OutsideScope
      else
        var m := OracleMagnitude(Target(x, y), Pow2(Lowest(y).log));
        var bits := (if NegativeResult(x, y) then SIGN else 0) + m;
        if m == INF then RoundedOverflow(bits) else Rounded(bits)
  }

  lemma SpecialWords()
    ensures Finite(ONE) && Rational(ONE) == 1.0
    ensures Finite(SIGN + ONE) && Rational(SIGN + ONE) == -1.0
    ensures Finite(0) && Rational(0) == 0.0
    ensures Finite(SIGN) && Rational(SIGN) == 0.0
  {
    hide Value;
    ValueOfOne();
    ValueZero();
    assert (SIGN + ONE) % SIGN == ONE && SIGN % SIGN == 0;
  }

  lemma SignOfRational(x: Word)
    requires Finite(x)
    ensures Rational(x) < 0.0 ==> x >= SIGN
    ensures Rational(x) > 0.0 ==> x < SIGN
  {
    hide Value;
    ValueNonnegative(x % SIGN);
  }

  /** The numerator in lowest terms has the sign of the number. */
  lemma LowestSign(y: Word)
    requires Finite(y)
    ensures Rational(y) == 0.0 <==> Lowest(y).numerator == 0
    ensures Rational(y) < 0.0 <==> Lowest(y).numerator < 0
  {
    LowestExact(y);
    hide Rational, Lowest, Exp2;
    ProductSign(Rational(y), Exp2(Lowest(y).log));
  }

  lemma ProductSign(a: real, b: real)
    requires b > 0.0
    ensures a * b == 0.0 <==> a == 0.0
    ensures a * b < 0.0 <==> a < 0.0
  {
  }

  /** A finite special result is the exact power: the same magnitude law, with the sign of an odd power. */
  lemma DispatchIsExact(x: Word, y: Word)
    requires Dispatch(x, y).Some? && Dispatch(x, y).value.Rounded?
    ensures var bits := Dispatch(x, y).value.bits;
            var p, q := Lowest(y).numerator, Pow2(Lowest(y).log);
            && bits < 2 * SIGN && Finite(bits)
            && (Rational(x) == 0.0 ==> p >= 0 && (p == 0 || Power(Abs(Rational(bits)), q) == Power(0.0, p)))
            && (Rational(x) != 0.0 ==> Power(Abs(Rational(bits)), q) == Target(x, y))
            && (p == 0 ==> bits == ONE)
            && (bits >= SIGN <==> x >= SIGN && q == 1 && p % 2 == 1)
  {
    var p, q := Lowest(y).numerator, Pow2(Lowest(y).log);
    SpecialWords();
    LowestSign(y);
    SignOfRational(x);
    OnlyZeroLogIsWhole(Lowest(y).log);
    hide Rational, Lowest, Power, Pow2;
    PowerOfOne(q);
    PowerOfOne(if p < 0 then -p else p);
    PowerOfZero(q);
    PowerOfZero(if p < 0 then -p else p);
    if p == 0 {
      PowerToZero(Abs(Rational(x)));
    }
  }

  lemma PowerToZero(x: real)
    ensures Power(x, 0) == 1.0
  {
  }

  lemma OnlyZeroLogIsWhole(log: nat)
    ensures Pow2(log) == 1 <==> log == 0
  {
  }

  // ----- The outcomes, on exact values alone -----

  /** The number e is p / 2^log in lowest terms. */
  ghost predicate Fraction(e: real, p: int, log: nat) {
    e * Exp2(log) == p as real && (log > 0 ==> p % 2 == 1)
  }

  predicate Whole(e: real) {
    e == e.Floor as real
  }

  /** The p-th power of a positive number. */
  function WholePower(b: real, p: int): real
    requires b > 0.0
  {
    PowerPositive(b, if p < 0 then -p else p);
    IntegerPower(b, p)
  }

  /** With more halvings the numerator would be even. */
  lemma MoreHalvings(e: real, p: int, log: nat, p': int, log': nat)
    requires e * Exp2(log) == p as real && e * Exp2(log') == p' as real && log < log'
    ensures p' % 2 == 0
  {
    hide *;
    var k := log' - log;
    Exp2Sum(log, k);
    Pow2AsReal(k);
    Halved(k);
    Rescaled(e, Exp2(log), Exp2(k), p, Pow2(k));
    EvenFactor(p, Pow2(k - 1), p');
  }

  lemma Halved(k: nat)
    requires k > 0
    ensures Pow2(k) == 2 * Pow2(k - 1)
  {
  }

  lemma Rescaled(e: real, a: real, b: real, p: int, n: nat)
    requires e * a == p as real && b == n as real
    ensures e * (a * b) == (p * n) as real
  {
    assert e * (a * b) == (e * a) * b;
  }

  lemma EvenFactor(p: int, n: nat, p': int)
    requires p' as real == (p * (2 * n)) as real
    ensures p' % 2 == 0
  {
    assert p * (2 * n) == 2 * (p * n);
  }

  /** A number has one form in lowest terms. */
  lemma FractionUnique(e: real, p: int, log: nat, p': int, log': nat)
    requires Fraction(e, p, log) && Fraction(e, p', log')
    ensures p == p' && log == log'
  {
    hide Exp2;
    if log < log' {
      MoreHalvings(e, p, log, p', log');
    } else if log' < log {
      MoreHalvings(e, p', log', p, log);
    }
  }

  /** The exact exponent is the lowest-terms form of its word. */
  lemma FractionIsLowest(y: Word, p: int, log: nat)
    requires Finite(y) && Fraction(Rational(y), p, log)
    ensures Lowest(y) == Dyadic(p, log)
  {
    hide Rational, Lowest, Finite, Exp2;
    LowestExact(y);
    FractionUnique(Rational(y), p, log, Lowest(y).numerator, Lowest(y).log);
  }

  /** Every finite word has such a form. */
  lemma FractionExists(y: Word) returns (p: int, log: nat)
    requires Finite(y)
    ensures Fraction(Rational(y), p, log)
  {
    hide Rational, Lowest, Finite, Exp2;
    LowestExact(y);
    p, log := Lowest(y).numerator, Lowest(y).log;
  }

  lemma WholeIff(e: real, p: int, log: nat)
    requires Fraction(e, p, log)
    ensures Whole(e) <==> log == 0
  {
    assert Exp2(0) == 1.0;
    hide Exp2;
    if Whole(e) {
      FractionUnique(e, p, log, e.Floor, 0);
    }
  }

  /** Base and exponent for which the real power, with its sign, is defined and not zero. */
  ghost predicate InDomain(x: Word, y: Word) {
    && Finite(x) && Finite(y)
    && (Rational(x) > 0.0 || (Rational(x) < 0.0 && Whole(Rational(y))))
  }

  /** The exponents the oracle answers for every base. */
  predicate Answered(p: int, log: nat) {
    -LIMIT <= p <= LIMIT && Pow2(log) <= 16
  }

  /** The powers that do not depend on a search. */
  predicate Trivial(b: real, p: int) {
    p == 0 || b == 1.0 || b == -1.0
  }

  /** Each refusal is given exactly on its own condition, stated on the exact base and exponent p / 2^log. */
  lemma RefusalsExact(x: Word, y: Word, p: int, log: nat)
    requires Finite(y) ==> Fraction(Rational(y), p, log)
    ensures OraclePower(x, y) == NonfiniteInput <==> !(Finite(x) && Finite(y))
    ensures OraclePower(x, y) == ZeroNegativeExponent <==>
            Finite(x) && Finite(y) && Rational(x) == 0.0 && Rational(y) < 0.0
    ensures OraclePower(x, y) == NegativeFractionalDomain <==>
            Finite(x) && Finite(y) && Rational(x) < 0.0 && !Whole(Rational(y))
    ensures OraclePower(x, y) == OutsideScope <==>
            InDomain(x, y) && !Trivial(Rational(x), p) && !Answered(p, log)
  {
    if Finite(x) && Finite(y) {
      FractionIsLowest(y, p, log);
      WholeIff(Rational(y), p, log);
      LowestSign(y);
      hide Rational, Lowest, Finite, Target, OracleMagnitude, Pow2, Exp2, Whole, Fraction;
    }
  }

  /** A zero base gives a zero: negative for a negative zero under an odd whole exponent. */
  lemma ZeroBaseExact(x: Word, y: Word, p: int, log: nat)
    requires Finite(x) && Finite(y) && Fraction(Rational(y), p, log) && Rational(x) == 0.0 && Rational(y) >= 0.0
    ensures OraclePower(x, y)
            == Rounded(if p == 0 then ONE else if x >= SIGN && log == 0 && p % 2 == 1 then SIGN else 0)
  {
    FractionIsLowest(y, p, log);
    LowestSign(y);
    hide Rational, Lowest, Finite, Exp2;
  }

  /**
   The power oracle refines rounding: for every base and exponent in its domain, trivial or within
   its limits, its word is the nearest one to the exact real power, sign included.
   */
  lemma OraclePowerIsNearest(x: Word, y: Word, p: int, log: nat, r: real)
    requires InDomain(x, y) && Fraction(Rational(y), p, log)
    requires Trivial(Rational(x), p) || Answered(p, log)
    requires r > 0.0 && Power(r, Pow2(log)) == WholePower(Abs(Rational(x)), p)
    ensures var exact := if Rational(x) < 0.0 && p % 2 == 1 then -r else r;
            var outcome := OraclePower(x, y);
            && (outcome.Rounded? <==> NearestMagnitude(r) != INF)
            && (outcome.RoundedOverflow? <==> NearestMagnitude(r) == INF)
            && outcome.bits == Nearest(exact, false)
  {
    hide *;
    DomainFacts(x, y);
    FractionIsLowest(y, p, log);
    if Dispatch(x, y).Some? {
      SpecialRoot(x, y, p, log, r);
      NearestOfOne();
      SpecialAnswer(x, y, p, log);
    } else {
      SearchedAnswer(x, y, p, log, r);
    }
  }

  /** Root-free form: the answer's neighbouring midpoints, raised to q, enclose the exact target. */
  lemma OraclePowerBrackets(x: Word, y: Word, p: int, log: nat) returns (m: nat)
    requires InDomain(x, y) && Fraction(Rational(y), p, log) && Abs(Rational(x)) > 0.0
    requires !Trivial(Rational(x), p) && Answered(p, log)
    ensures OraclePower(x, y) == Answer(Rational(x) < 0.0 && p % 2 == 1, m)
    ensures var q, target := Pow2(log), WholePower(Abs(Rational(x)), p);
            && m <= INF
            && (m == INF <==> target >= Power(Threshold(), q))
            && (m < INF ==> target <= Power(Midpoint(m), q))
            && (0 < m < INF ==> Power(Midpoint(m - 1), q) <= target)
            && (m % 2 == 1 && m < INF ==> Power(Midpoint(m - 1), q) < target < Power(Midpoint(m), q))
  {
    hide *;
    DomainFacts(x, y);
    FractionIsLowest(y, p, log);
    TargetPositive(x, y);
    OracleBracketsTarget(Target(x, y), Pow2(log));
    SearchedWord(x, y, p, log);
    SomeWhole(log);
    m := OracleMagnitude(Target(x, y), Pow2(log));
  }

  /** A magnitude with its sign; infinity is the overflow. */
  function Answer(negative: bool, m: nat): Outcome {
    var bits := (if negative then SIGN else 0) + m;
    if m == INF then RoundedOverflow(bits) else Rounded(bits)
  }

  lemma SomeWhole(log: nat)
    ensures Pow2(log) > 0
  {
  }

  /** What the search answers: the sign and the magnitude it ends at. */
  lemma SearchedWord(x: Word, y: Word, p: int, log: nat)
    requires InDomain(x, y) && Finite(x) && Finite(y) && Rational(x) != 0.0 && Lowest(y) == Dyadic(p, log)
    requires Fraction(Rational(y), p, log) && !Trivial(Rational(x), p) && Answered(p, log) && Abs(Rational(x)) > 0.0
    ensures Target(x, y) == WholePower(Abs(Rational(x)), p)
    ensures OraclePower(x, y)
            == Answer(Rational(x) < 0.0 && p % 2 == 1, OracleMagnitude(Target(x, y), Pow2(log)))
  {
    hide Power, Lowest, OracleMagnitude, Rational, Finite, Exp2, Pow2, Whole;
    LowestSign(y);
    WholeIff(Rational(y), p, log);
  }

  lemma DomainFacts(x: Word, y: Word)
    requires InDomain(x, y)
    ensures Finite(x) && Finite(y) && Rational(x) != 0.0
    ensures Abs(Rational(x)) > 0.0
  {
    hide Rational, Finite;
  }

  /** Where the table answers, the exact root is one. */
  lemma SpecialRoot(x: Word, y: Word, p: int, log: nat, r: real)
    requires InDomain(x, y) && Finite(x) && Finite(y) && Rational(x) != 0.0 && Lowest(y) == Dyadic(p, log)
    requires Fraction(Rational(y), p, log) && Dispatch(x, y).Some?
    requires r > 0.0 && Abs(Rational(x)) > 0.0 && Power(r, Pow2(log)) == WholePower(Abs(Rational(x)), p)
    ensures r == 1.0 && Trivial(Rational(x), p)
  {
    WholeIff(Rational(y), p, log);
    LowestSign(y);
    hide Rational, Lowest, Finite, Exp2, Power, Pow2, Whole;
    PowerOfOne(if p < 0 then -p else p);
    PowerOfOne(Pow2(log));
    PowerToZero(Abs(Rational(x)));
    PowerOrder(r, 1.0, Pow2(log));
  }

  lemma NearestOfOne()
    ensures Nearest(1.0, false) == ONE && Nearest(-1.0, false) == SIGN + ONE && NearestMagnitude(1.0) == ONE != INF
  {
    SpecialWords();
    ValueOfOne();
    NearestOfValue(ONE);
    NearestOfRational(ONE);
    NearestOfRational(SIGN + ONE);
    hide NearestMagnitude, Value, Rational;
  }

  lemma SpecialAnswer(x: Word, y: Word, p: int, log: nat)
    requires InDomain(x, y) && Finite(x) && Finite(y) && Rational(x) != 0.0 && Lowest(y) == Dyadic(p, log)
    requires Fraction(Rational(y), p, log) && Dispatch(x, y).Some?
    ensures OraclePower(x, y) == Rounded(ONE + if Rational(x) < 0.0 && p % 2 == 1 then SIGN else 0)
  {
    WholeIff(Rational(y), p, log);
    LowestSign(y);
    hide Rational, Lowest, Finite, Exp2, Whole;
  }

  lemma SearchedAnswer(x: Word, y: Word, p: int, log: nat, r: real)
    requires InDomain(x, y) && Finite(x) && Finite(y) && Rational(x) != 0.0 && Lowest(y) == Dyadic(p, log)
    requires Fraction(Rational(y), p, log) && Dispatch(x, y).None? && (Trivial(Rational(x), p) || Answered(p, log))
    requires r > 0.0 && Abs(Rational(x)) > 0.0 && Power(r, Pow2(log)) == WholePower(Abs(Rational(x)), p)
    ensures var exact := if Rational(x) < 0.0 && p % 2 == 1 then -r else r;
            && OraclePower(x, y).bits == Nearest(exact, false)
            && (OraclePower(x, y).Rounded? <==> NearestMagnitude(r) != INF)
            && (OraclePower(x, y).RoundedOverflow? <==> NearestMagnitude(r) == INF)
  {
    LowestSign(y);
    assert Target(x, y) == WholePower(Abs(Rational(x)), p);
    hide Power, Target, Lowest, OracleMagnitude, NearestMagnitude, Rational, Finite, Exp2, Pow2, WholePower;
    OracleRoundsTheRoot(Target(x, y), Pow2(log), r);
    assert Abs(r) == r && Abs(-r) == r;
  }

  /** `mathematical_power`: admission, then the binary search over candidate words. */
  method MathematicalPower(x: Word, y: Word) returns (outcome: Outcome)
    ensures outcome == OraclePower(x, y)
  {
    var special := Dispatch(x, y);
    if special.Some? {
      return special.value;
    }
    assert Finite(x) && Finite(y) && Rational(x) != 0.0;
    hide Lowest, Dispatch, Rational, Target, OracleMagnitude, Finite;
    var p, q := Lowest(y).numerator, Pow2(Lowest(y).log);
    if p > LIMIT || p < -LIMIT || q > 16 {
      return OutsideScope;
    }
    TargetPositive(x, y);
    var m := SearchRoot(Target(x, y), q);
    var bits := (if NegativeResult(x, y) then SIGN else 0) + m;
    outcome := if m == INF then RoundedOverflow(bits) else Rounded(bits);
  }

  method SearchRoot(target: real, q: nat) returns (m: nat)
    requires q > 0 && target >= 0.0
    ensures m == OracleMagnitude(target, q)
  {
    hide Value, Power, Exp2, Threshold;
    if target >= Power(Threshold(), q) {
      return INF;
    }
    var lo, hi := 0, MAX;
    while lo < hi
      invariant 0 <= lo <= hi <= MAX
      invariant FloorRoot(target, q, lo, hi) == FloorRoot(target, q, 0, MAX)
      decreases hi - lo
    {
      var mid := (lo + hi + 1) / 2;
      if Power(Value(mid), q) <= target {
        lo := mid;
      } else {
        hi := mid - 1;
      }
    }
    if Power(Value(lo), q) == target || lo == MAX {
      return lo;
    }
    var midpoint := (Value(lo) + Value(lo + 1)) / 2.0;
    var comparison := target - Power(midpoint, q);
    return if comparison < 0.0 || (comparison == 0.0 && lo % 2 == 0) then lo else lo + 1;
  }
}
