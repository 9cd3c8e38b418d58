/**
 How far a completed run of the integer power graph can be from the exact power: without underflow,
 no more than one relative rounding error of half a unit for each factor, and one more for each when
 the reciprocal is taken first.
 */
module PowerError {
  import opened Common
  import opened Binary64
  import opened PowerOracle
  import opened IntegerPower

  /** Half a unit in the last place of one: 2^-53. */
  const ROUNDOFF: real := 1.0 / (2 * HIDDEN) as real

  predicate Normal(w: Word) {
    w % SIGN >= HIDDEN
  }

  /** The word arithmetic that also ends at a result below the normal range. */
  const NORMALS: Arithmetic<Word> :=
    Arithmetic<Word>.Arithmetic(ONE, MultiplyWords, DivideOne, (w: Word) => Finite(w) && Normal(w))

  // ----- One rounding -----

  /** A normal rounded word is within half a unit of the number it was rounded from, relative to itself. */
  lemma RelativeError(v: real, m: Magnitude)
    requires v >= 0.0 && IsNearest(v, m) && HIDDEN <= m < INF
    ensures Product(Value(m), 1.0 - ROUNDOFF) <= v <= Product(Value(m), 1.0 + ROUNDOFF)
  {
    ValueStep(m - 1);
    ValueStep(m);
    PlaceStep(m - 1);
    UnitBound(m);
    NeighboursFarther(v, m);
    hide Value, Exp2, Place, IsNearest;
    Scales(Value(m), ROUNDOFF);
  }

  lemma Scales(a: real, u: real)
    ensures Product(a, 1.0 - u) == a - Product(a, u) && Product(a, 1.0 + u) == a + Product(a, u)
  {
  }

  lemma NeighboursFarther(v: real, m: Magnitude)
    requires IsNearest(v, m) && 0 < m < INF
    ensures Abs(Value(m) - v) <= Abs(Value(m - 1) - v) && Abs(Value(m) - v) <= Abs(Value(m + 1) - v)
  {
    hide Value;
    var below: Magnitude, above: Magnitude := m - 1, m + 1;
    assert below != m && above != m;
  }

  /** Half a unit in the last place of a normal word is at most ROUNDOFF of it. */
  lemma UnitBound(m: nat)
    requires m >= HIDDEN
    ensures Exp2(Place(m)) / 2.0 <= Product(Value(m), ROUNDOFF)
  {
    assert m / HIDDEN > 0 && Significand(m) >= HIDDEN;
    hide Exp2, Place;
    HalfUnit(Significand(m) as real, Exp2(Place(m)), HIDDEN as real);
  }

  lemma HalfUnit(s: real, u: real, h: real)
    requires s >= h > 0.0 && u > 0.0
    ensures u / 2.0 <= Product(s * u, 1.0 / (2.0 * h))
  {
    var k := 1.0 / (2.0 * h);
    assert k * (2.0 * h) == 1.0;
    Halves(h, k);
    OrderKept(h, s, u);
    OrderKept(Product(h, u), Product(s, u), k);
    Regroup(h, u, k);
    hide Product;
    assert Product(Product(h, u), k) == Product(0.5, u);
    HalfOf(u);
    assert Product(s, u) == s * u by { Unfold(s, u); }
  }

  lemma Halves(h: real, k: real)
    requires k * (2.0 * h) == 1.0
    ensures Product(h, k) == 0.5
  {
  }

  lemma HalfOf(u: real)
    ensures Product(0.5, u) == u / 2.0
  {
  }

  lemma Unfold(a: real, b: real)
    ensures Product(a, b) == a * b
  {
  }

  lemma Regroup(h: real, u: real, k: real)
    ensures Product(Product(h, u), k) == Product(Product(h, k), u)
  {
    assert (h * u) * k == (h * k) * u;
  }

  lemma OrderKept(a: real, b: real, k: real)
    requires a <= b && k >= 0.0
    ensures Product(a, k) <= Product(b, k) && Product(k, a) <= Product(k, b)
    ensures a >= 0.0 ==> Product(a, k) >= 0.0
  {
  }

  // ----- Many roundings -----

  lemma {:induction false} PowerSum(a: real, m: nat, n: nat)
    ensures Power(a, m + n) == Product(Power(a, m), Power(a, n))
  {
    if m > 0 {
      PowerSum(a, m - 1, n);
      assert Power(a, m + n) == a * Power(a, m - 1 + n);
      Associate(a, Power(a, m - 1), Power(a, n));
    }
  }

  lemma Associate(a: real, b: real, c: real)
    ensures a * Product(b, c) == Product(a * b, c)
  {
    assert a * (b * c) == (a * b) * c;
  }

  /** The number w is the exact one up to c relative roundings. */
  ghost predicate Within(w: real, exact: real, c: nat) {
    Product(w, Power(1.0 - ROUNDOFF, c)) <= exact <= Product(w, Power(1.0 + ROUNDOFF, c))
  }

  /** Four numbers may be multiplied in pairs. */
  lemma Pairs(a: real, b: real, c: real, d: real)
    ensures Product(Product(a, b), Product(c, d)) == Product(Product(a, c), Product(b, d))
  {
    assert (a * b) * (c * d) == (a * c) * (b * d);
  }

  lemma BothAtMost(a: real, b: real, c: real, d: real)
    requires 0.0 <= a <= b && 0.0 <= c <= d
    ensures Product(a, c) <= Product(b, d)
  {
    OrderKept(a, b, c);
    OrderKept(c, d, b);
  }

  lemma RoundoffSmall()
    ensures 0.0 < 1.0 - ROUNDOFF && 0.0 < 1.0 + ROUNDOFF
  {
  }

  /** Products keep their roundings, and a rounded product has one more. */
  lemma WithinProduct(f: real, g: real, e: real, e': real, c: nat, c': nat, w: real)
    requires f >= 0.0 && g >= 0.0 && w >= 0.0 && e >= 0.0 && e' >= 0.0
    requires Within(f, e, c) && Within(g, e', c')
    requires Product(w, 1.0 - ROUNDOFF) <= Product(f, g) <= Product(w, 1.0 + ROUNDOFF)
    ensures Within(w, Product(e, e'), c + c' + 1)
  {
    hide *;
    RoundoffSmall();
    WithinBounds(f, e, c);
    WithinBounds(g, e', c');
    Chain(f, g, w, 1.0 - ROUNDOFF, c, c');
    Chain(f, g, w, 1.0 + ROUNDOFF, c, c');
    var a, b := 1.0 - ROUNDOFF, 1.0 + ROUNDOFF;
    PowerPositive(a, c);
    PowerPositive(a, c');
    PowerPositive(b, c);
    PowerPositive(b, c');
    PowerPositive(a, c + c');
    PowerPositive(b, c + c');
    NotNegative(f, Power(a, c));
    NotNegative(g, Power(a, c'));
    BothAtMost(Product(f, Power(a, c)), e, Product(g, Power(a, c')), e');
    BothAtMost(e, Product(f, Power(b, c)), e', Product(g, Power(b, c')));
    OrderKept(Product(w, a), Product(f, g), Power(a, c + c'));
    OrderKept(Product(f, g), Product(w, b), Power(b, c + c'));
    MakeWithin(w, Product(e, e'), c + c' + 1);
  }

  lemma WithinBounds(w: real, exact: real, c: nat)
    requires Within(w, exact, c)
    ensures Product(w, Power(1.0 - ROUNDOFF, c)) <= exact <= Product(w, Power(1.0 + ROUNDOFF, c))
  {
    hide Power, Product;
  }

  lemma MakeWithin(w: real, exact: real, c: nat)
    requires Product(w, Power(1.0 - ROUNDOFF, c)) <= exact <= Product(w, Power(1.0 + ROUNDOFF, c))
    ensures Within(w, exact, c)
  {
    hide Power, Product;
  }

  lemma NotNegative(a: real, b: real)
    requires a >= 0.0 && b >= 0.0
    ensures Product(a, b) >= 0.0
  {
  }

  /** The two sides of the estimate, with their powers collected. */
  lemma Chain(f: real, g: real, w: real, a: real, c: nat, c': nat)
    ensures Product(Product(f, Power(a, c)), Product(g, Power(a, c'))) == Product(Product(f, g), Power(a, c + c'))
    ensures Product(Product(w, a), Power(a, c + c')) == Product(w, Power(a, c + c' + 1))
  {
    hide *;
    Pairs(f, Power(a, c), g, Power(a, c'));
    PowerSum(a, c, c');
    PowerOnce(a, c + c');
    Grouped(w, a, Power(a, c + c'));
  }

  lemma PowerOnce(a: real, n: nat)
    ensures Power(a, n + 1) == Product(a, Power(a, n))
  {
  }

  lemma Grouped(w: real, a: real, b: real)
    ensures Product(Product(w, a), b) == Product(w, Product(a, b))
  {
    assert (w * a) * b == w * (a * b);
  }

  // ----- Words -----

  /** A finite nonzero word that is b^k up to c roundings, sign aside. */
  ghost predicate Tracks(w: Word, b: real, k: nat, c: nat) {
    Finite(w) && Rational(w) != 0.0 && Within(Abs(Rational(w)), Power(b, k), c)
  }

  lemma ProductMagnitude(a: real, b: real)
    ensures Abs(Product(a, b)) == Product(Abs(a), Abs(b))
  {
  }

  /** A normal word's magnitude is positive. */
  lemma NormalWord(w: Word)
    requires Finite(w) && Normal(w)
    ensures w % SIGN < INF && Abs(Rational(w)) == Value(w % SIGN) > 0.0 && Rational(w) != 0.0
  {
    FiniteFields(w);
    ValueZero();
    ValueOrder(0, w % SIGN);
    hide Value;
  }

  lemma MultiplyTracks(f: Word, g: Word, b: real, k: nat, k': nat, c: nat, c': nat)
    requires b > 0.0 && Tracks(f, b, k, c) && Tracks(g, b, k', c')
    requires Finite(MultiplyWords(f, g)) && Normal(MultiplyWords(f, g))
    ensures Tracks(MultiplyWords(f, g), b, k + k', c + c' + 1)
  {
    hide MultiplyWords, Normal, Rational, Finite, Power, Product, IsNearest, Value, Within;
    var w := MultiplyWords(f, g);
    MultiplyIsNearest(f, g);
    NormalWord(w);
    NormalAtLeast(w);
    ProductMagnitude(Rational(f), Rational(g));
    NotNegative(Abs(Rational(f)), Abs(Rational(g)));
    RelativeError(Product(Abs(Rational(f)), Abs(Rational(g))), w % SIGN);
    PowerPositive(b, k);
    PowerPositive(b, k');
    WithinProduct(Abs(Rational(f)), Abs(Rational(g)), Power(b, k), Power(b, k'), c, c', Abs(Rational(w)));
    PowerSum(b, k, k');
  }

  lemma NormalAtLeast(w: Word)
    requires Normal(w)
    ensures w % SIGN >= HIDDEN
  {
  }

  /** Multiplying one by a word gives the word. */
  lemma OneTimes(f: Word)
    requires Finite(f)
    ensures MultiplyWords(ONE, f) == f
  {
    SpecialWords();
    NearestOfRational(f);
    assert !Negative(ONE);
    hide Nearest, Rational, Finite;
    assert Product(1.0, Rational(f)) == Rational(f);
  }

  /** Roundings in a product of k factors, each rounded once more when it is a reciprocal. */
  function Roundings(k: nat, reciprocal: bool): nat {
    if k == 0 then 0 else if reciprocal then 2 * k - 1 else k - 1
  }

  function Total(k: nat, n: nat, m: nat): nat {
    k + n * m
  }

  /** A completed run ends at b^k up to the roundings of k factors. */
  ghost predicate EndsTracking(o: IntegerPower.Outcome<Word>, b: real, k: nat, reciprocal: bool) {
    o.value.Some? ==> Tracks(o.value.value, b, k, Roundings(k, reciprocal))
  }

  /** The loop, completed without underflow, has multiplied n more factors within their roundings. */
  lemma {:induction false} LoopTracks(n: nat, factor: Word, accumulator: Word, operations: nat, b: real, k: nat, m: nat,
      reciprocal: bool)
    requires b > 0.0 && m > 0 && Tracks(factor, b, m, Roundings(m, reciprocal))
    requires if k == 0 then accumulator == ONE else Tracks(accumulator, b, k, Roundings(k, reciprocal))
    requires n + k > 0
    ensures EndsTracking(Loop(NORMALS, n, factor, accumulator, operations), b, Total(k, n, m), reciprocal)
    decreases n
  {
    hide Tracks, MultiplyWords, Finite, Normal, Total, Roundings;
    HalvedCount(n, k, m);
    if n > 0 && Loop(NORMALS, n, factor, accumulator, operations).value.Some? {
      var k' := if n % 2 == 1 then k + m else k;
      var a := if n % 2 == 1 then MultiplyWords(accumulator, factor) else accumulator;
      if n % 2 == 1 {
        Accumulates(factor, accumulator, b, k, m, reciprocal);
      }
      if n / 2 > 0 {
        Squares(factor, b, m, reciprocal);
        LoopTracks(n / 2, MultiplyWords(factor, factor), a, operations + n % 2 + 1, b, k', 2 * m, reciprocal);
      }
    }
  }

  lemma Accumulates(factor: Word, accumulator: Word, b: real, k: nat, m: nat, reciprocal: bool)
    requires b > 0.0 && m > 0 && Tracks(factor, b, m, Roundings(m, reciprocal))
    requires if k == 0 then accumulator == ONE else Tracks(accumulator, b, k, Roundings(k, reciprocal))
    requires Finite(MultiplyWords(accumulator, factor)) && Normal(MultiplyWords(accumulator, factor))
    ensures Tracks(MultiplyWords(accumulator, factor), b, k + m, Roundings(k + m, reciprocal))
  {
    assert Finite(factor);
    hide Tracks, MultiplyWords, Finite, Normal;
    if k == 0 {
      OneTimes(factor);
    } else {
      MultiplyTracks(accumulator, factor, b, k, m, Roundings(k, reciprocal), Roundings(m, reciprocal));
    }
  }

  lemma Squares(factor: Word, b: real, m: nat, reciprocal: bool)
    requires b > 0.0 && m > 0 && Tracks(factor, b, m, Roundings(m, reciprocal))
    requires Finite(MultiplyWords(factor, factor)) && Normal(MultiplyWords(factor, factor))
    ensures Tracks(MultiplyWords(factor, factor), b, 2 * m, Roundings(2 * m, reciprocal))
  {
    hide Tracks, MultiplyWords, Finite, Normal;
    MultiplyTracks(factor, factor, b, m, m, Roundings(m, reciprocal), Roundings(m, reciprocal));
  }

  lemma HalvedCount(n: nat, k: nat, m: nat)
    ensures Total(if n % 2 == 1 then k + m else k, n / 2, 2 * m) == Total(k, n, m)
    ensures Total(k, 1, m) == k + m && Total(k, 0, m) == k
  {
    var h := n / 2;
    assert n == 2 * h + n % 2;
    assert h * (2 * m) == (2 * h) * m;
    if n % 2 == 1 {
      assert (2 * h + 1) * m == (2 * h) * m + m;
    }
  }

  // ----- Whole runs -----

  /** A run that completes under the stricter end is the run under the other. */
  lemma {:induction false} SameLoop(n: nat, factor: Word, accumulator: Word, operations: nat)
    requires Loop(NORMALS, n, factor, accumulator, operations).value.Some?
    ensures Loop(WORDS, n, factor, accumulator, operations) == Loop(NORMALS, n, factor, accumulator, operations)
  {
    hide MultiplyWords, Finite, Normal;
    if n > 1 {
      var a := if n % 2 == 1 then MultiplyWords(accumulator, factor) else accumulator;
      SameLoop(n / 2, MultiplyWords(factor, factor), a, operations + n % 2 + 1);
    }
  }

  /** A completed run whose magnitude is the p-th power of x's, up to c roundings. */
  ghost predicate Close(run: IntegerPower.Outcome<Word>, x: Word, p: int, c: nat)
    requires Finite(x) && Rational(x) != 0.0
  {
    && run.value.Some? && Finite(run.value.value) && Rational(run.value.value) != 0.0
    && Within(Abs(Rational(run.value.value)), WholePower(Abs(Rational(x)), p), c)
  }

  lemma Positive(x: Word)
    requires Finite(x) && Rational(x) != 0.0
    ensures Abs(Rational(x)) > 0.0
  {
    hide Rational, Finite;
  }

  lemma OneIsWord()
    ensures ONE < 2 * SIGN
  {
  }

  /**
   A run in which nothing underflows or overflows ends within its roundings of the exact power:
   n - 1 of them, or 2n - 1 with the reciprocal taken first.
   */
  lemma PowerWithinRoundings(x: Word, n: nat, negative: bool)
    requires Finite(x) && Rational(x) != 0.0 && n > 0
    requires Graph(NORMALS, x, n, negative).value.Some?
    ensures Graph(WORDS, x, n, negative) == Graph(NORMALS, x, n, negative)
    ensures Close(Graph(WORDS, x, n, negative), x, if negative then 0 - n else n, Roundings(n, negative))
  {
    hide *;
    var b := Abs(Rational(x));
    Positive(x);
    OneIsWord();
    if negative {
      var f := DivideOne(x);
      GraphNegative(x, n);
      ReciprocalTracks(x, f);
      LoopTracks(n, f, ONE, 1, 1.0 / b, 0, 1, true);
      SameLoop(n, f, ONE, 1);
      InversePower(b, n);
      Conclude(Loop(NORMALS, n, f, ONE, 1), x, 1.0 / b, n, 0 - n, true);
    } else {
      GraphPositive(x, n);
      StartTracks(x);
      LoopTracks(n, x, ONE, 0, b, 0, 1, false);
      SameLoop(n, x, ONE, 0);
      WholePositive(b, n);
      Conclude(Loop(NORMALS, n, x, ONE, 0), x, b, n, n, false);
    }
  }

  lemma GraphNegative(x: Word, n: nat)
    requires Graph(NORMALS, x, n, true).value.Some?
    ensures Finite(DivideOne(x)) && Normal(DivideOne(x))
    ensures Graph(NORMALS, x, n, true) == Loop(NORMALS, n, DivideOne(x), ONE, 1)
    ensures Graph(WORDS, x, n, true) == Loop(WORDS, n, DivideOne(x), ONE, 1)
  {
    hide Loop, DivideOne, Finite, Normal;
  }

  lemma GraphPositive(x: Word, n: nat)
    ensures Graph(NORMALS, x, n, false) == Loop(NORMALS, n, x, ONE, 0)
    ensures Graph(WORDS, x, n, false) == Loop(WORDS, n, x, ONE, 0)
  {
    hide Loop;
  }

  lemma PowerOneZero(b: real)
    ensures Power(b, 1) == b && Power(b, 0) == 1.0
  {
    assert Power(b, 1) == b * Power(b, 0);
  }

  /** A word is its own first power, exactly. */
  lemma StartTracks(x: Word)
    requires Finite(x) && Rational(x) != 0.0
    ensures Tracks(x, Abs(Rational(x)), 1, Roundings(1, false))
  {
    hide Power, Rational, Finite;
    PowerOneZero(Abs(Rational(x)));
    PowerOneZero(1.0 - ROUNDOFF);
    PowerOneZero(1.0 + ROUNDOFF);
  }

  /** The rounded reciprocal is one rounding from the exact one. */
  lemma ReciprocalTracks(x: Word, f: Word)
    requires Finite(x) && Rational(x) != 0.0 && Abs(Rational(x)) > 0.0 && f == DivideOne(x) && Finite(f) && Normal(f)
    ensures Tracks(f, 1.0 / Abs(Rational(x)), 1, Roundings(1, true))
  {
    hide DivideOne, Rational, Finite, Normal, Value, IsNearest, Power;
    DivideIsNearest(x);
    NormalWord(f);
    NormalAtLeast(f);
    ReciprocalMagnitude(Rational(x));
    hide Abs;
    RelativeError(1.0 / Abs(Rational(x)), f % SIGN);
    PowerOneZero(1.0 / Abs(Rational(x)));
    PowerOneZero(1.0 - ROUNDOFF);
    PowerOneZero(1.0 + ROUNDOFF);
  }

  lemma ReciprocalMagnitude(a: real)
    requires a != 0.0
    ensures Abs(a) > 0.0 && Abs(1.0 / a) == 1.0 / Abs(a) > 0.0
  {
    SignOfInverse(a);
    SignOfInverse(Abs(a));
    if a < 0.0 {
      assert (1.0 / a) * a == 1.0;
      Quotient(-(1.0 / a), -a);
    }
  }

  lemma InversePower(b: real, n: nat)
    requires b > 0.0
    ensures 1.0 / b > 0.0
    ensures n > 0 ==> Power(1.0 / b, n) == WholePower(b, 0 - n)
  {
    SignOfInverse(b);
    PowerOfInverse(b, n);
    assert Inverse(b) == 1.0 / b;
    hide Power;
  }

  lemma WholePositive(b: real, n: nat)
    requires b > 0.0
    ensures Power(b, n) == WholePower(b, n)
  {
    hide Power;
  }

  lemma Conclude(o: IntegerPower.Outcome<Word>, x: Word, b: real, n: nat, p: int, reciprocal: bool)
    requires Finite(x) && Rational(x) != 0.0 && Abs(Rational(x)) > 0.0 && o.value.Some?
    requires EndsTracking(o, b, Total(0, n, 1), reciprocal) && Power(b, n) == WholePower(Abs(Rational(x)), p)
    ensures Close(o, x, p, Roundings(n, reciprocal))
  {
    assert Total(0, n, 1) == n;
    hide Within, Power, Rational, Finite, Roundings, WholePower;
  }
}
