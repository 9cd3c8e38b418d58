/**
 The integer power graph: reciprocal first when the exponent is negative, then binary powering,
 with every basic operation counted and the run ended by a nonfinite answer.

 The loop is given over any arithmetic; the word arithmetic rounds every answer to nearest even.
 */
module IntegerPower {
  import opened Common
  import opened Binary64
  import opened PowerOracle

  /** The basic operations a run uses. */
  datatype Arithmetic<!V> = Arithmetic(one: V, multiply: (V, V) -> V, reciprocal: V -> V, finite: V -> bool)

  /** The end of a run: the value, or none after a nonfinite answer, and the operations done. */
  datatype Outcome<V> = Outcome(value: Option<V>, operations: nat)

  // ----- Bits of the exponent -----

  function BitLength(n: nat): nat {
    if n == 0 then 0 else BitLength(n / 2) + 1
  }

  function PopCount(n: nat): nat {
    if n == 0 then 0 else PopCount(n / 2) + n % 2
  }

  /** Multiplications of a loop that completes: one a set bit, one a remaining squaring. */
  function LoopCost(n: nat): nat {
    if n == 0 then 0 else BitLength(n) - 1 + PopCount(n)
  }

  function OperationBound(n: nat, negative: bool): nat {
    LoopCost(n) + if negative then 1 else 0
  }

  // ----- The loop -----

  /** The loop from its variables; every answer that is not finite ends the run. */
  function Loop<V>(s: Arithmetic<V>, n: nat, factor: V, accumulator: V, operations: nat): Outcome<V> {
    if n == 0 then Outcome(Some(accumulator), operations)
    else
      var taken := n % 2 == 1;
      var a := if taken then s.multiply(accumulator, factor) else accumulator;
      var done := operations + n % 2;
      if taken && !s.finite(a) then Outcome(None, done)
      else if n / 2 == 0 then Outcome(Some(a), done)
      else
        var f := s.multiply(factor, factor);
        if !s.finite(f) then Outcome(None, done + 1) else Loop(s, n / 2, f, a, done + 1)
  }

  function Graph<V>(s: Arithmetic<V>, x: V, n: nat, negative: bool): Outcome<V> {
    if negative then
      var f := s.reciprocal(x);
      if !s.finite(f) then Outcome(None, 1) else Loop(s, n, f, s.one, 1)
    else Loop(s, n, x, s.one, 0)
  }

  method PowerGraph<V>(s: Arithmetic<V>, x: V, exponent: nat, negative: bool) returns (outcome: Outcome<V>)
    ensures outcome == Graph(s, x, exponent, negative)
  {
    var n, factor, accumulator, operations := exponent, x, s.one, 0;
    if negative {
      factor := s.reciprocal(factor);
      operations := operations + 1;
      if !s.finite(factor) {
        return Outcome(None, operations);
      }
    }
    while n != 0
      invariant Loop(s, n, factor, accumulator, operations) == Graph(s, x, exponent, negative)
    {
      if n % 2 == 1 {
        accumulator := s.multiply(accumulator, factor);
        operations := operations + 1;
        if !s.finite(accumulator) {
          return Outcome(None, operations);
        }
      }
      n := n / 2;
      if n != 0 {
        factor := s.multiply(factor, factor);
        operations := operations + 1;
        if !s.finite(factor) {
          return Outcome(None, operations);
        }
      }
    }
    return Outcome(Some(accumulator), operations);
  }

  // ----- How many operations -----

  /** A loop that completes does exactly its cost; one that ends early does no more. */
  lemma {:induction false} LoopOperations<V>(s: Arithmetic<V>, n: nat, factor: V, accumulator: V, operations: nat)
    ensures var o := Loop(s, n, factor, accumulator, operations);
            && o.operations <= operations + LoopCost(n)
            && (o.value.Some? ==> o.operations == operations + LoopCost(n))
  {
    if n > 1 {
      var taken := n % 2 == 1;
      var a := if taken then s.multiply(accumulator, factor) else accumulator;
      LoopOperations(s, n / 2, s.multiply(factor, factor), a, operations + n % 2 + 1);
    } else if n == 1 {
      assert BitLength(0) == 0 && PopCount(0) == 0;
    }
  }

  lemma GraphOperations<V>(s: Arithmetic<V>, x: V, n: nat, negative: bool)
    requires n > 0
    ensures var o := Graph(s, x, n, negative);
            && o.operations <= OperationBound(n, negative)
            && (o.value.Some? ==> o.operations == OperationBound(n, negative))
  {
    LoopOperations(s, n, if negative then s.reciprocal(x) else x, s.one, if negative then 1 else 0);
    hide Loop, LoopCost;
  }

  // ----- What the value is, seen through a homomorphism -----

  /** A monoid: products need no brackets. */
  datatype Monoid<!W> = Monoid(unit: W, times: (W, W) -> W)

  ghost predicate Lawful<W(!new)>(w: Monoid<W>) {
    && (forall a :: w.times(w.unit, a) == a && w.times(a, w.unit) == a)
    && (forall a, b, c :: w.times(w.times(a, b), c) == w.times(a, w.times(b, c)))
  }

  lemma Brackets<W(!new)>(w: Monoid<W>, a: W, b: W, c: W)
    requires Lawful(w)
    ensures w.times(w.times(a, b), c) == w.times(a, w.times(b, c))
  {
  }

  lemma Units<W(!new)>(w: Monoid<W>, a: W)
    requires Lawful(w)
    ensures w.times(w.unit, a) == a && w.times(a, w.unit) == a
  {
  }

  /** n copies of a multiplied together. */
  function Repeated<W>(w: Monoid<W>, a: W, n: nat): W {
    if n == 0 then w.unit else w.times(Repeated(w, a, n - 1), a)
  }

  lemma {:induction false} RepeatedSum<W(!new)>(w: Monoid<W>, a: W, m: nat, n: nat)
    requires Lawful(w)
    ensures Repeated(w, a, m + n) == w.times(Repeated(w, a, m), Repeated(w, a, n))
  {
    hide Lawful;
    if n > 0 {
      RepeatedSum(w, a, m, n - 1);
      Brackets(w, Repeated(w, a, m), Repeated(w, a, n - 1), a);
    } else {
      Units(w, Repeated(w, a, m));
    }
  }

  /** Halving the count squares the factor. */
  lemma {:induction false} RepeatedSquare<W(!new)>(w: Monoid<W>, a: W, n: nat)
    requires Lawful(w)
    ensures Repeated(w, w.times(a, a), n) == Repeated(w, a, 2 * n)
  {
    hide Lawful;
    if n > 0 {
      RepeatedSquare(w, a, n - 1);
      Brackets(w, Repeated(w, a, 2 * n - 2), a, a);
      assert Repeated(w, a, 2 * n) == w.times(Repeated(w, a, 2 * n - 1), a);
      assert Repeated(w, a, 2 * n - 1) == w.times(Repeated(w, a, 2 * n - 2), a);
    }
  }

  /** Reading values through h turns basic operations into the monoid's. */
  ghost predicate Preserves<V(!new), W>(s: Arithmetic<V>, w: Monoid<W>, h: V -> W) {
    h(s.one) == w.unit && forall a, b :: h(s.multiply(a, b)) == w.times(h(a), h(b))
  }

  lemma PreservesProduct<V(!new), W>(s: Arithmetic<V>, w: Monoid<W>, h: V -> W, a: V, b: V)
    requires Preserves(s, w, h)
    ensures h(s.multiply(a, b)) == w.times(h(a), h(b)) && h(s.one) == w.unit
  {
  }

  /** The loop multiplies n copies of its factor onto its accumulator. */
  lemma {:induction false} LoopValue<V(!new), W(!new)>(s: Arithmetic<V>, w: Monoid<W>, h: V -> W, n: nat, factor: V,
      accumulator: V, operations: nat)
    requires Lawful(w) && Preserves(s, w, h)
    ensures var o := Loop(s, n, factor, accumulator, operations);
            o.value.Some? ==> h(o.value.value) == w.times(h(accumulator), Repeated(w, h(factor), n))
  {
    hide Lawful, Preserves;
    RepeatedOnce(w, h(factor));
    if n == 0 {
      Units(w, h(accumulator));
    } else {
      var a := if n % 2 == 1 then s.multiply(accumulator, factor) else accumulator;
      var f := s.multiply(factor, factor);
      LoopOnce(s, n, factor, accumulator, operations);
      hide Loop, Repeated;
      LoopValue(s, w, h, n / 2, f, a, operations + n % 2 + 1);
      PreservesProduct(s, w, h, accumulator, factor);
      PreservesProduct(s, w, h, factor, factor);
      StepValue(w, h(accumulator), h(factor), n);
    }
  }

  /** One halving, on the side of the monoid. */
  lemma StepValue<W(!new)>(w: Monoid<W>, c: W, a: W, n: nat)
    requires Lawful(w) && n > 0
    ensures var taken := if n % 2 == 1 then w.times(c, a) else c;
            && w.times(taken, Repeated(w, w.times(a, a), n / 2)) == w.times(c, Repeated(w, a, n))
            && (n / 2 == 0 ==> taken == w.times(c, Repeated(w, a, n)))
  {
    hide Lawful, Repeated;
    var half := n / 2;
    RepeatedSquare(w, a, half);
    RepeatedSum(w, a, n % 2, 2 * half);
    RepeatedOnce(w, a);
    assert n == n % 2 + 2 * half;
    if n % 2 == 1 {
      Brackets(w, c, a, Repeated(w, a, 2 * half));
    } else {
      Units(w, Repeated(w, a, 2 * half));
    }
  }

  lemma RepeatedOnce<W(!new)>(w: Monoid<W>, a: W)
    requires Lawful(w)
    ensures Repeated(w, a, 0) == w.unit && Repeated(w, a, 1) == a
  {
    Units(w, a);
    hide Lawful;
    assert Repeated(w, a, 1) == w.times(Repeated(w, a, 0), a);
  }

  lemma LoopOnce<V>(s: Arithmetic<V>, n: nat, factor: V, accumulator: V, operations: nat)
    requires n > 0
    ensures var a := if n % 2 == 1 then s.multiply(accumulator, factor) else accumulator;
            var o := Loop(s, n, factor, accumulator, operations);
            o.value.Some? ==> o == (if n / 2 == 0 then Outcome(Some(a), operations + n % 2)
                                    else Loop(s, n / 2, s.multiply(factor, factor), a, operations + n % 2 + 1))
  {
  }

  /** A completed run is the n-fold product of x, or of its reciprocal. */
  lemma GraphValue<V(!new), W(!new)>(s: Arithmetic<V>, w: Monoid<W>, h: V -> W, x: V, n: nat, negative: bool)
    requires Lawful(w) && Preserves(s, w, h) && Graph(s, x, n, negative).value.Some?
    ensures h(Graph(s, x, n, negative).value.value) == Repeated(w, h(if negative then s.reciprocal(x) else x), n)
  {
    hide Loop, Repeated, Lawful, Preserves;
    var factor := if negative then s.reciprocal(x) else x;
    LoopValue(s, w, h, n, factor, s.one, if negative then 1 else 0);
    PreservesProduct(s, w, h, x, x);
    Units(w, Repeated(w, h(factor), n));
  }

  // ----- Exact arithmetic -----

  function Inverse(x: real): real {
    if x == 0.0 then 0.0 else 1.0 / x
  }

  function Product(a: real, b: real): real {
    a * b
  }

  const EXACT: Arithmetic<real> := Arithmetic(1.0, Product, Inverse, (x: real) => true)
  const PRODUCTS: Monoid<real> := Monoid(1.0, Product)

  lemma ProductsLawful()
    ensures Lawful(PRODUCTS) && Preserves(EXACT, PRODUCTS, (x: real) => x)
  {
    forall a: real, b: real, c: real
      ensures Product(Product(a, b), c) == Product(a, Product(b, c))
    {
    }
  }

  lemma {:induction false} RepeatedIsPower(a: real, n: nat)
    ensures Repeated(PRODUCTS, a, n) == Power(a, n)
  {
    if n > 0 {
      RepeatedIsPower(a, n - 1);
    }
  }

  lemma {:induction false} PowerOfInverse(x: real, n: nat)
    requires x != 0.0
    ensures Power(x, n) != 0.0 && Power(Inverse(x), n) == 1.0 / Power(x, n)
  {
    if n > 0 {
      PowerOfInverse(x, n - 1);
      InverseProduct(x, Power(x, n - 1));
      hide Inverse;
    }
  }

  lemma InverseProduct(x: real, y: real)
    requires x != 0.0 && y != 0.0
    ensures x * y != 0.0 && Inverse(x) * (1.0 / y) == 1.0 / (x * y)
  {
    var u, v := 1.0 / x, 1.0 / y;
    assert u * x == 1.0 && v * y == 1.0;
    assert (u * v) * (x * y) == (u * x) * (v * y);
    Quotient(u * v, x * y);
  }

  lemma Quotient(q: real, d: real)
    requires q * d == 1.0
    ensures d != 0.0 && q == 1.0 / d
  {
  }

  lemma {:induction false} ExactCompletes(n: nat, factor: real, accumulator: real, operations: nat)
    ensures Loop(EXACT, n, factor, accumulator, operations).value.Some?
  {
    if n > 0 {
      var a := if n % 2 == 1 then Product(accumulator, factor) else accumulator;
      ExactCompletes(n / 2, Product(factor, factor), a, operations + n % 2 + 1);
    }
  }

  /** In exact arithmetic the graph gives x^p, with exactly the bound's number of operations. */
  lemma ExactPower(x: real, p: int)
    requires x != 0.0 && p != 0
    ensures var n := if p < 0 then -p else p;
            && Power(x, n) != 0.0
            && Graph(EXACT, x, n, p < 0) == Outcome(Some(IntegerPower(x, p)), OperationBound(n, p < 0))
  {
    var n := if p < 0 then -p else p;
    var factor := if p < 0 then Inverse(x) else x;
    ExactCompletes(n, factor, 1.0, if p < 0 then 1 else 0);
    PowerOfInverse(x, n);
    hide Loop, LoopCost, Power, Repeated, Inverse;
    ProductsLawful();
    GraphValue(EXACT, PRODUCTS, (v: real) => v, x, n, p < 0);
    RepeatedIsPower(factor, n);
    GraphOperations(EXACT, x, n, p < 0);
  }

  // ----- Word arithmetic -----

  predicate Negative(w: Word) {
    w >= SIGN
  }

  function MultiplyWords(a: Word, b: Word): Word {
    var sign := Negative(a) != Negative(b);
    if Finite(a) && Finite(b) then SignedNearest(Product(Rational(a), Rational(b)), sign)
    else INF + if sign then SIGN else 0
  }

  function DivideOne(b: Word): Word {
    if !Finite(b) || Rational(b) == 0.0 then INF + (if Negative(b) then SIGN else 0)
    else SignedNearest(1.0 / Rational(b), Negative(b))
  }

  const WORDS: Arithmetic<Word> := Arithmetic<Word>.Arithmetic(ONE, MultiplyWords, DivideOne, (w: Word) => Finite(w))

  lemma NearestSign(v: real, z: bool)
    ensures Negative(SignedNearest(v, z)) <==> v < 0.0 || (v == 0.0 && z)
  {
    NearestIsWord(v, z);
    hide Nearest;
  }

  lemma SignOfProduct(a: real, b: real)
    ensures Product(a, b) > 0.0 <==> (a > 0.0 && b > 0.0) || (a < 0.0 && b < 0.0)
    ensures Product(a, b) < 0.0 <==> (a > 0.0 && b < 0.0) || (a < 0.0 && b > 0.0)
  {
  }

  lemma MultiplySign(a: Word, b: Word)
    ensures Negative(MultiplyWords(a, b)) == (Negative(a) != Negative(b))
  {
    if Finite(a) && Finite(b) {
      SignOfRational(a);
      SignOfRational(b);
      hide SignedNearest, Rational, Product, Negative, Finite;
      SignOfProduct(Rational(a), Rational(b));
      NearestSign(Product(Rational(a), Rational(b)), Negative(a) != Negative(b));
    }
  }

  lemma DivideSign(b: Word)
    ensures Negative(DivideOne(b)) == Negative(b)
  {
    if Finite(b) && Rational(b) != 0.0 {
      SignOfRational(b);
      hide SignedNearest, Rational;
      SignOfInverse(Rational(b));
      NearestSign(1.0 / Rational(b), Negative(b));
    }
  }

  lemma SignOfInverse(a: real)
    requires a != 0.0
    ensures 1.0 / a > 0.0 <==> a > 0.0
    ensures 1.0 / a < 0.0 <==> a < 0.0
  {
    var q := 1.0 / a;
    assert q * a == 1.0;
    SignOfProduct(q, a);
  }

  function Xor(a: bool, b: bool): bool {
    a != b
  }

  const SIGNS: Monoid<bool> := Monoid(false, Xor)

  lemma SignsLawful()
    ensures Lawful(SIGNS) && Preserves(WORDS, SIGNS, (w: Word) => Negative(w))
  {
    forall a: Word, b: Word
      ensures Negative(MultiplyWords(a, b)) == Xor(Negative(a), Negative(b))
    {
      MultiplySign(a, b);
    }
  }

  lemma {:induction false} RepeatedSign(a: bool, n: nat)
    ensures Repeated(SIGNS, a, n) <==> a && n % 2 == 1
  {
    if n > 0 {
      RepeatedSign(a, n - 1);
    }
  }

  /** With every operation rounded, a completed run still has the sign of the power. */
  lemma SignOfPower(x: Word, n: nat, negative: bool)
    requires Graph(WORDS, x, n, negative).value.Some?
    ensures Negative(Graph(WORDS, x, n, negative).value.value) <==> Negative(x) && n % 2 == 1
  {
    hide Graph, Repeated, Negative, MultiplyWords, DivideOne, Lawful, Preserves;
    SignsLawful();
    GraphValue(WORDS, SIGNS, (w: Word) => Negative(w), x, n, negative);
    DivideSign(x);
    RepeatedSign(Negative(if negative then DivideOne(x) else x), n);
  }

  // ----- The bound over all exponents -----

  lemma {:induction false} BitLengthBound(n: nat, k: nat)
    requires n < Pow2(k)
    ensures BitLength(n) <= k && PopCount(n) <= BitLength(n)
  {
    if n > 0 {
      BitLengthBound(n / 2, k - 1);
    }
  }

  lemma {:induction false} BitsOfScaled(m: nat, k: nat)
    requires m > 0
    ensures BitLength(m * Pow2(k)) == BitLength(m) + k && PopCount(m * Pow2(k)) == PopCount(m)
  {
    if k > 0 {
      BitsOfScaled(m, k - 1);
      hide BitLength, PopCount;
      Halved(m, k);
      BitsOfDouble(m * Pow2(k - 1));
    } else {
      assert m * Pow2(0) == m;
    }
  }

  lemma Halved(m: nat, k: nat)
    requires k > 0
    ensures m * Pow2(k) == 2 * (m * Pow2(k - 1))
  {
    var p := Pow2(k - 1);
    assert Pow2(k) == 2 * p;
    hide Pow2;
    assert m * (2 * p) == 2 * (m * p);
  }

  lemma BitsOfDouble(n: nat)
    requires n > 0
    ensures BitLength(2 * n) == BitLength(n) + 1 && PopCount(2 * n) == PopCount(n)
  {
    assert (2 * n) / 2 == n && (2 * n) % 2 == 0;
  }

  lemma SignificandBound(m: nat)
    requires m < INF
    ensures Significand(m) < Pow2(53) && Place(m) <= 971
  {
    assert Pow2(53) == 0x20_0000_0000_0000 by {
      PowerOf53();
    }
  }

  lemma PowerOf53()
    ensures Pow2(53) == 0x20_0000_0000_0000
  {
    assert Pow2(8) == 256;
    Pow2Sum(8, 8);
    Pow2Sum(16, 16);
    Pow2Sum(32, 16);
    Pow2Sum(48, 5);
    assert Pow2(5) == 32;
  }

  lemma {:induction false} ReduceSmaller(n: nat, log: nat)
    ensures Reduce(n, log).0 <= n && (n > 0 ==> Reduce(n, log).0 > 0)
  {
    if log > 0 && n % 2 == 0 {
      ReduceSmaller(n / 2, log - 1);
    }
  }

  /** The exponent's magnitude, when it is an integer. */
  function Exponent(y: Word): nat
    requires Finite(y)
  {
    var p := Lowest(y).numerator;
    if p < 0 then -p else p
  }

  lemma ExponentBits(y: Word)
    requires Finite(y)
    ensures BitLength(Exponent(y)) <= 1024 && PopCount(Exponent(y)) <= 53
  {
    var m := y % SIGN;
    ExponentShape(y);
    FiniteMagnitude(y);
    SignificandBound(m);
    var s, e := Significand(m), Place(m);
    hide Significand, Place, Exponent, Pow2, Reduce, BitLength, PopCount;
    if e >= 0 {
      ScaledBits(s, e);
    } else {
      ReducedBits(s, -e);
    }
  }

  lemma FiniteMagnitude(y: Word)
    requires Finite(y)
    ensures y % SIGN < INF
  {
  }

  lemma ExponentShape(y: Word)
    requires Finite(y)
    ensures var m := y % SIGN;
            Exponent(y) == if Place(m) >= 0 then Significand(m) * Pow2(Place(m))
                else Reduce(Significand(m), -Place(m)).0
  {
    hide Significand, Place, Pow2, Reduce;
  }

  lemma ScaledBits(s: nat, e: nat)
    requires s < Pow2(53) && e <= 971
    ensures BitLength(s * Pow2(e)) <= 1024 && PopCount(s * Pow2(e)) <= 53
  {
    BitLengthBound(s, 53);
    if s == 0 {
      ZeroTimes(e);
      assert BitLength(0) == 0 && PopCount(0) == 0;
    } else {
      BitsOfScaled(s, e);
    }
    hide BitLength, PopCount, Pow2;
  }

  lemma ReducedBits(s: nat, log: nat)
    requires s < Pow2(53)
    ensures BitLength(Reduce(s, log).0) <= 1024 && PopCount(Reduce(s, log).0) <= 53
  {
    ReduceSmaller(s, log);
    BitLengthBound(Reduce(s, log).0, 53);
    hide BitLength, PopCount, Pow2, Reduce;
  }

  lemma ZeroTimes(k: nat)
    ensures 0 * Pow2(k) == 0
  {
  }

  /** No finite integral exponent needs more than 1077 basic operations. */
  lemma AtMost1077(y: Word)
    requires Finite(y)
    ensures OperationBound(Exponent(y), Negative(y)) <= 1077
  {
    ExponentBits(y);
    hide BitLength, PopCount, Exponent;
  }

  /** The most negative finite exponent needs exactly 1077. */
  lemma Attains1077()
    ensures Finite(SIGN + MAX) && OperationBound(Exponent(SIGN + MAX), true) == 1077
  {
    LargestPlace();
    hide BitLength, PopCount, Exponent, Pow2, Significand, Place;
    ExponentShape(SIGN + MAX);
    BitsOfScaled(0x1f_ffff_ffff_ffff, 971);
    AllOnes();
  }

  lemma LargestPlace()
    ensures Finite(SIGN + MAX) && (SIGN + MAX) % SIGN == MAX
    ensures Place(MAX) == 971 && Significand(MAX) == 0x1f_ffff_ffff_ffff
  {
  }

  lemma AllOnes()
    ensures BitLength(0x1f_ffff_ffff_ffff) == 53 && PopCount(0x1f_ffff_ffff_ffff) == 53
  {
    OnesBits(53);
    PowerOf53();
  }

  lemma {:induction false} OnesBits(k: nat)
    ensures BitLength(Pow2(k) - 1) == k && PopCount(Pow2(k) - 1) == k
  {
    if k > 0 {
      OnesBits(k - 1);
      assert (Pow2(k) - 1) / 2 == Pow2(k - 1) - 1 && (Pow2(k) - 1) % 2 == 1;
    }
  }

  // ----- The dispatcher -----

  datatype Ended =
    | Special(outcome: PowerOracle.Outcome)
    | FractionalRequired
    | FiniteResult(bits: Word, operations: nat)
    | IntermediateNonfinite(operations: nat)

  /** The integer graph of two words, special cases first. */
  function IntegerGraph(x: Word, y: Word): Ended {
    match Dispatch(x, y)
    case Some(outcome) => Special(outcome)
    case None =>
      if Lowest(y).log != 0 then FractionalRequired
      else
        var o := Graph(WORDS, x, Exponent(y), Lowest(y).numerator < 0);
        if o.value.Some? then FiniteResult(o.value.value, o.operations) else IntermediateNonfinite(o.operations)
  }

  method HybridPower(x: Word, y: Word) returns (ended: Ended)
    ensures ended == IntegerGraph(x, y)
  {
    hide Graph, Exponent;
    match Dispatch(x, y) {
      case Some(outcome) =>
        ended := Special(outcome);
      case None =>
        if Lowest(y).log != 0 {
          return FractionalRequired;
        }
        var outcome := PowerGraph(WORDS, x, Exponent(y), Lowest(y).numerator < 0);
        ended := if outcome.value.Some? then FiniteResult(outcome.value.value, outcome.operations)
            else IntermediateNonfinite(outcome.operations);
    }
  }

  /** Any two words: at most 1077 operations, and a finite result has the sign of the power. */
  lemma HybridBound(x: Word, y: Word)
    ensures match IntegerGraph(x, y)
            case FiniteResult(bits, operations) =>
              && Finite(y) && operations == OperationBound(Exponent(y), Negative(y)) <= 1077
              && (Negative(bits) <==> Negative(x) && Exponent(y) % 2 == 1)
            case IntermediateNonfinite(operations) => operations <= 1077
            case _ => true
  {
    if Dispatch(x, y).None? {
      assert Finite(y) && Rational(y) != 0.0;
      NonzeroExponent(y);
      hide Graph, Dispatch, OperationBound, Lowest, Negative;
      var n, negative := Exponent(y), Lowest(y).numerator < 0;
      GraphOperations(WORDS, x, n, negative);
      AtMost1077(y);
      if Graph(WORDS, x, n, negative).value.Some? {
        SignOfPower(x, n, negative);
      }
      hide Exponent;
    }
  }

  lemma NonzeroExponent(y: Word)
    requires Finite(y) && Rational(y) != 0.0
    ensures Exponent(y) > 0 && (Lowest(y).numerator < 0 <==> Negative(y))
  {
    var m := y % SIGN;
    ValueZeroOnly(m);
    ReduceSmaller(Significand(m), if Place(m) < 0 then -Place(m) else 0);
    if Place(m) >= 0 {
      PositiveProduct(Significand(m), Pow2(Place(m)));
    }
    hide Value, Significand, Place, Reduce, Pow2;
  }

  lemma PositiveProduct(a: nat, b: nat)
    requires b > 0
    ensures a > 0 ==> a * b > 0
  {
  }

  lemma ValueZeroOnly(m: nat)
    ensures Value(m) != 0.0 ==> Significand(m) > 0
  {
    hide Exp2;
  }

  // ----- The outcomes, on exact values alone -----

  /** Special cases are the oracle's; fractions go to another kernel; the graph runs for whole exponents only. */
  lemma HybridExact(x: Word, y: Word, p: int, log: nat)
    requires Finite(y) ==> Fraction(Rational(y), p, log)
    ensures IntegerGraph(x, y).Special? <==> !InDomain(x, y) || Trivial(Rational(x), p)
    ensures IntegerGraph(x, y).Special? ==> IntegerGraph(x, y).outcome == OraclePower(x, y)
    ensures IntegerGraph(x, y).FractionalRequired? <==>
            InDomain(x, y) && !Trivial(Rational(x), p) && !Whole(Rational(y))
    ensures InDomain(x, y) && !Trivial(Rational(x), p) && Whole(Rational(y)) ==>
            Ran(IntegerGraph(x, y), Graph(WORDS, x, if p < 0 then -p else p, p < 0))
  {
    if Finite(x) && Finite(y) {
      FractionIsLowest(y, p, log);
      WholeIff(Rational(y), p, log);
      LowestSign(y);
      hide Rational, Lowest, Finite, Target, OracleMagnitude, Pow2, Exp2, Whole, Fraction, Graph;
    }
  }

  /** The end of the graph as the procedure reports it. */
  predicate Ran(ended: Ended, run: Outcome<Word>) {
    ended == match run.value
             case Some(bits) => FiniteResult(bits, run.operations)
             case None => IntermediateNonfinite(run.operations)
  }

  // ----- Every operation is rounded to nearest -----

  /** The product of finite words: the nearest word to the exact product, ties to even, with its sign. */
  lemma MultiplyIsNearest(a: Word, b: Word)
    requires Finite(a) && Finite(b)
    ensures var w := MultiplyWords(a, b);
            && w % SIGN <= INF && IsNearest(Abs(Product(Rational(a), Rational(b))), w % SIGN)
            && (Negative(w) <==> Negative(a) != Negative(b))
  {
    MultiplySign(a, b);
    var v := Product(Rational(a), Rational(b));
    NearestIsWord(v, Negative(a) != Negative(b));
    NearestMagnitudeCorrect(Abs(v));
    hide Nearest, NearestMagnitude, IsNearest, Rational, Product;
  }

  lemma DivideIsNearest(b: Word)
    requires Finite(b) && Rational(b) != 0.0
    ensures var w := DivideOne(b);
            && w % SIGN <= INF && IsNearest(Abs(1.0 / Rational(b)), w % SIGN) && (Negative(w) <==> Negative(b))
  {
    DivideSign(b);
    var v := 1.0 / Rational(b);
    NearestIsWord(v, Negative(b));
    NearestMagnitudeCorrect(Abs(v));
    hide Nearest, NearestMagnitude, IsNearest, Rational;
  }
}
