/**
 Binary64 words as exact numbers, and round-to-nearest-even found by binary search over words.

 A word is a natural number below 2^64. Magnitude words 0..MAX are the finite nonnegative
 numbers; the word INF itself, read by the same formula, is 2^1024, the next value of the
 53-bit grid. Correct rounding, overflow included, is "the closest word of 0..INF, ties to
 the even word" (roundTiesToEven, section 4.3.1 of IEEE 754-2019).
 */
module Binary64 {
  import opened Common

  const SIGN: nat := 0x8000_0000_0000_0000
  const HIDDEN: nat := 0x10_0000_0000_0000
  const INF: nat := 0x7ff0_0000_0000_0000
  const MAX: nat := INF - 1
  const ONE: nat := 0x3ff0_0000_0000_0000

  type Word = w: nat | w < 2 * SIGN

  /** A nonnegative word that may be INF. */
  type Magnitude = m: nat | m <= INF

  /** 2^e for any integer e. */
  function Exp2(e: int): (r: real)
    ensures r > 0.0
    decreases if e < 0 then -e else e
  {
    if e == 0 then 1.0 else if e > 0 then 2.0 * Exp2(e - 1) else Exp2(e + 1) / 2.0
  }

  lemma Exp2Step(e: int)
    ensures Exp2(e + 1) == 2.0 * Exp2(e)
  {
  }

  ghost predicate SumLaw(a: int, b: int) {
    Exp2(a + b) == Exp2(a) * Exp2(b)
  }

  lemma SumLawStep(a: int, c: int)
    ensures SumLaw(a, c) <==> SumLaw(a, c + 1)
  {
    Exp2Step(a + c);
    Exp2Step(c);
    hide Exp2;
    assert a + (c + 1) == a + c + 1;
    TwiceProduct(Exp2(a), Exp2(c));
  }

  lemma SumLawZero(a: int)
    ensures SumLaw(a, 0)
  {
    assert Exp2(0) == 1.0;
    hide Exp2;
  }

  lemma {:induction false} SumLawHolds(a: int, b: int)
    ensures SumLaw(a, b)
    decreases if b < 0 then -b else b
  {
    hide SumLaw;
    if b == 0 {
      SumLawZero(a);
    } else if b > 0 {
      SumLawHolds(a, b - 1);
      SumLawStep(a, b - 1);
    } else {
      SumLawHolds(a, b + 1);
      SumLawStep(a, b);
    }
  }

  lemma Exp2Sum(a: int, b: int)
    ensures Exp2(a + b) == Exp2(a) * Exp2(b)
  {
    hide Exp2;
    SumLawHolds(a, b);
  }

  lemma TwiceProduct(x: real, y: real)
    ensures x * (2.0 * y) == 2.0 * (x * y)
  {
  }

  function Pow2(n: nat): (p: nat)
    ensures p >= 1
  {
    if n == 0 then 1 else 2 * Pow2(n - 1)
  }

  lemma {:induction false} Pow2Sum(a: nat, b: nat)
    ensures Pow2(a + b) == Pow2(a) * Pow2(b)
  {
    if b > 0 {
      Pow2Sum(a, b - 1);
    }
  }

  lemma Pow2AsReal(n: nat)
    ensures Pow2(n) as real == Exp2(n)
  {
  }

  // ----- The number a word denotes -----

  predicate Finite(bits: Word) {
    bits / HIDDEN % 2048 != 2047
  }

  /** Exponent of the last place of a magnitude word. */
  function Place(m: nat): int {
    if m / HIDDEN == 0 then -1074 else m / HIDDEN - 1075
  }

  function Significand(m: nat): nat {
    if m / HIDDEN == 0 then m % HIDDEN else HIDDEN + m % HIDDEN
  }

  function Value(m: nat): real {
    Significand(m) as real * Exp2(Place(m))
  }

  function Rational(bits: Word): real
    requires Finite(bits)
  {
    if bits >= SIGN then -Value(bits % SIGN) else Value(bits % SIGN)
  }

  /** Consecutive words are one unit in the last place apart, across binades as well. */
  lemma ValueStep(m: nat)
    ensures Value(m + 1) == Value(m) + Exp2(Place(m))
  {
    var e, t := m / HIDDEN, m % HIDDEN;
    assert m == e * HIDDEN + t;
    var u := Exp2(Place(m));
    if t + 1 < HIDDEN {
      assert (m + 1) / HIDDEN == e && (m + 1) % HIDDEN == t + 1;
      assert Significand(m + 1) == Significand(m) + 1;
      assert (Significand(m) as real + 1.0) * u == Significand(m) as real * u + u;
    } else {
      assert (m + 1) / HIDDEN == e + 1 && (m + 1) % HIDDEN == 0;
      assert Value(m) + u == (Significand(m) + 1) as real * u;
      if e == 0 {
        assert Significand(m) + 1 == HIDDEN;
      } else {
        Exp2Step(Place(m));
        assert Value(m + 1) == HIDDEN as real * (2.0 * u);
        assert Significand(m) + 1 == 2 * HIDDEN;
        assert (2 * HIDDEN) as real * u == HIDDEN as real * (2.0 * u);
      }
    }
  }

  /** `rational` is strictly increasing on magnitude words. */
  lemma {:induction false} ValueIncreasing(a: nat, b: nat)
    requires a < b
    ensures Value(a) < Value(b)
    decreases b - a
  {
    ValueStep(a);
    if a + 1 < b {
      ValueIncreasing(a + 1, b);
    }
  }

  /** The unit in the last place never shrinks. */
  lemma PlaceStep(k: nat)
    ensures Exp2(Place(k)) <= Exp2(Place(k + 1))
  {
    var e := k / HIDDEN;
    if k % HIDDEN + 1 < HIDDEN {
      assert (k + 1) / HIDDEN == e;
    } else {
      assert (k + 1) / HIDDEN == e + 1;
      if e > 0 {
        Exp2Step(Place(k));
      }
    }
  }

  lemma ValueOrder(a: nat, b: nat)
    ensures Value(a) < Value(b) <==> a < b
    ensures Value(a) == Value(b) <==> a == b
  {
    if a < b {
      ValueIncreasing(a, b);
    } else if b < a {
      ValueIncreasing(b, a);
    }
  }

  lemma ValueZero()
    ensures Value(0) == 0.0
  {
  }

  lemma ValueNonnegative(m: nat)
    ensures Value(m) >= 0.0
    ensures Value(m) == 0.0 <==> m == 0
  {
    ValueZero();
    ValueOrder(0, m);
  }

  /** A power of two as a word: the exponent field alone. */
  lemma PowerWord(e: int)
    requires -1022 <= e <= 1024
    ensures Value((e + 1023) * HIDDEN) == Exp2(e)
  {
    var w := (e + 1023) * HIDDEN;
    assert w / HIDDEN == e + 1023 && w % HIDDEN == 0;
    Exp2Sum(52, e - 52);
    PowerOf52();
    hide Exp2;
  }

  lemma ExpZero()
    ensures Exp2(0) == 1.0
  {
  }

  lemma ValueOfOne()
    ensures Value(ONE) == 1.0
  {
    PowerWord(0);
    ExpZero();
    hide Value, Exp2;
  }

  // ----- Nearest word -----

  /** What IEEE 754 asks of a rounded magnitude. */
  ghost predicate IsNearest(v: real, m: Magnitude) {
    forall u: Magnitude :: u != m ==>
                             || Abs(Value(m) - v) < Abs(Value(u) - v)
                             || (Abs(Value(m) - v) == Abs(Value(u) - v) && m % 2 == 0)
  }

  /** The boundary between rounding to m and to m + 1. */
  function Midpoint(m: nat): real {
    (Value(m) + Value(m + 1)) / 2.0
  }

  /** The rounding boundary above MAX. */
  function Threshold(): real {
    Value(MAX) + Exp2(970)
  }

  lemma ThresholdIsMidpoint()
    ensures Threshold() == Midpoint(MAX)
  {
    ValueStep(MAX);
    Exp2Step(970);
    hide Value, Exp2;
    assert MAX / HIDDEN == 2046;
    assert Place(MAX) == 970 + 1;
    assert MAX + 1 == INF;
  }

  /** The word INF stands for the next number of the grid, 2^1024. */
  lemma ValueOfInf()
    ensures Value(INF) == Exp2(1024)
  {
    assert INF / HIDDEN == 2047 && INF % HIDDEN == 0;
    Exp2Sum(52, 972);
    PowerOf52();
    hide Exp2;
  }

  lemma PowerOf52()
    ensures Exp2(52) == HIDDEN as real
  {
    assert Exp2(13) == 8192.0;
    hide Exp2;
    Exp2Sum(13, 13);
    Exp2Sum(26, 26);
    assert 8192.0 * 8192.0 == 67108864.0;
  }

  /** The greatest word of lo..hi whose value is at most v, when Value(lo) is. */
  function FloorWord(v: real, lo: nat, hi: nat): nat
    requires lo <= hi
    decreases hi - lo
  {
    if lo == hi then lo
    else
      var mid := (lo + hi + 1) / 2;
      if Value(mid) <= v then FloorWord(v, mid, hi) else FloorWord(v, lo, mid - 1)
  }

  lemma {:induction false} FloorWordBrackets(v: real, lo: nat, hi: nat)
    requires lo <= hi && Value(lo) <= v
    requires v < Value(hi + 1)
    ensures lo <= FloorWord(v, lo, hi) <= hi
    ensures Value(FloorWord(v, lo, hi)) <= v < Value(FloorWord(v, lo, hi) + 1)
    decreases hi - lo
  {
    hide Value;
    if lo < hi {
      var mid := (lo + hi + 1) / 2;
      if Value(mid) <= v {
        FloorWordBrackets(v, mid, hi);
      } else {
        FloorWordBrackets(v, lo, mid - 1);
      }
    }
  }

  /** The word that the midpoint comparison chooses above `lo`. */
  function Choose(v: real, lo: nat): nat {
    if Value(lo) == v then lo
    else
      var distance := v - Midpoint(lo);
      if distance < 0.0 || (distance == 0.0 && lo % 2 == 0) then lo else lo + 1
  }

  function NearestMagnitude(v: real): (m: nat)
    requires v >= 0.0
  {
    if v >= Threshold() then INF
    else
      var lo := FloorWord(v, 0, MAX);
      if lo == MAX then lo else Choose(v, lo)
  }

  function Nearest(value: real, negativeZero: bool): nat {
    (if value < 0.0 || (value == 0.0 && negativeZero) then SIGN else 0) + NearestMagnitude(Abs(value))
  }

  lemma ChooseIsNearest(v: real, lo: nat)
    requires lo < INF
    requires Value(lo) <= v < Value(lo + 1)
    ensures lo <= Choose(v, lo) <= lo + 1
    ensures IsNearest(v, Choose(v, lo))
  {
    hide Value;
    var m := Choose(v, lo);
    forall u: Magnitude | u != m
      ensures Abs(Value(m) - v) < Abs(Value(u) - v)
           || (Abs(Value(m) - v) == Abs(Value(u) - v) && m % 2 == 0)
    {
      ValueOrder(u, lo);
      ValueOrder(u, lo + 1);
    }
  }

  /** The binary search returns the correctly rounded magnitude, overflow included. */
  lemma NearestMagnitudeCorrect(v: real)
    requires v >= 0.0
    ensures NearestMagnitude(v) <= INF
    ensures IsNearest(v, NearestMagnitude(v))
  {
    hide Value;
    ThresholdIsMidpoint();
    ValueZero();
    ValueIncreasing(MAX, INF);
    if v >= Threshold() {
      forall u: Magnitude | u != INF
        ensures Abs(Value(INF) - v) < Abs(Value(u) - v)
             || (Abs(Value(INF) - v) == Abs(Value(u) - v) && INF % 2 == 0)
      {
        ValueOrder(u, MAX);
      }
    } else {
      assert MAX + 1 == INF;
      FloorWordBrackets(v, 0, MAX);
      var lo := FloorWord(v, 0, MAX);
      ChooseIsNearest(v, lo);
      if lo == MAX {
        assert Choose(v, lo) == MAX;
      }
    }
  }

  /** Correct rounding determines the word, and preserves order. */
  lemma NearestMonotone(v: real, v': real, m: Magnitude, m': Magnitude)
    requires 0.0 <= v <= v'
    requires IsNearest(v, m) && IsNearest(v', m')
    ensures m <= m'
  {
    hide Value;
    if m' < m {
      ValueIncreasing(m', m);
      ValueOrder(m' + 1, m);
      ValueOrder(m', m' + 1);
    }
  }

  lemma NearestUnique(v: real, m: Magnitude)
    requires v >= 0.0 && IsNearest(v, m)
    ensures NearestMagnitude(v) == m
  {
    NearestMagnitudeCorrect(v);
    NearestMonotone(v, v, m, NearestMagnitude(v));
    NearestMonotone(v, v, NearestMagnitude(v), m);
  }

  /** A bracket by the two rounding midpoints decides the rounded word. */
  lemma NearestBetweenMidpoints(v: real, m: nat)
    requires 0 < m <= MAX && v >= 0.0
    requires Midpoint(m - 1) < v < Midpoint(m)
    ensures NearestMagnitude(v) == m
  {
    hide Value;
    ValueNonnegative(m - 1);
    ValueNonnegative(m);
    forall u: Magnitude | u != m
      ensures Abs(Value(m) - v) < Abs(Value(u) - v)
    {
      ValueOrder(u, m - 1);
      ValueOrder(u, m);
      ValueOrder(u, m + 1);
    }
    assert IsNearest(v, m);
    NearestUnique(v, m);
  }

  lemma NearestMagnitudeMonotone(v: real, v': real)
    requires 0.0 <= v <= v'
    ensures NearestMagnitude(v) <= NearestMagnitude(v') <= INF
  {
    NearestMagnitudeCorrect(v);
    NearestMagnitudeCorrect(v');
    NearestMonotone(v, v', NearestMagnitude(v), NearestMagnitude(v'));
  }

  lemma NearestOfValue(m: Magnitude)
    ensures NearestMagnitude(Value(m)) == m
  {
    hide Value;
    ValueNonnegative(m);
    forall u: Magnitude | u != m
      ensures Abs(Value(m) - Value(m)) < Abs(Value(u) - Value(m))
    {
      ValueOrder(u, m);
    }
    assert IsNearest(Value(m), m);
    NearestUnique(Value(m), m);
  }

  lemma FiniteFields(bits: Word)
    ensures Finite(bits) <==> bits % SIGN < INF
  {
    var m := bits % SIGN;
    assert bits == (if bits >= SIGN then SIGN else 0) + m;
    assert SIGN == 2048 * HIDDEN;
    assert bits / HIDDEN == (if bits >= SIGN then 2048 else 0) + m / HIDDEN;
    assert m / HIDDEN < 2048;
    assert bits / HIDDEN % 2048 == m / HIDDEN;
    assert INF == 2047 * HIDDEN;
  }

  /** nearest(rational(w)) = w for every finite word, the sign of zero carried by its flag. */
  lemma NearestOfRational(bits: Word)
    requires Finite(bits)
    ensures Nearest(Rational(bits), bits >= SIGN) == bits
  {
    hide Value;
    FiniteFields(bits);
    NearestOfValue(bits % SIGN);
    ValueNonnegative(bits % SIGN);
  }

  lemma NearestIsWord(value: real, negativeZero: bool)
    ensures Nearest(value, negativeZero) < 2 * SIGN
    ensures Nearest(value, negativeZero) % SIGN == NearestMagnitude(Abs(value))
    ensures Nearest(value, negativeZero) >= SIGN <==> value < 0.0 || (value == 0.0 && negativeZero)
  {
    hide NearestMagnitude, IsNearest;
    NearestMagnitudeCorrect(Abs(value));
    var m := NearestMagnitude(Abs(value));
    assert m < SIGN;
    assert (SIGN + m) % SIGN == m;
  }

  /** Rounding is monotone on signed numbers. */
  lemma NearestOrder(a: real, b: real, za: bool, zb: bool)
    requires a <= b
    requires Finite(SignedNearest(a, za)) && Finite(SignedNearest(b, zb))
    ensures Rational(SignedNearest(a, za)) <= Rational(SignedNearest(b, zb))
  {
    hide Value;
    var ma, mb := NearestMagnitude(Abs(a)), NearestMagnitude(Abs(b));
    NearestIsWord(a, za);
    NearestIsWord(b, zb);
    ValueNonnegative(ma);
    ValueNonnegative(mb);
    if a >= 0.0 {
      NearestMagnitudeMonotone(a, b);
      ValueOrder(mb, ma);
      ValueZero();
      NearestOfValue(0);
    } else if b < 0.0 {
      NearestMagnitudeMonotone(-b, -a);
      ValueOrder(ma, mb);
    } else {
      ValueZero();
      NearestOfValue(0);
    }
  }

  function SignedNearest(value: real, negativeZero: bool): (w: Word) {
    NearestIsWord(value, negativeZero);
    Nearest(value, negativeZero)
  }

  /** The loop of `nearest`. */
  method RoundToNearest(value: real, negativeZero: bool) returns (bits: Word)
    ensures bits == Nearest(value, negativeZero)
  {
    hide Value, Exp2;
    NearestIsWord(value, negativeZero);
    var v := Abs(value);
    var sign := if value < 0.0 || (value == 0.0 && negativeZero) then SIGN else 0;
    if v >= Threshold() {
      return sign + INF;
    }
    var lo, hi := 0, MAX;
    while lo < hi
      invariant 0 <= lo <= hi <= MAX
      invariant FloorWord(v, lo, hi) == FloorWord(v, 0, MAX)
      decreases hi - lo
    {
      var mid := (lo + hi + 1) / 2;
      if Value(mid) <= v {
        lo := mid;
      } else {
        hi := mid - 1;
      }
    }
    if lo == MAX || Value(lo) == v {
      return sign + lo;
    }
    var upper := lo + 1;
    var distance := v - (Value(lo) + Value(upper)) / 2.0;
    return sign + (if distance < 0.0 || (distance == 0.0 && lo % 2 == 0) then lo else upper);
  }
}
