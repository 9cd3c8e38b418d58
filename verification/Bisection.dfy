/**
 Internal rates of return by bisection, periodic and dated, over exact reals: the present-value
 sums and the fixed-bracket search.

 The power is a parameter, of which only the laws named below are used. The binary64 finiteness
 checks have no counterpart in exact arithmetic.
 */
module Bisection {
  import opened Common

  datatype Flow = Flow(amount: real, time: real)

  // ----- Present values -----

  function Growth(pow: (real, real) -> real, rate: real, n: nat): real {
    pow(1.0 + rate, n as real)
  }

  /** Amounts at whole periods, each divided by its growth. */
  function PeriodicValue(pow: (real, real) -> real, rate: real, amounts: seq<real>): real {
    if amounts == [] then 0.0
    else
      var n := |amounts| - 1;
      var growth := Growth(pow, rate, n);
      PeriodicValue(pow, rate, amounts[..n]) + if growth == 0.0 then 0.0 else amounts[n] / growth
  }

  method PeriodicNpv(pow: (real, real) -> real, rate: real, amounts: seq<real>) returns (total: real)
    requires forall n: nat :: n < |amounts| ==> Growth(pow, rate, n) != 0.0
    ensures total == PeriodicValue(pow, rate, amounts)
  {
    var base := 1.0 + rate;
    total := 0.0;
    for n := 0 to |amounts|
      invariant total == PeriodicValue(pow, rate, amounts[..n])
    {
      assert amounts[..n + 1][..n] == amounts[..n];
      assert pow(base, n as real) == Growth(pow, rate, n);
      total := total + amounts[n] / pow(base, n as real);
    }
    assert amounts[..|amounts|] == amounts;
  }

  /** Dated amounts, each multiplied by its discount. */
  function DatedValue(pow: (real, real) -> real, rate: real, flows: seq<Flow>): real {
    if flows == [] then 0.0
    else
      var last := flows[|flows| - 1];
      DatedValue(pow, rate, flows[..|flows| - 1]) + Discounted(pow, rate, last)
  }

  function Discounted(pow: (real, real) -> real, rate: real, f: Flow): real {
    f.amount * pow(1.0 + rate, -f.time)
  }

  /** The dated sum, refused for rates at or below minus one. */
  method Xnpv(pow: (real, real) -> real, rate: real, flows: seq<Flow>) returns (ok: bool, total: real)
    ensures ok <==> rate > -1.0
    ensures ok ==> total == DatedValue(pow, rate, flows)
  {
    hide Discounted;
    total := 0.0;
    ok := rate > -1.0;
    if ok {
      for n := 0 to |flows|
        invariant total == DatedValue(pow, rate, flows[..n])
      {
        assert flows[..n + 1][..n] == flows[..n];
        total := total + Discounted(pow, rate, flows[n]);
      }
      assert flows[..|flows|] == flows;
    }
  }

  // ----- The search -----

  const LOW: real := -0.999
  const HIGH: real := 10.0
  const RESIDUAL: real := 0.000000001
  const WIDTH: real := 0.000000000001

  datatype Answer = Rate(rate: real) | NoBracket | Exhausted

  /** f changes sign between the ends of an interval inside the fixed bracket. */
  ghost predicate Bracket(f: real -> real, lo: real, hi: real) {
    LOW <= lo < hi <= HIGH && f(lo) * f(hi) < 0.0
  }

  /** The width of the bracket after k halvings. */
  function Width(k: nat): real {
    if k == 0 then HIGH - LOW else Width(k - 1) / 2.0
  }

  lemma {:induction false} WidthOf(k: nat, m: nat)
    ensures Width(k + m) * Twice(m) == Width(k)
  {
    if m > 0 {
      WidthOf(k, m - 1);
      assert k + m - 1 == k + (m - 1);
      HalfTwice(Width(k + (m - 1)), Twice(m - 1));
    }
  }

  function Twice(m: nat): real {
    if m == 0 then 1.0 else 2.0 * Twice(m - 1)
  }

  lemma HalfTwice(a: real, b: real)
    ensures (a / 2.0) * (2.0 * b) == a * b
  {
  }

  lemma TwiceEleven()
    ensures Twice(11) == 2048.0
  {
    assert Twice(5) == 32.0;
    assert Twice(8) == 256.0;
  }

  /** Forty-three halvings leave a half-width under the tolerance, and forty-two do not. */
  lemma WidthsAtEnd()
    ensures Width(43) / 2.0 < WIDTH && Width(42) / 2.0 >= WIDTH
  {
    TwiceEleven();
    WidthOf(0, 11);
    WidthOf(11, 11);
    WidthOf(22, 11);
    WidthOf(33, 9);
    assert Twice(9) == 512.0;
    assert Width(0) == 10.999;
    assert Width(43) == Width(42) / 2.0;
    hide Width, Twice;
    assert Width(11) * 2048.0 == 10.999;
    assert Width(22) * 2048.0 == Width(11);
    assert Width(33) * 2048.0 == Width(22);
    assert Width(42) * 512.0 == Width(33);
  }

  lemma {:induction false} WidthsFall(j: nat, k: nat)
    requires j <= k
    ensures 0.0 < Width(k) <= Width(j)
  {
    if j < k {
      WidthsFall(j, k - 1);
    } else if k > 0 {
      WidthsFall(k - 1, k - 1);
    }
  }

  /** Halving a sign change keeps one half with a sign change. */
  lemma HalfBracket(f: real -> real, lo: real, hi: real)
    requires Bracket(f, lo, hi) && f((lo + hi) / 2.0) != 0.0
    ensures var mid := (lo + hi) / 2.0;
            if f(lo) * f(mid) < 0.0 then Bracket(f, lo, mid) else Bracket(f, mid, hi)
  {
    SignsOfProduct(f(lo), f(hi));
    SignsOfProduct(f(lo), f((lo + hi) / 2.0));
    SignsOfProduct(f((lo + hi) / 2.0), f(hi));
  }

  lemma SignsOfProduct(a: real, b: real)
    ensures a * b < 0.0 <==> (a < 0.0 && b > 0.0) || (a > 0.0 && b < 0.0)
    ensures a * b > 0.0 <==> (a < 0.0 && b < 0.0) || (a > 0.0 && b > 0.0)
  {
  }

  /** What a rate found by halving is: a small residual, or the middle of a narrow sign change. */
  ghost predicate Found(f: real -> real, rate: real) {
    || f(rate) == 0.0
    || Abs(f(rate)) < RESIDUAL
    || exists lo: real, hi: real :: Middle(f, lo, hi, rate)
  }

  ghost predicate Middle(f: real -> real, lo: real, hi: real, rate: real) {
    Bracket(f, lo, hi) && rate == (lo + hi) / 2.0 && (hi - lo) / 2.0 < WIDTH
  }

  /**
   Bisection in exact arithmetic: refused exactly when the ends have values of one sign, never
   exhausted, and done within 44 of its 200 steps.
   */
  method Bisect(f: real -> real) returns (answer: Answer, steps: nat)
    ensures answer == NoBracket <==> f(LOW) * f(HIGH) > 0.0
    ensures answer != Exhausted && steps <= 44
    ensures answer.Rate? ==> LOW <= answer.rate <= HIGH && Found(f, answer.rate)
    ensures answer.Rate? && steps > 0 && Abs(f(answer.rate)) >= RESIDUAL ==> steps == 44
  {
    steps := 0;
    var lo, hi := LOW, HIGH;
    var flo, fhi := f(lo), f(hi);
    if flo * fhi > 0.0 {
      return NoBracket, steps;
    }
    SignsOfProduct(flo, fhi);
    if flo == 0.0 {
      return Rate(lo), steps;
    }
    if fhi == 0.0 {
      return Rate(hi), steps;
    }
    WidthsAtEnd();
    assert Width(0) == hi - lo;
    while steps < 200
      invariant steps <= 43 && flo == f(lo) && Bracket(f, lo, hi) && hi - lo == Width(steps)
      decreases 200 - steps
    {
      var mid := (lo + hi) / 2.0;
      var residual := f(mid);
      steps := steps + 1;
      if Abs(residual) < RESIDUAL || (hi - lo) / 2.0 < WIDTH {
        Stopped(f, lo, hi, steps);
        return Rate(mid), steps;
      }
      HalfBracket(f, lo, hi);
      StillWide(steps - 1);
      if flo * residual < 0.0 {
        hi := mid;
      } else {
        lo, flo := mid, residual;
      }
    }
    return Exhausted, steps;
  }

  lemma StillWide(k: nat)
    requires k <= 43 && Width(k) / 2.0 >= WIDTH
    ensures k <= 42
  {
    WidthsAtEnd();
    hide Width;
  }

  lemma Stopped(f: real -> real, lo: real, hi: real, steps: nat)
    requires 0 < steps <= 44 && Bracket(f, lo, hi) && hi - lo == Width(steps - 1)
    requires Abs(f((lo + hi) / 2.0)) < RESIDUAL || (hi - lo) / 2.0 < WIDTH
    ensures Found(f, (lo + hi) / 2.0)
    ensures Abs(f((lo + hi) / 2.0)) >= RESIDUAL ==> steps == 44
  {
    var mid := (lo + hi) / 2.0;
    if Abs(f(mid)) >= RESIDUAL {
      assert Middle(f, lo, hi, mid);
      if steps <= 43 {
        WidthsFall(steps - 1, 42);
        WidthsAtEnd();
      }
    }
    hide Width;
  }

  /** Both signs are required before a dated search starts. */
  method Xirr(pow: (real, real) -> real, flows: seq<Flow>) returns (answer: Answer, steps: nat)
    ensures var f := (rate: real) => DatedValue(pow, rate, flows);
            && (answer == NoBracket <==> !BothSigns(flows) || f(LOW) * f(HIGH) > 0.0)
            && answer != Exhausted && steps <= 44
            && (answer.Rate? ==> LOW <= answer.rate <= HIGH && Found(f, answer.rate))
  {
    hide DatedValue, Found;
    if !BothSigns(flows) {
      return NoBracket, 0;
    }
    answer, steps := Bisect((rate: real) => DatedValue(pow, rate, flows));
  }

  predicate BothSigns(flows: seq<Flow>) {
    (exists k :: 0 <= k < |flows| && flows[k].amount < 0.0) && (exists k :: 0 <= k < |flows| && flows[k].amount > 0.0)
  }

  method PeriodicIrr(pow: (real, real) -> real, amounts: seq<real>) returns (answer: Answer, steps: nat)
    ensures var f := (rate: real) => PeriodicValue(pow, rate, amounts);
            && (answer == NoBracket <==> f(LOW) * f(HIGH) > 0.0)
            && answer != Exhausted && steps <= 44
            && (answer.Rate? ==> LOW <= answer.rate <= HIGH && Found(f, answer.rate))
  {
    hide PeriodicValue, Found;
    answer, steps := Bisect((rate: real) => PeriodicValue(pow, rate, amounts));
  }

  // ----- Nearness to a true root -----

  /** The laws used of the power on positive bases. */
  ghost predicate Lawful(pow: (real, real) -> real) {
    && (forall b :: b > 0.0 ==> pow(b, 0.0) == 1.0)
    && (forall b, t :: b > 0.0 ==> pow(b, t) > 0.0)
    && (forall b, c, u :: 0.0 < b < c && u < 0.0 ==> pow(c, u) < pow(b, u))
  }

  /** Money goes out at the anchor and comes in later. */
  predicate Conventional(flows: seq<Flow>) {
    && (forall k :: 0 <= k < |flows| ==> if flows[k].amount < 0.0 then flows[k].time == 0.0 else flows[k].time >= 0.0)
    && (exists k :: 0 <= k < |flows| && flows[k].amount > 0.0 && flows[k].time > 0.0)
  }

  lemma TermFalls(pow: (real, real) -> real, f: Flow, r: real, s: real)
    requires Lawful(pow) && -1.0 < r < s && (if f.amount < 0.0 then f.time == 0.0 else f.time >= 0.0)
    ensures Discounted(pow, s, f) <= Discounted(pow, r, f)
    ensures f.amount > 0.0 && f.time > 0.0 ==> Discounted(pow, s, f) < Discounted(pow, r, f)
  {
    var minus := -f.time;
    if f.time == 0.0 {
      assert minus == 0.0;
      assert pow(1.0 + r, minus) == 1.0 && pow(1.0 + s, minus) == 1.0;
    } else {
      assert pow(1.0 + s, -f.time) < pow(1.0 + r, -f.time);
      hide Lawful;
      TermOrder(f.amount, pow(1.0 + s, -f.time), pow(1.0 + r, -f.time));
    }
  }

  lemma TermOrder(a: real, x: real, y: real)
    requires a >= 0.0 && x < y
    ensures a * x <= a * y && (a > 0.0 ==> a * x < a * y)
  {
  }

  lemma {:induction false} ValueFalls(pow: (real, real) -> real, flows: seq<Flow>, r: real, s: real)
    requires Lawful(pow) && -1.0 < r < s
    requires forall k :: 0 <= k < |flows| ==> if flows[k].amount < 0.0 then flows[k].time == 0.0
             else flows[k].time >= 0.0
    ensures DatedValue(pow, s, flows) <= DatedValue(pow, r, flows)
    ensures (exists k :: 0 <= k < |flows| && flows[k].amount > 0.0 && flows[k].time > 0.0) ==>
              DatedValue(pow, s, flows) < DatedValue(pow, r, flows)
  {
    hide Lawful, Discounted;
    if flows != [] {
      ValueFalls(pow, flows[..|flows| - 1], r, s);
      TermFalls(pow, flows[|flows| - 1], r, s);
    }
  }

  /**
   For a conventional investment the rate returned is within the width tolerance of its true
   internal rate of return, unless the search stopped on a small residual.
   */
  lemma NearTrueRate(pow: (real, real) -> real, flows: seq<Flow>, rate: real, root: real)
    requires Lawful(pow) && Conventional(flows) && LOW <= root <= HIGH && LOW <= rate <= HIGH
    requires DatedValue(pow, root, flows) == 0.0 && Found((r: real) => DatedValue(pow, r, flows), rate)
    ensures Abs(rate - root) < 0.000000000001 || Abs(DatedValue(pow, rate, flows)) < 0.000000001
  {
    var f := (r: real) => DatedValue(pow, r, flows);
    if Abs(f(rate)) >= RESIDUAL {
      var lo, hi :| Middle(f, lo, hi, rate);
      RootInside(pow, flows, lo, hi, root);
    }
  }

  lemma RootInside(pow: (real, real) -> real, flows: seq<Flow>, lo: real, hi: real, root: real)
    requires Lawful(pow) && Conventional(flows) && LOW <= root <= HIGH && DatedValue(pow, root, flows) == 0.0
    requires Bracket((r: real) => DatedValue(pow, r, flows), lo, hi)
    ensures lo < root < hi
  {
    hide Lawful, DatedValue, Discounted;
    SignsOfProduct(DatedValue(pow, lo, flows), DatedValue(pow, hi, flows));
    if root <= lo {
      if root < lo {
        ValueFalls(pow, flows, root, lo);
      }
      ValueFalls(pow, flows, lo, hi);
    } else if root >= hi {
      ValueFalls(pow, flows, lo, hi);
      if root > hi {
        ValueFalls(pow, flows, hi, root);
      }
    }
  }

  // ----- What the present values mean -----

  /** Growing over a time and shrinking over it cancel. */
  ghost predicate Undoes(pow: (real, real) -> real) {
    forall b, t :: b > 0.0 ==> pow(b, t) * pow(b, -t) == 1.0
  }

  /** An amount repaid with its growth at a rate has that rate as internal rate: its value there is zero. */
  lemma GrowthIsRate(pow: (real, real) -> real, rate: real, amount: real, time: real)
    requires Lawful(pow) && Undoes(pow) && rate > -1.0
    ensures DatedValue(pow, rate, [Flow(-amount, 0.0), Flow(amount * pow(1.0 + rate, time), time)]) == 0.0
  {
    var base := 1.0 + rate;
    var first, last := Flow(-amount, 0.0), Flow(amount * pow(base, time), time);
    TwoFlows(pow, rate, first, last);
    assert -first.time == 0.0;
    assert pow(base, time) * pow(base, -time) == 1.0;
    Regroup(amount, pow(base, time), pow(base, -time));
  }

  lemma TwoFlows(pow: (real, real) -> real, rate: real, first: Flow, last: Flow)
    ensures DatedValue(pow, rate, [first, last]) == Discounted(pow, rate, first) + Discounted(pow, rate, last)
  {
    assert [first, last][..1] == [first] && [first][..0] == [];
    assert DatedValue(pow, rate, [first]) == Discounted(pow, rate, first);
    hide Discounted;
  }

  lemma Regroup(a: real, x: real, y: real)
    requires x * y == 1.0
    ensures (a * x) * y == a
  {
  }

  /** Amounts one period apart, from time zero. */
  function Spaced(amounts: seq<real>): (flows: seq<Flow>)
    ensures |flows| == |amounts|
  {
    seq(|amounts|, k requires 0 <= k < |amounts| => Flow(amounts[k], k as real))
  }

  /** The periodic sum, which divides by growths, is the dated sum, which multiplies by discounts. */
  lemma {:induction false} PeriodicIsDated(pow: (real, real) -> real, rate: real, amounts: seq<real>)
    requires Lawful(pow) && Undoes(pow) && rate > -1.0
    ensures PeriodicValue(pow, rate, amounts) == DatedValue(pow, rate, Spaced(amounts))
    decreases |amounts|
  {
    if amounts != [] {
      var n := |amounts| - 1;
      PeriodicIsDated(pow, rate, amounts[..n]);
      assert Spaced(amounts)[..n] == Spaced(amounts[..n]);
      var growth := Growth(pow, rate, n);
      assert growth == pow(1.0 + rate, n as real) > 0.0;
      assert growth * pow(1.0 + rate, -(n as real)) == 1.0;
      Divided(amounts[n], growth, pow(1.0 + rate, -(n as real)));
    }
  }

  lemma Divided(a: real, x: real, y: real)
    requires x > 0.0 && x * y == 1.0
    ensures a / x == a * y
  {
    assert y == 1.0 / x;
  }
}
