/**
 The restoring square root on 32-bit words: normalisation, one result bit per step in two
 loops with explicit carry and borrow, rounding of the 54-bit digit string, reassembly.
 Words are integers; the signed and unsigned 32-bit reductions are written out.
 */
module Fdlibm {
  import opened Binary64

  const W: int := 0x1_0000_0000
  const HALF: int := 0x8000_0000
  const MASK: int := 0xffff_ffff
  const TINY: nat := 0x01a5_6e1f_c2f8_f359

  function U32(v: int): (w: nat)
    ensures w < W
  {
    v % W
  }

  function S32(v: int): (w: int)
    ensures -HALF <= w < HALF
  {
    var u := U32(v);
    if u >= HALF then u - W else u
  }

  lemma U32Exact(v: int)
    requires 0 <= v < W
    ensures U32(v) == v
  {
  }

  lemma S32Exact(v: int)
    requires -HALF <= v < HALF
    ensures S32(v) == v
  {
    if v < 0 {
      assert (v + W) % W == v + W;
    }
  }

  /** Bitwise or of natural numbers. */
  function Or(a: nat, b: nat): nat {
    if a == 0 && b == 0 then 0
    else 2 * Or(a / 2, b / 2) + (if a % 2 == 1 || b % 2 == 1 then 1 else 0)
  }

  /** Two words with no common bit: or is addition. */
  lemma {:induction false} OrDisjoint(a: nat, k: nat, b: nat)
    requires b < Pow2(k)
    ensures Or(a * Pow2(k), b) == a * Pow2(k) + b
    ensures Or(b, a * Pow2(k)) == a * Pow2(k) + b
  {
    var c := a * Pow2(k);
    if k == 0 {
      assert c == a && b == 0;
      OrZero(a);
    } else {
      assert c == 2 * (a * Pow2(k - 1));
      OrDisjoint(a, k - 1, b / 2);
    }
  }

  lemma OrZero(a: nat)
    ensures Or(a, 0) == a && Or(0, a) == a
  {
  }

  // ----- The restoring digit recurrence -----

  /**
   `root` holds the digits found so far, all multiples of `unit`; `rest` is the shifted remainder
   that the two words carry.
   */
  ghost predicate Restoring(target: nat, root: nat, unit: nat, rest: nat) {
    && rest * unit == 2 * (target - root * root)
    && root * root <= target < (root + unit) * (root + unit)
  }

  /** One digit: subtract 2*root + p exactly when the digit fits, then shift the remainder. */
  lemma RestoringStep(target: nat, root: nat, p: nat, rest: nat)
    requires p > 0 && Restoring(target, root, 2 * p, rest)
    ensures 2 * root + p <= rest ==> Restoring(target, root + p, p, 2 * (rest - (2 * root + p)))
    ensures 2 * root + p > rest ==> Restoring(target, root, p, 2 * rest)
  {
    var trial := 2 * root + p;
    HalvedUnit(target, root, p, rest);
    SquareOfSum(root, p);
    if trial <= rest {
      Scale(trial, rest, p);
      TakenDigit(target, root, p, rest, trial);
    } else {
      ScaleStrict(rest, trial, p);
      SkippedDigit(target, root, p, rest);
    }
  }

  lemma HalvedUnit(target: nat, root: nat, p: nat, rest: nat)
    requires Restoring(target, root, 2 * p, rest)
    ensures rest * p == target - root * root
  {
    assert rest * (2 * p) == 2 * (rest * p);
  }

  lemma SquareOfSum(root: nat, p: nat)
    ensures (root + p) * (root + p) == root * root + (2 * root + p) * p
  {
  }

  lemma TakenDigit(target: nat, root: nat, p: nat, rest: nat, trial: nat)
    requires Restoring(target, root, 2 * p, rest) && trial <= rest
    requires rest * p == target - root * root
    requires (root + p) * (root + p) == root * root + trial * p
    requires trial * p <= rest * p
    ensures Restoring(target, root + p, p, 2 * (rest - trial))
  {
    DoubledProduct(rest, trial, p);
    assert root + p + p == root + 2 * p;
  }

  lemma DoubledProduct(a: int, b: int, p: int)
    ensures (2 * (a - b)) * p == 2 * (a * p) - 2 * (b * p)
  {
  }

  lemma SkippedDigit(target: nat, root: nat, p: nat, rest: nat)
    requires Restoring(target, root, 2 * p, rest)
    requires rest * p == target - root * root
    requires target < (root + p) * (root + p)
    ensures Restoring(target, root, p, 2 * rest)
  {
    DoubledProduct(rest, 0, p);
  }

  lemma Scale(a: nat, b: nat, p: nat)
    requires a <= b
    ensures a * p <= b * p
  {
  }

  lemma ScaleStrict(a: nat, b: nat, p: nat)
    requires a < b && p > 0
    ensures a * p < b * p
  {
  }

  lemma RestoringBound(target: nat, root: nat, unit: nat, rest: nat)
    requires unit > 0 && Restoring(target, root, unit, rest)
    ensures rest < 4 * root + 2 * unit
  {
    assert (root + unit) * (root + unit) == root * root + 2 * (root * unit) + unit * unit;
    assert (4 * root + 2 * unit) * unit == 4 * (root * unit) + 2 * (unit * unit);
    if rest >= 4 * root + 2 * unit {
      Scale(4 * root + 2 * unit, rest, unit);
    }
  }

  /** ix0 + (ix0 + (ix1 >> 31)) and ix1 + ix1: the two-word remainder doubled. */
  method Double(ix0: int, ix1: nat) returns (high: int, low: nat)
    requires 0 <= ix0 < HALF / 2 && ix1 < W
    ensures 0 <= high && low < W
    ensures high * W + low == 2 * (ix0 * W + ix1)
  {
    high, low := S32(ix0 + (ix0 + ix1 / HALF)), U32(ix1 + ix1);
    S32Exact(2 * ix0 + ix1 / HALF);
    hide S32;
  }

  /** The 22 high digits: bits 21..0 of q, compared on the upper word alone. */
  method HighDigits(i0: int, i1: nat, ghost target: nat) returns (ix0: int, ix1: nat, q: nat, s0: int)
    requires 0 <= i0 && i1 < W
    requires Restoring(target, 0, Pow2(22) * W, i0 * W + i1)
    ensures 0 <= ix0 && ix1 < W && q < Pow2(22) && s0 == 2 * q
    ensures Restoring(target, q * W, W, ix0 * W + ix1)
  {
    hide Restoring, Pow2;
    ix0, ix1, q, s0 := i0, i1, 0, 0;
    for bit := 22 downto 0
      invariant 0 <= ix0 && ix1 < W
      invariant s0 == 2 * q && q + Pow2(bit) <= Pow2(22)
      invariant Restoring(target, q * W, Pow2(bit) * W, ix0 * W + ix1)
    {
      var moving := Pow2(bit);
      HighBounds(target, q, bit, ix0, ix1);
      ghost var rest := ix0 * W + ix1;
      RestoringStep(target, q * W, moving * W, rest);
      var trial := S32(s0 + moving);
      S32Exact(s0 + moving);
      if trial <= ix0 {
        S32Exact(trial + moving);
        S32Exact(ix0 - trial);
        S32Exact(q + moving);
        s0 := S32(trial + moving);
        ix0 := S32(ix0 - trial);
        q := S32(q + moving);
      }
      ix0, ix1 := Double(ix0, ix1);
    }
    Pow2Small();
  }

  lemma Pow2Small()
    ensures Pow2(0) == 1 && Pow2(20) == 0x10_0000 && Pow2(22) == 0x40_0000 && Pow2(32) == W && Pow2(31) == HALF
    ensures Pow2(54) == 4 * HIDDEN
  {
    Pow2Sum(20, 2);
    Pow2Sum(22, 9);
    Pow2Sum(22, 32);
  }

  lemma HighBounds(target: nat, q: nat, bit: nat, ix0: int, ix1: nat)
    requires bit < 22 && ix0 >= 0 && q + Pow2(bit + 1) <= Pow2(22)
    requires Restoring(target, q * W, Pow2(bit + 1) * W, ix0 * W + ix1)
    ensures Pow2(bit + 1) == 2 * Pow2(bit) && 1 <= Pow2(bit) <= Pow2(22) == 0x40_0000
    ensures ix0 < HALF / 2 && q <= Pow2(22)
    ensures Pow2(bit + 1) * W == 2 * (Pow2(bit) * W)
  {
    RestoringBound(target, q * W, Pow2(bit + 1) * W, ix0 * W + ix1);
    Pow2Small();
    hide Restoring;
  }

  /** What the low loop keeps about its five words before it tries bit `bit` - 1. */
  ghost predicate LowState(target: nat, q: nat, q1: nat, s0: int, s1: nat, bit: nat) {
    && q < Pow2(22) && q1 + Pow2(bit) <= W && s1 < W
    && s0 * W + s1 == 2 * (q * W + q1)
    && (bit < 32 ==> s1 + 2 * Pow2(bit) <= W)
    && (bit == 32 ==> s1 == 0)
  }

  /** The 32 low digits: bits 31..0 of q1, with carry into s0 and borrow from ix0. */
  method LowDigits(i0: int, i1: nat, q: nat, t0: int, ghost target: nat) returns (ix0: int, ix1: nat, q1: nat)
    requires 0 <= i0 && i1 < W && q < Pow2(22) && t0 == 2 * q
    requires Restoring(target, q * W, W, i0 * W + i1)
    ensures 0 <= ix0 && ix1 < W && q1 < W
    ensures Restoring(target, q * W + q1, 1, ix0 * W + ix1)
  {
    hide Restoring, Pow2, S32, U32, LowState;
    Pow2Small();
    LowStateEnds(target, q, 0, t0, 0);
    ix0, ix1, q1 := i0, i1, 0;
    var s0: int, s1: nat := t0, 0;
    for bit := 32 downto 0
      invariant 0 <= ix0 && ix1 < W && bit <= 32
      invariant LowState(target, q, q1, s0, s1, bit)
      invariant Restoring(target, q * W + q1, Pow2(bit), ix0 * W + ix1)
    {
      var moving := Pow2(bit);
      LowBounds(target, q, q1, s0, s1, bit, ix0, ix1);
      RestoringStep(target, q * W + q1, moving, ix0 * W + ix1);
      var trialLow := U32(s1 + moving);
      var trialHigh := s0;
      U32Exact(s1 + moving);
      TwoWordOrder(trialHigh, trialLow, ix0, ix1);
      SkippedDigitState(target, q, q1, s0, s1, bit);
      if trialHigh < ix0 || (trialHigh == ix0 && trialLow <= ix1) {
        TakenDigitState(target, q, q1, s0, s1, bit);
        s1 := U32(trialLow + moving);
        if trialLow >= HALF && s1 < HALF {
          s0 := S32(s0 + 1);
        }
        ix0, ix1 := Subtract(ix0, ix1, trialHigh, trialLow);
        q1 := U32(q1 + moving);
      }
      ix0, ix1 := Double(ix0, ix1);
    }
    LowStateEnds(target, q, q1, s0, s1);
  }

  lemma LowStateEnds(target: nat, q: nat, q1: nat, s0: int, s1: nat)
    ensures q < Pow2(22) && s0 == 2 * q && q1 == 0 && s1 == 0 ==> LowState(target, q, q1, s0, s1, 32)
    ensures LowState(target, q, q1, s0, s1, 0) ==> q1 < W
  {
    Pow2Small();
    hide Pow2;
  }

  /** Two-word subtraction with an explicit borrow. */
  method Subtract(a0: int, a1: nat, b0: int, b1: nat) returns (high: int, low: nat)
    requires 0 <= b0 <= a0 < HALF && a1 < W && b1 < W
    requires b0 == a0 ==> b1 <= a1
    ensures 0 <= high && low < W
    ensures high * W + low == (a0 * W + a1) - (b0 * W + b1)
  {
    high := S32(a0 - b0);
    if a1 < b1 {
      high := S32(high - 1);
    }
    low := U32(a1 - b1);
  }

  lemma TwoWordOrder(a0: int, a1: nat, b0: int, b1: nat)
    requires a1 < W && b1 < W
    ensures a0 < b0 || (a0 == b0 && a1 <= b1) <==> a0 * W + a1 <= b0 * W + b1
  {
  }

  lemma LowBounds(target: nat, q: nat, q1: nat, s0: int, s1: nat, bit: nat, ix0: int, ix1: nat)
    requires bit < 32 && 0 <= ix0
    requires LowState(target, q, q1, s0, s1, bit + 1)
    requires Restoring(target, q * W + q1, Pow2(bit + 1), ix0 * W + ix1)
    ensures Pow2(bit + 1) == 2 * Pow2(bit) && 1 <= Pow2(bit) <= HALF
    ensures ix0 < HALF / 2 && 0 <= s0 < HALF - 1
    ensures s1 + Pow2(bit) < W
    ensures s0 * W + (s1 + Pow2(bit)) == 2 * (q * W + q1) + Pow2(bit)
  {
    RestoringBound(target, q * W + q1, Pow2(bit + 1), ix0 * W + ix1);
    Pow2Small();
    Pow2Bound(bit, 31);
    hide Restoring, Pow2;
  }

  lemma {:induction false} Pow2Bound(a: nat, b: nat)
    requires a <= b
    ensures Pow2(a) <= Pow2(b)
  {
    if a < b {
      Pow2Bound(a, b - 1);
    }
  }

  lemma SkippedDigitState(target: nat, q: nat, q1: nat, s0: int, s1: nat, bit: nat)
    requires bit < 32 && LowState(target, q, q1, s0, s1, bit + 1)
    requires Pow2(bit + 1) == 2 * Pow2(bit) && 1 <= Pow2(bit) <= HALF
    ensures LowState(target, q, q1, s0, s1, bit)
  {
    hide Pow2;
  }

  /** Taking a digit keeps the words in step; only the first one, at bit 31, carries. */
  lemma TakenDigitState(target: nat, q: nat, q1: nat, s0: int, s1: nat, bit: nat)
    requires bit < 32 && LowState(target, q, q1, s0, s1, bit + 1)
    requires Pow2(bit + 1) == 2 * Pow2(bit) && 1 <= Pow2(bit) <= HALF && s1 + Pow2(bit) < W
    requires 0 <= s0 < HALF - 1
    ensures var low := s1 + Pow2(bit);
            var t1 := U32(low + Pow2(bit));
            var t0 := if low >= HALF && t1 < HALF then S32(s0 + 1) else s0;
            LowState(target, q, U32(q1 + Pow2(bit)), t0, t1, bit)
    ensures U32(q1 + Pow2(bit)) == q1 + Pow2(bit)
  {
    S32Exact(s0 + 1);
    U32Exact(q1 + Pow2(bit));
    if bit == 31 {
      Pow2Small();
      assert U32(W) == 0;
    } else {
      U32Exact(s1 + 2 * Pow2(bit));
    }
    hide Pow2, S32, U32;
  }

  // ----- Normalisation -----

  const BIT20: int := 0x10_0000

  /**
   Bring the significand to [2^52, 2^53). A subnormal needs at most two whole-word transfers and
   twenty single shifts; `shifts` is their total effect on the exponent.
   */
  method Normalise(i0: int, i1: nat) returns (ix0: int, ix1: nat, exponent: int, ghost shifts: nat)
    requires 0 <= i0 < 0x7ff0_0000 && i1 < W && (i0 != 0 || i1 != 0)
    ensures BIT20 <= ix0 < 2 * BIT20 && ix1 < W
    ensures ix0 * W + ix1 == Significand(i0 * W + i1) * Pow2(shifts)
    ensures exponent == Place(i0 * W + i1) + 1075 - shifts && shifts <= 2 * 21 + 20
  {
    ix0, ix1, exponent, shifts := i0, i1, i0 / BIT20, 0;
    FieldsOf(i0, i1);
    Pow2Zero();
    hide Pow2, Or, Significand, Place;
    if exponent == 0 {
      ix0, ix1, exponent, shifts := NormaliseSubnormal(ix0, ix1);
    }
    LeadingBit(ix0 % BIT20);
    ix0 := Or(ix0 % BIT20, BIT20);
  }

  method NormaliseSubnormal(i0: int, i1: nat) returns (ix0: int, ix1: nat, exponent: int, ghost shifts: nat)
    requires 0 <= i0 < BIT20 && i1 < W && (i0 != 0 || i1 != 0)
    ensures BIT20 <= ix0 < 2 * BIT20 && ix1 < W
    ensures ix0 * W + ix1 == (i0 * W + i1) * Pow2(shifts)
    ensures exponent == 1 - shifts && shifts <= 2 * 21 + 20
  {
    hide Pow2;
    ghost var transfers;
    ix0, ix1, exponent, transfers := Transfer(i0, i1);
    var count;
    ix0, ix1, count := ShiftUp(ix0, ix1);
    exponent := exponent - (count as int - 1);
    shifts := 21 * transfers + count;
    Pow2Sum(21 * transfers, count);
    Regroup(i0 * W + i1, Pow2(21 * transfers), Pow2(count));
  }

  lemma Regroup(a: nat, b: nat, c: nat)
    ensures a * b * c == a * (b * c)
  {
  }

  lemma FieldsOf(i0: int, i1: nat)
    requires 0 <= i0 && i1 < W
    ensures var m := i0 * W + i1;
            && m / HIDDEN == i0 / BIT20
            && Significand(m) == (if i0 / BIT20 == 0 then i0 else BIT20 + i0 % BIT20) * W + i1
            && Place(m) == (if i0 / BIT20 == 0 then 1 else i0 / BIT20) - 1075
  {
    var m := i0 * W + i1;
    var e, t := i0 / BIT20, (i0 % BIT20) * W + i1;
    assert m == e * HIDDEN + t && 0 <= t < HIDDEN;
  }

  lemma LeadingBit(a: nat)
    requires a < BIT20
    ensures Or(a, BIT20) == a + BIT20
  {
    Pow2Small();
    hide Or, Pow2;
    OrDisjoint(1, 20, a);
  }

  /** While the high word is empty, move 21 bits of the low word into it; two moves always suffice. */
  method Transfer(i0: int, i1: nat) returns (ix0: int, ix1: nat, exponent: int, ghost transfers: nat)
    requires 0 <= i0 < BIT20 && i1 < W && (i0 != 0 || i1 != 0)
    ensures 0 < ix0 < 2 * BIT20 && ix1 < W && transfers <= 2
    ensures ix0 * W + ix1 == (i0 * W + i1) * Pow2(21 * transfers)
    ensures exponent == -21 * transfers
  {
    hide Pow2, Or;
    ghost var m := i0 * W + i1;
    Pow2Zero();
    ix0, ix1, exponent, transfers := i0, i1, 0, 0;
    for pass := 0 to 2
      invariant 0 <= ix0 < 2 * BIT20 && ix1 < W && (ix0 != 0 || ix1 != 0)
      invariant transfers <= pass && exponent == -21 * transfers
      invariant ix0 * W + ix1 == m * Pow2(21 * transfers)
      invariant ix0 == 0 ==> transfers == pass && (pass == 1 ==> ix1 % 0x20_0000 == 0) && pass < 2
    {
      if ix0 != 0 {
        break;
      }
      Pow2Sum(21 * transfers, 21);
      TransferWord(ix1);
      Regroup(m, Pow2(21 * transfers), Pow2(21));
      assert 21 * transfers + 21 == 21 * (transfers + 1);
      exponent := exponent - 21;
      ix0 := Or(ix0, ix1 / 2048);
      ix1 := U32(ix1 * 0x20_0000);
      transfers := transfers + 1;
    }
  }

  lemma Pow2Zero()
    ensures Pow2(0) == 1
  {
  }

  lemma TransferWord(x: nat)
    requires 0 < x < W
    ensures Or(0, x / 2048) == x / 2048 < 2 * BIT20
    ensures (x / 2048) * W + U32(x * 0x20_0000) == x * Pow2(21)
    ensures U32(x * 0x20_0000) % 0x20_0000 == 0
    ensures x % 0x20_0000 == 0 ==> x / 2048 != 0
    ensures x / 2048 == 0 ==> U32(x * 0x20_0000) != 0
  {
    OrZero(x / 2048);
    Pow2Small();
    Pow2Sum(20, 1);
    hide Or;
    var high, low := x / 2048, x % 2048;
    assert x * 0x20_0000 == high * W + low * 0x20_0000;
    assert U32(x * 0x20_0000) == low * 0x20_0000;
  }

  /** Shift one bit at a time until bit 20 of the high word is set, then refill from the low word. */
  method ShiftUp(i0: int, i1: nat) returns (ix0: int, ix1: nat, count: nat)
    requires 0 < i0 < 2 * BIT20 && i1 < W
    ensures count <= 20
    ensures BIT20 <= ix0 < 2 * BIT20 && ix1 < W
    ensures ix0 * W + ix1 == (i0 * W + i1) * Pow2(count)
  {
    hide Pow2, Or;
    Pow2Zero();
    ix0, ix1, count := i0, i1, 0;
    while ix0 / BIT20 % 2 == 0
      invariant 0 < ix0 < 2 * BIT20 && count <= 20
      invariant ix0 == i0 * Pow2(count)
      decreases 2 * BIT20 - ix0
    {
      Pow2Sum(count, 1);
      Pow2One();
      Regroup(i0, Pow2(count), 2);
      S32Exact(2 * ix0);
      ix0 := S32(ix0 * 2);
      count := count + 1;
      CountBound(i0, count);
      assert count <= 20;
    }
    Refill(i0, i1, count);
    ix0 := Or(ix0, U32(ix1) / Pow2(32 - count));
    ix1 := U32(ix1 * Pow2(count));
  }

  lemma Pow2One()
    ensures Pow2(1) == 2
  {
  }

  lemma CountBound(a: nat, count: nat)
    requires a > 0 && a * Pow2(count) < 2 * BIT20
    ensures count <= 20
  {
    if count > 20 {
      Pow2Bound(21, count);
      Pow2Small();
      Pow2Sum(20, 1);
      Pow2One();
      hide Pow2;
      Scale(1, a, Pow2(count));
    }
  }

  /** The vacated low bits of the high word receive the top bits of the low word. */
  lemma Refill(a: nat, x: nat, count: nat)
    requires count <= 20 && x < W && a * Pow2(count) < 2 * BIT20
    ensures var high := Or(a * Pow2(count), x / Pow2(32 - count));
            && high * W + U32(x * Pow2(count)) == (a * W + x) * Pow2(count)
            && a * Pow2(count) <= high
            && (a * Pow2(count) >= BIT20 ==> high < 2 * BIT20)
  {
    hide Or, Pow2;
    var u, v := Pow2(count), Pow2(32 - count);
    Pow2Sum(count, 32 - count);
    Pow2Small();
    SplitWord(x, u, v);
    OrDisjoint(a, count, x / v);
    assert (a * W + x) * u == (a * u) * W + x * u;
    if a * u >= BIT20 {
      MultipleBelow(a, count);
    }
  }

  /** A multiple of 2^count below 2^21 leaves room for a count-bit word. */
  lemma MultipleBelow(a: nat, count: nat)
    requires count <= 20 && a * Pow2(count) < 2 * BIT20
    ensures a * Pow2(count) + Pow2(count) <= 2 * BIT20
  {
    hide Pow2;
    Pow2Sum(count, 21 - count);
    Pow2Sum(20, 1);
    Pow2One();
    Pow2Small();
    var u, v := Pow2(count), Pow2(21 - count);
    if a >= v {
      Scale(v, a, u);
    } else {
      Scale(a + 1, v, u);
    }
  }

  lemma SplitWord(x: nat, u: nat, v: nat)
    requires u > 0 && v > 0 && u * v == W && x < W
    ensures (x / v) < u
    ensures (x / v) * W + U32(x * u) == x * u
  {
    var high, low := x / v, x % v;
    assert x == high * v + low;
    if high >= u {
      Scale(u, high, v);
    }
    assert x * u == high * (u * v) + low * u;
    ScaleStrict(low, v, u);
    RemainderIs(high, low * u);
  }

  lemma RemainderIs(high: nat, r: nat)
    requires r < W
    ensures U32(high * W + r) == r
  {
  }

  // ----- Rounding the 54 digits and putting the word together -----

  datatype Root = NotANumber | Bits(word: nat)

  function Square(x: real): real {
    x * x
  }

  /** The square root of `w` lies strictly between the two rounding midpoints around r. */
  ghost predicate SqrtRounded(w: nat, r: nat) {
    && 0 < r <= MAX
    && 0.0 <= Midpoint(r - 1)
    && Square(Midpoint(r - 1)) < Value(w) < Square(Midpoint(r))
  }

  /** Digits rounded to an even 54-bit number: half of it is the mantissa, nearest to the root. */
  lemma RoundedDigits(target: nat, root: nat, rest: nat, mantissa: nat)
    requires Restoring(target, root, 1, rest)
    requires target % 2 == 0
    requires 2 * mantissa == root + root % 2
    ensures rest == 0 <==> root * root == target
    ensures rest == 0 ==> root % 2 == 0
    ensures mantissa > 0 ==> (2 * mantissa - 1) * (2 * mantissa - 1) < target
    ensures target < (2 * mantissa + 1) * (2 * mantissa + 1)
  {
    Squares(root);
    if root % 2 == 1 {
      OddSquare(root);
      assert 2 * mantissa - 1 == root;
    } else {
      assert 2 * mantissa == root;
    }
    FinalRemainder(target, root, rest);
    hide Restoring;
  }

  lemma FinalRemainder(target: nat, root: nat, rest: nat)
    requires Restoring(target, root, 1, rest)
    ensures rest == 0 <==> root * root == target
    ensures root * root <= target < (root + 1) * (root + 1)
  {
  }

  lemma Squares(n: nat)
    ensures (n + 1) * (n + 1) < (n + 2) * (n + 2)
    ensures n > 0 ==> (n - 1) * (n - 1) < n * n
  {
  }

  lemma OddSquare(n: nat)
    requires n % 2 == 1
    ensures n * n % 2 == 1
  {
    var k := n / 2;
    assert n * n == 2 * (2 * k * k + 2 * k) + 1;
  }

  /** In binary64, 1 - TINY and 1 + TINY both round to 1. */
  lemma ProbeIsOne()
    ensures Finite(ONE) && Finite(TINY)
    ensures SignedNearest(Rational(ONE) - Rational(TINY), false) == ONE
    ensures SignedNearest(Rational(ONE) + Rational(TINY), false) == ONE
    ensures Rational(ONE) == 1.0
  {
    NeighboursOfOne();
    hide Value;
    var t := Value(TINY);
    assert TINY % SIGN == TINY && ONE % SIGN == ONE;
    NearestBetweenMidpoints(1.0 - t, ONE);
    NearestBetweenMidpoints(1.0 + t, ONE);
    hide NearestMagnitude;
  }

  lemma NeighboursOfOne()
    ensures Value(ONE) == 1.0
    ensures 0.0 <= Value(ONE - 1) < 1.0 && 0.0 < Value(TINY)
    ensures (Value(ONE - 1) + 1.0) / 2.0 < 1.0 - Value(TINY)
    ensures 1.0 + Value(TINY) < (1.0 + Value(ONE + 1)) / 2.0
  {
    hide Value, Exp2;
    ExpZero();
    PowerWord(0);
    TinyBelow();
    Exp2Step(-55);
    Exp2Step(-54);
    Exp2Step(-53);
    ValueStep(ONE - 1);
    ValueStep(ONE);
    ValueNonnegative(ONE - 1);
    assert Place(ONE - 1) == -53 && Place(ONE) == -52;
  }

  lemma TinyBelow()
    ensures 0.0 < Value(TINY) < Exp2(-55)
  {
    hide Value, Exp2;
    PowerWord(-55);
    ValueOrder(TINY, (-55 + 1023) * HIDDEN);
    ValueNonnegative(TINY);
  }

  /** The final adjustment of the digit string; `inexact` says that a remainder is left. */
  method RoundDigits(q0: nat, q10: nat, inexact: bool) returns (q: int, q1: nat)
    requires q0 < Pow2(22) && q10 < W
    requires !inexact ==> q10 % 2 == 0
    ensures 0 <= q <= Pow2(22) && q1 < W
    ensures q * W + q1 == (q0 * W + q10) + (q0 * W + q10) % 2
  {
    hide Pow2;
    q, q1 := q0, q10;
    Pow2Small();
    hide S32, SignedNearest, Rational;
    if inexact {
      S32Exact(q + 1);
      ProbeIsOne();
      var probe := SignedNearest(Rational(ONE) - Rational(TINY), false);
      if Rational(probe) >= 1.0 {
        probe := SignedNearest(Rational(ONE) + Rational(TINY), false);
        if q1 == MASK {
          q1 := 0;
          q := S32(q + 1);
        } else if Rational(probe) > 1.0 {
          if q1 == MASK - 1 {
            q := S32(q + 1);
          }
          q1 := U32(q1 + 2);
        } else {
          q1 := U32(q1 + q1 % 2);
        }
      }
    }
  }

  /** Upper and lower result words, joined. */
  method Reassemble(q: nat, q1: nat, exponent: int) returns (word: nat)
    requires q <= Pow2(22) && q1 < W && q1 % 2 == 0
    requires -600 <= exponent <= 512
    ensures word == (q * W + q1) / 2 + (0x3fe + exponent) * HIDDEN
  {
    Pow2Small();
    hide Or, Pow2;
    var ix0 := S32(q / 2 + 0x3fe0_0000);
    S32Exact(q / 2 + 0x3fe0_0000);
    OrDisjoint(1, 31, q1 / 2);
    OrDisjoint(0, 31, q1 / 2);
    var ix1 := Or(q1 / 2, if q % 2 == 1 then HALF else 0);
    S32Exact(ix0 + exponent * BIT20);
    word := Assemble(S32(ix0 + exponent * BIT20), ix1);
  }

  method Assemble(upper: int, lower: nat) returns (word: nat)
    requires 0 <= upper < HALF && lower < W
    ensures word == upper * W + lower
  {
    Pow2Small();
    hide Or, Pow2;
    OrDisjoint(upper, 32, lower);
    word := Or(U32(upper) * W, U32(lower));
  }

  // ----- From digits to numbers -----

  /** n * 2^e. */
  function Units(n: int, e: int): real {
    n as real * Exp2(e)
  }

  lemma UnitsSum(a: int, b: int, e: int)
    ensures Units(a + b, e) == Units(a, e) + Units(b, e)
  {
    hide Exp2;
    var u := Exp2(e);
    assert (a + b) as real * u == a as real * u + b as real * u;
  }

  lemma UnitsHalved(n: int, e: int)
    ensures Units(n, e + 1) == Units(2 * n, e)
    ensures Units(1, e) == Exp2(e)
  {
    Exp2Step(e);
    hide Exp2;
    TwiceProduct(n as real, Exp2(e));
    assert (2 * n) as real == 2.0 * n as real;
    assert (2.0 * n as real) * Exp2(e) == 2.0 * (n as real * Exp2(e));
  }

  /** The word R + (0x3fe + h) * 2^52 has value R * 2^(h - 52), and R's midpoints are its own. */
  lemma ReassembledValue(r: nat, h: int)
    requires HIDDEN <= r < 2 * HIDDEN && -600 <= h <= 512
    ensures var w := r + (0x3fe + h) * HIDDEN;
            && 0 < w <= MAX
            && Value(w) == Units(2 * r, h - 53)
            && Midpoint(w) == Units(2 * r + 1, h - 53)
            && (r > HIDDEN ==> Midpoint(w - 1) == Units(2 * r - 1, h - 53))
            && 0.0 <= Midpoint(w - 1) < Value(w)
  {
    var w: nat := r + (0x3fe + h) * HIDDEN;
    BinadePlaces(r, h);
    InBinade(r, h);
    hide Value, Exp2, Place, Units;
    UnitsHalved(r, h - 53);
    UnitsHalved(1, h - 53);
    UnitsHalved(0, h - 52);
    UnitsSum(2 * r, 1, h - 53);
    UnitsSum(2 * r - 1, 1, h - 53);
    UnitsSum(1, 1, h - 53);
    ValueStep(w);
    ValueStep(w - 1);
    ValueNonnegative(w - 1);
    ValueIncreasing(w - 1, w);
  }

  lemma BinadePlaces(r: nat, h: int)
    requires HIDDEN <= r < 2 * HIDDEN && -600 <= h <= 512
    ensures var w := r + (0x3fe + h) * HIDDEN;
            && 0 < w <= MAX && Place(w) == h - 52 && Significand(w) == r
            && (r > HIDDEN ==> Place(w - 1) == h - 52)
  {
    var w := r + (0x3fe + h) * HIDDEN;
    assert w / HIDDEN == 0x3ff + h && w % HIDDEN == r - HIDDEN;
    if r > HIDDEN {
      assert (w - 1) / HIDDEN == 0x3ff + h;
    }
  }

  lemma InBinade(r: nat, h: int)
    requires HIDDEN <= r < 2 * HIDDEN && -600 <= h <= 512
    ensures Value(r + (0x3fe + h) * HIDDEN) == Units(r, h - 52)
  {
    BinadePlaces(r, h);
    hide Place, Significand, Exp2;
  }

  /** Integer squares around M * 2^54, read as squares of midpoints around M * 2^(2h - 52). */
  lemma SquareScale(m: nat, a: int, h: int)
    ensures a * a < m * (4 * HIDDEN) ==> Square(Units(a, h - 53)) < Units(m, 2 * h - 52)
    ensures a * a > m * (4 * HIDDEN) ==> Square(Units(a, h - 53)) > Units(m, 2 * h - 52)
    ensures a * a == m * (4 * HIDDEN) ==> Square(Units(a, h - 53)) == Units(m, 2 * h - 52)
  {
    hide Exp2;
    SquareUnits(h);
    var u, v := Exp2(h - 53), Exp2(2 * h - 106);
    SquareOfProduct(a, u);
    ProductScale(m, v);
    CompareScaled(a * a, m * (4 * HIDDEN), v);
  }

  lemma SquareUnits(h: int)
    ensures Exp2(h - 53) * Exp2(h - 53) == Exp2(2 * h - 106)
    ensures Exp2(2 * h - 52) == Exp2(2 * h - 106) * (4 * HIDDEN) as real
  {
    hide Exp2;
    Exp2Sum(h - 53, h - 53);
    assert h - 53 + (h - 53) == 2 * h - 106;
    Exp2Sum(2 * h - 106, 54);
    assert 2 * h - 106 + 54 == 2 * h - 52;
    Exp2Step(52);
    Exp2Step(53);
    PowerOf52();
  }

  lemma SquareOfProduct(a: int, u: real)
    ensures (a as real * u) * (a as real * u) == (a * a) as real * (u * u)
  {
    var x := a as real;
    assert (a * a) as real == x * x;
    assert (x * u) * (x * u) == (x * x) * (u * u);
  }

  lemma ProductScale(m: nat, v: real)
    ensures m as real * (v * (4 * HIDDEN) as real) == (m * (4 * HIDDEN)) as real * v
  {
    assert (m * (4 * HIDDEN)) as real == m as real * (4 * HIDDEN) as real;
  }

  lemma CompareScaled(a: int, b: int, v: real)
    requires v > 0.0
    ensures a < b ==> a as real * v < b as real * v
    ensures a > b ==> a as real * v > b as real * v
  {
  }

  lemma SquareOrder(a: real, b: real)
    requires 0.0 <= a < b
    ensures Square(a) < Square(b)
  {
    var d := b - a;
    PositiveProduct(d, d);
    PositiveProduct(d, b);
    assert b * b == a * a + a * d + d * b;
    assert a * d >= 0.0;
  }

  lemma PositiveProduct(a: real, b: real)
    requires a > 0.0 && b > 0.0
    ensures a * b > 0.0
  {
  }

  /** The exact statement about digits, turned into correct rounding of the word. */
  lemma RootIsRounded(w: nat, m: nat, h: int, root: nat, rest: nat, mantissa: nat)
    requires -600 <= h <= 512 && HIDDEN <= m <= 4 * HIDDEN - 2
    requires Value(w) == Units(m, 2 * h - 52)
    requires Restoring(m * (4 * HIDDEN), root, 1, rest)
    requires 2 * mantissa == root + root % 2
    ensures HIDDEN <= mantissa < 2 * HIDDEN
    ensures SqrtRounded(w, mantissa + (0x3fe + h) * HIDDEN)
  {
    hide Value, Exp2, Midpoint, Restoring, Units, Square;
    RootSize(m, root, rest);
    RoundedDigits(m * (4 * HIDDEN), root, rest, mantissa);
    ReassembledValue(mantissa, h);
    SquareScale(m, 2 * mantissa + 1, h);
    SquareScale(m, 2 * mantissa - 1, h);
    if mantissa == HIDDEN {
      SmallestMantissa(m, h);
      SquareOrder(Midpoint(mantissa + (0x3fe + h) * HIDDEN - 1), Units(2 * HIDDEN, h - 53));
    }
  }

  lemma SmallestMantissa(m: nat, h: int)
    requires m >= HIDDEN
    ensures Square(Units(2 * HIDDEN, h - 53)) <= Units(m, 2 * h - 52)
  {
    SquareScale(m, 2 * HIDDEN, h);
    hide Square, Units;
    assert (2 * HIDDEN) * (2 * HIDDEN) == HIDDEN * (4 * HIDDEN);
    Scale(HIDDEN, m, 4 * HIDDEN);
  }

  lemma RootSize(m: nat, root: nat, rest: nat)
    requires HIDDEN <= m <= 4 * HIDDEN - 2
    requires Restoring(m * (4 * HIDDEN), root, 1, rest)
    ensures 2 * HIDDEN <= root <= 4 * HIDDEN - 2
    ensures m * (4 * HIDDEN) % 2 == 0
  {
    FinalRemainder(m * (4 * HIDDEN), root, rest);
    hide Restoring;
    IntSquareOrder(root + 1, 2 * HIDDEN);
    IntSquareOrder(4 * HIDDEN - 1, root);
  }

  lemma IntSquareOrder(a: nat, b: nat)
    ensures a <= b ==> a * a <= b * b
  {
    if a <= b {
      Scale(a, b, a);
      Scale(a, b, b);
    }
  }

  // ----- The square root -----

  /** The number that the normalised words stand for. */
  lemma NormalisedValue(m: nat, n: nat, shifts: nat)
    requires n == Significand(m) * Pow2(shifts)
    ensures Value(m) == Units(n, Place(m) - shifts)
  {
    hide Exp2, Pow2, Significand, Place;
    Pow2AsReal(shifts);
    Exp2Sum(Place(m) - shifts, shifts);
    var s, p, e := Significand(m), Pow2(shifts), Exp2(Place(m) - shifts);
    Associate(s, p, e);
  }

  lemma Associate(a: nat, b: nat, c: real)
    ensures a as real * (c * b as real) == (a * b) as real * c
  {
    assert (a * b) as real == a as real * b as real;
  }

  /** What the pinned procedure must return on every word. */
  ghost predicate SqrtSpec(value: Word, root: Root) {
    if !Finite(value) then root == if value == INF then Bits(INF) else NotANumber
    else if value % SIGN == 0 then root == Bits(value)
    else if value >= SIGN then root == NotANumber
    else root.Bits? && SqrtRounded(value, root.word)
  }

  method Sqrt(value: Word) returns (root: Root)
    ensures SqrtSpec(value, root)
  {
    hide Value, Exp2, SqrtRounded;
    var ix0, ix1 := S32(value / W), value % W;
    WordFields(value);
    if U32(ix0) / BIT20 % 2048 == 2047 {
      return if value == INF then Bits(INF) else NotANumber;
    }
    if ix0 <= 0 {
      if U32(ix0) % HALF == 0 && ix1 == 0 {
        return Bits(value);
      }
      if ix0 < 0 {
        return NotANumber;
      }
    }
    var word := PositiveRoot(ix0, ix1);
    root := Bits(word);
  }

  lemma WordFields(value: Word)
    ensures var ix0 := S32(value / W);
            && (U32(ix0) / BIT20 % 2048 == 2047 <==> !Finite(value))
            && (U32(ix0) % HALF == 0 && value % W == 0 <==> value % SIGN == 0)
            && (ix0 < 0 <==> value >= SIGN)
            && (ix0 >= 0 ==> value == ix0 * W + value % W)
            && (ix0 >= 0 && Finite(value) ==> ix0 < 0x7ff0_0000)
  {
    var high := value / W;
    assert value == high * W + value % W;
    assert U32(S32(high)) == high;
    assert SIGN == HALF * W && HIDDEN == BIT20 * W;
    assert value / HIDDEN == high / BIT20;
  }

  method PositiveRoot(i0: int, i1: nat) returns (word: nat)
    requires 0 <= i0 < 0x7ff0_0000 && i1 < W && (i0 != 0 || i1 != 0)
    ensures SqrtRounded(i0 * W + i1, word)
  {
    hide Value, SqrtRounded, Units, Restoring, Pow2;
    var ix0, ix1, exponent := EvenExponent(i0, i1);
    ghost var m: nat := ix0 * W + ix1;
    ghost var rest;
    var q, q1, inexact;
    q, q1, inexact, rest := RootDigits(ix0, ix1);
    DigitsGiveRoot(i0 * W + i1, m, exponent, q, q1, rest);
    q, q1 := RoundDigits(q, q1, inexact);
    word := Reassemble(q, q1, exponent);
  }

  lemma DigitsGiveRoot(w: nat, m: nat, h: int, q: nat, q1: nat, rest: nat)
    requires -600 <= h <= 512 && HIDDEN <= m <= 4 * HIDDEN - 2
    requires Value(w) == Units(m, 2 * h - 52)
    requires Restoring(m * (4 * HIDDEN), q * W + q1, 1, rest)
    ensures rest == 0 ==> q1 % 2 == 0
    ensures var digits := q * W + q1;
            SqrtRounded(w, (digits + digits % 2) / 2 + (0x3fe + h) * HIDDEN)
  {
    hide Value, SqrtRounded, Units, Restoring;
    var digits: nat := q * W + q1;
    var mantissa := (digits + digits % 2) / 2;
    HalfOfEven(digits);
    RootSize(m, digits, rest);
    RoundedDigits(m * (4 * HIDDEN), digits, rest, mantissa);
    RootIsRounded(w, m, h, digits, rest, mantissa);
    LowParity(q, q1);
  }

  lemma HalfOfEven(n: nat)
    ensures 2 * ((n + n % 2) / 2) == n + n % 2
  {
  }

  lemma LowParity(q: nat, q1: nat)
    ensures (q * W + q1) % 2 == q1 % 2
  {
  }

  /** Normalise, then make the exponent even by doubling the significand. */
  method EvenExponent(i0: int, i1: nat) returns (ix0: int, ix1: nat, exponent: int)
    requires 0 <= i0 < 0x7ff0_0000 && i1 < W && (i0 != 0 || i1 != 0)
    ensures 0 <= ix0 && ix1 < W && -600 <= exponent <= 512
    ensures HIDDEN <= ix0 * W + ix1 <= 4 * HIDDEN - 2
    ensures Value(i0 * W + i1) == Units(ix0 * W + ix1, 2 * exponent - 52)
  {
    hide Value, Pow2, Significand, Units, Place;
    ghost var shifts;
    ix0, ix1, exponent, shifts := Normalise(i0, i1);
    NormalisedValue(i0 * W + i1, ix0 * W + ix1, shifts);
    PlaceRange(i0 * W + i1);
    exponent := exponent - 1023;
    UnitsHalved(ix0 * W + ix1, exponent - 53);
    if exponent % 2 == 1 {
      ix0, ix1 := Double(ix0, ix1);
    }
    exponent := exponent / 2;
  }

  method RootDigits(i0: int, i1: nat) returns (q: int, q1: nat, inexact: bool, ghost rest: nat)
    requires 0 <= i0 && i1 < W && HIDDEN <= i0 * W + i1 < 4 * HIDDEN
    ensures 0 <= q < Pow2(22) && q1 < W && (inexact <==> rest != 0)
    ensures Restoring((i0 * W + i1) * (4 * HIDDEN), q * W + q1, 1, rest)
  {
    hide Restoring, Pow2;
    ghost var m: nat := i0 * W + i1;
    StartRestoring(m);
    var ix0, ix1 := Double(i0, i1);
    var s0;
    ix0, ix1, q, s0 := HighDigits(ix0, ix1, m * (4 * HIDDEN));
    ix0, ix1, q1 := LowDigits(ix0, ix1, q, s0, m * (4 * HIDDEN));
    rest := ix0 * W + ix1;
    inexact := ix0 != 0 || ix1 != 0;
  }

  lemma PlaceRange(m: nat)
    requires m < INF
    ensures -1074 <= Place(m) <= 971
  {
  }

  lemma StartRestoring(m: nat)
    requires m < 4 * HIDDEN
    ensures Restoring(m * (4 * HIDDEN), 0, Pow2(22) * W, 2 * m)
  {
    Pow2Small();
    hide Pow2;
    assert (4 * HIDDEN) * (4 * HIDDEN) > m * (4 * HIDDEN) by { ScaleStrict(m, 4 * HIDDEN, 4 * HIDDEN); }
  }

  /** Correct rounding: the word is the nearest one to the exact square root. */
  lemma SqrtIsNearest(value: Word, root: Root, exact: real)
    requires SqrtSpec(value, root)
    requires Finite(value) && 0 < value < SIGN
    requires exact >= 0.0 && Square(exact) == Value(value)
    ensures root == Bits(NearestMagnitude(exact))
  {
    hide Value, Square;
    var r := root.word;
    ValueNonnegative(r - 1);
    ValueIncreasing(r - 1, r);
    ValueIncreasing(r, r + 1);
    if exact <= Midpoint(r - 1) {
      SquareOrderWeak(exact, Midpoint(r - 1));
    }
    if exact >= Midpoint(r) {
      SquareOrderWeak(Midpoint(r), exact);
    }
    NearestBetweenMidpoints(exact, r);
  }

  lemma SquareOrderWeak(a: real, b: real)
    requires 0.0 <= a <= b
    ensures Square(a) <= Square(b)
  {
    if a < b {
      SquareOrder(a, b);
    }
  }
}
