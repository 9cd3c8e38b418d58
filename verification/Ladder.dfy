/**
 Admission of the distribution waterfall's tier ladder.
 Rates, shares and hurdles are reals; hurdles are compared on their reporting grids.
 */
module Ladder {
  import opened Common

  datatype Mode = Both | Any

  datatype Tier =
    | ReturnOfCapital
    | PreferredReturn(rate: real, simple: bool)
    | CatchUp(gpShare: real, targetPromote: real)
    | Split(lpShare: real, gpShare: real, em: Option<real>, irr: Option<real>, mode: Option<Mode>)

  /** One finding of the ladder admission: the tier it is about, if any, and the member. */
  datatype Issue = Issue(tier: Option<nat>, member: string)

  const TOLERANCE: real := 0.0001

  // ----- Reporting grid -----

  const SAFE_INTEGER: real := 9007199254740991.0

  /** The nearest multiple of 1 / scale, halves up; large magnitudes are kept. */
  function OnGrid(x: real, scale: real): real
    requires scale > 0.0
  {
    if x * scale > SAFE_INTEGER then x else (x * scale + 0.5).Floor as real / scale
  }

  /** Rounding to the grid, halves away from zero. */
  function Quantize(x: real, scale: real): real
    requires scale > 0.0
  {
    if x < 0.0 then -OnGrid(-x, scale) else OnGrid(x, scale)
  }

  lemma ScaledLess(a: real, b: real, scale: real)
    requires scale > 0.0 && a * scale <= b * scale
    ensures a <= b
  {
  }

  lemma ScaledMore(a: real, b: real, scale: real)
    requires scale > 0.0 && a <= b
    ensures a * scale <= b * scale
  {
  }

  lemma FloorMore(a: real, b: real)
    requires a <= b
    ensures (a + 0.5).Floor <= (b + 0.5).Floor
  {
  }

  lemma QuotientMore(a: int, b: int, scale: real)
    requires scale > 0.0 && a <= b
    ensures a as real / scale <= b as real / scale
  {
  }

  lemma QuotientBound(a: int, b: real, scale: real)
    requires scale > 0.0 && a as real <= b * scale
    ensures a as real / scale <= b
  {
    ScaledLess(a as real / scale, b, scale);
  }

  lemma OnGridMonotone(a: real, b: real, scale: real)
    requires scale > 0.0 && a <= b
    ensures OnGrid(a, scale) <= OnGrid(b, scale)
  {
    ScaledMore(a, b, scale);
    var x, y := a * scale, b * scale;
    if x <= SAFE_INTEGER {
      if y <= SAFE_INTEGER {
        FloorMore(x, y);
        QuotientMore((x + 0.5).Floor, (y + 0.5).Floor, scale);
      } else {
        assert (x + 0.5).Floor <= 9007199254740991;
        QuotientBound((x + 0.5).Floor, b, scale);
      }
    }
  }

  lemma OnGridPositive(a: real, scale: real)
    requires scale > 0.0 && a >= 0.0
    ensures OnGrid(a, scale) >= 0.0
  {
    ScaledMore(0.0, a, scale);
    if a * scale <= SAFE_INTEGER {
      QuotientMore(0, (a * scale + 0.5).Floor, scale);
    }
  }

  /** The grid keeps order, so hurdles that increase on it increase as stated. */
  lemma QuantizeMonotone(a: real, b: real, scale: real)
    requires scale > 0.0 && a <= b
    ensures Quantize(a, scale) <= Quantize(b, scale)
  {
    hide OnGrid;
    if a >= 0.0 {
      OnGridMonotone(a, b, scale);
    } else if b < 0.0 {
      OnGridMonotone(-b, -a, scale);
    } else {
      OnGridPositive(-a, scale);
      OnGridPositive(b, scale);
    }
  }

  /** k counts grid steps of which x * scale is closest to the k-th; a tie goes away from zero. */
  predicate Closest(x: real, scale: real, k: int) {
    var y := x * scale;
    Abs(k as real - y) <= 0.5 && (Abs(k as real - y) == 0.5 ==> Abs(k as real) > Abs(y))
  }

  /** Within the safe integers rounding takes the closest grid step, and beyond them it changes nothing. */
  lemma QuantizeIsClosest(x: real, scale: real, k: int)
    requires scale > 0.0
    ensures Abs(x * scale) <= SAFE_INTEGER ==> (Quantize(x, scale) == k as real / scale <==> Closest(x, scale, k))
    ensures Abs(x * scale) > SAFE_INTEGER ==> Quantize(x, scale) == x
  {
    var y := x * scale;
    assert (-x) * scale == -y;
    assert x < 0.0 <==> y < 0.0 by {
      if x < 0.0 {
        assert (-x) * scale > 0.0;
      } else {
        assert x * scale >= 0.0;
      }
    }
    if Abs(y) <= SAFE_INTEGER {
      var n := if x < 0.0 then -((-y + 0.5).Floor) else (y + 0.5).Floor;
      NegatedQuotient((-y + 0.5).Floor, scale);
      assert Quantize(x, scale) == n as real / scale;
      SameQuotient(n, k, scale);
      ClosestIs(y, n, k);
    }
  }

  lemma NegatedQuotient(n: int, scale: real)
    requires scale > 0.0
    ensures -(n as real / scale) == (-n) as real / scale
  {
  }

  lemma SameQuotient(a: int, b: int, scale: real)
    requires scale > 0.0
    ensures a as real / scale == b as real / scale <==> a == b
  {
    if a as real / scale == b as real / scale {
      assert (a as real / scale) * scale == a as real;
      assert (b as real / scale) * scale == b as real;
    }
  }

  lemma ClosestIs(y: real, n: int, k: int)
    requires n == if y < 0.0 then -((-y + 0.5).Floor) else (y + 0.5).Floor
    ensures n == k <==> Abs(k as real - y) <= 0.5 && (Abs(k as real - y) == 0.5 ==> Abs(k as real) > Abs(y))
  {
    if y < 0.0 {
      var m := (-y + 0.5).Floor;
      assert m as real <= -y + 0.5 < m as real + 1.0;
    } else {
      var m := (y + 0.5).Floor;
      assert m as real <= y + 0.5 < m as real + 1.0;
    }
  }

  // ----- Ladder admission -----

  predicate Unit(x: real) {
    0.0 <= x <= 1.0
  }

  /** Two shares that are fractions and sum to one within the tolerance. */
  predicate SharesSum(lp: real, gp: real) {
    Unit(lp) && Unit(gp) && Abs(lp + gp - 1.0) < TOLERANCE
  }

  function Rank(t: Tier): nat {
    match t
    case ReturnOfCapital => 0
    case PreferredReturn(_, _) => 1
    case CatchUp(_, _) => 2
    case Split(_, _, _, _, _) => 3
  }

  /** What one tier states is admissible by itself. */
  predicate OwnTerms(t: Tier) {
    match t
    case ReturnOfCapital => true
    case PreferredReturn(rate, _) => 0.0 < rate < 1.0
    case CatchUp(share, promote) => Unit(share) && 0.0 < promote < 1.0 && share > promote
    case Split(lp, gp, em, irr, mode) =>
      && SharesSum(lp, gp)
      && (em.Some? ==> em.value > 0.0)
      && (irr.Some? ==> 0.0 < irr.value < 1.0)
      && (em.Some? || irr.Some? ==> lp > 0.0)
      && (mode.Some? ==> em.Some? && irr.Some?)
  }

  predicate InOrder(earlier: Tier, later: Tier) {
    Rank(earlier) < Rank(later) || (earlier.Split? && later.Split?)
  }

  function EmGrid(t: Tier): Option<real> {
    if t.Split? && t.em.Some? then Some(Quantize(t.em.value, 10000.0)) else None
  }

  function IrrGrid(t: Tier): Option<real> {
    if t.Split? && t.irr.Some? then Some(Quantize(t.irr.value, 1000000.0)) else None
  }

  predicate Rises(earlier: Option<real>, later: Option<real>) {
    earlier.Some? && later.Some? ==> earlier.value < later.value
  }

  predicate Unbounded(t: Tier) {
    t.Split? && t.em.None? && t.irr.None?
  }

  /** The first n tiers are admissible: each by itself, and every two in order. */
  predicate AdmittedPrefix(tiers: seq<Tier>, n: nat)
    requires n <= |tiers|
  {
    && (forall k :: 0 <= k < n ==> OwnTerms(tiers[k]))
    && (forall i, j :: 0 <= i < j < n ==> InOrder(tiers[i], tiers[j]))
    && (forall i, j :: 0 <= i < j < n ==> Rises(EmGrid(tiers[i]), EmGrid(tiers[j])))
    && (forall i, j :: 0 <= i < j < n ==> Rises(IrrGrid(tiers[i]), IrrGrid(tiers[j])))
  }

  predicate Admitted(equity: (real, real), tiers: seq<Tier>) {
    && SharesSum(equity.0, equity.1)
    && tiers != []
    && AdmittedPrefix(tiers, |tiers|)
    && Unbounded(tiers[|tiers| - 1])
  }

  method PreferredTerms(t: Tier, ti: nat) returns (issues: seq<Issue>)
    requires t.PreferredReturn?
    ensures issues == [] <==> OwnTerms(t)
  {
    issues := [];
    if !(0.0 < t.rate < 1.0) {
      issues := [Issue(Some(ti), "rate")];
    }
  }

  method CatchUpTerms(t: Tier, ti: nat) returns (issues: seq<Issue>)
    requires t.CatchUp?
    ensures issues == [] <==> OwnTerms(t)
  {
    issues := [];
    if !Unit(t.gpShare) {
      issues := issues + [Issue(Some(ti), "gp_share")];
    }
    if !(0.0 < t.targetPromote < 1.0) {
      issues := issues + [Issue(Some(ti), "target_promote")];
    } else if t.gpShare <= t.targetPromote {
      issues := issues + [Issue(Some(ti), "gp_share")];
    }
  }

  method ShareTerms(t: Tier, ti: nat) returns (issues: seq<Issue>)
    requires t.Split?
    ensures issues == [] <==> SharesSum(t.lpShare, t.gpShare)
  {
    issues := [];
    if !Unit(t.lpShare) {
      issues := issues + [Issue(Some(ti), "lp_share")];
    }
    if !Unit(t.gpShare) {
      issues := issues + [Issue(Some(ti), "gp_share")];
    }
    if Unit(t.lpShare) && Unit(t.gpShare) && Abs(t.lpShare + t.gpShare - 1.0) >= TOLERANCE {
      issues := issues + [Issue(Some(ti), "")];
    }
  }

  /** The terms of a split beside the previous hurdles on their grids. */
  method SplitTerms(t: Tier, ti: nat, previousEm: Option<real>, previousIrr: Option<real>) returns (issues: seq<Issue>)
    requires t.Split?
    ensures issues == [] <==> OwnTerms(t) && Rises(previousEm, EmGrid(t)) && Rises(previousIrr, IrrGrid(t))
  {
    hide Quantize, SharesSum;
    issues := ShareTerms(t, ti);
    if t.em.Some? {
      if t.em.value <= 0.0 {
        issues := issues + [Issue(Some(ti), "until_lp_em")];
      } else if previousEm.Some? && Quantize(t.em.value, 10000.0) <= previousEm.value {
        issues := issues + [Issue(Some(ti), "until_lp_em")];
      }
    }
    if t.irr.Some? {
      if !(0.0 < t.irr.value < 1.0) {
        issues := issues + [Issue(Some(ti), "until_lp_irr")];
      } else if previousIrr.Some? && Quantize(t.irr.value, 1000000.0) <= previousIrr.value {
        issues := issues + [Issue(Some(ti), "until_lp_irr")];
      }
    }
    if (t.em.Some? || t.irr.Some?) && t.lpShare <= 0.0 {
      issues := issues + [Issue(Some(ti), "lp_share")];
    }
    if t.mode.Some? && (t.em.None? || t.irr.None?) {
      issues := issues + [Issue(Some(ti), "hurdle_mode")];
    }
  }

  function Ranks(tiers: seq<Tier>, n: nat): set<nat>
    requires n <= |tiers|
  {
    set i | 0 <= i < n :: Rank(tiers[i])
  }

  /** What the scan remembers of the tiers before n, when they are admissible. */
  ghost predicate Remembers(tiers: seq<Tier>, n: nat, previous: int, seen: set<nat>, previousEm: Option<real>,
      previousIrr: Option<real>)
    requires n <= |tiers|
  {
    && seen == Ranks(tiers, n)
    && (if n == 0 then previous == -1 else previous == Rank(tiers[n - 1]))
    && (AdmittedPrefix(tiers, n) ==> forall i :: 0 <= i < n ==> Rank(tiers[i]) <= previous)
    && Top(tiers, n, previousEm, EmGrid)
    && Top(tiers, n, previousIrr, IrrGrid)
  }

  /** The last hurdle of a kind, the greatest when the tiers are admissible. */
  ghost predicate Top(tiers: seq<Tier>, n: nat, top: Option<real>, grid: Tier -> Option<real>)
    requires n <= |tiers|
  {
    && (top.None? ==> forall i :: 0 <= i < n ==> grid(tiers[i]).None?)
    && (top.Some? ==> exists i :: 0 <= i < n && grid(tiers[i]) == top)
    && (top.Some? && (forall i, j :: 0 <= i < j < n ==> Rises(grid(tiers[i]), grid(tiers[j]))) ==>
          forall i :: 0 <= i < n && grid(tiers[i]).Some? ==> grid(tiers[i]).value <= top.value)
  }

  lemma TopStep(tiers: seq<Tier>, n: nat, top: Option<real>, grid: Tier -> Option<real>)
    requires n < |tiers| && Top(tiers, n, top, grid)
    ensures Top(tiers, n + 1, if grid(tiers[n]).Some? then grid(tiers[n]) else top, grid)
  {
    hide Rises;
    var next := if grid(tiers[n]).Some? then grid(tiers[n]) else top;
    assert grid(tiers[n]).Some? ==> grid(tiers[n]) == next;
    if next.Some? && (forall i, j :: 0 <= i < j < n + 1 ==> Rises(grid(tiers[i]), grid(tiers[j]))) {
      forall i | 0 <= i < n + 1 && grid(tiers[i]).Some?
        ensures grid(tiers[i]).value <= next.value
      {
        if i < n && grid(tiers[n]).Some? {
          RisesValue(grid(tiers[i]), grid(tiers[n]));
        }
      }
    }
  }

  lemma RisesValue(a: Option<real>, b: Option<real>)
    requires a.Some? && b.Some? && Rises(a, b)
    ensures a.value < b.value
  {
  }

  /** A new tier is in order with all before it when it is with the last of them. */
  lemma RisesAll(tiers: seq<Tier>, n: nat, top: Option<real>, grid: Tier -> Option<real>)
    requires n < |tiers| && Top(tiers, n, top, grid)
    requires forall i, j :: 0 <= i < j < n ==> Rises(grid(tiers[i]), grid(tiers[j]))
    ensures Rises(top, grid(tiers[n])) <==> forall i :: 0 <= i < n ==> Rises(grid(tiers[i]), grid(tiers[n]))
  {
    if top.Some? {
      var i :| 0 <= i < n && grid(tiers[i]) == top;
    }
  }

  /** Admissible with the tier at n too: admissible before it, and it fits. */
  lemma AdmittedNext(tiers: seq<Tier>, n: nat, previous: int, seen: set<nat>, previousEm: Option<real>,
      previousIrr: Option<real>)
    requires n < |tiers| && Remembers(tiers, n, previous, seen, previousEm, previousIrr)
    ensures AdmittedPrefix(tiers, n + 1) <==>
            && AdmittedPrefix(tiers, n)
            && !(Rank(tiers[n]) < previous || (!tiers[n].Split? && Rank(tiers[n]) in seen))
            && OwnTerms(tiers[n])
            && Rises(previousEm, EmGrid(tiers[n]))
            && Rises(previousIrr, IrrGrid(tiers[n]))
  {
    hide OwnTerms, Rises, EmGrid, IrrGrid, Top;
    if AdmittedPrefix(tiers, n) {
      RisesAll(tiers, n, previousEm, EmGrid);
      RisesAll(tiers, n, previousIrr, IrrGrid);
      OrderAll(tiers, n, previous, seen, previousEm, previousIrr);
      AdmittedMore(tiers, n);
    }
  }

  lemma AdmittedMore(tiers: seq<Tier>, n: nat)
    requires n < |tiers| && AdmittedPrefix(tiers, n)
    ensures AdmittedPrefix(tiers, n + 1) <==>
            && OwnTerms(tiers[n])
            && (forall i :: 0 <= i < n ==> InOrder(tiers[i], tiers[n]))
            && (forall i :: 0 <= i < n ==> Rises(EmGrid(tiers[i]), EmGrid(tiers[n])))
            && (forall i :: 0 <= i < n ==> Rises(IrrGrid(tiers[i]), IrrGrid(tiers[n])))
  {
    hide OwnTerms, Rises, EmGrid, IrrGrid, InOrder;
  }

  lemma OrderAll(tiers: seq<Tier>, n: nat, previous: int, seen: set<nat>, previousEm: Option<real>,
      previousIrr: Option<real>)
    requires n < |tiers| && Remembers(tiers, n, previous, seen, previousEm, previousIrr) && AdmittedPrefix(tiers, n)
    ensures !(Rank(tiers[n]) < previous || (!tiers[n].Split? && Rank(tiers[n]) in seen))
            <==> forall i :: 0 <= i < n ==> InOrder(tiers[i], tiers[n])
  {
    hide OwnTerms, Rises, EmGrid, IrrGrid, Top;
    if Rank(tiers[n]) < previous {
      assert !InOrder(tiers[n - 1], tiers[n]);
    } else if !tiers[n].Split? && Rank(tiers[n]) in seen {
      var i :| 0 <= i < n && Rank(tiers[i]) == Rank(tiers[n]);
      assert !InOrder(tiers[i], tiers[n]);
    } else {
      forall i | 0 <= i < n
        ensures InOrder(tiers[i], tiers[n])
      {
      }
    }
  }

  lemma RanksUpTo(tiers: seq<Tier>, n: nat)
    requires n < |tiers| && AdmittedPrefix(tiers, n + 1)
    ensures forall i :: 0 <= i <= n ==> Rank(tiers[i]) <= Rank(tiers[n])
  {
    hide OwnTerms, Rises, EmGrid, IrrGrid;
    forall i | 0 <= i <= n
      ensures Rank(tiers[i]) <= Rank(tiers[n])
    {
      assert i < n ==> InOrder(tiers[i], tiers[n]);
    }
  }

  lemma RemembersNext(tiers: seq<Tier>, n: nat, previous: int, seen: set<nat>, previousEm: Option<real>,
      previousIrr: Option<real>)
    requires n < |tiers| && Remembers(tiers, n, previous, seen, previousEm, previousIrr)
    ensures Remembers(tiers, n + 1, Rank(tiers[n]), seen + {Rank(tiers[n])},
                      if EmGrid(tiers[n]).Some? then EmGrid(tiers[n]) else previousEm,
                      if IrrGrid(tiers[n]).Some? then IrrGrid(tiers[n]) else previousIrr)
  {
    TopStep(tiers, n, previousEm, EmGrid);
    TopStep(tiers, n, previousIrr, IrrGrid);
    if AdmittedPrefix(tiers, n + 1) {
      RanksUpTo(tiers, n);
    }
    RanksNext(tiers, n);
    hide AdmittedPrefix, EmGrid, IrrGrid, Top, Rank, Ranks;
  }

  lemma RanksNext(tiers: seq<Tier>, n: nat)
    requires n < |tiers|
    ensures Ranks(tiers, n + 1) == Ranks(tiers, n) + {Rank(tiers[n])}
  {
    hide Rank;
  }

  /** The scan of the ladder reports nothing exactly when the ladder is admissible. */
  method WaterfallTerms(equity: (real, real), tiers: seq<Tier>) returns (issues: seq<Issue>)
    ensures issues == [] <==> Admitted(equity, tiers)
  {
    hide SharesSum, AdmittedPrefix, OwnTerms, Rises, Quantize, Remembers;
    issues := [];
    if !SharesSum(equity.0, equity.1) {
      issues := [Issue(None, "equity_split")];
    }
    if tiers == [] {
      issues := issues + [Issue(None, "tiers")];
    }
    ghost var before := issues;
    var previous: int, seen: set<nat>, previousEm: Option<real>, previousIrr: Option<real> := -1, {}, None, None;
    StartsRemembering(tiers);
    var ti := 0;
    while ti < |tiers|
      invariant ti <= |tiers|
      invariant before <= issues
      invariant before == issues <==> AdmittedPrefix(tiers, ti)
      invariant Remembers(tiers, ti, previous, seen, previousEm, previousIrr)
    {
      var tier := tiers[ti];
      var index := Rank(tier);
      AdmittedNext(tiers, ti, previous, seen, previousEm, previousIrr);
      RemembersNext(tiers, ti, previous, seen, previousEm, previousIrr);
      if index < previous || (!tier.Split? && index in seen) {
        issues := issues + [Issue(Some(ti), "")];
      }
      previous, seen := index, seen + {index};
      var own := TierTerms(tier, ti, previousEm, previousIrr);
      issues := issues + own;
      if tier.Split? && tier.em.Some? {
        previousEm := Some(Quantize(tier.em.value, 10000.0));
      }
      if tier.Split? && tier.irr.Some? {
        previousIrr := Some(Quantize(tier.irr.value, 1000000.0));
      }
      ti := ti + 1;
    }
    if tiers != [] && !Unbounded(tiers[|tiers| - 1]) {
      issues := issues + [Issue(if tiers[|tiers| - 1].Split? then Some(|tiers| - 1) else None, "")];
    }
  }

  lemma StartsRemembering(tiers: seq<Tier>)
    ensures Remembers(tiers, 0, -1, {}, None, None) && AdmittedPrefix(tiers, 0)
  {
  }

  /** The terms of one tier by its type. */
  method TierTerms(t: Tier, ti: nat, previousEm: Option<real>, previousIrr: Option<real>) returns (issues: seq<Issue>)
    ensures issues == [] <==> OwnTerms(t) && Rises(previousEm, EmGrid(t)) && Rises(previousIrr, IrrGrid(t))
  {
    hide Quantize, SharesSum;
    match t
    case ReturnOfCapital =>
      issues := [];
    case PreferredReturn(_, _) =>
      issues := PreferredTerms(t, ti);
    case CatchUp(_, _) =>
      issues := CatchUpTerms(t, ti);
    case Split(_, _, _, _, _) =>
      issues := SplitTerms(t, ti, previousEm, previousIrr);
  }

  /** Hurdles of an admitted ladder increase as stated, not only on their grids. */
  lemma HurdlesIncrease(equity: (real, real), tiers: seq<Tier>, i: nat, j: nat)
    requires Admitted(equity, tiers) && i < j < |tiers| && tiers[i].Split? && tiers[j].Split?
    ensures tiers[i].em.Some? && tiers[j].em.Some? ==> tiers[i].em.value < tiers[j].em.value
    ensures tiers[i].irr.Some? && tiers[j].irr.Some? ==> tiers[i].irr.value < tiers[j].irr.value
  {
    hide Quantize, OwnTerms, SharesSum, InOrder;
    assert Rises(EmGrid(tiers[i]), EmGrid(tiers[j])) && Rises(IrrGrid(tiers[i]), IrrGrid(tiers[j]));
    if tiers[i].em.Some? && tiers[j].em.Some? && tiers[j].em.value <= tiers[i].em.value {
      QuantizeMonotone(tiers[j].em.value, tiers[i].em.value, 10000.0);
    }
    if tiers[i].irr.Some? && tiers[j].irr.Some? && tiers[j].irr.value <= tiers[i].irr.value {
      QuantizeMonotone(tiers[j].irr.value, tiers[i].irr.value, 1000000.0);
    }
  }
}
