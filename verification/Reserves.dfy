/**
 Reserve custody: the structure and the rollforward of an account's periods, and the allocation
 of selected draws to declared expenditures.

 Balances and amounts are exact reals, compared at the cent. Dates are day numbers.
 */
module Reserves {
  import opened Common
  import Ladder

  const CENTS: real := 100.0
  const CENT: real := 0.01

  /** The amount at the cent, halves away from zero. */
  function AtCent(x: real): real {
    Ladder.Quantize(x, CENTS)
  }

  predicate WholeCents(x: real) {
    (x * CENTS).Floor as real == x * CENTS
  }

  lemma OnGridNear(x: real)
    requires x >= 0.0
    ensures -0.005 <= Ladder.OnGrid(x, CENTS) - x <= 0.005
    ensures WholeCents(x) ==> Ladder.OnGrid(x, CENTS) == x
  {
    var y := x * CENTS;
    if y <= Ladder.SAFE_INTEGER {
      FloorNear(y);
      Hundredth((y + 0.5).Floor as real, y);
      assert y / CENTS == x;
    }
  }

  lemma FloorNear(y: real)
    ensures y - 0.5 <= (y + 0.5).Floor as real <= y + 0.5
    ensures y.Floor as real == y ==> (y + 0.5).Floor as real == y
  {
    if y.Floor as real == y {
      assert (y + 0.5).Floor == y.Floor;
    }
  }

  lemma Hundredth(n: real, y: real)
    requires y - 0.5 <= n <= y + 0.5
    ensures -0.005 <= n / CENTS - y / CENTS <= 0.005
  {
  }

  /** Rounding to the cent moves an amount by at most half a cent, and whole cents not at all. */
  lemma AtCentNear(x: real)
    ensures -0.005 <= AtCent(x) - x <= 0.005
    ensures WholeCents(x) ==> AtCent(x) == x
  {
    if x < 0.0 {
      OnGridNear(-x);
      if WholeCents(x) {
        NegatedCents(x);
      }
    } else {
      OnGridNear(x);
    }
    hide Ladder.OnGrid;
  }

  lemma NegatedCents(x: real)
    requires WholeCents(x)
    ensures WholeCents(-x)
  {
    var n := (x * CENTS).Floor;
    assert (-x) * CENTS == (-n) as real;
    assert ((-n) as real).Floor == -n;
  }

  /** Amounts that agree at the cent differ by at most a cent, and not at all in whole cents. */
  lemma SameCent(a: real, b: real)
    requires AtCent(a) == AtCent(b)
    ensures Abs(a - b) <= CENT
    ensures WholeCents(a) && WholeCents(b) ==> a == b
  {
    AtCentNear(a);
    AtCentNear(b);
    hide AtCent;
  }

  lemma NotAboveCent(a: real, b: real)
    requires AtCent(a) <= AtCent(b)
    ensures a <= b + CENT
    ensures WholeCents(a) && WholeCents(b) ==> a <= b
  {
    AtCentNear(a);
    AtCentNear(b);
    hide AtCent;
  }

  /** In the range of safe integers a whole number of cents is the amount at the cent if and only if it is closest. */
  lemma AtCentIsClosest(x: real, cents: int)
    requires Abs(x * CENTS) <= Ladder.SAFE_INTEGER
    ensures AtCent(x) == cents as real / 100.0 <==> Ladder.Closest(x, 100.0, cents)
  {
    Ladder.QuantizeIsClosest(x, CENTS, cents);
    hide Ladder.Quantize, Ladder.Closest;
  }

  // ----- Accounts -----

  datatype Movement = Movement(id: string, date: int, contribution: bool, amount: real)

  datatype Period = Period(id: string, start: int, end: int, opening: real, ending: real,
                           previous: Option<string>, movements: seq<Movement>)

  datatype Code = Bounds | Order | Duplicate | EndingDisagrees | ContinuityDisagrees

  datatype Issue = Issue(code: Code, period: nat)

  // ----- Structure -----

  predicate MovementsWell(p: Period) {
    && (forall k :: 0 <= k < |p.movements| ==> p.start <= p.movements[k].date <= p.end)
    && (forall j, k :: 0 <= j < k < |p.movements| ==> p.movements[j].date <= p.movements[k].date)
    && (forall j, k :: 0 <= j < k < |p.movements| ==> p.movements[j].id != p.movements[k].id)
  }

  /** Later periods start later and do not overlap. */
  predicate Follows(earlier: Period, later: Period) {
    earlier.start < later.start && earlier.end <= later.start
  }

  predicate PredecessorNamed(periods: seq<Period>, i: nat)
    requires i < |periods|
  {
    periods[i].previous.Some? ==> i > 0 && periods[i].previous.value == periods[i - 1].id
  }

  /** The first n periods are well formed, ordered, and name only their predecessors. */
  ghost predicate Structured(periods: seq<Period>, n: nat)
    requires n <= |periods|
  {
    && (forall i :: 0 <= i < n ==>
        periods[i].start <= periods[i].end && MovementsWell(periods[i]) && PredecessorNamed(periods, i))
    && (forall i :: 1 <= i < n ==> Follows(periods[i - 1], periods[i]))
    && (forall i, j :: 0 <= i < j < n ==> periods[i].id != periods[j].id)
  }

  /** The movements of one period, scanned in order. */
  method MovementIssues(p: Period, index: nat) returns (issues: seq<Issue>)
    ensures issues == [] <==> MovementsWell(p)
  {
    issues := [];
    var seen: set<string>, lastDate: Option<int> := {}, None;
    for k := 0 to |p.movements|
      invariant seen == set j | 0 <= j < k :: p.movements[j].id
      invariant lastDate == if k == 0 then None else Some(p.movements[k - 1].date)
      invariant issues == [] <==> MovementsWell(p.(movements := p.movements[..k]))
    {
      var m := p.movements[k];
      ghost var before, after := p.(movements := p.movements[..k]), p.(movements := p.movements[..k + 1]);
      MovementAdded(p, k);
      if m.id in seen {
        issues := issues + [Issue(Duplicate, index)];
      }
      seen := seen + {m.id};
      if !(p.start <= m.date <= p.end) {
        issues := issues + [Issue(Bounds, index)];
      }
      if lastDate.Some? && m.date < lastDate.value {
        issues := issues + [Issue(Order, index)];
      }
      lastDate := Some(m.date);
    }
    assert p.(movements := p.movements[..|p.movements|]) == p;
  }

  /** One more movement: in bounds, not before the last one, and with a new identity. */
  lemma MovementAdded(p: Period, k: nat)
    requires k < |p.movements|
    ensures MovementsWell(p.(movements := p.movements[..k + 1])) <==>
            && MovementsWell(p.(movements := p.movements[..k]))
            && p.start <= p.movements[k].date <= p.end
            && (k > 0 ==> p.movements[k - 1].date <= p.movements[k].date)
            && p.movements[k].id !in (set j | 0 <= j < k :: p.movements[j].id)
  {
    var a, b := p.(movements := p.movements[..k]), p.(movements := p.movements[..k + 1]);
    assert forall j :: 0 <= j < k ==> b.movements[j] == a.movements[j];
    assert b.movements[k] == p.movements[k];
    if MovementsWell(b) {
      forall j | 0 <= j < k
        ensures p.movements[j].id != p.movements[k].id
      {
        assert b.movements[j].id != b.movements[k].id;
      }
    } else if MovementsWell(a) && k > 0 && p.movements[k - 1].date <= p.movements[k].date {
      forall j | 0 <= j < k
        ensures b.movements[j].date <= b.movements[k].date
      {
        assert j < k - 1 ==> a.movements[j].date <= a.movements[k - 1].date;
      }
    }
  }

  /** The periods of an account, scanned in order: nothing to report exactly when they are well formed. */
  method ReserveStructure(periods: seq<Period>) returns (issues: seq<Issue>)
    ensures issues == [] <==> Structured(periods, |periods|)
  {
    hide MovementsWell;
    issues := [];
    var ids: set<string> := {};
    for i := 0 to |periods|
      invariant ids == set j | 0 <= j < i :: periods[j].id
      invariant issues == [] <==> Structured(periods, i)
    {
      var p := periods[i];
      PeriodAdded(periods, i);
      if p.id in ids {
        issues := issues + [Issue(Duplicate, i)];
      }
      ids := ids + {p.id};
      if p.start > p.end {
        issues := issues + [Issue(Bounds, i)];
      }
      if i > 0 && (p.start <= periods[i - 1].start || p.start < periods[i - 1].end) {
        issues := issues + [Issue(Order, i)];
      }
      if p.previous.Some? && (i == 0 || p.previous.value != periods[i - 1].id) {
        issues := issues + [Issue(Order, i)];
      }
      var own := MovementIssues(p, i);
      issues := issues + own;
    }
  }

  lemma PeriodAdded(periods: seq<Period>, i: nat)
    requires i < |periods|
    ensures Structured(periods, i + 1) <==>
            && Structured(periods, i)
            && periods[i].start <= periods[i].end && MovementsWell(periods[i]) && PredecessorNamed(periods, i)
            && (i > 0 ==> Follows(periods[i - 1], periods[i]))
            && periods[i].id !in (set j | 0 <= j < i :: periods[j].id)
  {
    hide MovementsWell;
    if Structured(periods, i + 1) {
      forall j | 0 <= j < i
        ensures periods[j].id != periods[i].id
      {
      }
    }
  }

  // ----- Rollforward -----

  function Net(movements: seq<Movement>): real {
    if movements == [] then 0.0
    else
      var last := movements[|movements| - 1];
      Net(movements[..|movements| - 1]) + if last.contribution then last.amount else -last.amount
  }

  method EndingBalance(p: Period) returns (ending: real)
    ensures ending == p.opening + Net(p.movements)
  {
    ending := p.opening;
    for k := 0 to |p.movements|
      invariant ending == p.opening + Net(p.movements[..k])
    {
      assert p.movements[..k + 1][..k] == p.movements[..k];
      var m := p.movements[k];
      ending := if m.contribution then ending + m.amount else ending - m.amount;
    }
    assert p.movements[..|p.movements|] == p.movements;
  }

  predicate Balanced(p: Period) {
    AtCent(p.opening + Net(p.movements)) == AtCent(p.ending)
  }

  predicate Continuous(periods: seq<Period>, i: nat)
    requires i < |periods|
  {
    i > 0 && periods[i].previous.Some? ==> AtCent(periods[i].opening) == AtCent(periods[i - 1].ending)
  }

  ghost predicate Verified(periods: seq<Period>, n: nat)
    requires n <= |periods|
  {
    forall i :: 0 <= i < n ==> Balanced(periods[i]) && Continuous(periods, i)
  }

  /** The verification of an account's periods. */
  method VerifyPeriods(periods: seq<Period>) returns (issues: seq<Issue>)
    ensures issues == [] <==> Verified(periods, |periods|)
  {
    hide AtCent, Net;
    issues := [];
    for i := 0 to |periods|
      invariant issues == [] <==> Verified(periods, i)
    {
      var p := periods[i];
      var ending := EndingBalance(p);
      if AtCent(ending) != AtCent(p.ending) {
        issues := issues + [Issue(EndingDisagrees, i)];
      }
      if p.previous.Some? && i > 0 {
        if AtCent(p.opening) != AtCent(periods[i - 1].ending) {
          issues := issues + [Issue(ContinuityDisagrees, i)];
        }
      }
    }
  }

  // ----- Custody over whole histories -----

  /** The movements of the periods from a to before b, in order. */
  function History(periods: seq<Period>, a: nat, b: nat): seq<Movement>
    requires a <= b <= |periods|
  {
    if a == b then [] else History(periods, a, b - 1) + periods[b - 1].movements
  }

  /** What the movements of one direction sum to. */
  function Total(movements: seq<Movement>, contribution: bool): real {
    if movements == [] then 0.0
    else
      var last := movements[|movements| - 1];
      Total(movements[..|movements| - 1], contribution) + if last.contribution == contribution then last.amount else 0.0
  }

  /** The net movement is all contributions less all draws and releases. */
  lemma {:induction false} NetIsDifference(movements: seq<Movement>)
    ensures Net(movements) == Total(movements, true) - Total(movements, false)
    decreases |movements|
  {
    if movements != [] {
      NetIsDifference(movements[..|movements| - 1]);
    }
  }

  lemma {:induction false} NetJoin(a: seq<Movement>, b: seq<Movement>)
    ensures Net(a + b) == Net(a) + Net(b)
    decreases |b|
  {
    if b == [] {
      assert a + b == a;
    } else {
      assert (a + b)[..|a + b| - 1] == a + b[..|b| - 1];
      NetJoin(a, b[..|b| - 1]);
    }
  }

  /** The stated balances are whole cents, and so are the movements. */
  ghost predicate InCents(periods: seq<Period>, a: nat, b: nat)
    requires a <= b <= |periods|
  {
    forall i :: a <= i < b ==>
        WholeCents(periods[i].opening) && WholeCents(periods[i].ending)
        && WholeCents(periods[i].opening + Net(periods[i].movements))
  }

  /**
   Custody over consecutive linked periods: the last ending balance is the first opening balance
   plus all contributions less all other movements, within a cent a comparison made, and exactly
   when every amount is in whole cents.
   */
  lemma {:induction false} Custody(periods: seq<Period>, a: nat, b: nat)
    requires a < b <= |periods| && Verified(periods, |periods|)
    requires forall i :: a < i < b ==> periods[i].previous.Some?
    ensures var drift := periods[b - 1].ending - (periods[a].opening + Net(History(periods, a, b)));
            && Abs(drift) <= (2 * (b - a) - 1) as real * CENT
            && (InCents(periods, a, b) ==> drift == 0.0)
    decreases b
  {
    hide *;
    var last := periods[b - 1];
    PeriodNear(periods, b - 1);
    HistoryMore(periods, a, b - 1);
    NetJoin(History(periods, a, b - 1), last.movements);
    if b == a + 1 {
      FirstPeriod(periods, a);
    } else {
      Custody(periods, a, b - 1);
      FewerInCents(periods, a, b);
    }
    DriftStep(periods, a, b);
  }

  lemma HistoryMore(periods: seq<Period>, a: nat, b: nat)
    requires a <= b < |periods|
    ensures History(periods, a, b + 1) == History(periods, a, b) + periods[b].movements
  {
  }

  lemma FirstPeriod(periods: seq<Period>, a: nat)
    requires a < |periods|
    ensures Net(History(periods, a, a)) == 0.0
  {
  }

  lemma FewerInCents(periods: seq<Period>, a: nat, b: nat)
    requires a < b <= |periods|
    ensures InCents(periods, a, b) ==> InCents(periods, a, b - 1)
  {
    hide WholeCents, Net;
  }

  /** What the comparisons of one verified period say of its balances. */
  lemma PeriodNear(periods: seq<Period>, i: nat)
    requires i < |periods| && Verified(periods, |periods|)
    ensures var p := periods[i];
            && Abs(p.opening + Net(p.movements) - p.ending) <= CENT
            && (InCents(periods, i, i + 1) ==> p.opening + Net(p.movements) == p.ending)
            && (i > 0 && p.previous.Some? ==>
                  && Abs(p.opening - periods[i - 1].ending) <= CENT
                  && (InCents(periods, i - 1, i + 1) ==> p.opening == periods[i - 1].ending))
  {
    hide AtCent, Net, WholeCents;
    var p := periods[i];
    assert Balanced(p) && Continuous(periods, i);
    SameCent(p.opening + Net(p.movements), p.ending);
    if i > 0 && p.previous.Some? {
      SameCent(p.opening, periods[i - 1].ending);
    }
  }

  lemma DriftStep(periods: seq<Period>, a: nat, b: nat)
    requires a < b <= |periods|
    requires var p := periods[b - 1];
             && Abs(p.opening + Net(p.movements) - p.ending) <= CENT
             && (InCents(periods, b - 1, b) ==> p.opening + Net(p.movements) == p.ending)
    requires Net(History(periods, a, b)) == Net(History(periods, a, b - 1)) + Net(periods[b - 1].movements)
    requires b == a + 1 ==> Net(History(periods, a, a)) == 0.0
    requires b > a + 1 ==>
               var before := periods[b - 2].ending - (periods[a].opening + Net(History(periods, a, b - 1)));
               && Abs(periods[b - 1].opening - periods[b - 2].ending) <= CENT
               && (InCents(periods, b - 2, b) ==> periods[b - 1].opening == periods[b - 2].ending)
               && Abs(before) <= (2 * (b - 1 - a) - 1) as real * CENT
               && (InCents(periods, a, b) ==> before == 0.0)
    ensures var drift := periods[b - 1].ending - (periods[a].opening + Net(History(periods, a, b)));
            && Abs(drift) <= (2 * (b - a) - 1) as real * CENT
            && (InCents(periods, a, b) ==> drift == 0.0)
  {
    hide Net, History, WholeCents;
    assert InCents(periods, a, b) ==> InCents(periods, b - 1, b) && (b > a + 1 ==> InCents(periods, b - 2, b));
    hide InCents;
  }

  predicate InDateOrder(movements: seq<Movement>) {
    forall j, k :: 0 <= j < k < |movements| ==> movements[j].date <= movements[k].date
  }

  predicate Until(movements: seq<Movement>, date: int) {
    forall k :: 0 <= k < |movements| ==> movements[k].date <= date
  }

  predicate From(movements: seq<Movement>, date: int) {
    forall k :: 0 <= k < |movements| ==> date <= movements[k].date
  }

  /** Lists in date order join when a date stands between them. */
  lemma OrderJoins(a: seq<Movement>, b: seq<Movement>, date: int, end: int)
    requires InDateOrder(a) && InDateOrder(b) && Until(a, date) && From(b, date) && Until(b, end) && date <= end
    ensures InDateOrder(a + b) && Until(a + b, end)
  {
    forall j, k | 0 <= j < k < |a + b|
      ensures (a + b)[j].date <= (a + b)[k].date
    {
      if j < |a| <= k {
        assert a[j].date <= date <= b[k - |a|].date;
      }
    }
  }

  lemma PeriodDates(periods: seq<Period>, i: nat)
    requires i < |periods| && Structured(periods, |periods|)
    ensures var p := periods[i];
            InDateOrder(p.movements) && From(p.movements, p.start) && Until(p.movements, p.end) && p.start <= p.end
    ensures i > 0 ==> periods[i - 1].end <= periods[i].start
  {
    assert MovementsWell(periods[i]);
    assert i > 0 ==> Follows(periods[i - 1], periods[i]);
  }

  lemma LaterDate(movements: seq<Movement>, date: int, later: int)
    requires Until(movements, date) && date <= later
    ensures Until(movements, later)
  {
  }

  /** The account's movements, over all periods, are in date order. */
  lemma {:induction false} MovementsInOrder(periods: seq<Period>, a: nat, b: nat)
    requires a <= b <= |periods| && Structured(periods, |periods|)
    ensures InDateOrder(History(periods, a, b)) && (b > 0 ==> Until(History(periods, a, b), periods[b - 1].end))
    decreases b
  {
    if a == b {
      assert History(periods, a, b) == [];
    } else {
      hide *;
      MovementsInOrder(periods, a, b - 1);
      PeriodDates(periods, b - 1);
      HistoryMore(periods, a, b - 1);
      var last := periods[b - 1];
      if b > 1 {
        LaterDate(History(periods, a, b - 1), periods[b - 2].end, last.start);
      } else {
        NoHistory(periods, last.start);
      }
      OrderJoins(History(periods, a, b - 1), last.movements, last.start, last.end);
    }
  }

  lemma NoHistory(periods: seq<Period>, date: int)
    ensures Until(History(periods, 0, 0), date)
  {
  }

  // ----- Draws and expenditures -----

  /** A draw by its identity, an expenditure by its identity and source address, an edge between two. */
  datatype Draw = Draw(key: string, amount: real)
  datatype Expenditure = Expenditure(id: string, address: string, gross: real, funded: real)
  datatype Edge = Edge(draw: string, expenditure: string, amount: real)

  datatype Plan = Plan(draws: seq<Draw>, expenditures: seq<Expenditure>, edges: seq<Edge>)

  datatype Finding = DuplicateDraw(index: nat) | DuplicateExpenditure(index: nat) | DuplicateEdge(index: nat)
    | UndeclaredEndpoint(index: nat) | NotFullyAllocated(index: nat) | FundedDisagrees(index: nat)

  predicate DistinctDraws(p: Plan, n: nat)
    requires n <= |p.draws|
  {
    forall i, j :: 0 <= i < j < n ==> p.draws[i].key != p.draws[j].key
  }

  predicate DistinctExpenditures(p: Plan, n: nat)
    requires n <= |p.expenditures|
  {
    forall i, j :: 0 <= i < j < n ==>
        p.expenditures[i].id != p.expenditures[j].id && p.expenditures[i].address != p.expenditures[j].address
  }

  predicate DistinctEdges(p: Plan, n: nat)
    requires n <= |p.edges|
  {
    forall i, j :: 0 <= i < j < n ==>
        !(p.edges[i].draw == p.edges[j].draw && p.edges[i].expenditure == p.edges[j].expenditure)
  }

  predicate Declared(p: Plan, e: Edge) {
    (exists i :: 0 <= i < |p.draws| && p.draws[i].key == e.draw)
        && (exists i :: 0 <= i < |p.expenditures| && p.expenditures[i].id == e.expenditure)
  }

  /** What the edges allocate from a draw, and to an expenditure. */
  function FromDraw(edges: seq<Edge>, key: string): real {
    if edges == [] then 0.0
    else
      var last := edges[|edges| - 1];
      FromDraw(edges[..|edges| - 1], key) + if last.draw == key then last.amount else 0.0
  }

  function ToExpenditure(edges: seq<Edge>, id: string): real {
    if edges == [] then 0.0
    else
      var last := edges[|edges| - 1];
      ToExpenditure(edges[..|edges| - 1], id) + if last.expenditure == id then last.amount else 0.0
  }

  predicate DrawAllocated(p: Plan, i: nat)
    requires i < |p.draws|
  {
    AtCent(FromDraw(p.edges, p.draws[i].key)) == AtCent(p.draws[i].amount)
  }

  predicate ExpenditureFunded(p: Plan, i: nat)
    requires i < |p.expenditures|
  {
    var amount := AtCent(ToExpenditure(p.edges, p.expenditures[i].id));
    amount == AtCent(p.expenditures[i].funded) && amount <= AtCent(-p.expenditures[i].gross)
  }

  /** Every identity once, every edge between declared ends, every draw allocated, every share funded. */
  predicate Allocated(p: Plan) {
    && DistinctDraws(p, |p.draws|) && DistinctExpenditures(p, |p.expenditures|) && DistinctEdges(p, |p.edges|)
    && (forall k :: 0 <= k < |p.edges| ==> Declared(p, p.edges[k]))
    && (forall i :: 0 <= i < |p.draws| ==> DrawAllocated(p, i))
    && (forall i :: 0 <= i < |p.expenditures| ==> ExpenditureFunded(p, i))
  }

  /** Identities scanned with seen-sets. */
  method PlanIssues(p: Plan) returns (findings: seq<Finding>)
    ensures findings == [] <==>
            DistinctDraws(p, |p.draws|) && DistinctExpenditures(p, |p.expenditures|) && DistinctEdges(p, |p.edges|)
  {
    findings := [];
    var seenDraws: set<string> := {};
    for i := 0 to |p.draws|
      invariant seenDraws == set k | 0 <= k < i :: p.draws[k].key
      invariant findings == [] <==> DistinctDraws(p, i)
    {
      if p.draws[i].key in seenDraws {
        findings := findings + [DuplicateDraw(i)];
      }
      seenDraws := seenDraws + {p.draws[i].key};
    }
    ghost var drawsClean := findings == [];
    var seenIds: set<string>, seenRefs: set<string> := {}, {};
    for i := 0 to |p.expenditures|
      invariant seenIds == set k | 0 <= k < i :: p.expenditures[k].id
      invariant seenRefs == set k | 0 <= k < i :: p.expenditures[k].address
      invariant findings == [] <==> drawsClean && DistinctExpenditures(p, i)
    {
      if p.expenditures[i].id in seenIds || p.expenditures[i].address in seenRefs {
        findings := findings + [DuplicateExpenditure(i)];
      }
      seenIds, seenRefs := seenIds + {p.expenditures[i].id}, seenRefs + {p.expenditures[i].address};
    }
    ghost var endsClean := findings == [];
    var seenEdges: set<(string, string)> := {};
    for i := 0 to |p.edges|
      invariant seenEdges == set k | 0 <= k < i :: (p.edges[k].draw, p.edges[k].expenditure)
      invariant findings == [] <==> endsClean && DistinctEdges(p, i)
    {
      var edge := (p.edges[i].draw, p.edges[i].expenditure);
      if edge in seenEdges {
        findings := findings + [DuplicateEdge(i)];
      }
      seenEdges := seenEdges + {edge};
    }
  }

  /** The running totals by draw. */
  method DrawTotals(edges: seq<Edge>, keys: set<string>) returns (drawn: map<string, real>)
    requires forall k :: 0 <= k < |edges| ==> edges[k].draw in keys
    ensures drawn.Keys == keys && forall key :: key in keys ==> drawn[key] == FromDraw(edges, key)
  {
    drawn := map key | key in keys :: 0.0;
    for k := 0 to |edges|
      invariant drawn.Keys == keys && forall key :: key in keys ==> drawn[key] == FromDraw(edges[..k], key)
    {
      assert edges[..k + 1][..k] == edges[..k];
      drawn := drawn[edges[k].draw := drawn[edges[k].draw] + edges[k].amount];
    }
    assert edges[..|edges|] == edges;
  }

  /** The running totals by expenditure. */
  method ShareTotals(edges: seq<Edge>, ids: set<string>) returns (funded: map<string, real>)
    requires forall k :: 0 <= k < |edges| ==> edges[k].expenditure in ids
    ensures funded.Keys == ids && forall id :: id in ids ==> funded[id] == ToExpenditure(edges, id)
  {
    funded := map id | id in ids :: 0.0;
    for k := 0 to |edges|
      invariant funded.Keys == ids && forall id :: id in ids ==> funded[id] == ToExpenditure(edges[..k], id)
    {
      assert edges[..k + 1][..k] == edges[..k];
      funded := funded[edges[k].expenditure := funded[edges[k].expenditure] + edges[k].amount];
    }
    assert edges[..|edges|] == edges;
  }

  /** Each draw against what was allocated from it. */
  method DrawFindings(p: Plan, drawn: map<string, real>) returns (findings: seq<Finding>)
    requires forall i :: 0 <= i < |p.draws| ==>
             p.draws[i].key in drawn && drawn[p.draws[i].key] == FromDraw(p.edges, p.draws[i].key)
    ensures findings == [] <==> forall i :: 0 <= i < |p.draws| ==> DrawAllocated(p, i)
  {
    hide AtCent, FromDraw;
    findings := [];
    for i := 0 to |p.draws|
      invariant findings == [] <==> forall j :: 0 <= j < i ==> DrawAllocated(p, j)
    {
      assert DrawAllocated(p, i) <==> AtCent(drawn[p.draws[i].key]) == AtCent(p.draws[i].amount);
      if AtCent(drawn[p.draws[i].key]) != AtCent(p.draws[i].amount) {
        findings := findings + [NotFullyAllocated(i)];
      }
    }
  }

  /** Each funded share against its edges and its gross amount. */
  method ShareFindings(p: Plan, funded: map<string, real>) returns (findings: seq<Finding>)
    requires forall i :: 0 <= i < |p.expenditures| ==>
               p.expenditures[i].id in funded
                   && funded[p.expenditures[i].id] == ToExpenditure(p.edges, p.expenditures[i].id)
    ensures findings == [] <==> forall i :: 0 <= i < |p.expenditures| ==> ExpenditureFunded(p, i)
  {
    hide AtCent, ToExpenditure;
    findings := [];
    for i := 0 to |p.expenditures|
      invariant findings == [] <==> forall j :: 0 <= j < i ==> ExpenditureFunded(p, j)
    {
      var x := p.expenditures[i];
      var amount := AtCent(funded[x.id]);
      assert ExpenditureFunded(p, i) <==> amount == AtCent(x.funded) && amount <= AtCent(-x.gross);
      if amount != AtCent(x.funded) || amount > AtCent(-x.gross) {
        findings := findings + [FundedDisagrees(i)];
      }
    }
  }

  /** The verification of a plan whose sources have resolved: no arithmetic before the identities are clean. */
  method VerifyBindings(p: Plan) returns (findings: seq<Finding>)
    ensures findings == [] <==> Allocated(p)
  {
    hide AtCent, DistinctDraws, DistinctExpenditures, DistinctEdges, DrawAllocated, ExpenditureFunded;
    findings := PlanIssues(p);
    if findings != [] {
      return;
    }
    var keys, ids := set i | 0 <= i < |p.draws| :: p.draws[i].key,
                     set i | 0 <= i < |p.expenditures| :: p.expenditures[i].id;
    for k := 0 to |p.edges|
      invariant findings == [] <==> forall j :: 0 <= j < k ==> Declared(p, p.edges[j])
    {
      assert Declared(p, p.edges[k]) <==> p.edges[k].draw in keys && p.edges[k].expenditure in ids;
      if p.edges[k].draw !in keys || p.edges[k].expenditure !in ids {
        findings := findings + [UndeclaredEndpoint(k)];
      }
    }
    if findings != [] {
      return;
    }
    forall k | 0 <= k < |p.edges|
      ensures p.edges[k].draw in keys && p.edges[k].expenditure in ids
    {
      assert Declared(p, p.edges[k]);
    }
    hide Declared;
    var drawn := DrawTotals(p.edges, keys);
    var funded := ShareTotals(p.edges, ids);
    var first := DrawFindings(p, drawn);
    var second := ShareFindings(p, funded);
    findings := first + second;
  }

  // ----- Funds are conserved -----

  function EdgeTotal(edges: seq<Edge>): real {
    if edges == [] then 0.0 else EdgeTotal(edges[..|edges| - 1]) + edges[|edges| - 1].amount
  }

  function DrawTotal(p: Plan, n: nat): real
    requires n <= |p.draws|
  {
    if n == 0 then 0.0 else DrawTotal(p, n - 1) + p.draws[n - 1].amount
  }

  function FundedTotal(p: Plan, n: nat): real
    requires n <= |p.expenditures|
  {
    if n == 0 then 0.0 else FundedTotal(p, n - 1) + p.expenditures[n - 1].funded
  }

  /** What the first n draws allocate over some edges. */
  function DrawnBy(p: Plan, n: nat, edges: seq<Edge>): real
    requires n <= |p.draws|
  {
    if n == 0 then 0.0 else DrawnBy(p, n - 1, edges) + FromDraw(edges, p.draws[n - 1].key)
  }

  function FundedBy(p: Plan, n: nat, edges: seq<Edge>): real
    requires n <= |p.expenditures|
  {
    if n == 0 then 0.0 else FundedBy(p, n - 1, edges) + ToExpenditure(edges, p.expenditures[n - 1].id)
  }

  /** One more edge adds its amount once, to the draw it names. */
  lemma {:induction false} EdgeOnceByDraw(p: Plan, n: nat, edges: seq<Edge>, e: Edge)
    requires n <= |p.draws| && DistinctDraws(p, |p.draws|)
    ensures DrawnBy(p, n, edges + [e]) == DrawnBy(p, n, edges)
            + if exists i :: 0 <= i < n && p.draws[i].key == e.draw then e.amount else 0.0
  {
    if n > 0 {
      EdgeOnceByDraw(p, n - 1, edges, e);
      assert (edges + [e])[..|edges|] == edges;
    }
  }

  lemma {:induction false} EdgeOnceByExpenditure(p: Plan, n: nat, edges: seq<Edge>, e: Edge)
    requires n <= |p.expenditures| && DistinctExpenditures(p, |p.expenditures|)
    ensures FundedBy(p, n, edges + [e]) == FundedBy(p, n, edges)
            + if exists i :: 0 <= i < n && p.expenditures[i].id == e.expenditure then e.amount else 0.0
  {
    if n > 0 {
      EdgeOnceByExpenditure(p, n - 1, edges, e);
      assert (edges + [e])[..|edges|] == edges;
    }
  }

  lemma {:induction false} NothingAllocated(p: Plan, n: nat)
    ensures n <= |p.draws| ==> DrawnBy(p, n, []) == 0.0
    ensures n <= |p.expenditures| ==> FundedBy(p, n, []) == 0.0
  {
    if n > 0 {
      NothingAllocated(p, n - 1);
    }
  }

  /** The edges counted by draw and counted by expenditure are the same money. */
  lemma {:induction false} BothWays(p: Plan, edges: seq<Edge>)
    requires DistinctDraws(p, |p.draws|) && DistinctExpenditures(p, |p.expenditures|)
    requires forall k :: 0 <= k < |edges| ==> Declared(p, edges[k])
    ensures DrawnBy(p, |p.draws|, edges) == EdgeTotal(edges) == FundedBy(p, |p.expenditures|, edges)
  {
    if edges == [] {
      NothingAllocated(p, |p.draws|);
      NothingAllocated(p, |p.expenditures|);
    } else {
      var rest, e := edges[..|edges| - 1], edges[|edges| - 1];
      assert edges == rest + [e];
      assert Declared(p, e);
      BothWays(p, rest);
      EdgeOnceByDraw(p, |p.draws|, rest, e);
      EdgeOnceByExpenditure(p, |p.expenditures|, rest, e);
    }
  }

  /** All the amounts a plan compares are whole cents. */
  ghost predicate PlanInCents(p: Plan) {
    && (forall i :: 0 <= i < |p.draws| ==>
        WholeCents(p.draws[i].amount) && WholeCents(FromDraw(p.edges, p.draws[i].key)))
    && (forall i :: 0 <= i < |p.expenditures| ==>
          WholeCents(p.expenditures[i].funded) && WholeCents(-p.expenditures[i].gross)
              && WholeCents(ToExpenditure(p.edges, p.expenditures[i].id)))
  }

  lemma {:induction false} DrawsNear(p: Plan, n: nat)
    requires n <= |p.draws| && forall i :: 0 <= i < |p.draws| ==> DrawAllocated(p, i)
    ensures Abs(DrawTotal(p, n) - DrawnBy(p, n, p.edges)) <= n as real * CENT
    ensures PlanInCents(p) ==> DrawTotal(p, n) == DrawnBy(p, n, p.edges)
  {
    if n > 0 {
      DrawsNear(p, n - 1);
      assert DrawAllocated(p, n - 1);
      SameCent(FromDraw(p.edges, p.draws[n - 1].key), p.draws[n - 1].amount);
      hide AtCent, WholeCents, FromDraw;
    }
  }

  lemma {:induction false} SharesNear(p: Plan, n: nat)
    requires n <= |p.expenditures| && forall i :: 0 <= i < |p.expenditures| ==> ExpenditureFunded(p, i)
    ensures Abs(FundedTotal(p, n) - FundedBy(p, n, p.edges)) <= n as real * CENT
    ensures PlanInCents(p) ==> FundedTotal(p, n) == FundedBy(p, n, p.edges)
  {
    if n > 0 {
      SharesNear(p, n - 1);
      assert ExpenditureFunded(p, n - 1);
      SameCent(ToExpenditure(p.edges, p.expenditures[n - 1].id), p.expenditures[n - 1].funded);
      hide AtCent, WholeCents, ToExpenditure;
    }
  }

  /**
   A verified plan conserves funds: the draws and the funded shares total the same, within a cent
   an amount compared, and exactly in whole cents; and no share exceeds its gross expenditure.
   */
  lemma FundsConserved(p: Plan)
    requires Allocated(p)
    ensures var apart := DrawTotal(p, |p.draws|) - FundedTotal(p, |p.expenditures|);
            && Abs(apart) <= (|p.draws| + |p.expenditures|) as real * CENT
            && (PlanInCents(p) ==> apart == 0.0)
    ensures forall i :: 0 <= i < |p.expenditures| ==> p.expenditures[i].funded <= -p.expenditures[i].gross + CENT
    ensures PlanInCents(p) ==>
            forall i :: 0 <= i < |p.expenditures| ==> p.expenditures[i].funded <= -p.expenditures[i].gross
  {
    BothWays(p, p.edges);
    DrawsNear(p, |p.draws|);
    SharesNear(p, |p.expenditures|);
    forall i | 0 <= i < |p.expenditures|
      ensures p.expenditures[i].funded <= -p.expenditures[i].gross + CENT
      ensures PlanInCents(p) ==> p.expenditures[i].funded <= -p.expenditures[i].gross
    {
      assert ExpenditureFunded(p, i);
      NotAboveCent(p.expenditures[i].funded, -p.expenditures[i].gross);
    }
    hide AtCent, WholeCents, FromDraw, ToExpenditure, DrawnBy, FundedBy, DrawTotal, FundedTotal, EdgeTotal;
  }

  // ----- Nothing is funded twice -----

  /** What the first n expenditures state as funded for one source address. */
  function FundedAt(p: Plan, n: nat, address: string): real
    requires n <= |p.expenditures|
  {
    if n == 0 then 0.0
    else FundedAt(p, n - 1, address)
         + if p.expenditures[n - 1].address == address then p.expenditures[n - 1].funded else 0.0
  }

  lemma {:induction false} FundedAtOne(p: Plan, n: nat, i: nat)
    requires n <= |p.expenditures| && i < |p.expenditures| && DistinctExpenditures(p, |p.expenditures|)
    ensures FundedAt(p, n, p.expenditures[i].address) == if i < n then p.expenditures[i].funded else 0.0
    decreases n
  {
    if n > 0 {
      FundedAtOne(p, n - 1, i);
    }
  }

  /** What the edges state between one draw and one expenditure. */
  function Between(edges: seq<Edge>, draw: string, expenditure: string): real {
    if edges == [] then 0.0
    else
      var last := edges[|edges| - 1];
      Between(edges[..|edges| - 1], draw, expenditure)
      + if last.draw == draw && last.expenditure == expenditure then last.amount else 0.0
  }

  lemma {:induction false} BetweenOne(p: Plan, n: nat, k: nat)
    requires n <= |p.edges| && k < |p.edges| && DistinctEdges(p, |p.edges|)
    ensures Between(p.edges[..n], p.edges[k].draw, p.edges[k].expenditure) == if k < n then p.edges[k].amount else 0.0
    decreases n
  {
    if n > 0 {
      BetweenOne(p, n - 1, k);
      assert p.edges[..n][..n - 1] == p.edges[..n - 1];
    }
  }

  /**
   In a verified plan no source address is funded beyond its gross amount, by all expenditures
   together, and a draw pays an expenditure once.
   */
  lemma FundedOnce(p: Plan)
    requires Allocated(p)
    ensures forall i :: 0 <= i < |p.expenditures| ==>
              FundedAt(p, |p.expenditures|, p.expenditures[i].address) <= -p.expenditures[i].gross + CENT
    ensures forall k :: 0 <= k < |p.edges| ==>
              Between(p.edges, p.edges[k].draw, p.edges[k].expenditure) == p.edges[k].amount
  {
    FundsConserved(p);
    hide ExpenditureFunded, DrawAllocated, Declared, DrawTotal, FundedTotal, PlanInCents, Between, FundedAt;
    forall i | 0 <= i < |p.expenditures|
      ensures FundedAt(p, |p.expenditures|, p.expenditures[i].address) <= -p.expenditures[i].gross + CENT
    {
      FundedAtOne(p, |p.expenditures|, i);
    }
    forall k | 0 <= k < |p.edges|
      ensures Between(p.edges, p.edges[k].draw, p.edges[k].expenditure) == p.edges[k].amount
    {
      BetweenOne(p, |p.edges|, k);
      assert p.edges[..|p.edges|] == p.edges;
    }
  }
}
