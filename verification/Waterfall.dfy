/**
 The distribution waterfall over an admitted ladder: the row by row tier walk with both parties'
 running balances, the schedule it leaves and the terminal true-up.

 Money is exact: amounts, shares and rates are reals. The pinned power and the year fraction
 are parameters, of which only the laws named below are used.
 */
module Waterfall {
  import opened Common
  import opened Ladder

  datatype Procedure = Procedure(pow: (real, real) -> real, years: (int, int) -> real)

  /** The laws used of the power (on bases from one up) and of the year fraction. */
  ghost predicate Lawful(p: Procedure) {
    && (forall b, t :: b > 1.0 ==> p.pow(b, t) > 0.0)
    && (forall b, t :: b > 1.0 ==> p.pow(b, t) * p.pow(b, -t) == 1.0)
    && (forall b, t :: b > 1.0 && t >= 0.0 ==> p.pow(b, t) >= 1.0)
    && (forall d, e :: d <= e ==> p.years(d, e) >= 0.0)
  }

  datatype Flow = Flow(date: int, amount: real)

  /** One party's running record. */
  datatype Account = Account(
    unreturned: real, pref: real, contributions: real, distributions: real,
    roc: real, prefReceived: real, flows: seq<Flow>)

  datatype Ledger = Ledger(lp: Account, gp: Account)

  datatype Cell = Cell(tier: nat, lp: real, gp: real)

  datatype Entry = Entry(date: int, cells: seq<Cell>)

  datatype Basis = PreferredShortfall | MultipleFloor(multiple: real) | RateFloor(rate: real)

  datatype Clawback = Clawback(basis: Basis, netOfTax: Option<real>)

  datatype Terms = Terms(equity: (real, real), tiers: seq<Tier>, clawback: Option<Clawback>)

  const OPENING := Account(0.0, 0.0, 0.0, 0.0, 0.0, 0.0, [])

  /** Tiers the walk can take: each states admissible terms. */
  predicate Payable(tiers: seq<Tier>) {
    forall k :: 0 <= k < |tiers| ==> OwnTerms(tiers[k])
  }

  // ----- The hurdle balance -----

  /** The flows discounted to the anchor at a rate. */
  function Discounted(p: Procedure, anchor: int, rate: real, flows: seq<Flow>): real {
    if flows == [] then 0.0
    else
      var last := flows[|flows| - 1];
      Discounted(p, anchor, rate, flows[..|flows| - 1]) + last.amount * p.pow(1.0 + rate, -p.years(anchor, last.date))
  }

  /** What a party is still owed at a date for its flows to have earned the rate. */
  function Balance(p: Procedure, anchor: int, rate: real, flows: seq<Flow>, date: int): real {
    -Discounted(p, anchor, rate, flows) * p.pow(1.0 + rate, p.years(anchor, date))
  }

  method RunningBalance(p: Procedure, anchor: int, rate: real, flows: seq<Flow>, date: int) returns (balance: real)
    ensures balance == Balance(p, anchor, rate, flows, date)
  {
    var t := p.years(anchor, date);
    var discounted := 0.0;
    for k := 0 to |flows|
      invariant discounted == Discounted(p, anchor, rate, flows[..k])
    {
      assert flows[..k + 1][..k] == flows[..k];
      var ft := p.years(anchor, flows[k].date);
      discounted := discounted + flows[k].amount * p.pow(1.0 + rate, -ft);
    }
    assert flows[..|flows|] == flows;
    return -discounted * p.pow(1.0 + rate, t);
  }

  // ----- One tier -----

  function Max(a: real, b: real): real {
    if a < b then b else a
  }

  function Min(a: real, b: real): real {
    if b < a then b else a
  }

  function Profit(a: Account): real {
    a.distributions - a.roc
  }

  /** The shares of a payment in a tier: lp, then gp. */
  function Shares(t: Tier, l: Ledger): (real, real) {
    match t
    case ReturnOfCapital => Portions(l.lp.unreturned, l.gp.unreturned)
    case PreferredReturn(_, _) => Portions(l.lp.pref, l.gp.pref)
    case CatchUp(share, _) => (1.0 - share, share)
    case Split(lp, gp, _, _, _) => (lp, gp)
  }

  function Portions(a: real, b: real): (real, real) {
    if a + b > 0.0 then (a / (a + b), b / (a + b)) else (0.0, 0.0)
  }

  /** What a tier must pay for its share to bring distributions to a multiple of contributions. */
  function ShortOf(multiple: real, contributions: real, distributions: real, share: real): real
    requires share > 0.0
  {
    Max(0.0, multiple * contributions - distributions) / share
  }

  function EmCapacity(t: Tier, l: Ledger): real
    requires OwnTerms(t) && t.Split? && t.em.Some?
  {
    ShortOf(t.em.value, l.lp.contributions, l.lp.distributions, t.lpShare)
  }

  function IrrCapacity(p: Procedure, anchor: int, t: Tier, l: Ledger, date: int): real
    requires OwnTerms(t) && t.Split? && t.irr.Some?
  {
    Max(0.0, Balance(p, anchor, t.irr.value, l.lp.flows, date)) / t.lpShare
  }

  function SplitCapacity(p: Procedure, anchor: int, t: Tier, l: Ledger, cash: real, date: int): real
    requires OwnTerms(t) && t.Split?
  {
    if t.em.Some? && t.irr.Some? then
      if t.mode == Some(Any) then Min(EmCapacity(t, l), IrrCapacity(p, anchor, t, l, date))
      else Max(EmCapacity(t, l), IrrCapacity(p, anchor, t, l, date))
    else if t.em.Some? then EmCapacity(t, l)
    else if t.irr.Some? then IrrCapacity(p, anchor, t, l, date)
    else cash
  }

  function CatchUpCapacity(t: Tier, l: Ledger): real
    requires OwnTerms(t) && t.CatchUp?
  {
    Max(0.0, (t.targetPromote * (Profit(l.lp) + Profit(l.gp)) - Profit(l.gp)) / (t.gpShare - t.targetPromote))
  }

  /** The most a tier can take. */
  function Capacity(p: Procedure, anchor: int, t: Tier, l: Ledger, cash: real, date: int): real
    requires OwnTerms(t)
  {
    match t
    case ReturnOfCapital => l.lp.unreturned + l.gp.unreturned
    case PreferredReturn(_, _) => l.lp.pref + l.gp.pref
    case CatchUp(_, _) => CatchUpCapacity(t, l)
    case Split(_, _, _, _, _) => SplitCapacity(p, anchor, t, l, cash, date)
  }

  /** A party is paid a value by a tier. */
  function Credit(a: Account, t: Tier, value: real, date: int): Account {
    var paid := a.(distributions := a.distributions + value, flows := a.flows + [Flow(date, value)]);
    match t
    case ReturnOfCapital => paid.(unreturned := a.unreturned - value, roc := a.roc + value)
    case PreferredReturn(_, _) => paid.(pref := a.pref - value, prefReceived := a.prefReceived + value)
    case _ => paid
  }

  /** The walk of one row: the ledger, the cells paid and the cash still to pay. */
  datatype Walked = Walked(ledger: Ledger, cells: seq<Cell>, cash: real)

  /** A share of an amount. */
  function Of(share: real, amount: real): real {
    amount * share
  }

  function Pay(t: Tier, index: nat, date: int, w: Walked, payment: real): Walked {
    var shares := Shares(t, w.ledger);
    if payment > 0.0 then
      Walked(Ledger(Credit(w.ledger.lp, t, Of(shares.0, payment), date),
          Credit(w.ledger.gp, t, Of(shares.1, payment), date)),
             w.cells + [Cell(index, Of(shares.0, payment), Of(shares.1, payment))],
             w.cash - payment)
    else w.(cash := w.cash - payment)
  }

  function Payment(p: Procedure, anchor: int, t: Tier, date: int, w: Walked): real
    requires OwnTerms(t)
  {
    Min(w.cash, Capacity(p, anchor, t, w.ledger, w.cash, date))
  }

  /** The walk through the first n tiers. */
  function Walk(p: Procedure, anchor: int, tiers: seq<Tier>, n: nat, date: int, ledger: Ledger, amount: real): Walked
    requires n <= |tiers| && Payable(tiers)
  {
    if n == 0 then Walked(ledger, [], amount)
    else
      var w := Walk(p, anchor, tiers, n - 1, date, ledger, amount);
      Pay(tiers[n - 1], n - 1, date, w, Payment(p, anchor, tiers[n - 1], date, w))
  }

  // ----- One row and the run -----

  function FirstPreferred(tiers: seq<Tier>): Option<Tier> {
    if tiers == [] then None
    else if tiers[0].PreferredReturn? then Some(tiers[0])
    else FirstPreferred(tiers[1..])
  }

  /** The preferred return of one period on the capital outstanding, compounding if so stated. */
  function Accrual(p: Procedure, terms: Tier, unreturned: real, pref: real, dt: real): real
    requires terms.PreferredReturn?
  {
    if terms.simple then unreturned * terms.rate * dt
    else (pref + unreturned) * (p.pow(1.0 + terms.rate, dt) - 1.0)
  }

  function Accrued(p: Procedure, pref: Option<Tier>, a: Account, dt: real): Account {
    if pref.Some? && pref.value.PreferredReturn? then
      a.(pref := a.pref + Accrual(p, pref.value, a.unreturned, a.pref, dt))
    else a
  }

  function Contributed(a: Account, share: real, date: int): Account {
    a.(unreturned := a.unreturned + share, contributions := a.contributions + share,
       flows := a.flows + [Flow(date, -share)])
  }

  datatype Books = Books(ledger: Ledger, previous: int, schedule: seq<Entry>)

  function Step(p: Procedure, terms: Terms, anchor: int, b: Books, row: Flow): Books
    requires Payable(terms.tiers)
  {
    var pref := FirstPreferred(terms.tiers);
    var dt := p.years(b.previous, row.date);
    var l := Ledger(Accrued(p, pref, b.ledger.lp, dt), Accrued(p, pref, b.ledger.gp, dt));
    if row.amount < 0.0 then
      Books(Ledger(Contributed(l.lp, Of(terms.equity.0, -row.amount), row.date),
                   Contributed(l.gp, Of(terms.equity.1, -row.amount), row.date)), row.date, b.schedule)
    else if row.amount > 0.0 then
      var w := Walk(p, anchor, terms.tiers, |terms.tiers|, row.date, l, row.amount);
      Books(w.ledger, row.date, b.schedule + [Entry(row.date, w.cells)])
    else Books(l, row.date, b.schedule)
  }

  /** The books after the first n rows. */
  function Run(p: Procedure, terms: Terms, rows: seq<Flow>, n: nat): Books
    requires n <= |rows| && rows != [] && Payable(terms.tiers)
  {
    if n == 0 then Books(Ledger(OPENING, OPENING), rows[0].date, [])
    else Step(p, terms, rows[0].date, Run(p, terms, rows, n - 1), rows[n - 1])
  }

  // ----- What every step keeps -----

  function Total(flows: seq<Flow>): real {
    if flows == [] then 0.0 else Total(flows[..|flows| - 1]) + flows[|flows| - 1].amount
  }

  lemma TotalMore(flows: seq<Flow>, f: Flow)
    ensures Total(flows + [f]) == Total(flows) + f.amount
  {
    assert (flows + [f])[..|flows|] == flows;
  }

  /** A record in balance: capital outstanding and the flows follow from the totals. */
  predicate Sound(a: Account) {
    && a.unreturned == a.contributions - a.roc
    && a.unreturned >= 0.0 && a.pref >= 0.0 && a.contributions >= 0.0 && a.roc >= 0.0 && a.prefReceived >= 0.0
    && a.roc + a.prefReceived <= a.distributions
    && Total(a.flows) == a.distributions - a.contributions
  }

  predicate SoundLedger(l: Ledger) {
    Sound(l.lp) && Sound(l.gp)
  }

  lemma CreditSound(a: Account, t: Tier, value: real, date: int)
    requires Sound(a) && value >= 0.0
    requires t.ReturnOfCapital? ==> value <= a.unreturned
    requires t.PreferredReturn? ==> value <= a.pref
    ensures Sound(Credit(a, t, value, date))
  {
    TotalMore(a.flows, Flow(date, value));
  }

  lemma ContributedSound(a: Account, share: real, date: int)
    requires Sound(a) && share >= 0.0
    ensures Sound(Contributed(a, share, date))
  {
    TotalMore(a.flows, Flow(date, -share));
  }

  lemma ProductNonnegative(a: real, b: real)
    requires a >= 0.0 && b >= 0.0
    ensures a * b >= 0.0
  {
  }

  lemma AccruedSound(p: Procedure, pref: Option<Tier>, a: Account, dt: real)
    requires Lawful(p) && Sound(a) && dt >= 0.0
    requires pref.Some? && pref.value.PreferredReturn? ==> pref.value.rate > 0.0
    ensures Sound(Accrued(p, pref, a, dt))
  {
    if pref.Some? && pref.value.PreferredReturn? {
      ProductNonnegative(a.unreturned, pref.value.rate);
      ProductNonnegative(a.unreturned * pref.value.rate, dt);
      ProductNonnegative(a.pref + a.unreturned, p.pow(1.0 + pref.value.rate, dt) - 1.0);
    }
  }

  lemma PreferredIn(tiers: seq<Tier>)
    requires Payable(tiers)
    ensures FirstPreferred(tiers).Some? ==>
            FirstPreferred(tiers).value.PreferredReturn? && FirstPreferred(tiers).value.rate > 0.0
  {
  }

  // ----- One payment -----

  lemma PortionOf(payment: real, a: real, whole: real)
    requires 0.0 <= a && 0.0 < whole && 0.0 <= payment <= whole
    ensures 0.0 <= payment * (a / whole) <= a
  {
    var q := a / whole;
    assert q * whole == a;
    ProductNonnegative(payment, q);
    ProductNonnegative(whole - payment, q);
    assert (whole - payment) * q == whole * q - payment * q;
  }

  lemma PortionsWhole(payment: real, a: real, b: real)
    requires a + b > 0.0
    ensures payment * (a / (a + b)) + payment * (b / (a + b)) == payment
  {
    var whole := a + b;
    assert a / whole + b / whole == 1.0;
    assert payment * (a / whole + b / whole) == payment * (a / whole) + payment * (b / whole);
  }

  /** Every split's shares sum to one within the slack. */
  predicate Tight(tiers: seq<Tier>, slack: real) {
    forall k :: 0 <= k < |tiers| && tiers[k].Split? ==> Abs(tiers[k].lpShare + tiers[k].gpShare - 1.0) <= slack
  }

  /** The parts of a payment fit what is owed, and make up the payment within the slack. */
  predicate PartsFit(t: Tier, l: Ledger, payment: real, slack: real, lp: real, gp: real) {
    && lp >= 0.0 && gp >= 0.0
    && (t.ReturnOfCapital? ==> lp <= l.lp.unreturned && gp <= l.gp.unreturned)
    && (t.PreferredReturn? ==> lp <= l.lp.pref && gp <= l.gp.pref)
    && Abs(lp + gp - payment) <= Of(slack, payment)
  }

  /** A payment a tier can take. */
  predicate Takes(t: Tier, l: Ledger, payment: real) {
    && (t.ReturnOfCapital? ==> payment <= l.lp.unreturned + l.gp.unreturned)
    && (t.PreferredReturn? ==> payment <= l.lp.pref + l.gp.pref)
  }

  lemma PartsOfPayment(t: Tier, l: Ledger, payment: real, slack: real)
    requires OwnTerms(t) && SoundLedger(l) && payment > 0.0 && slack >= 0.0 && Takes(t, l, payment)
    requires t.Split? ==> Abs(t.lpShare + t.gpShare - 1.0) <= slack
    ensures var s := Shares(t, l);
            PartsFit(t, l, payment, slack, Of(s.0, payment), Of(s.1, payment))
  {
    OfNonnegative(slack, payment);
    hide Of, Total;
    match t
    case ReturnOfCapital =>
      PortionParts(payment, l.lp.unreturned, l.gp.unreturned);
    case PreferredReturn(_, _) =>
      PortionParts(payment, l.lp.pref, l.gp.pref);
    case CatchUp(share, _) =>
      OfNonnegative(share, payment);
      OfNonnegative(1.0 - share, payment);
      OfWhole(share, payment);
    case Split(lp, gp, _, _, _) =>
      OfNonnegative(lp, payment);
      OfNonnegative(gp, payment);
      SlackOfShares(payment, lp, gp, slack);
  }

  lemma OfNonnegative(share: real, amount: real)
    requires share >= 0.0 && amount >= 0.0
    ensures Of(share, amount) >= 0.0
  {
  }

  lemma OfWhole(share: real, amount: real)
    ensures Of(1.0 - share, amount) + Of(share, amount) == amount
  {
  }

  lemma OfSum(share: real, a: real, b: real)
    ensures Of(share, a + b) == Of(share, a) + Of(share, b)
  {
  }

  lemma PortionParts(payment: real, a: real, b: real)
    requires 0.0 < payment <= a + b && a >= 0.0 && b >= 0.0
    ensures var s := Portions(a, b);
            && 0.0 <= Of(s.0, payment) <= a && 0.0 <= Of(s.1, payment) <= b
            && Of(s.0, payment) + Of(s.1, payment) == payment
  {
    PortionOf(payment, a, a + b);
    PortionOf(payment, b, a + b);
    PortionsWhole(payment, a, b);
  }

  /** Capital and preferred return are paid in proportion to what each party is owed. */
  lemma PaidInProportion(t: Tier, index: nat, date: int, w: Walked, payment: real)
    requires payment > 0.0 && (t.ReturnOfCapital? || t.PreferredReturn?)
    requires t.ReturnOfCapital? ==> w.ledger.lp.unreturned + w.ledger.gp.unreturned > 0.0
    requires t.PreferredReturn? ==> w.ledger.lp.pref + w.ledger.gp.pref > 0.0
    ensures var cell := Pay(t, index, date, w, payment).cells[|w.cells|];
            var owed := if t.ReturnOfCapital? then (w.ledger.lp.unreturned, w.ledger.gp.unreturned)
                        else (w.ledger.lp.pref, w.ledger.gp.pref);
            && cell.tier == index && cell.lp + cell.gp == payment && cell.lp * owed.1 == cell.gp * owed.0
  {
    var owed := if t.ReturnOfCapital? then (w.ledger.lp.unreturned, w.ledger.gp.unreturned)
        else (w.ledger.lp.pref, w.ledger.gp.pref);
    PortionsWhole(payment, owed.0, owed.1);
    InProportion(payment, owed.0, owed.1);
    hide Credit;
  }

  lemma InProportion(payment: real, a: real, b: real)
    requires a + b > 0.0
    ensures (payment * (a / (a + b))) * b == (payment * (b / (a + b))) * a
  {
    var x, y := a / (a + b), b / (a + b);
    assert x * (a + b) == a && y * (a + b) == b;
    CrossShares(x, y, a, b, a + b);
    assert (payment * x) * b == payment * (x * b) && (payment * y) * a == payment * (y * a);
  }

  lemma CrossShares(x: real, y: real, a: real, b: real, whole: real)
    requires x * whole == a && y * whole == b
    ensures x * b == y * a
  {
    assert x * (y * whole) == y * (x * whole);
  }

  lemma SlackOfShares(payment: real, lp: real, gp: real, slack: real)
    requires payment >= 0.0 && Abs(lp + gp - 1.0) <= slack
    ensures Abs(Of(lp, payment) + Of(gp, payment) - payment) <= Of(slack, payment)
  {
    var e := lp + gp - 1.0;
    assert payment * lp + payment * gp - payment == payment * e;
    ProductNonnegative(payment, slack - e);
    ProductNonnegative(payment, slack + e);
    assert payment * (slack - e) == slack * payment - payment * e;
    assert payment * (slack + e) == slack * payment + payment * e;
  }

  // ----- One row -----

  function LpPaid(cells: seq<Cell>): real {
    if cells == [] then 0.0 else LpPaid(cells[..|cells| - 1]) + cells[|cells| - 1].lp
  }

  function GpPaid(cells: seq<Cell>): real {
    if cells == [] then 0.0 else GpPaid(cells[..|cells| - 1]) + cells[|cells| - 1].gp
  }

  lemma PaidMore(cells: seq<Cell>, c: Cell)
    ensures LpPaid(cells + [c]) == LpPaid(cells) + c.lp && GpPaid(cells + [c]) == GpPaid(cells) + c.gp
  {
    assert (cells + [c])[..|cells|] == cells;
  }

  /** A walk that started from a ledger and an amount: nothing lost beyond the slack. */
  predicate WalkSound(w: Walked, ledger: Ledger, amount: real, slack: real) {
    && SoundLedger(w.ledger) && 0.0 <= w.cash <= amount
    && w.ledger.lp.distributions == ledger.lp.distributions + LpPaid(w.cells)
    && w.ledger.gp.distributions == ledger.gp.distributions + GpPaid(w.cells)
    && w.ledger.lp.contributions == ledger.lp.contributions && w.ledger.gp.contributions == ledger.gp.contributions
    && Abs(LpPaid(w.cells) + GpPaid(w.cells) - (amount - w.cash)) <= Of(slack, amount - w.cash)
  }

  lemma CapacityNonnegative(p: Procedure, anchor: int, t: Tier, l: Ledger, cash: real, date: int)
    requires OwnTerms(t) && SoundLedger(l) && cash >= 0.0
    ensures Capacity(p, anchor, t, l, cash, date) >= 0.0
  {
    hide Balance, Total;
    if t.Split? {
      SplitNonnegative(p, anchor, t, l, cash, date);
    }
  }

  lemma QuotientNonnegative(a: real, b: real)
    requires a >= 0.0 && b > 0.0
    ensures a / b >= 0.0
  {
  }

  lemma SplitNonnegative(p: Procedure, anchor: int, t: Tier, l: Ledger, cash: real, date: int)
    requires OwnTerms(t) && t.Split? && cash >= 0.0
    ensures SplitCapacity(p, anchor, t, l, cash, date) >= 0.0
  {
    if t.em.Some? {
      QuotientNonnegative(Max(0.0, t.em.value * l.lp.contributions - l.lp.distributions), t.lpShare);
    }
    if t.irr.Some? {
      QuotientNonnegative(Max(0.0, Balance(p, anchor, t.irr.value, l.lp.flows, date)), t.lpShare);
    }
  }

  /** One payment keeps the walk sound. */
  lemma PaySound(t: Tier, index: nat, date: int, w: Walked, payment: real, ledger: Ledger, amount: real, slack: real)
    requires OwnTerms(t) && WalkSound(w, ledger, amount, slack) && 0.0 <= payment <= w.cash && slack >= 0.0
    requires Takes(t, w.ledger, payment)
    requires t.Split? ==> Abs(t.lpShare + t.gpShare - 1.0) <= slack
    ensures WalkSound(Pay(t, index, date, w, payment), ledger, amount, slack)
  {
    hide OwnTerms, Of, Sound, Takes;
    if payment > 0.0 {
      var s := Shares(t, w.ledger);
      PartsOfPayment(t, w.ledger, payment, slack);
      var lp, gp := Of(s.0, payment), Of(s.1, payment);
      hide Shares;
      CreditSound(w.ledger.lp, t, lp, date);
      CreditSound(w.ledger.gp, t, gp, date);
      PaidMore(w.cells, Cell(index, lp, gp));
      OfSum(slack, amount - w.cash, payment);
      hide LpPaid, GpPaid;
    }
  }

  /** The walk is sound after any number of tiers: nothing is lost beyond the slack. */
  lemma {:induction false} WalkIsSound(p: Procedure, anchor: int, tiers: seq<Tier>, n: nat, date: int, ledger: Ledger,
      amount: real, slack: real)
    requires n <= |tiers| && Payable(tiers)
    requires SoundLedger(ledger) && amount >= 0.0 && slack >= 0.0 && Tight(tiers, slack)
    ensures WalkSound(Walk(p, anchor, tiers, n, date, ledger, amount), ledger, amount, slack)
  {
    hide OwnTerms, Sound, Pay, Capacity, LpPaid, GpPaid;
    if n == 0 {
      WalkStarts(ledger, amount, slack);
    } else {
      var t := tiers[n - 1];
      WalkIsSound(p, anchor, tiers, n - 1, date, ledger, amount, slack);
      var w := Walk(p, anchor, tiers, n - 1, date, ledger, amount);
      CapacityNonnegative(p, anchor, t, w.ledger, w.cash, date);
      var payment := Payment(p, anchor, t, date, w);
      PaymentTaken(p, anchor, t, date, w);
      hide WalkSound, Payment, Takes;
      PaySound(t, n - 1, date, w, payment, ledger, amount, slack);
    }
  }

  lemma WalkStarts(ledger: Ledger, amount: real, slack: real)
    requires SoundLedger(ledger) && amount >= 0.0
    ensures WalkSound(Walked(ledger, [], amount), ledger, amount, slack)
  {
    hide Sound;
  }

  lemma PaymentTaken(p: Procedure, anchor: int, t: Tier, date: int, w: Walked)
    requires OwnTerms(t)
    ensures Takes(t, w.ledger, Payment(p, anchor, t, date, w))
  {
    hide OwnTerms, SplitCapacity, CatchUpCapacity;
  }

  /** An unbounded last tier takes all that is left. */
  lemma NothingLeft(p: Procedure, anchor: int, tiers: seq<Tier>, date: int, ledger: Ledger, amount: real)
    requires tiers != [] && Payable(tiers) && Unbounded(tiers[|tiers| - 1])
    ensures Walk(p, anchor, tiers, |tiers|, date, ledger, amount).cash == 0.0
  {
    hide OwnTerms, Shares;
    var t := tiers[|tiers| - 1];
    var w := Walk(p, anchor, tiers, |tiers| - 1, date, ledger, amount);
    assert Payment(p, anchor, t, date, w) == w.cash;
  }

  // ----- Whole runs -----

  function Incoming(rows: seq<Flow>, n: nat): (total: real)
    requires n <= |rows|
    ensures total >= 0.0
  {
    if n == 0 then 0.0 else Incoming(rows, n - 1) + Max(0.0, rows[n - 1].amount)
  }

  function Outgoing(rows: seq<Flow>, n: nat): (total: real)
    requires n <= |rows|
    ensures total >= 0.0
  {
    if n == 0 then 0.0 else Outgoing(rows, n - 1) + Max(0.0, -rows[n - 1].amount)
  }

  function LpScheduled(schedule: seq<Entry>): real {
    if schedule == [] then 0.0 else LpScheduled(schedule[..|schedule| - 1]) + LpPaid(schedule[|schedule| - 1].cells)
  }

  function GpScheduled(schedule: seq<Entry>): real {
    if schedule == [] then 0.0 else GpScheduled(schedule[..|schedule| - 1]) + GpPaid(schedule[|schedule| - 1].cells)
  }

  lemma ScheduledMore(schedule: seq<Entry>, e: Entry)
    ensures LpScheduled(schedule + [e]) == LpScheduled(schedule) + LpPaid(e.cells)
    ensures GpScheduled(schedule + [e]) == GpScheduled(schedule) + GpPaid(e.cells)
  {
    assert (schedule + [e])[..|schedule|] == schedule;
  }

  ghost predicate Chronological(rows: seq<Flow>) {
    forall i, j :: 0 <= i < j < |rows| ==> rows[i].date <= rows[j].date
  }

  /** Terms the allocation runs on, with shares that sum to one within the slack. */
  predicate Usable(terms: Terms, slack: real) {
    && Payable(terms.tiers) && terms.tiers != [] && Unbounded(terms.tiers[|terms.tiers| - 1])
    && Unit(terms.equity.0) && Unit(terms.equity.1)
    && slack >= 0.0 && Tight(terms.tiers, slack) && Abs(terms.equity.0 + terms.equity.1 - 1.0) <= slack
  }

  /** Every admitted ladder is usable at the tolerance, and with no slack when its shares are exact. */
  lemma AdmittedIsUsable(terms: Terms)
    requires Admitted(terms.equity, terms.tiers)
    ensures Usable(terms, TOLERANCE)
    ensures Tight(terms.tiers, 0.0) && terms.equity.0 + terms.equity.1 == 1.0 ==> Usable(terms, 0.0)
  {
    forall k | 0 <= k < |terms.tiers|
      ensures OwnTerms(terms.tiers[k])
      ensures terms.tiers[k].Split? ==> Abs(terms.tiers[k].lpShare + terms.tiers[k].gpShare - 1.0) <= TOLERANCE
    {
    }
    hide OwnTerms;
  }

  /** What the books keep: records in balance, totals on the schedule, money conserved. */
  predicate InBalance(b: Books, paidIn: real, paidOut: real, slack: real) {
    var lp, gp := b.ledger.lp, b.ledger.gp;
    && SoundLedger(b.ledger)
    && lp.distributions == LpScheduled(b.schedule) && gp.distributions == GpScheduled(b.schedule)
    && Abs(lp.contributions + gp.contributions - paidOut) <= Of(slack, paidOut)
    && Abs(lp.distributions + gp.distributions - paidIn) <= Of(slack, paidIn)
  }

  lemma ContributeInBalance(b: Books, equity: (real, real), row: Flow, paidIn: real, paidOut: real, slack: real)
    requires InBalance(b, paidIn, paidOut, slack) && row.amount < 0.0
    requires Unit(equity.0) && Unit(equity.1) && Abs(equity.0 + equity.1 - 1.0) <= slack
    ensures var l := Ledger(Contributed(b.ledger.lp, Of(equity.0, -row.amount), row.date),
                            Contributed(b.ledger.gp, Of(equity.1, -row.amount), row.date));
            InBalance(Books(l, row.date, b.schedule), paidIn, paidOut - row.amount, slack)
  {
    hide Of, Sound, LpScheduled, GpScheduled, Total;
    var lp, gp := Of(equity.0, -row.amount), Of(equity.1, -row.amount);
    OfNonnegative(equity.0, -row.amount);
    OfNonnegative(equity.1, -row.amount);
    SlackOfShares(-row.amount, equity.0, equity.1, slack);
    OfSum(slack, paidOut, -row.amount);
    ContributedSound(b.ledger.lp, lp, row.date);
    ContributedSound(b.ledger.gp, gp, row.date);
  }

  lemma DistributeInBalance(b: Books, w: Walked, row: Flow, paidIn: real, paidOut: real, slack: real)
    requires InBalance(b, paidIn, paidOut, slack)
    requires WalkSound(w, b.ledger, row.amount, slack) && w.cash == 0.0
    ensures InBalance(Books(w.ledger, row.date, b.schedule + [Entry(row.date, w.cells)]), paidIn + row.amount, paidOut,
            slack)
  {
    hide Of, Sound, LpPaid, GpPaid;
    OfSum(slack, paidIn, row.amount);
    ScheduledMore(b.schedule, Entry(row.date, w.cells));
  }

  lemma AccrueInBalance(p: Procedure, pref: Option<Tier>, b: Books, date: int, dt: real, paidIn: real, paidOut: real,
      slack: real)
    requires InBalance(b, paidIn, paidOut, slack) && Lawful(p) && dt >= 0.0
    requires pref.Some? && pref.value.PreferredReturn? ==> pref.value.rate > 0.0
    ensures InBalance(Books(Ledger(Accrued(p, pref, b.ledger.lp, dt), Accrued(p, pref, b.ledger.gp, dt)), date,
            b.schedule), paidIn, paidOut, slack)
  {
    AccruedSound(p, pref, b.ledger.lp, dt);
    AccruedSound(p, pref, b.ledger.gp, dt);
    AccruedTotals(p, pref, b.ledger.lp, dt);
    AccruedTotals(p, pref, b.ledger.gp, dt);
    hide Of, Sound, Accrued;
  }

  lemma AccruedTotals(p: Procedure, pref: Option<Tier>, a: Account, dt: real)
    ensures var r := Accrued(p, pref, a, dt);
            r.contributions == a.contributions && r.distributions == a.distributions
  {
  }

  /** One row from books in balance, by its sign. */
  lemma StepOut(p: Procedure, terms: Terms, anchor: int, b: Books, row: Flow, paidIn: real, paidOut: real, slack: real)
    requires InBalance(b, paidIn, paidOut, slack) && Usable(terms, slack) && Lawful(p) && b.previous <= row.date
    requires row.amount < 0.0
    ensures InBalance(Step(p, terms, anchor, b, row), paidIn, paidOut - row.amount, slack)
  {
    var pref := FirstPreferred(terms.tiers);
    var dt := p.years(b.previous, row.date);
    PreferredIn(terms.tiers);
    hide InBalance, FirstPreferred, Of, Accrued, Contributed, OwnTerms, Tight;
    AccrueInBalance(p, pref, b, row.date, dt, paidIn, paidOut, slack);
    var l := Ledger(Accrued(p, pref, b.ledger.lp, dt), Accrued(p, pref, b.ledger.gp, dt));
    ContributeInBalance(Books(l, row.date, b.schedule), terms.equity, row, paidIn, paidOut, slack);
  }

  lemma StepIn(p: Procedure, terms: Terms, anchor: int, b: Books, row: Flow, paidIn: real, paidOut: real, slack: real)
    requires InBalance(b, paidIn, paidOut, slack) && Usable(terms, slack) && Lawful(p) && b.previous <= row.date
    requires row.amount > 0.0
    ensures InBalance(Step(p, terms, anchor, b, row), paidIn + row.amount, paidOut, slack)
  {
    var pref := FirstPreferred(terms.tiers);
    var dt := p.years(b.previous, row.date);
    PreferredIn(terms.tiers);
    hide InBalance, FirstPreferred, Of, Accrued, OwnTerms, Tight, Walk;
    AccrueInBalance(p, pref, b, row.date, dt, paidIn, paidOut, slack);
    var l := Ledger(Accrued(p, pref, b.ledger.lp, dt), Accrued(p, pref, b.ledger.gp, dt));
    var accrued := Books(l, row.date, b.schedule);
    BalancedLedger(accrued, paidIn, paidOut, slack);
    hide WalkSound, SoundLedger;
    WalkIsSound(p, anchor, terms.tiers, |terms.tiers|, row.date, l, row.amount, slack);
    NothingLeft(p, anchor, terms.tiers, row.date, l, row.amount);
    var w := Walk(p, anchor, terms.tiers, |terms.tiers|, row.date, l, row.amount);
    DistributeInBalance(accrued, w, row, paidIn, paidOut, slack);
  }

  lemma BalancedLedger(b: Books, paidIn: real, paidOut: real, slack: real)
    requires InBalance(b, paidIn, paidOut, slack)
    ensures SoundLedger(b.ledger)
  {
    hide Sound, Of, LpScheduled, GpScheduled;
  }

  lemma StepStill(p: Procedure, terms: Terms, anchor: int, b: Books, row: Flow, paidIn: real, paidOut: real,
      slack: real)
    requires InBalance(b, paidIn, paidOut, slack) && Usable(terms, slack) && Lawful(p) && b.previous <= row.date
    requires row.amount == 0.0
    ensures InBalance(Step(p, terms, anchor, b, row), paidIn, paidOut, slack)
  {
    var pref := FirstPreferred(terms.tiers);
    var dt := p.years(b.previous, row.date);
    PreferredIn(terms.tiers);
    hide InBalance, FirstPreferred, Of, Accrued, OwnTerms, Tight;
    AccrueInBalance(p, pref, b, row.date, dt, paidIn, paidOut, slack);
  }

  lemma StepInBalance(p: Procedure, terms: Terms, anchor: int, b: Books, row: Flow, paidIn: real, paidOut: real,
      slack: real)
    requires InBalance(b, paidIn, paidOut, slack) && Payable(terms.tiers) && Usable(terms, slack) && Lawful(p)
    requires b.previous <= row.date
    ensures InBalance(Step(p, terms, anchor, b, row), paidIn + Max(0.0, row.amount), paidOut + Max(0.0, -row.amount),
            slack)
  {
    hide InBalance, Step, Usable, Lawful, Payable;
    if row.amount < 0.0 {
      StepOut(p, terms, anchor, b, row, paidIn, paidOut, slack);
    } else if row.amount > 0.0 {
      StepIn(p, terms, anchor, b, row, paidIn, paidOut, slack);
    } else {
      StepStill(p, terms, anchor, b, row, paidIn, paidOut, slack);
    }
  }

  lemma OfZero(share: real)
    ensures Of(share, 0.0) == 0.0
  {
  }

  lemma OpeningSound()
    ensures Sound(OPENING)
  {
  }

  lemma BalanceAtStart(date: int, slack: real)
    ensures InBalance(Books(Ledger(OPENING, OPENING), date, []), 0.0, 0.0, slack)
  {
    OfZero(slack);
    OpeningSound();
    hide Of, Sound;
  }

  lemma RunUnfolds(p: Procedure, terms: Terms, rows: seq<Flow>, n: nat)
    requires 0 < n <= |rows| && Payable(terms.tiers)
    ensures Run(p, terms, rows, n) == Step(p, terms, rows[0].date, Run(p, terms, rows, n - 1), rows[n - 1])
    ensures Incoming(rows, n) == Incoming(rows, n - 1) + Max(0.0, rows[n - 1].amount)
    ensures Outgoing(rows, n) == Outgoing(rows, n - 1) + Max(0.0, -rows[n - 1].amount)
    ensures Run(p, terms, rows, n - 1).previous == (if n == 1 then rows[0].date else rows[n - 2].date)
  {
    hide Payable, Walk, Accrued, Contributed, Of;
  }

  /** The books are in balance after every row of every chronological series. */
  lemma {:induction false} RunInBalance(p: Procedure, terms: Terms, rows: seq<Flow>, n: nat, slack: real)
    requires n <= |rows| && rows != [] && Chronological(rows) && Payable(terms.tiers) && Usable(terms, slack)
    requires Lawful(p)
    ensures InBalance(Run(p, terms, rows, n), Incoming(rows, n), Outgoing(rows, n), slack)
  {
    hide Usable, Lawful, Payable, InBalance, Step;
    if n == 0 {
      BalanceAtStart(rows[0].date, slack);
    } else {
      RunInBalance(p, terms, rows, n - 1, slack);
      RunUnfolds(p, terms, rows, n);
      hide Run, Incoming, Outgoing, Max;
      StepInBalance(p, terms, rows[0].date, Run(p, terms, rows, n - 1), rows[n - 1], Incoming(rows, n - 1),
          Outgoing(rows, n - 1), slack);
    }
  }

  /** The sum of a series, and the sum of its magnitudes. */
  function Net(rows: seq<Flow>, n: nat): real
    requires n <= |rows|
  {
    if n == 0 then 0.0 else Net(rows, n - 1) + rows[n - 1].amount
  }

  function Volume(rows: seq<Flow>, n: nat): real
    requires n <= |rows|
  {
    if n == 0 then 0.0 else Volume(rows, n - 1) + Abs(rows[n - 1].amount)
  }

  lemma {:induction false} InAndOut(rows: seq<Flow>, n: nat)
    requires n <= |rows|
    ensures Net(rows, n) == Incoming(rows, n) - Outgoing(rows, n)
    ensures Volume(rows, n) == Incoming(rows, n) + Outgoing(rows, n)
  {
    if n > 0 {
      InAndOut(rows, n - 1);
    }
  }

  function ProfitTotal(l: Ledger): real {
    l.lp.distributions + l.gp.distributions - (l.lp.contributions + l.gp.contributions)
  }

  lemma ProfitWithin(b: Books, rows: seq<Flow>, slack: real)
    requires InBalance(b, Incoming(rows, |rows|), Outgoing(rows, |rows|), slack)
    ensures Abs(ProfitTotal(b.ledger) - Net(rows, |rows|)) <= Of(slack, Volume(rows, |rows|))
  {
    InAndOut(rows, |rows|);
    OfSum(slack, Incoming(rows, |rows|), Outgoing(rows, |rows|));
    hide Of, Sound, Incoming, Outgoing, Net, Volume;
  }

  lemma NoSlack(a: real, amount: real)
    requires Abs(a) <= Of(0.0, amount)
    ensures a == 0.0
  {
  }

  /** What a finished run must keep, within a slack of the series' volume. */
  predicate Conserved(b: Books, rows: seq<Flow>, slack: real) {
    && Sound(b.ledger.lp) && Sound(b.ledger.gp)
    && b.ledger.lp.distributions == LpScheduled(b.schedule)
    && b.ledger.gp.distributions == GpScheduled(b.schedule)
    && Abs(ProfitTotal(b.ledger) - Net(rows, |rows|)) <= Of(slack, Volume(rows, |rows|))
  }

  lemma BalancedIsConserved(b: Books, rows: seq<Flow>, slack: real)
    requires InBalance(b, Incoming(rows, |rows|), Outgoing(rows, |rows|), slack)
    ensures Conserved(b, rows, slack)
  {
    ProfitWithin(b, rows, slack);
    hide Of, Sound, Incoming, Outgoing, Net, Volume, ProfitTotal, LpScheduled, GpScheduled;
  }

  /** Without slack the profit is the sum of the series. */
  lemma ConservedExactly(b: Books, rows: seq<Flow>)
    requires Conserved(b, rows, 0.0)
    ensures ProfitTotal(b.ledger) == Net(rows, |rows|)
  {
    hide Of, Sound, Net, Volume, ProfitTotal, LpScheduled, GpScheduled, Abs;
    NoSlack(ProfitTotal(b.ledger) - Net(rows, |rows|), Volume(rows, |rows|));
  }

  /**
   Conservation over a whole run of an admitted ladder: both records are in balance, the schedule
   accounts for every distribution, and the profit is the sum of the series, within the tolerance
   of its volume, exactly when every pair of shares sums to one.
   */
  lemma Conservation(p: Procedure, terms: Terms, rows: seq<Flow>)
    requires rows != [] && Chronological(rows) && Lawful(p)
    requires Payable(terms.tiers) && Admitted(terms.equity, terms.tiers)
    ensures Conserved(Run(p, terms, rows, |rows|), rows, TOLERANCE)
    ensures Tight(terms.tiers, 0.0) && terms.equity.0 + terms.equity.1 == 1.0 ==>
              ProfitTotal(Run(p, terms, rows, |rows|).ledger) == Net(rows, |rows|)
  {
    hide *;
    AdmittedIsUsable(terms);
    var b := Run(p, terms, rows, |rows|);
    RunInBalance(p, terms, rows, |rows|, TOLERANCE);
    BalancedIsConserved(b, rows, TOLERANCE);
    if Tight(terms.tiers, 0.0) && terms.equity.0 + terms.equity.1 == 1.0 {
      RunInBalance(p, terms, rows, |rows|, 0.0);
      BalancedIsConserved(b, rows, 0.0);
      ConservedExactly(b, rows);
    }
  }

  /** One more entry, of the row's date, whose cells make up its amount within the slack. */
  predicate PaidInFull(before: seq<Entry>, after: seq<Entry>, row: Flow, slack: real) {
    && |after| == |before| + 1 && before <= after && after[|before|].date == row.date
    && Abs(LpPaid(after[|before|].cells) + GpPaid(after[|before|].cells) - row.amount) <= Of(slack, row.amount)
  }

  lemma PreviousDate(p: Procedure, terms: Terms, rows: seq<Flow>, n: nat)
    requires n < |rows| && Chronological(rows) && Payable(terms.tiers)
    ensures Run(p, terms, rows, n).previous <= rows[n].date
  {
    hide Run, Payable;
    RunUnfolds(p, terms, rows, n + 1);
  }

  /** Every positive row leaves one schedule entry that pays it out in full, within the slack. */
  lemma RowPaidOut(p: Procedure, terms: Terms, rows: seq<Flow>, n: nat, slack: real)
    requires n < |rows| && Chronological(rows) && Lawful(p) && Payable(terms.tiers) && Usable(terms, slack)
    requires rows[n].amount > 0.0
    ensures PaidInFull(Run(p, terms, rows, n).schedule, Run(p, terms, rows, n + 1).schedule, rows[n], slack)
  {
    hide *;
    PreviousDate(p, terms, rows, n);
    RunInBalance(p, terms, rows, n, slack);
    RunUnfolds(p, terms, rows, n + 1);
    var b := Run(p, terms, rows, n);
    BalancedLedger(b, Incoming(rows, n), Outgoing(rows, n), slack);
    StepPaysOut(p, terms, rows[0].date, b, rows[n], slack);
  }

  lemma StepPaysOut(p: Procedure, terms: Terms, anchor: int, b: Books, row: Flow, slack: real)
    requires Lawful(p) && Payable(terms.tiers) && Usable(terms, slack) && SoundLedger(b.ledger)
    requires row.amount > 0.0 && b.previous <= row.date
    ensures PaidInFull(b.schedule, Step(p, terms, anchor, b, row).schedule, row, slack)
  {
    var pref := FirstPreferred(terms.tiers);
    var dt := p.years(b.previous, row.date);
    PreferredIn(terms.tiers);
    hide FirstPreferred, Of, Accrued, OwnTerms, Tight, Walk, Sound;
    AccruedSound(p, pref, b.ledger.lp, dt);
    AccruedSound(p, pref, b.ledger.gp, dt);
    var l := Ledger(Accrued(p, pref, b.ledger.lp, dt), Accrued(p, pref, b.ledger.gp, dt));
    hide LpPaid, GpPaid;
    WalkIsSound(p, anchor, terms.tiers, |terms.tiers|, row.date, l, row.amount, slack);
    NothingLeft(p, anchor, terms.tiers, row.date, l, row.amount);
  }

  // ----- Targets reached -----

  predicate EmReached(t: Tier, l: Ledger) {
    t.Split? && t.em.Some? && l.lp.distributions >= t.em.value * l.lp.contributions
  }

  predicate IrrReached(p: Procedure, anchor: int, t: Tier, l: Ledger, date: int) {
    t.Split? && t.irr.Some? && Balance(p, anchor, t.irr.value, l.lp.flows, date) <= 0.0
  }

  /** What a tier is for has been achieved. */
  predicate Reached(p: Procedure, anchor: int, t: Tier, l: Ledger, date: int) {
    match t
    case ReturnOfCapital => l.lp.unreturned == 0.0 && l.gp.unreturned == 0.0
    case PreferredReturn(_, _) => l.lp.pref == 0.0 && l.gp.pref == 0.0
    case CatchUp(_, promote) => Profit(l.gp) >= promote * (Profit(l.lp) + Profit(l.gp))
    case Split(_, _, em, irr, mode) =>
      if em.Some? && irr.Some? then
        if mode == Some(Any) then EmReached(t, l) || IrrReached(p, anchor, t, l, date)
        else EmReached(t, l) && IrrReached(p, anchor, t, l, date)
      else if em.Some? then EmReached(t, l)
      else irr.Some? && IrrReached(p, anchor, t, l, date)
  }

  /** A payment to the limited partner at a date lowers what is owed at that date by the payment. */
  lemma BalanceFalls(p: Procedure, anchor: int, rate: real, flows: seq<Flow>, date: int, value: real)
    requires Lawful(p) && rate > 0.0
    ensures Balance(p, anchor, rate, flows + [Flow(date, value)], date) == Balance(p, anchor, rate, flows, date) - value
  {
    hide Discounted, Lawful;
    var t := p.years(anchor, date);
    PowerInverse(p, 1.0 + rate, t);
    DiscountedMore(p, anchor, rate, flows, date, value);
    Compounded(Discounted(p, anchor, rate, flows), value, p.pow(1.0 + rate, t), p.pow(1.0 + rate, -t));
  }

  lemma PowerInverse(p: Procedure, b: real, t: real)
    requires Lawful(p) && b > 1.0
    ensures p.pow(b, t) * p.pow(b, -t) == 1.0
  {
  }

  lemma DiscountedMore(p: Procedure, anchor: int, rate: real, flows: seq<Flow>, date: int, value: real)
    ensures Discounted(p, anchor, rate, flows + [Flow(date, value)])
            == Discounted(p, anchor, rate, flows) + value * p.pow(1.0 + rate, -p.years(anchor, date))
  {
    assert (flows + [Flow(date, value)])[..|flows|] == flows;
  }

  lemma Compounded(d: real, value: real, up: real, down: real)
    requires up * down == 1.0
    ensures -(d + value * down) * up == -d * up - value
  {
    assert value * down * up == value;
  }

  lemma QuotientOf(a: real, b: real)
    requires b > 0.0
    ensures Of(b, a / b) == a
  {
  }

  lemma OfMonotone(share: real, a: real, b: real)
    requires share >= 0.0 && a <= b
    ensures Of(share, a) <= Of(share, b)
  {
    ProductNonnegative(share, b - a);
  }

  lemma OfStrict(share: real, a: real, b: real)
    requires share > 0.0 && a < b
    ensures Of(share, a) < Of(share, b)
  {
  }

  /** A multiple hurdle: reached exactly by its full capacity, and not passed by less. */
  lemma EmTarget(t: Tier, l: Ledger, payment: real, date: int)
    requires OwnTerms(t) && t.Split? && t.em.Some? && payment >= 0.0
    ensures var paid := Credit(l.lp, t, Of(t.lpShare, payment), date);
            && (payment >= EmCapacity(t, l) ==> paid.distributions >= t.em.value * paid.contributions)
            && (payment == EmCapacity(t, l) > 0.0 ==> paid.distributions == t.em.value * paid.contributions)
            && (payment < EmCapacity(t, l) ==> paid.distributions < t.em.value * paid.contributions)
  {
    var shortfall := t.em.value * l.lp.contributions - l.lp.distributions;
    QuotientOf(Max(0.0, shortfall), t.lpShare);
    TargetMet(shortfall, t.lpShare, payment);
    hide Of;
  }

  /** Paying a share of a capacity that is a shortfall over that share closes the shortfall. */
  lemma TargetMet(shortfall: real, share: real, payment: real)
    requires share > 0.0 && payment >= 0.0
    ensures var capacity := Max(0.0, shortfall) / share;
            && (payment >= capacity ==> Of(share, payment) >= shortfall)
            && (payment == capacity > 0.0 ==> Of(share, payment) == shortfall)
            && (payment < capacity ==> Of(share, payment) < shortfall)
  {
    var capacity := Max(0.0, shortfall) / share;
    QuotientOf(Max(0.0, shortfall), share);
    if payment >= capacity {
      OfMonotone(share, capacity, payment);
    } else {
      OfStrict(share, payment, capacity);
    }
  }

  /** An IRR hurdle: its full capacity leaves a zero balance, less leaves some owed. */
  lemma IrrTarget(p: Procedure, anchor: int, t: Tier, l: Ledger, payment: real, date: int)
    requires Lawful(p) && OwnTerms(t) && t.Split? && t.irr.Some? && payment >= 0.0
    ensures var owed := Balance(p, anchor, t.irr.value, Credit(l.lp, t, Of(t.lpShare, payment), date).flows, date);
            && (payment >= IrrCapacity(p, anchor, t, l, date) ==> owed <= 0.0)
            && (payment == IrrCapacity(p, anchor, t, l, date) > 0.0 ==> owed == 0.0)
            && (payment < IrrCapacity(p, anchor, t, l, date) ==> owed > 0.0)
  {
    BalanceFalls(p, anchor, t.irr.value, l.lp.flows, date, Of(t.lpShare, payment));
    TargetMet(Balance(p, anchor, t.irr.value, l.lp.flows, date), t.lpShare, payment);
    hide Of, Balance, Lawful;
  }

  /** The catch-up: its full capacity brings the general partner to its share of all profit, less does not. */
  lemma CatchUpTarget(t: Tier, l: Ledger, payment: real, date: int)
    requires OwnTerms(t) && t.CatchUp? && payment >= 0.0
    ensures var s := Shares(t, l);
            var lp, gp := Credit(l.lp, t, Of(s.0, payment), date), Credit(l.gp, t, Of(s.1, payment), date);
            var due := t.targetPromote * (Profit(lp) + Profit(gp));
            && (payment >= CatchUpCapacity(t, l) ==> Profit(gp) >= due)
            && (payment == CatchUpCapacity(t, l) > 0.0 ==> Profit(gp) == due)
            && (payment < CatchUpCapacity(t, l) ==> Profit(gp) < due)
  {
    var total := Profit(l.lp) + Profit(l.gp);
    var shortfall := t.targetPromote * total - Profit(l.gp);
    CatchUpQuotient(shortfall, t.gpShare - t.targetPromote);
    TargetMet(shortfall, t.gpShare - t.targetPromote, payment);
    OfWhole(t.gpShare, payment);
    CatchUpShift(t.gpShare, t.targetPromote, total, Profit(l.gp), payment);
    hide Of, CatchUpCapacity;
  }

  /** The larger of zero and a quotient is the quotient of the larger of zero and the shortfall. */
  lemma CatchUpQuotient(shortfall: real, share: real)
    requires share > 0.0
    ensures Max(0.0, shortfall / share) == Max(0.0, shortfall) / share
  {
    var q := shortfall / share;
    assert q * share == shortfall;
    if shortfall >= 0.0 {
      QuotientNonnegative(shortfall, share);
    } else {
      QuotientNonnegative(-shortfall, share);
    }
  }

  lemma CatchUpShift(share: real, promote: real, total: real, gp: real, payment: real)
    ensures gp + Of(share, payment) - promote * (total + payment)
            == Of(share - promote, payment) - (promote * total - gp)
  {
  }

  // ----- Priority of payments -----

  /** Cash goes past a tier only when the tier's target has been reached. */
  lemma PastTier(p: Procedure, anchor: int, t: Tier, index: nat, date: int, w: Walked)
    requires Lawful(p) && OwnTerms(t) && SoundLedger(w.ledger) && w.cash >= 0.0
    requires Payment(p, anchor, t, date, w) < w.cash
    ensures Reached(p, anchor, t, Pay(t, index, date, w, Payment(p, anchor, t, date, w)).ledger, date)
  {
    var payment := Payment(p, anchor, t, date, w);
    CapacityNonnegative(p, anchor, t, w.ledger, w.cash, date);
    match t
    case ReturnOfCapital =>
      PastCapital(p, anchor, t, index, date, w);
    case PreferredReturn(_, _) =>
      PastPreferred(p, anchor, t, index, date, w);
    case CatchUp(_, _) =>
      PastCatchUp(p, anchor, t, index, date, w);
    case Split(_, _, _, _, _) =>
      PastSplit(p, anchor, t, index, date, w);
  }

  lemma PastCapital(p: Procedure, anchor: int, t: Tier, index: nat, date: int, w: Walked)
    requires t.ReturnOfCapital? && SoundLedger(w.ledger)
    requires Payment(p, anchor, t, date, w) < w.cash
    ensures Reached(p, anchor, t, Pay(t, index, date, w, Payment(p, anchor, t, date, w)).ledger, date)
  {
    var l := w.ledger;
    if l.lp.unreturned + l.gp.unreturned > 0.0 {
      QuotientOf(l.lp.unreturned, l.lp.unreturned + l.gp.unreturned);
      QuotientOf(l.gp.unreturned, l.lp.unreturned + l.gp.unreturned);
      OfSwap(l.lp.unreturned + l.gp.unreturned, l.lp.unreturned / (l.lp.unreturned + l.gp.unreturned));
      OfSwap(l.lp.unreturned + l.gp.unreturned, l.gp.unreturned / (l.lp.unreturned + l.gp.unreturned));
    }
    hide Of;
  }

  lemma PastPreferred(p: Procedure, anchor: int, t: Tier, index: nat, date: int, w: Walked)
    requires t.PreferredReturn? && OwnTerms(t) && SoundLedger(w.ledger)
    requires Payment(p, anchor, t, date, w) < w.cash
    ensures Reached(p, anchor, t, Pay(t, index, date, w, Payment(p, anchor, t, date, w)).ledger, date)
  {
    var l := w.ledger;
    if l.lp.pref + l.gp.pref > 0.0 {
      QuotientOf(l.lp.pref, l.lp.pref + l.gp.pref);
      QuotientOf(l.gp.pref, l.lp.pref + l.gp.pref);
      OfSwap(l.lp.pref + l.gp.pref, l.lp.pref / (l.lp.pref + l.gp.pref));
      OfSwap(l.lp.pref + l.gp.pref, l.gp.pref / (l.lp.pref + l.gp.pref));
    }
    hide Of;
  }

  lemma OfSwap(a: real, b: real)
    ensures Of(a, b) == Of(b, a)
  {
  }

  lemma PastCatchUp(p: Procedure, anchor: int, t: Tier, index: nat, date: int, w: Walked)
    requires t.CatchUp? && OwnTerms(t) && SoundLedger(w.ledger) && w.cash >= 0.0
    requires Payment(p, anchor, t, date, w) < w.cash
    ensures Reached(p, anchor, t, Pay(t, index, date, w, Payment(p, anchor, t, date, w)).ledger, date)
  {
    var payment := Payment(p, anchor, t, date, w);
    CatchUpTarget(t, w.ledger, payment, date);
    CreditNothing(t, w.ledger, date, 1.0 - t.gpShare, t.gpShare);
    hide Of, CatchUpCapacity;
  }

  /** A payment of nothing leaves the profits as they were. */
  lemma CreditNothing(t: Tier, l: Ledger, date: int, lp: real, gp: real)
    ensures var a, b := Credit(l.lp, t, Of(lp, 0.0), date), Credit(l.gp, t, Of(gp, 0.0), date);
            && Profit(a) == Profit(l.lp) && Profit(b) == Profit(l.gp)
            && a.distributions == l.lp.distributions && a.contributions == l.lp.contributions
  {
    OfZero(lp);
    OfZero(gp);
    hide Of;
  }

  lemma PastEm(t: Tier, index: nat, date: int, w: Walked, payment: real)
    requires t.Split? && OwnTerms(t) && t.em.Some? && payment >= 0.0 && payment >= EmCapacity(t, w.ledger)
    ensures EmReached(t, Pay(t, index, date, w, payment).ledger)
  {
    EmTarget(t, w.ledger, payment, date);
    CreditNothing(t, w.ledger, date, t.lpShare, t.gpShare);
    hide Of, EmCapacity;
  }

  lemma PastIrr(p: Procedure, anchor: int, t: Tier, index: nat, date: int, w: Walked, payment: real)
    requires Lawful(p) && t.Split? && OwnTerms(t) && t.irr.Some? && payment >= 0.0
    requires payment >= IrrCapacity(p, anchor, t, w.ledger, date)
    ensures IrrReached(p, anchor, t, Pay(t, index, date, w, payment).ledger, date)
  {
    IrrTarget(p, anchor, t, w.ledger, payment, date);
    BalanceFalls(p, anchor, t.irr.value, w.ledger.lp.flows, date, Of(t.lpShare, 0.0));
    OfZero(t.lpShare);
    hide Of, Balance, IrrCapacity, Lawful;
  }

  lemma PastSplit(p: Procedure, anchor: int, t: Tier, index: nat, date: int, w: Walked)
    requires Lawful(p) && t.Split? && OwnTerms(t) && SoundLedger(w.ledger) && w.cash >= 0.0
    requires Payment(p, anchor, t, date, w) < w.cash
    ensures Reached(p, anchor, t, Pay(t, index, date, w, Payment(p, anchor, t, date, w)).ledger, date)
  {
    var payment := Payment(p, anchor, t, date, w);
    SplitNonnegative(p, anchor, t, w.ledger, w.cash, date);
    hide Of, EmCapacity, IrrCapacity, Lawful, EmReached, IrrReached, Pay, SoundLedger;
    if t.em.Some? && payment >= EmCapacity(t, w.ledger) {
      PastEm(t, index, date, w, payment);
    }
    if t.irr.Some? && payment >= IrrCapacity(p, anchor, t, w.ledger, date) {
      PastIrr(p, anchor, t, index, date, w, payment);
    }
  }

  // ----- No tier takes more than its target needs -----

  lemma EmPaid(t: Tier, index: nat, date: int, w: Walked, payment: real)
    requires t.Split? && OwnTerms(t) && t.em.Some? && payment >= 0.0
    ensures EmReached(t, Pay(t, index, date, w, payment).ledger) <==> payment >= EmCapacity(t, w.ledger)
  {
    EmTarget(t, w.ledger, payment, date);
    CreditNothing(t, w.ledger, date, t.lpShare, t.gpShare);
    hide Of, EmCapacity;
  }

  lemma IrrPaid(p: Procedure, anchor: int, t: Tier, index: nat, date: int, w: Walked, payment: real)
    requires Lawful(p) && t.Split? && OwnTerms(t) && t.irr.Some? && payment >= 0.0
    ensures IrrReached(p, anchor, t, Pay(t, index, date, w, payment).ledger, date)
            <==> payment >= IrrCapacity(p, anchor, t, w.ledger, date)
  {
    IrrTarget(p, anchor, t, w.ledger, payment, date);
    BalanceFalls(p, anchor, t.irr.value, w.ledger.lp.flows, date, Of(t.lpShare, 0.0));
    OfZero(t.lpShare);
    hide Of, Balance, IrrCapacity, Lawful;
  }

  lemma SplitPaid(p: Procedure, anchor: int, t: Tier, index: nat, date: int, w: Walked, payment: real)
    requires Lawful(p) && t.Split? && OwnTerms(t) && !Unbounded(t) && payment >= 0.0
    ensures Reached(p, anchor, t, Pay(t, index, date, w, payment).ledger, date)
            <==> payment >= SplitCapacity(p, anchor, t, w.ledger, w.cash, date)
  {
    if t.em.Some? {
      EmPaid(t, index, date, w, payment);
    }
    if t.irr.Some? {
      IrrPaid(p, anchor, t, index, date, w, payment);
    }
    hide Of, EmCapacity, IrrCapacity, Lawful, EmReached, IrrReached, Pay;
  }

  lemma CatchUpPaid(p: Procedure, anchor: int, t: Tier, index: nat, date: int, w: Walked, payment: real)
    requires t.CatchUp? && OwnTerms(t) && payment >= 0.0
    ensures Reached(p, anchor, t, Pay(t, index, date, w, payment).ledger, date)
            <==> payment >= CatchUpCapacity(t, w.ledger)
  {
    CatchUpTarget(t, w.ledger, payment, date);
    CreditNothing(t, w.ledger, date, 1.0 - t.gpShare, t.gpShare);
    hide Of, CatchUpCapacity;
  }

  lemma BothPaid(a: real, b: real, payment: real)
    requires a >= 0.0 && b >= 0.0 && a + b > 0.0
    ensures var s := Portions(a, b);
            (a - Of(s.0, payment) == 0.0 && b - Of(s.1, payment) == 0.0) <==> payment == a + b
  {
    PortionsWhole(payment, a, b);
    QuotientOf(a, a + b);
    QuotientOf(b, a + b);
    OfSwap(a + b, a / (a + b));
    OfSwap(a + b, b / (a + b));
    assert Of(a / (a + b), payment) + Of(b / (a + b), payment) == payment;
    hide Of;
  }

  lemma DuePaid(p: Procedure, anchor: int, t: Tier, index: nat, date: int, w: Walked, payment: real)
    requires (t.ReturnOfCapital? || t.PreferredReturn?) && OwnTerms(t) && SoundLedger(w.ledger)
    requires 0.0 <= payment <= Capacity(p, anchor, t, w.ledger, w.cash, date)
    ensures Reached(p, anchor, t, Pay(t, index, date, w, payment).ledger, date)
            <==> payment == Capacity(p, anchor, t, w.ledger, w.cash, date)
  {
    var l := w.ledger;
    if payment > 0.0 {
      if t.ReturnOfCapital? {
        BothPaid(l.lp.unreturned, l.gp.unreturned, payment);
      } else {
        BothPaid(l.lp.pref, l.gp.pref, payment);
      }
    }
    hide Of, Portions;
  }

  /**
   A payment within a tier's capacity reaches the tier's target if and only if it is the whole
   capacity: no tier stops short of its target or takes more than the target needs. With two
   hurdles the target is both of them, or the first of them under `any`.
   */
  lemma FullCapacity(p: Procedure, anchor: int, t: Tier, index: nat, date: int, w: Walked, payment: real)
    requires Lawful(p) && OwnTerms(t) && SoundLedger(w.ledger) && !Unbounded(t)
    requires 0.0 <= payment <= Capacity(p, anchor, t, w.ledger, w.cash, date)
    ensures Reached(p, anchor, t, Pay(t, index, date, w, payment).ledger, date)
            <==> payment == Capacity(p, anchor, t, w.ledger, w.cash, date)
  {
    match t {
      case CatchUp(_, _) => CatchUpPaid(p, anchor, t, index, date, w, payment);
      case Split(_, _, _, _, _) => SplitPaid(p, anchor, t, index, date, w, payment);
      case _ => DuePaid(p, anchor, t, index, date, w, payment);
    }
    hide Reached, Pay, CatchUpCapacity, SplitCapacity, Lawful, SoundLedger;
  }

  lemma EmStays(earlier: Tier, t: Tier, l: Ledger, lp: real, gp: real, date: int)
    requires EmReached(earlier, l) && lp >= 0.0
    ensures EmReached(earlier, Ledger(Credit(l.lp, t, lp, date), Credit(l.gp, t, gp, date)))
  {
  }

  lemma IrrStays(p: Procedure, anchor: int, earlier: Tier, t: Tier, l: Ledger, lp: real, gp: real, date: int)
    requires Lawful(p) && OwnTerms(earlier) && IrrReached(p, anchor, earlier, l, date) && lp >= 0.0
    ensures IrrReached(p, anchor, earlier, Ledger(Credit(l.lp, t, lp, date), Credit(l.gp, t, gp, date)), date)
  {
    BalanceFalls(p, anchor, earlier.irr.value, l.lp.flows, date, lp);
    hide Balance, Lawful;
  }

  lemma CapitalStays(t: Tier, l: Ledger, lp: real, gp: real, date: int)
    requires lp >= 0.0 && gp >= 0.0
    requires t.ReturnOfCapital? ==> lp <= l.lp.unreturned && gp <= l.gp.unreturned
    requires t.PreferredReturn? ==> lp <= l.lp.pref && gp <= l.gp.pref
    ensures var a, b := Credit(l.lp, t, lp, date), Credit(l.gp, t, gp, date);
            && (l.lp.unreturned == 0.0 && l.gp.unreturned == 0.0 ==> a.unreturned == 0.0 && b.unreturned == 0.0)
            && (l.lp.pref == 0.0 && l.gp.pref == 0.0 ==> a.pref == 0.0 && b.pref == 0.0)
  {
  }

  /**
   A later tier that cannot leave an earlier target behind. Only a catch-up is at risk, from a tier
   that gives the general partner less of its payment than the target promote.
   */
  predicate Keeps(earlier: Tier, t: Tier) {
    earlier.CatchUp? ==>
      || t.ReturnOfCapital?
      || (t.CatchUp? && t.gpShare >= earlier.targetPromote)
      || (t.Split? && t.gpShare >= Of(earlier.targetPromote, t.lpShare + t.gpShare))
  }

  lemma CatchUpStays(earlier: Tier, t: Tier, index: nat, date: int, w: Walked, payment: real)
    requires earlier.CatchUp? && payment > 0.0
    requires Keeps(earlier, t)
    requires Profit(w.ledger.gp) >= earlier.targetPromote * (Profit(w.ledger.lp) + Profit(w.ledger.gp))
    ensures var l := Pay(t, index, date, w, payment).ledger;
            Profit(l.gp) >= earlier.targetPromote * (Profit(l.lp) + Profit(l.gp))
  {
    if !t.ReturnOfCapital? {
      var s := Shares(t, w.ledger);
      PromoteShift(earlier.targetPromote, s.0, s.1, Profit(w.ledger.lp), Profit(w.ledger.gp), payment);
      OfMonotone(payment, Of(earlier.targetPromote, s.0 + s.1), s.1);
      assert Of(earlier.targetPromote, 1.0) == earlier.targetPromote;
    }
    hide Of;
  }

  /** How a payment moves the general partner's profit against its share of all profit. */
  lemma PromoteShift(promote: real, lpShare: real, gpShare: real, lp: real, gp: real, payment: real)
    ensures (gp + Of(gpShare, payment)) - promote * ((lp + Of(lpShare, payment)) + (gp + Of(gpShare, payment)))
            == (gp - promote * (lp + gp)) + (Of(payment, gpShare) - Of(payment, Of(promote, lpShare + gpShare)))
  {
  }

  /** How far a catch-up's target is exceeded. */
  function Surplus(t: Tier, l: Ledger): real
    requires t.CatchUp?
  {
    Profit(l.gp) - t.targetPromote * (Profit(l.lp) + Profit(l.gp))
  }

  /** What a payment by a later split takes from the surplus of a catch-up. */
  function Drain(catchUp: Tier, t: Tier, payment: real): real
    requires catchUp.CatchUp? && t.Split?
  {
    Of(payment, Of(catchUp.targetPromote, t.lpShare + t.gpShare) - t.gpShare)
  }

  lemma SurplusAfterSplit(catchUp: Tier, t: Tier, index: nat, date: int, w: Walked, payment: real)
    requires catchUp.CatchUp? && t.Split? && payment >= 0.0
    ensures Surplus(catchUp, Pay(t, index, date, w, payment).ledger)
            == Surplus(catchUp, w.ledger) - Drain(catchUp, t, payment)
  {
    if payment > 0.0 {
      PromoteShift(catchUp.targetPromote, t.lpShare, t.gpShare, Profit(w.ledger.lp), Profit(w.ledger.gp), payment);
      OfDifference(payment, Of(catchUp.targetPromote, t.lpShare + t.gpShare), t.gpShare);
    }
    hide Of;
    OfNothing(Of(catchUp.targetPromote, t.lpShare + t.gpShare) - t.gpShare);
  }

  lemma OfNothing(x: real)
    ensures Of(0.0, x) == 0.0
  {
  }

  lemma OfDifference(share: real, a: real, b: real)
    ensures Of(share, a - b) == Of(share, a) - Of(share, b)
  {
  }

  /** A payment by a later split leaves a catch-up met if and only if the surplus covers what the payment takes. */
  lemma CatchUpAfterSplit(p: Procedure, anchor: int, catchUp: Tier, t: Tier, index: nat, date: int, w: Walked,
      payment: real)
    requires catchUp.CatchUp? && t.Split? && payment >= 0.0
    ensures Reached(p, anchor, catchUp, Pay(t, index, date, w, payment).ledger, date) <==>
            Surplus(catchUp, w.ledger) >= Drain(catchUp, t, payment)
  {
    SurplusAfterSplit(catchUp, t, index, date, w, payment);
    hide Drain, Pay;
  }

  /** A split that keeps a catch-up is one whose payments take nothing from its surplus. */
  lemma KeepsDrainsNothing(catchUp: Tier, t: Tier, payment: real)
    requires catchUp.CatchUp? && t.Split? && payment > 0.0
    ensures Keeps(catchUp, t) <==> Drain(catchUp, t, payment) <= 0.0
  {
    var due := Of(catchUp.targetPromote, t.lpShare + t.gpShare);
    if t.gpShare >= due {
      OfMonotone(payment, due - t.gpShare, 0.0);
    } else {
      OfStrict(payment, 0.0, due - t.gpShare);
    }
    assert Of(payment, 0.0) == 0.0;
    hide Of;
  }

  /** What the tiers after the i-th take from its surplus on the way to the n-th. */
  function Drained(p: Procedure, anchor: int, tiers: seq<Tier>, i: nat, n: nat, date: int, ledger: Ledger,
      amount: real): real
    requires i < n <= |tiers| && Payable(tiers) && tiers[i].CatchUp? && forall j :: i < j < n ==> tiers[j].Split?
  {
    if n == i + 1 then 0.0
    else
      Drained(p, anchor, tiers, i, n - 1, date, ledger, amount)
      + Drain(tiers[i], tiers[n - 1],
          Payment(p, anchor, tiers[n - 1], date, Walk(p, anchor, tiers, n - 1, date, ledger, amount)))
  }

  lemma {:induction false} SurplusOfWalk(p: Procedure, anchor: int, tiers: seq<Tier>, i: nat, n: nat, date: int,
      ledger: Ledger, amount: real)
    requires i < n <= |tiers| && Payable(tiers) && tiers[i].CatchUp? && forall j :: i < j < n ==> tiers[j].Split?
    requires SoundLedger(ledger) && amount >= 0.0
    ensures Surplus(tiers[i], Walk(p, anchor, tiers, n, date, ledger, amount).ledger)
            == Surplus(tiers[i], Walk(p, anchor, tiers, i + 1, date, ledger, amount).ledger)
               - Drained(p, anchor, tiers, i, n, date, ledger, amount)
  {
    if n > i + 1 {
      SurplusOfWalk(p, anchor, tiers, i, n - 1, date, ledger, amount);
      var w := Walk(p, anchor, tiers, n - 1, date, ledger, amount);
      WalkedSound(p, anchor, tiers, n - 1, date, ledger, amount);
      hide OwnTerms, SoundLedger, Pay, Payment, Surplus, Drain;
      PaymentNonnegative(p, anchor, tiers[n - 1], date, w);
      SurplusAfterSplit(tiers[i], tiers[n - 1], n - 1, date, w, Payment(p, anchor, tiers[n - 1], date, w));
    }
  }

  lemma WalkedSound(p: Procedure, anchor: int, tiers: seq<Tier>, n: nat, date: int, ledger: Ledger, amount: real)
    requires n <= |tiers| && Payable(tiers) && SoundLedger(ledger) && amount >= 0.0
    ensures var w := Walk(p, anchor, tiers, n, date, ledger, amount); SoundLedger(w.ledger) && 0.0 <= w.cash <= amount
  {
    hide *;
    var slack := WidestSlack(tiers);
    WidestIsTight(tiers);
    WalkIsSound(p, anchor, tiers, n, date, ledger, amount, slack);
    SoundWalk(Walk(p, anchor, tiers, n, date, ledger, amount), ledger, amount, slack);
  }

  lemma WidestIsTight(tiers: seq<Tier>)
    ensures WidestSlack(tiers) >= 0.0 && Tight(tiers, WidestSlack(tiers))
  {
    hide Tight;
  }

  /** After a row, a catch-up is met if and only if its surplus covers what the tiers after it took. */
  lemma CatchUpAfterRow(p: Procedure, anchor: int, tiers: seq<Tier>, i: nat, date: int, ledger: Ledger, amount: real)
    requires i < |tiers| && Payable(tiers) && tiers[i].CatchUp? && forall j :: i < j < |tiers| ==> tiers[j].Split?
    requires SoundLedger(ledger) && amount >= 0.0
    ensures Reached(p, anchor, tiers[i], Walk(p, anchor, tiers, |tiers|, date, ledger, amount).ledger, date) <==>
            Surplus(tiers[i], Walk(p, anchor, tiers, i + 1, date, ledger, amount).ledger)
            >= Drained(p, anchor, tiers, i, |tiers|, date, ledger, amount)
  {
    SurplusOfWalk(p, anchor, tiers, i, |tiers|, date, ledger, amount);
    hide Walk, Drained, Payable, SoundLedger;
  }

  /** Where only the final split follows, what it takes is taken of all the cash that passed the catch-up. */
  lemma DrainedByResidual(p: Procedure, anchor: int, tiers: seq<Tier>, i: nat, date: int, ledger: Ledger, amount: real)
    requires i + 2 == |tiers| && Payable(tiers) && tiers[i].CatchUp? && Unbounded(tiers[i + 1])
    ensures Drained(p, anchor, tiers, i, |tiers|, date, ledger, amount)
            == Drain(tiers[i], tiers[i + 1], Walk(p, anchor, tiers, i + 1, date, ledger, amount).cash)
  {
    var w := Walk(p, anchor, tiers, i + 1, date, ledger, amount);
    assert Payment(p, anchor, tiers[i + 1], date, w) == w.cash;
    assert Drained(p, anchor, tiers, i, i + 1, date, ledger, amount) == 0.0;
    hide Walk, Drain, Payment;
  }

  /** The ledger that the n-th row finds, after accrual. */
  function RowLedger(p: Procedure, terms: Terms, rows: seq<Flow>, n: nat): Ledger
    requires n < |rows| && Payable(terms.tiers)
  {
    var b := Run(p, terms, rows, n);
    var pref, dt := FirstPreferred(terms.tiers), p.years(b.previous, rows[n].date);
    Ledger(Accrued(p, pref, b.ledger.lp, dt), Accrued(p, pref, b.ledger.gp, dt))
  }

  lemma RowSound(p: Procedure, terms: Terms, rows: seq<Flow>, n: nat, slack: real)
    requires n < |rows| && Chronological(rows) && Lawful(p) && Payable(terms.tiers) && Usable(terms, slack)
    ensures SoundLedger(RowLedger(p, terms, rows, n))
  {
    hide *;
    PreviousDate(p, terms, rows, n);
    RunInBalance(p, terms, rows, n, slack);
    BalancedLedger(Run(p, terms, rows, n), Incoming(rows, n), Outgoing(rows, n), slack);
    RowAccrues(p, terms, rows, n);
  }

  lemma RowAccrues(p: Procedure, terms: Terms, rows: seq<Flow>, n: nat)
    requires n < |rows| && Lawful(p) && Payable(terms.tiers)
    requires SoundLedger(Run(p, terms, rows, n).ledger) && Run(p, terms, rows, n).previous <= rows[n].date
    ensures SoundLedger(RowLedger(p, terms, rows, n))
  {
    var b := Run(p, terms, rows, n);
    var pref, dt := FirstPreferred(terms.tiers), p.years(b.previous, rows[n].date);
    PreferredIn(terms.tiers);
    hide FirstPreferred, Accrued, OwnTerms, Sound, Run;
    AccruedSound(p, pref, b.ledger.lp, dt);
    AccruedSound(p, pref, b.ledger.gp, dt);
  }

  lemma RowWalks(p: Procedure, terms: Terms, rows: seq<Flow>, n: nat)
    requires n < |rows| && Payable(terms.tiers) && rows[n].amount > 0.0
    ensures Run(p, terms, rows, n + 1).ledger
            == Walk(p, rows[0].date, terms.tiers, |terms.tiers|, rows[n].date, RowLedger(p, terms, rows, n),
                rows[n].amount).ledger
  {
    hide Run, Walk, Accrued, FirstPreferred, Payable;
    RunUnfolds(p, terms, rows, n + 1);
  }

  lemma AfterCatchUp(terms: Terms, i: nat)
    requires Admitted(terms.equity, terms.tiers) && i < |terms.tiers| && terms.tiers[i].CatchUp?
    ensures forall j :: i < j < |terms.tiers| ==> terms.tiers[j].Split?
  {
    hide OwnTerms, Rises, EmGrid, IrrGrid;
    assert forall j :: i < j < |terms.tiers| ==> InOrder(terms.tiers[i], terms.tiers[j]);
  }

  /**
   The catch-up over whole runs: in the books after a paid row it is met if and only if the surplus
   it left covers what the splits after it took in that row.
   */
  lemma CatchUpOverRun(p: Procedure, terms: Terms, rows: seq<Flow>, n: nat, i: nat)
    requires n < |rows| && Chronological(rows) && Lawful(p) && Payable(terms.tiers)
    requires Admitted(terms.equity, terms.tiers)
    requires rows[n].amount > 0.0 && i < |terms.tiers| && terms.tiers[i].CatchUp?
    ensures forall j :: i < j < |terms.tiers| ==> terms.tiers[j].Split?
    ensures var anchor, l := rows[0].date, RowLedger(p, terms, rows, n);
            Reached(p, anchor, terms.tiers[i], Run(p, terms, rows, n + 1).ledger, rows[n].date) <==>
            Surplus(terms.tiers[i], Walk(p, anchor, terms.tiers, i + 1, rows[n].date, l, rows[n].amount).ledger)
            >= Drained(p, anchor, terms.tiers, i, |terms.tiers|, rows[n].date, l, rows[n].amount)
  {
    hide *;
    AfterCatchUp(terms, i);
    AdmittedIsUsable(terms);
    RowSound(p, terms, rows, n, TOLERANCE);
    RowWalks(p, terms, rows, n);
    CatchUpAfterRow(p, rows[0].date, terms.tiers, i, rows[n].date, RowLedger(p, terms, rows, n), rows[n].amount);
  }

  /** A full catch-up to a fifth of all profit, and a final split that gives a tenth. */
  const FALLING_BACK: seq<Tier> := [CatchUp(1.0, 0.2), Split(0.9, 0.1, None, None, None)]

  lemma FallingBackAdmitted()
    ensures Admitted((1.0, 0.0), FALLING_BACK) && Payable(FALLING_BACK)
    ensures FALLING_TERMS.equity == (1.0, 0.0) && FALLING_TERMS.tiers == FALLING_BACK
  {
  }

  lemma FallingBackWalk(p: Procedure, anchor: int, date: int)
    requires Payable(FALLING_BACK)
    ensures Walk(p, anchor, FALLING_BACK, 1, date, Ledger(OPENING, OPENING), 100.0)
            == Walked(Ledger(OPENING, OPENING), [], 100.0)
  {
    var l := Ledger(OPENING, OPENING);
    assert Walk(p, anchor, FALLING_BACK, 0, date, l, 100.0) == Walked(l, [], 100.0);
    assert CatchUpCapacity(FALLING_BACK[0], l) == 0.0;
    hide CatchUpCapacity;
  }

  lemma FallingBackPays(p: Procedure, anchor: int, date: int)
    requires Payable(FALLING_BACK)
    requires Walk(p, anchor, FALLING_BACK, 1, date, Ledger(OPENING, OPENING), 100.0)
             == Walked(Ledger(OPENING, OPENING), [], 100.0)
    ensures Walk(p, anchor, FALLING_BACK, 2, date, Ledger(OPENING, OPENING), 100.0)
            == Pay(FALLING_BACK[1], 1, date, Walked(Ledger(OPENING, OPENING), [], 100.0), 100.0)
  {
    hide Pay;
  }

  /** A series of one inflow and one contribution over that ladder. */
  const FALLING_TERMS: Terms := Terms((1.0, 0.0), FALLING_BACK, None)

  function FallingRows(first: int, last: int): seq<Flow> {
    [Flow(first, 100.0), Flow(last, -50.0)]
  }

  lemma FirstFallingRow(p: Procedure, first: int, last: int)
    requires Payable(FALLING_BACK)
    ensures Run(p, FALLING_TERMS, FallingRows(first, last), 1)
            == Books(Walk(p, first, FALLING_BACK, 2, first, Ledger(OPENING, OPENING), 100.0).ledger, first,
                     [Entry(first, Walk(p, first, FALLING_BACK, 2, first, Ledger(OPENING, OPENING), 100.0).cells)])
  {
    assert FirstPreferred(FALLING_BACK) == None;
    assert Run(p, FALLING_TERMS, FallingRows(first, last), 0) == Books(Ledger(OPENING, OPENING), first, []);
    hide Walk, Payable;
  }

  lemma SecondFallingRow(p: Procedure, first: int, last: int)
    requires Payable(FALLING_BACK)
    ensures |FallingRows(first, last)| == 2
    ensures var a, b := Run(p, FALLING_TERMS, FallingRows(first, last), 1),
            Run(p, FALLING_TERMS, FallingRows(first, last), 2);
            && b.schedule == a.schedule && Profit(b.ledger.lp) == Profit(a.ledger.lp)
                && Profit(b.ledger.gp) == Profit(a.ledger.gp)
  {
    assert FirstPreferred(FALLING_BACK) == None;
    hide Walk, Payable;
  }

  /**
   An admitted ladder over a series with money in and out: the final split takes the general partner
   back below its target promote, where it stays to the end.
   */
  lemma CatchUpExample(p: Procedure, first: int, last: int)
    ensures Admitted(FALLING_TERMS.equity, FALLING_BACK) && Payable(FALLING_BACK)
    ensures var end := Run(p, FALLING_TERMS, FallingRows(first, last), 2);
            end.schedule == [Entry(first, [Cell(1, 90.0, 10.0)])]
                && !Reached(p, first, FALLING_BACK[0], end.ledger, last)
  {
    hide *;
    FallingBackAdmitted();
    FallenBackProfit(p, first);
    FallingBackWalk(p, first, first);
    FallingBackPays(p, first, first);
    FirstFallingRow(p, first, last);
    SecondFallingRow(p, first, last);
    NotReached(p, first, Run(p, FALLING_TERMS, FallingRows(first, last), 2).ledger, last);
  }

  lemma FallenBackProfit(p: Procedure, date: int)
    ensures var paid := Pay(FALLING_BACK[1], 1, date, Walked(Ledger(OPENING, OPENING), [], 100.0), 100.0);
            paid.cells == [Cell(1, 90.0, 10.0)] && Profit(paid.ledger.lp) == 90.0 && Profit(paid.ledger.gp) == 10.0
  {
  }

  lemma NotReached(p: Procedure, anchor: int, l: Ledger, date: int)
    requires Profit(l.lp) == 90.0 && Profit(l.gp) == 10.0
    ensures !Reached(p, anchor, FALLING_BACK[0], l, date)
  {
  }

  /** A target once reached stays reached while the row's cash goes further down a tier that keeps it. */
  lemma StaysReached(p: Procedure, anchor: int, earlier: Tier, t: Tier, index: nat, date: int, w: Walked, payment: real)
    requires Lawful(p) && OwnTerms(earlier) && OwnTerms(t) && SoundLedger(w.ledger) && payment >= 0.0
    requires Takes(t, w.ledger, payment) && Keeps(earlier, t) && Reached(p, anchor, earlier, w.ledger, date)
    ensures Reached(p, anchor, earlier, Pay(t, index, date, w, payment).ledger, date)
  {
    hide OwnTerms, Of, Lawful, Sound, Takes, EmReached, IrrReached, Credit;
    if payment > 0.0 {
      var s := Shares(t, w.ledger);
      PartsOfPayment(t, w.ledger, payment, SlackOf(t));
      var lp, gp := Of(s.0, payment), Of(s.1, payment);
      if earlier.CatchUp? {
        CatchUpStays(earlier, t, index, date, w, payment);
      }
      hide Shares, Keeps;
      CapitalStays(t, w.ledger, lp, gp, date);
      if earlier.Split? {
        if EmReached(earlier, w.ledger) {
          EmStays(earlier, t, w.ledger, lp, gp, date);
        }
        if IrrReached(p, anchor, earlier, w.ledger, date) {
          IrrStays(p, anchor, earlier, t, w.ledger, lp, gp, date);
        }
      }
    }
  }

  /** A slack that covers one tier's shares. */
  function SlackOf(t: Tier): (slack: real)
    ensures slack >= 0.0 && (t.Split? ==> Abs(t.lpShare + t.gpShare - 1.0) <= slack)
  {
    if t.Split? then Abs(t.lpShare + t.gpShare - 1.0) else 0.0
  }

  /** Cash past a tier means its target was reached, then and, past tiers that keep it, to the row's end. */
  lemma {:induction false} Priority(p: Procedure, anchor: int, tiers: seq<Tier>, i: nat, n: nat, date: int,
      ledger: Ledger, amount: real)
    requires i < n <= |tiers| && Lawful(p) && Payable(tiers) && SoundLedger(ledger) && amount >= 0.0
    requires Walk(p, anchor, tiers, i + 1, date, ledger, amount).cash > 0.0
    ensures Reached(p, anchor, tiers[i], Walk(p, anchor, tiers, i + 1, date, ledger, amount).ledger, date)
    ensures (forall j :: i < j < n ==> Keeps(tiers[i], tiers[j])) ==>
              Reached(p, anchor, tiers[i], Walk(p, anchor, tiers, n, date, ledger, amount).ledger, date)
  {
    var slack := WidestSlack(tiers);
    var w := Walk(p, anchor, tiers, n - 1, date, ledger, amount);
    WalkIsSound(p, anchor, tiers, n - 1, date, ledger, amount, slack);
    SoundWalk(w, ledger, amount, slack);
    hide Lawful, OwnTerms, SoundLedger, Pay, Reached, Tight, Payment, Keeps;
    PaidCash(tiers[n - 1], n - 1, date, w, Payment(p, anchor, tiers[n - 1], date, w));
    if n == i + 1 {
      PastTier(p, anchor, tiers[i], i, date, w);
    } else {
      Priority(p, anchor, tiers, i, n - 1, date, ledger, amount);
      if forall j :: i < j < n ==> Keeps(tiers[i], tiers[j]) {
        PaymentTaken(p, anchor, tiers[n - 1], date, w);
        PaymentNonnegative(p, anchor, tiers[n - 1], date, w);
        StaysReached(p, anchor, tiers[i], tiers[n - 1], n - 1, date, w, Payment(p, anchor, tiers[n - 1], date, w));
      }
    }
  }

  lemma SoundWalk(w: Walked, ledger: Ledger, amount: real, slack: real)
    requires WalkSound(w, ledger, amount, slack)
    ensures SoundLedger(w.ledger) && 0.0 <= w.cash <= amount
  {
    hide Sound, Of, LpPaid, GpPaid;
  }

  lemma PaidCash(t: Tier, index: nat, date: int, w: Walked, payment: real)
    ensures Pay(t, index, date, w, payment).cash == w.cash - payment
    ensures forall c :: c in Pay(t, index, date, w, payment).cells ==>
            c in w.cells || (c.tier == index && payment > 0.0)
  {
    hide Shares, Of, Credit;
  }

  lemma PaymentNonnegative(p: Procedure, anchor: int, t: Tier, date: int, w: Walked)
    requires OwnTerms(t) && SoundLedger(w.ledger) && w.cash >= 0.0
    ensures 0.0 <= Payment(p, anchor, t, date, w) <= w.cash
  {
    CapacityNonnegative(p, anchor, t, w.ledger, w.cash, date);
    hide OwnTerms, Capacity;
  }

  /** A slack that covers the shares of every tier. */
  function WidestSlack(tiers: seq<Tier>): (slack: real)
    ensures slack >= 0.0 && Tight(tiers, slack)
  {
    if tiers == [] then 0.0 else Max(SlackOf(tiers[0]), WidestSlack(tiers[1..]))
  }

  /** A cell is only written while there is cash, and all earlier tiers had cash too. */
  lemma {:induction false} CellHadCash(p: Procedure, anchor: int, tiers: seq<Tier>, n: nat, date: int, ledger: Ledger,
      amount: real, c: Cell, i: nat)
    requires n <= |tiers| && Payable(tiers) && SoundLedger(ledger) && amount >= 0.0
    requires c in Walk(p, anchor, tiers, n, date, ledger, amount).cells && i <= c.tier
    ensures i < n && Walk(p, anchor, tiers, i, date, ledger, amount).cash > 0.0
  {
    if n > 0 {
      var slack := WidestSlack(tiers);
      var w := Walk(p, anchor, tiers, n - 1, date, ledger, amount);
      WalkIsSound(p, anchor, tiers, n - 1, date, ledger, amount, slack);
      SoundWalk(w, ledger, amount, slack);
      hide OwnTerms, SoundLedger, Pay, Tight, Payment;
      PaymentNonnegative(p, anchor, tiers[n - 1], date, w);
      PaidCash(tiers[n - 1], n - 1, date, w, Payment(p, anchor, tiers[n - 1], date, w));
      if c in w.cells {
        CellHadCash(p, anchor, tiers, n - 1, date, ledger, amount, c, i);
      } else {
        CashFalls(p, anchor, tiers, i, n - 1, date, ledger, amount);
      }
    }
  }

  lemma {:induction false} CashFalls(p: Procedure, anchor: int, tiers: seq<Tier>, i: nat, n: nat, date: int,
      ledger: Ledger, amount: real)
    requires i <= n <= |tiers| && Payable(tiers) && SoundLedger(ledger) && amount >= 0.0
    ensures Walk(p, anchor, tiers, n, date, ledger, amount).cash <= Walk(p, anchor, tiers, i, date, ledger, amount).cash
  {
    hide *;
    if i < n {
      CashFalls(p, anchor, tiers, i, n - 1, date, ledger, amount);
      CashNext(p, anchor, tiers, n, date, ledger, amount);
    }
  }

  lemma CashNext(p: Procedure, anchor: int, tiers: seq<Tier>, n: nat, date: int, ledger: Ledger, amount: real)
    requires 0 < n <= |tiers| && Payable(tiers) && SoundLedger(ledger) && amount >= 0.0
    ensures Walk(p, anchor, tiers, n, date, ledger, amount).cash
            <= Walk(p, anchor, tiers, n - 1, date, ledger, amount).cash
  {
    var slack := WidestSlack(tiers);
    var w := Walk(p, anchor, tiers, n - 1, date, ledger, amount);
    WalkIsSound(p, anchor, tiers, n - 1, date, ledger, amount, slack);
    SoundWalk(w, ledger, amount, slack);
    hide OwnTerms, SoundLedger, Pay, Tight, Payment, WalkSound;
    PaymentNonnegative(p, anchor, tiers[n - 1], date, w);
    PaidCash(tiers[n - 1], n - 1, date, w, Payment(p, anchor, tiers[n - 1], date, w));
  }

  /**
   Priority of payments over whole runs: when a row of the series paid a tier, every earlier
   tier's target holds in the books after that row, unless a tier after it gives the general
   partner less than a catch-up's promote.
   */
  lemma PriorityOfPayments(p: Procedure, terms: Terms, rows: seq<Flow>, n: nat, slack: real, c: Cell, i: nat)
    requires n < |rows| && Chronological(rows) && Lawful(p) && Payable(terms.tiers) && Usable(terms, slack)
    requires rows[n].amount > 0.0 && Run(p, terms, rows, n + 1).schedule != []
    requires var after := Run(p, terms, rows, n + 1).schedule; c in after[|after| - 1].cells
    requires i < c.tier && i < |terms.tiers|
             && forall j :: i < j < |terms.tiers| ==> Keeps(terms.tiers[i], terms.tiers[j])
    ensures Reached(p, rows[0].date, terms.tiers[i], Run(p, terms, rows, n + 1).ledger, rows[n].date)
  {
    hide *;
    PreviousDate(p, terms, rows, n);
    RunInBalance(p, terms, rows, n, slack);
    RunUnfolds(p, terms, rows, n + 1);
    var b := Run(p, terms, rows, n);
    BalancedLedger(b, Incoming(rows, n), Outgoing(rows, n), slack);
    StepPriority(p, terms, rows[0].date, b, rows[n], c, i);
  }

  lemma StepPriority(p: Procedure, terms: Terms, anchor: int, b: Books, row: Flow, c: Cell, i: nat)
    requires Lawful(p) && Payable(terms.tiers) && SoundLedger(b.ledger)
    requires row.amount > 0.0 && b.previous <= row.date && Step(p, terms, anchor, b, row).schedule != []
    requires var after := Step(p, terms, anchor, b, row).schedule; c in after[|after| - 1].cells
    requires i < c.tier && i < |terms.tiers|
             && forall j :: i < j < |terms.tiers| ==> Keeps(terms.tiers[i], terms.tiers[j])
    ensures Reached(p, anchor, terms.tiers[i], Step(p, terms, anchor, b, row).ledger, row.date)
  {
    var pref := FirstPreferred(terms.tiers);
    var dt := p.years(b.previous, row.date);
    PreferredIn(terms.tiers);
    hide FirstPreferred, Accrued, OwnTerms, Walk, Sound, Reached, Keeps;
    AccruedSound(p, pref, b.ledger.lp, dt);
    AccruedSound(p, pref, b.ledger.gp, dt);
    var l := Ledger(Accrued(p, pref, b.ledger.lp, dt), Accrued(p, pref, b.ledger.gp, dt));
    CellHadCash(p, anchor, terms.tiers, |terms.tiers|, row.date, l, row.amount, c, i + 1);
    Priority(p, anchor, terms.tiers, i, |terms.tiers|, row.date, l, row.amount);
  }

  // ----- Terminal true-up -----

  function Promote(l: Ledger): real {
    Profit(l.gp) - l.gp.prefReceived
  }

  function BelowFloor(multiple: real, contributions: real, distributions: real): real {
    multiple * contributions - distributions
  }

  /** What the clawback basis says the limited partner is short of at the end. */
  function Shortfall(p: Procedure, anchor: int, basis: Basis, l: Ledger, end: int): real {
    match basis
    case PreferredShortfall => l.lp.unreturned + l.lp.pref
    case MultipleFloor(multiple) => BelowFloor(multiple, l.lp.contributions, l.lp.distributions)
    case RateFloor(rate) => Balance(p, anchor, rate, l.lp.flows, end)
  }

  function ClawbackAmount(p: Procedure, anchor: int, c: Clawback, l: Ledger, end: int): real {
    var gross := Min(Max(0.0, Shortfall(p, anchor, c.basis, l, end)), Max(0.0, Promote(l)));
    if c.netOfTax.Some? then Of(1.0 - c.netOfTax.value, gross) else gross
  }

  /** The ledger after the general partner hands an amount to the limited partner. */
  function HandedOver(l: Ledger, amount: real, date: int): Ledger {
    Ledger(l.lp.(distributions := l.lp.distributions + amount, flows := l.lp.flows + [Flow(date, amount)]),
           l.gp.(distributions := l.gp.distributions - amount, flows := l.gp.flows + [Flow(date, -amount)]))
  }

  /**
   The true-up never takes more than the promote, so it never reaches the general partner's
   capital or preferred return; and, gross of tax, handing it over meets a floor exactly when
   the promote covers the shortfall.
   */
  lemma TrueUp(p: Procedure, anchor: int, c: Clawback, l: Ledger, end: int)
    requires SoundLedger(l) && Lawful(p)
    requires c.netOfTax.Some? ==> Unit(c.netOfTax.value)
    requires c.basis.RateFloor? ==> c.basis.rate > 0.0
    ensures var amount := ClawbackAmount(p, anchor, c, l, end);
            var after := HandedOver(l, amount, end);
            && 0.0 <= amount <= Promote(l)
            && after.gp.distributions >= l.gp.roc + l.gp.prefReceived
            && (c.netOfTax.None? && !c.basis.PreferredShortfall? ==>
                  (Shortfall(p, anchor, c.basis, after, end) <= 0.0 <==>
                      Shortfall(p, anchor, c.basis, l, end) <= Promote(l)))
  {
    var gross := Min(Max(0.0, Shortfall(p, anchor, c.basis, l, end)), Max(0.0, Promote(l)));
    var amount := ClawbackAmount(p, anchor, c, l, end);
    if c.netOfTax.Some? {
      OfNonnegative(1.0 - c.netOfTax.value, gross);
      OfNonnegative(c.netOfTax.value, gross);
      OfWhole(c.netOfTax.value, gross);
    }
    hide Of;
    if c.basis.RateFloor? {
      BalanceFalls(p, anchor, c.basis.rate, l.lp.flows, end, amount);
    }
    hide Balance, Lawful, Total;
  }

  /** Net of tax, the general partner hands over what is left of the gross true-up after its tax. */
  lemma TrueUpNetOfTax(p: Procedure, anchor: int, c: Clawback, l: Ledger, end: int)
    requires c.netOfTax.Some?
    ensures var gross := ClawbackAmount(p, anchor, c.(netOfTax := None), l, end);
            ClawbackAmount(p, anchor, c, l, end) + Of(c.netOfTax.value, gross) == gross
  {
    hide Shortfall, Promote;
    OfWhole(c.netOfTax.value, ClawbackAmount(p, anchor, c.(netOfTax := None), l, end));
  }

  /**
   Gross of tax, a promote that covers the floor brings the limited partner exactly to it, or takes
   nothing when the floor is met already; a smaller promote is handed over whole.
   */
  lemma TrueUpMeetsFloor(p: Procedure, anchor: int, c: Clawback, l: Ledger, end: int)
    requires SoundLedger(l) && Lawful(p) && c.netOfTax.None? && Promote(l) >= 0.0
    requires c.basis.RateFloor? ==> c.basis.rate > 0.0
    ensures var amount := ClawbackAmount(p, anchor, c, l, end);
            var after := HandedOver(l, amount, end);
            match c.basis
            case PreferredShortfall =>
              amount == if l.lp.unreturned + l.lp.pref <= Promote(l) then l.lp.unreturned + l.lp.pref else Promote(l)
            case MultipleFloor(multiple) =>
              if l.lp.distributions + Promote(l) < multiple * l.lp.contributions then amount == Promote(l)
              else after.lp.distributions == Max(l.lp.distributions, multiple * after.lp.contributions)
            case RateFloor(rate) =>
              if Balance(p, anchor, rate, l.lp.flows, end) > Promote(l) then amount == Promote(l)
              else Balance(p, anchor, rate, after.lp.flows, end) == Min(0.0, Balance(p, anchor, rate, l.lp.flows, end))
  {
    var amount := ClawbackAmount(p, anchor, c, l, end);
    if c.basis.RateFloor? {
      BalanceFalls(p, anchor, c.basis.rate, l.lp.flows, end, amount);
    }
    hide Balance, Lawful, Total, Of, Promote;
  }

  // ----- The allocation -----

  /** One party's record, updated in place. */
  class Party {
    var unreturned: real
    var pref: real
    var contributions: real
    var distributions: real
    var roc: real
    var prefReceived: real
    var flows: seq<Flow>

    function Record(): Account
      reads this
    {
      Account(unreturned, pref, contributions, distributions, roc, prefReceived, flows)
    }

    constructor ()
      ensures Record() == OPENING
    {
      unreturned, pref, contributions, distributions, roc, prefReceived, flows := 0.0, 0.0, 0.0, 0.0, 0.0, 0.0, [];
    }

    method Accrue(p: Procedure, terms: Tier, dt: real)
      requires terms.PreferredReturn?
      modifies this
      ensures Record() == Accrued(p, Some(terms), old(Record()), dt)
    {
      pref := pref + Accrual(p, terms, unreturned, pref, dt);
    }

    method Contribute(share: real, date: int)
      modifies this
      ensures Record() == Contributed(old(Record()), share, date)
    {
      unreturned := unreturned + share;
      contributions := contributions + share;
      flows := flows + [Flow(date, -share)];
    }

    method Receive(t: Tier, value: real, date: int)
      modifies this
      ensures Record() == Credit(old(Record()), t, value, date)
    {
      distributions := distributions + value;
      flows := flows + [Flow(date, value)];
      if t.ReturnOfCapital? {
        unreturned := unreturned - value;
        roc := roc + value;
      } else if t.PreferredReturn? {
        pref := pref - value;
        prefReceived := prefReceived + value;
      }
    }
  }

  function LedgerOf(lp: Party, gp: Party): Ledger
    reads lp, gp
  {
    Ledger(lp.Record(), gp.Record())
  }

  /** The capacities a split's hurdles leave, in order. */
  method HurdleCapacities(p: Procedure, anchor: int, t: Tier, lp: Party, gp: Party, date: int)
    returns (capacities: seq<real>)
    requires OwnTerms(t) && t.Split?
    ensures t.em.Some? && t.irr.Some? ==>
            capacities == [EmCapacity(t, LedgerOf(lp, gp)), IrrCapacity(p, anchor, t, LedgerOf(lp, gp), date)]
    ensures t.em.Some? && t.irr.None? ==> capacities == [EmCapacity(t, LedgerOf(lp, gp))]
    ensures t.em.None? && t.irr.Some? ==> capacities == [IrrCapacity(p, anchor, t, LedgerOf(lp, gp), date)]
    ensures t.em.None? && t.irr.None? ==> capacities == []
  {
    hide Balance, ShortOf;
    capacities := [];
    if t.em.Some? {
      capacities := capacities + [ShortOf(t.em.value, lp.contributions, lp.distributions, t.lpShare)];
    }
    if t.irr.Some? {
      var balance := RunningBalance(p, anchor, t.irr.value, lp.flows, date);
      capacities := capacities + [Max(0.0, balance) / t.lpShare];
    }
  }

  method TierCapacity(p: Procedure, anchor: int, t: Tier, lp: Party, gp: Party, cash: real, date: int)
    returns (capacity: real, shares: (real, real))
    requires OwnTerms(t)
    ensures capacity == Capacity(p, anchor, t, LedgerOf(lp, gp), cash, date)
    ensures shares == Shares(t, LedgerOf(lp, gp))
  {
    match t
    case ReturnOfCapital =>
      capacity := lp.unreturned + gp.unreturned;
      shares := Portions(lp.unreturned, gp.unreturned);
    case PreferredReturn(_, _) =>
      capacity := lp.pref + gp.pref;
      shares := Portions(lp.pref, gp.pref);
    case CatchUp(share, promote) =>
      var gpProfit := gp.distributions - gp.roc;
      var profit := lp.distributions - lp.roc + gpProfit;
      capacity := Max(0.0, (promote * profit - gpProfit) / (share - promote));
      shares := (1.0 - share, share);
    case Split(lpShare, gpShare, _, _, mode) =>
      hide EmCapacity, IrrCapacity;
      var capacities := HurdleCapacities(p, anchor, t, lp, gp, date);
      if |capacities| == 0 {
        capacity := cash;
      } else if |capacities| == 1 {
        capacity := capacities[0];
      } else if mode == Some(Any) {
        capacity := Min(capacities[0], capacities[1]);
      } else {
        capacity := Max(capacities[0], capacities[1]);
      }
      shares := (lpShare, gpShare);
  }

  /** One positive row down the ladder. */
  method WalkTiers(p: Procedure, anchor: int, tiers: seq<Tier>, lp: Party, gp: Party, date: int, amount: real)
    returns (cells: seq<Cell>)
    requires Payable(tiers) && lp != gp
    modifies lp, gp
    ensures var w := Walk(p, anchor, tiers, |tiers|, date, old(LedgerOf(lp, gp)), amount);
            LedgerOf(lp, gp) == w.ledger && cells == w.cells
  {
    hide OwnTerms, Capacity, Shares, Credit, Of;
    var cash := amount;
    cells := [];
    for index := 0 to |tiers|
      invariant Walk(p, anchor, tiers, index, date, old(LedgerOf(lp, gp)), amount)
                == Walked(LedgerOf(lp, gp), cells, cash)
    {
      var tier := tiers[index];
      ghost var w := Walked(LedgerOf(lp, gp), cells, cash);
      var capacity, shares := TierCapacity(p, anchor, tier, lp, gp, cash, date);
      var payment := Min(cash, capacity);
      if payment > 0.0 {
        var lpPayment, gpPayment := Of(shares.0, payment), Of(shares.1, payment);
        cells := cells + [Cell(index, lpPayment, gpPayment)];
        lp.Receive(tier, lpPayment, date);
        gp.Receive(tier, gpPayment, date);
      }
      cash := cash - payment;
      assert Walked(LedgerOf(lp, gp), cells, cash) == Pay(tier, index, date, w, payment);
    }
  }

  /** The preferred tier that governs accrual: the first one. */
  method GoverningPreferred(tiers: seq<Tier>) returns (pref: Option<Tier>)
    ensures pref == FirstPreferred(tiers)
  {
    for k := 0 to |tiers|
      invariant FirstPreferred(tiers) == FirstPreferred(tiers[k..])
    {
      if tiers[k].PreferredReturn? {
        return Some(tiers[k]);
      }
      assert tiers[k..][1..] == tiers[k + 1..];
    }
    return None;
  }

  datatype PartyOutcome = PartyOutcome(contributions: real, distributions: real, moic: Option<real>)

  datatype Outcomes = Outcomes(lp: PartyOutcome, gp: PartyOutcome, promoteTotal: real, profitTotal: real,
      clawback: Option<real>)

  function OutcomeOf(a: Account): PartyOutcome {
    PartyOutcome(a.contributions, a.distributions,
                 if a.contributions != 0.0 then Some(a.distributions / a.contributions) else None)
  }

  function OutcomesOf(p: Procedure, terms: Terms, l: Ledger, anchor: int, end: int): Outcomes {
    Outcomes(OutcomeOf(l.lp), OutcomeOf(l.gp), Promote(l), ProfitTotal(l),
             if terms.clawback.Some? then Some(ClawbackAmount(p, anchor, terms.clawback.value, l, end)) else None)
  }

  /** The true-up of the final records. */
  method FinalClawback(p: Procedure, anchor: int, c: Clawback, lp: Party, gp: Party, end: int) returns (amount: real)
    ensures amount == ClawbackAmount(p, anchor, c, LedgerOf(lp, gp), end)
  {
    hide BelowFloor, Balance, Of;
    var promote := gp.distributions - gp.roc - gp.prefReceived;
    var shortfall;
    match c.basis {
      case PreferredShortfall =>
        shortfall := lp.unreturned + lp.pref;
      case MultipleFloor(multiple) =>
        shortfall := BelowFloor(multiple, lp.contributions, lp.distributions);
      case RateFloor(rate) =>
        shortfall := RunningBalance(p, anchor, rate, lp.flows, end);
    }
    amount := Min(Max(0.0, shortfall), Max(0.0, promote));
    if c.netOfTax.Some? {
      amount := Of(1.0 - c.netOfTax.value, amount);
    }
  }

  /** Accrual of both parties over a period. */
  method AccrueBoth(p: Procedure, pref: Option<Tier>, lp: Party, gp: Party, dt: real)
    requires lp != gp && (pref.Some? ==> pref.value.PreferredReturn?)
    modifies lp, gp
    ensures LedgerOf(lp, gp) == Ledger(Accrued(p, pref, old(lp.Record()), dt), Accrued(p, pref, old(gp.Record()), dt))
  {
    if pref.Some? {
      lp.Accrue(p, pref.value, dt);
      gp.Accrue(p, pref.value, dt);
    }
  }

  /** The allocation of a nonempty series: the outcomes and schedule of the whole run. */
  method AllocateWaterfall(p: Procedure, terms: Terms, rows: seq<Flow>)
    returns (outcomes: Outcomes, schedule: seq<Entry>)
    requires rows != [] && Payable(terms.tiers)
    ensures var b := Run(p, terms, rows, |rows|);
            && schedule == b.schedule
            && outcomes == OutcomesOf(p, terms, b.ledger, rows[0].date, rows[|rows| - 1].date)
  {
    hide Payable, Walk, Accrued, Contributed, Of, ClawbackAmount;
    var anchor := rows[0].date;
    var previous := anchor;
    var lp := new Party();
    var gp := new Party();
    PreferredKind(terms.tiers);
    var pref := GoverningPreferred(terms.tiers);
    schedule := [];
    for n := 0 to |rows|
      invariant fresh(lp) && fresh(gp) && lp != gp
      invariant Run(p, terms, rows, n) == Books(LedgerOf(lp, gp), previous, schedule)
    {
      var date, amount := rows[n].date, rows[n].amount;
      var dt := p.years(previous, date);
      AccrueBoth(p, pref, lp, gp, dt);
      previous := date;
      if amount < 0.0 {
        lp.Contribute(Of(terms.equity.0, -amount), date);
        gp.Contribute(Of(terms.equity.1, -amount), date);
      } else if amount > 0.0 {
        var cells := WalkTiers(p, anchor, terms.tiers, lp, gp, date, amount);
        schedule := schedule + [Entry(date, cells)];
      }
    }
    var clawback := None;
    if terms.clawback.Some? {
      var amount := FinalClawback(p, anchor, terms.clawback.value, lp, gp, rows[|rows| - 1].date);
      clawback := Some(amount);
    }
    outcomes := Outcomes(OutcomeOf(lp.Record()), OutcomeOf(gp.Record()), gp.distributions - gp.roc - gp.prefReceived,
                         lp.distributions + gp.distributions - (lp.contributions + gp.contributions), clawback);
  }

  lemma PreferredKind(tiers: seq<Tier>)
    ensures FirstPreferred(tiers).Some? ==> FirstPreferred(tiers).value.PreferredReturn?
  {
  }
}
