/**
 What the preferred return comes to over whole runs, stated on the series and the schedule alone.

 Under a compounding preferred tier a party is owed its contributions grown at the rate, less its
 repayments grown likewise. Under a simple one the return is the rate on each contribution's elapsed
 time, less the rate on the elapsed time of what was returned, less what has been paid of it.
 */
module WaterfallLaws {
  import opened Common
  import opened Ladder
  import opened Waterfall

  /** Powers add in the exponent, and elapsed time adds over consecutive intervals. */
  ghost predicate Additive(p: Procedure) {
    && (forall b, s, t :: b > 1.0 && s >= 0.0 && t >= 0.0 ==> p.pow(b, s + t) == p.pow(b, s) * p.pow(b, t))
    && (forall c, d, e :: c <= d <= e ==> p.years(c, e) == p.years(c, d) + p.years(d, e))
  }

  // ----- Dated sums -----

  /** Flows brought to a date at a rate. */
  function Grown(p: Procedure, rate: real, flows: seq<Flow>, date: int): real {
    if flows == [] then 0.0
    else
      var last := flows[|flows| - 1];
      Grown(p, rate, flows[..|flows| - 1], date) + last.amount * p.pow(1.0 + rate, p.years(last.date, date))
  }

  /** Flows times the years since they were made. */
  function Elapsed(p: Procedure, flows: seq<Flow>, date: int): real {
    if flows == [] then 0.0
    else
      var last := flows[|flows| - 1];
      Elapsed(p, flows[..|flows| - 1], date) + last.amount * p.years(last.date, date)
  }

  ghost predicate MadeBy(flows: seq<Flow>, date: int) {
    forall k :: 0 <= k < |flows| ==> flows[k].date <= date
  }

  lemma NoTime(p: Procedure, date: int)
    requires Additive(p)
    ensures p.years(date, date) == 0.0
  {
    assert p.years(date, date) == p.years(date, date) + p.years(date, date);
  }

  lemma NoGrowth(p: Procedure, rate: real, date: int)
    requires Additive(p) && Lawful(p) && rate > 0.0
    ensures p.pow(1.0 + rate, p.years(date, date)) == 1.0
  {
    NoTime(p, date);
    var x := p.pow(1.0 + rate, 0.0);
    assert p.pow(1.0 + rate, 0.0 + 0.0) == x * x;
    Idempotent(x);
  }

  lemma Idempotent(x: real)
    requires x == x * x && x > 0.0
    ensures x == 1.0
  {
  }

  /** Bringing flows to a later date multiplies the whole sum. */
  lemma {:induction false} GrownLater(p: Procedure, rate: real, flows: seq<Flow>, date: int, later: int)
    requires Additive(p) && Lawful(p) && rate > 0.0 && MadeBy(flows, date) && date <= later
    ensures Grown(p, rate, flows, later) == Of(p.pow(1.0 + rate, p.years(date, later)), Grown(p, rate, flows, date))
  {
    hide Lawful, Additive;
    if flows == [] {
    } else {
      var last := flows[|flows| - 1];
      GrownLater(p, rate, flows[..|flows| - 1], date, later);
      PowerLater(p, rate, last.date, date, later);
      Distributes(p.pow(1.0 + rate, p.years(date, later)), Grown(p, rate, flows[..|flows| - 1], date), last.amount,
          p.pow(1.0 + rate, p.years(last.date, date)));
    }
  }

  lemma PowerLater(p: Procedure, rate: real, made: int, date: int, later: int)
    requires Additive(p) && Lawful(p) && rate > 0.0 && made <= date <= later
    ensures p.pow(1.0 + rate, p.years(made, later))
            == p.pow(1.0 + rate, p.years(made, date)) * p.pow(1.0 + rate, p.years(date, later))
  {
  }

  lemma Distributes(k: real, a: real, b: real, x: real)
    ensures Of(k, a) + b * (x * k) == Of(k, a + b * x)
  {
    assert b * (x * k) == (b * x) * k;
  }

  /** Each flow waits as long as the others. */
  lemma {:induction false} ElapsedLater(p: Procedure, flows: seq<Flow>, date: int, later: int)
    requires Additive(p) && MadeBy(flows, date) && date <= later
    ensures Elapsed(p, flows, later) == Elapsed(p, flows, date) + Of(p.years(date, later), Total(flows))
  {
    hide Additive;
    if flows == [] {
    } else {
      var last := flows[|flows| - 1];
      ElapsedLater(p, flows[..|flows| - 1], date, later);
      YearsAdd(p, last.date, date, later);
      Waits(p.years(last.date, date), p.years(date, later), last.amount, Total(flows[..|flows| - 1]));
    }
  }

  lemma YearsAdd(p: Procedure, c: int, d: int, e: int)
    requires Additive(p) && c <= d <= e
    ensures p.years(c, e) == p.years(c, d) + p.years(d, e)
  {
  }

  lemma Waits(a: real, b: real, amount: real, rest: real)
    ensures amount * (a + b) + Of(b, rest) == amount * a + Of(b, rest + amount)
  {
  }

  // ----- What a party put in and got back -----

  /** One of the two parties. */
  datatype Side = LimitedPartner | GeneralPartner

  function AccountOf(l: Ledger, side: Side): Account {
    if side == LimitedPartner then l.lp else l.gp
  }

  function PartOf(c: Cell, side: Side): real {
    if side == LimitedPartner then c.lp else c.gp
  }

  function ShareOf(terms: Terms, side: Side): real {
    if side == LimitedPartner then terms.equity.0 else terms.equity.1
  }

  /** A party's contributions among the first n rows. */
  function Lent(terms: Terms, rows: seq<Flow>, n: nat, side: Side): seq<Flow>
    requires n <= |rows|
  {
    if n == 0 then []
    else
      var row := rows[n - 1];
      Lent(terms, rows, n - 1, side)
      + if row.amount < 0.0 then [Flow(row.date, Of(ShareOf(terms, side), -row.amount))] else []
  }

  /** What a payment was for. */
  datatype Purpose = Capital | Return | Either | Excess

  predicate Serves(t: Tier, purpose: Purpose) {
    match t
    case ReturnOfCapital => purpose == Capital || purpose == Either
    case PreferredReturn(_, _) => purpose == Return || purpose == Either
    case _ => purpose == Excess
  }

  /** What cells paid a party for a purpose. */
  function CellsPaid(tiers: seq<Tier>, cells: seq<Cell>, purpose: Purpose, side: Side): real {
    if cells == [] then 0.0
    else
      var last := cells[|cells| - 1];
      CellsPaid(tiers, cells[..|cells| - 1], purpose, side)
      + if last.tier < |tiers| && Serves(tiers[last.tier], purpose) then PartOf(last, side) else 0.0
  }

  /** The schedule's payments to a party for a purpose, one a date. */
  function Repaid(tiers: seq<Tier>, schedule: seq<Entry>, purpose: Purpose, side: Side): (flows: seq<Flow>)
    ensures |flows| == |schedule| && forall k :: 0 <= k < |flows| ==> flows[k].date == schedule[k].date
  {
    if schedule == [] then []
    else
      var last := schedule[|schedule| - 1];
      Repaid(tiers, schedule[..|schedule| - 1], purpose, side)
      + [Flow(last.date, CellsPaid(tiers, last.cells, purpose, side))]
  }

  // ----- One row -----

  /** A cell's part, when its tier serves the purpose. */
  function CellPaid(tiers: seq<Tier>, c: Cell, purpose: Purpose, side: Side): real {
    if c.tier < |tiers| && Serves(tiers[c.tier], purpose) then PartOf(c, side) else 0.0
  }

  lemma CellsMore(tiers: seq<Tier>, cells: seq<Cell>, c: Cell, purpose: Purpose, side: Side)
    ensures CellsPaid(tiers, cells + [c], purpose, side)
            == CellsPaid(tiers, cells, purpose, side) + CellPaid(tiers, c, purpose, side)
  {
    assert (cells + [c])[..|cells|] == cells;
    hide Serves, PartOf;
  }

  /** What cells paid a party, by purpose, is what its record shows. */
  ghost predicate Shows(tiers: seq<Tier>, before: Account, after: Account, cells: seq<Cell>, side: Side) {
    && after.contributions == before.contributions
    && after.unreturned == before.unreturned - CellsPaid(tiers, cells, Capital, side)
    && after.roc == before.roc + CellsPaid(tiers, cells, Capital, side)
    && after.pref == before.pref - CellsPaid(tiers, cells, Return, side)
    && after.prefReceived == before.prefReceived + CellsPaid(tiers, cells, Return, side)
    && CellsPaid(tiers, cells, Either, side)
        == CellsPaid(tiers, cells, Capital, side) + CellsPaid(tiers, cells, Return, side)
    && after.distributions
       == before.distributions + CellsPaid(tiers, cells, Either, side) + CellsPaid(tiers, cells, Excess, side)
  }

  /** The walk through the first n tiers shows its cells. */
  lemma {:induction false} WalkRepays(p: Procedure, anchor: int, tiers: seq<Tier>, n: nat, date: int, ledger: Ledger,
      amount: real, side: Side)
    requires n <= |tiers| && Payable(tiers)
    ensures var w := Walk(p, anchor, tiers, n, date, ledger, amount);
            Shows(tiers, AccountOf(ledger, side), AccountOf(w.ledger, side), w.cells, side)
  {
    hide *;
    if n == 0 {
      WalkNone(p, anchor, tiers, date, ledger, amount, side);
    } else {
      var w := Walk(p, anchor, tiers, n - 1, date, ledger, amount);
      WalkRepays(p, anchor, tiers, n - 1, date, ledger, amount, side);
      WalkNext(p, anchor, tiers, n, date, ledger, amount);
      PayRepays(tiers, AccountOf(ledger, side), n - 1, date, w, Payment(p, anchor, tiers[n - 1], date, w), side);
    }
  }

  lemma WalkNone(p: Procedure, anchor: int, tiers: seq<Tier>, date: int, ledger: Ledger, amount: real, side: Side)
    requires Payable(tiers)
    ensures Walk(p, anchor, tiers, 0, date, ledger, amount) == Walked(ledger, [], amount)
    ensures Shows(tiers, AccountOf(ledger, side), AccountOf(ledger, side), [], side)
  {
    hide Payable;
  }

  lemma WalkNext(p: Procedure, anchor: int, tiers: seq<Tier>, n: nat, date: int, ledger: Ledger, amount: real)
    requires 0 < n <= |tiers| && Payable(tiers)
    ensures OwnTerms(tiers[n - 1])
    ensures var w := Walk(p, anchor, tiers, n - 1, date, ledger, amount);
            Walk(p, anchor, tiers, n, date, ledger, amount)
            == Pay(tiers[n - 1], n - 1, date, w, Payment(p, anchor, tiers[n - 1], date, w))
  {
    hide Pay, Payment, OwnTerms;
  }

  lemma PayRepays(tiers: seq<Tier>, start: Account, n: nat, date: int, w: Walked, payment: real, side: Side)
    requires n < |tiers| && Shows(tiers, start, AccountOf(w.ledger, side), w.cells, side)
    ensures var after := Pay(tiers[n], n, date, w, payment);
            Shows(tiers, start, AccountOf(after.ledger, side), after.cells, side)
  {
    if payment > 0.0 {
      var s := Shares(tiers[n], w.ledger);
      var cell := Cell(n, Of(s.0, payment), Of(s.1, payment));
      hide Shares, Of, CellsPaid;
      CellsMore(tiers, w.cells, cell, Capital, side);
      CellsMore(tiers, w.cells, cell, Return, side);
      CellsMore(tiers, w.cells, cell, Either, side);
      CellsMore(tiers, w.cells, cell, Excess, side);
    }
  }

  // ----- Whole runs -----

  /** Capital outstanding is what was lent less what was returned. */
  ghost predicate CapitalAgrees(a: Account, lent: seq<Flow>, returned: seq<Flow>) {
    a.unreturned == Total(lent) - Total(returned)
  }

  /** Under compounding, capital and return together are the grown loans less the grown repayments. */
  ghost predicate CompoundAgrees(p: Procedure, rate: real, a: Account, lent: seq<Flow>, repaid: seq<Flow>, date: int) {
    a.pref + a.unreturned == Grown(p, rate, lent, date) - Grown(p, rate, repaid, date)
  }

  /** Under a simple rate, return is owed on capital for its time, never on return. */
  ghost predicate SimpleAgrees(p: Procedure, rate: real, a: Account, lent: seq<Flow>, returned: seq<Flow>,
      paid: seq<Flow>, date: int)
  {
    a.pref == Of(rate, Elapsed(p, lent, date) - Elapsed(p, returned, date)) - Total(paid)
  }

  /** A record against the dated sums of its party. */
  ghost predicate Agrees(p: Procedure, t: Tier, a: Account, lent: seq<Flow>, returned: seq<Flow>, paid: seq<Flow>,
      repaid: seq<Flow>, date: int)
    requires t.PreferredReturn?
  {
    && CapitalAgrees(a, lent, returned)
    && (if t.simple then SimpleAgrees(p, t.rate, a, lent, returned, paid, date)
        else CompoundAgrees(p, t.rate, a, lent, repaid, date))
  }

  /** Time passes: the return accrues. */
  lemma AccruesAgreeing(p: Procedure, t: Tier, a: Account, lent: seq<Flow>, returned: seq<Flow>, paid: seq<Flow>,
      repaid: seq<Flow>, date: int, later: int)
    requires Lawful(p) && Additive(p) && t.PreferredReturn? && t.rate > 0.0 && date <= later
    requires MadeBy(lent, date) && MadeBy(returned, date) && MadeBy(repaid, date)
    requires Agrees(p, t, a, lent, returned, paid, repaid, date)
    ensures Agrees(p, t, Accrued(p, Some(t), a, p.years(date, later)), lent, returned, paid, repaid, later)
  {
    hide Lawful, Additive, MadeBy, Total, Grown, Elapsed;
    var dt := p.years(date, later);
    if t.simple {
      ElapsedLater(p, lent, date, later);
      ElapsedLater(p, returned, date, later);
      OnCapital(a.unreturned, t.rate, dt, Elapsed(p, lent, date) - Elapsed(p, returned, date));
      Shared(dt, Total(lent), Total(returned));
    } else {
      var k := p.pow(1.0 + t.rate, dt);
      GrownLater(p, t.rate, lent, date, later);
      GrownLater(p, t.rate, repaid, date, later);
      Compounds(a.pref, a.unreturned, k);
      Shared(k, Grown(p, t.rate, lent, date), Grown(p, t.rate, repaid, date));
    }
  }

  lemma OnCapital(unreturned: real, rate: real, dt: real, waited: real)
    ensures Of(rate, waited) + unreturned * rate * dt == Of(rate, waited + Of(dt, unreturned))
  {
    assert unreturned * rate * dt == (unreturned * dt) * rate;
  }

  lemma Shared(k: real, a: real, b: real)
    ensures Of(k, a) - Of(k, b) == Of(k, a - b)
  {
  }

  lemma Compounds(pref: real, unreturned: real, k: real)
    ensures pref + (pref + unreturned) * (k - 1.0) + unreturned == Of(k, pref + unreturned)
  {
  }

  /** A flow of the day adds its amount, and no time. */
  lemma FlowToday(p: Procedure, rate: real, flows: seq<Flow>, f: Flow)
    requires Lawful(p) && Additive(p) && rate > 0.0
    ensures Grown(p, rate, flows + [f], f.date) == Grown(p, rate, flows, f.date) + f.amount
    ensures Elapsed(p, flows + [f], f.date) == Elapsed(p, flows, f.date)
    ensures Total(flows + [f]) == Total(flows) + f.amount
  {
    NoGrowth(p, rate, f.date);
    NoTime(p, f.date);
    assert (flows + [f])[..|flows|] == flows;
    hide Lawful, Additive;
  }

  lemma ContributesAgreeing(p: Procedure, t: Tier, a: Account, lent: seq<Flow>, returned: seq<Flow>, paid: seq<Flow>,
      repaid: seq<Flow>, date: int, share: real)
    requires Lawful(p) && Additive(p) && t.PreferredReturn? && t.rate > 0.0
    requires Agrees(p, t, a, lent, returned, paid, repaid, date)
    ensures Agrees(p, t, Contributed(a, share, date), lent + [Flow(date, share)], returned, paid, repaid, date)
  {
    FlowToday(p, t.rate, lent, Flow(date, share));
    hide Lawful, Additive, Grown, Elapsed, Total, Of;
  }

  lemma RepaysAgreeing(p: Procedure, t: Tier, a: Account, b: Account, lent: seq<Flow>, returned: seq<Flow>,
      paid: seq<Flow>, repaid: seq<Flow>, date: int, capital: real, interest: real)
    requires Lawful(p) && Additive(p) && t.PreferredReturn? && t.rate > 0.0
    requires Agrees(p, t, a, lent, returned, paid, repaid, date)
    requires b.unreturned == a.unreturned - capital && b.pref == a.pref - interest
    ensures Agrees(p, t, b, lent, returned + [Flow(date, capital)], paid + [Flow(date, interest)],
                   repaid + [Flow(date, capital + interest)], date)
  {
    FlowToday(p, t.rate, returned, Flow(date, capital));
    FlowToday(p, t.rate, paid, Flow(date, interest));
    FlowToday(p, t.rate, repaid, Flow(date, capital + interest));
    hide Lawful, Additive, Grown, Elapsed, Total, Of;
  }

  /** The record of a party after n rows, against its contributions and the schedule. */
  ghost predicate Owed(p: Procedure, terms: Terms, t: Tier, rows: seq<Flow>, n: nat, side: Side, date: int)
    requires n <= |rows| && rows != [] && Payable(terms.tiers) && t.PreferredReturn?
  {
    var b, lent := Run(p, terms, rows, n), Lent(terms, rows, n, side);
    var returned, paid := Repaid(terms.tiers, b.schedule, Capital, side), Repaid(terms.tiers, b.schedule, Return, side);
    var repaid := Repaid(terms.tiers, b.schedule, Either, side);
    Agrees(p, t, AccountOf(b.ledger, side), lent, returned, paid, repaid, date)
  }

  lemma {:induction false} LentBy(terms: Terms, rows: seq<Flow>, n: nat, side: Side)
    requires n <= |rows| && rows != [] && Chronological(rows)
    ensures MadeBy(Lent(terms, rows, n, side), if n == 0 then rows[0].date else rows[n - 1].date)
  {
    if n > 0 {
      LentBy(terms, rows, n - 1, side);
    }
  }

  lemma {:induction false} ScheduledBy(p: Procedure, terms: Terms, rows: seq<Flow>, n: nat)
    requires n <= |rows| && rows != [] && Payable(terms.tiers) && Chronological(rows)
    ensures var date := if n == 0 then rows[0].date else rows[n - 1].date;
            && Run(p, terms, rows, n).previous == date
            && forall k :: 0 <= k < |Run(p, terms, rows, n).schedule| ==>
                Run(p, terms, rows, n).schedule[k].date <= date
  {
    if n > 0 {
      ScheduledBy(p, terms, rows, n - 1);
      var b := Run(p, terms, rows, n - 1);
      hide Walk, Accrued, Payable, Contributed, Of;
    }
  }

  /**
   What is owed, over any run of contributions, payments and idle rows: capital, and the preferred
   return by its convention, follow from the series and the schedule.
   */
  lemma {:induction false} OwedOverRun(p: Procedure, terms: Terms, t: Tier, rows: seq<Flow>, n: nat, side: Side)
    requires Lawful(p) && Additive(p) && Chronological(rows) && rows != [] && n <= |rows| && Payable(terms.tiers)
    requires FirstPreferred(terms.tiers) == Some(t) && t.PreferredReturn? && t.rate > 0.0
    ensures Owed(p, terms, t, rows, n, side, if n == 0 then rows[0].date else rows[n - 1].date)
  {
    hide *;
    if n == 0 {
      NothingOwed(p, terms, t, rows, side);
    } else {
      var date := if n == 1 then rows[0].date else rows[n - 2].date;
      Onward(rows, n);
      OwedOverRun(p, terms, t, rows, n - 1, side);
      OwedAfterRow(p, terms, t, rows, n, side, date);
    }
  }

  lemma Onward(rows: seq<Flow>, n: nat)
    requires Chronological(rows) && 0 < n <= |rows|
    ensures (if n == 1 then rows[0].date else rows[n - 2].date) <= rows[n - 1].date
  {
  }

  lemma NothingOwed(p: Procedure, terms: Terms, t: Tier, rows: seq<Flow>, side: Side)
    requires rows != [] && Payable(terms.tiers) && t.PreferredReturn?
    ensures Owed(p, terms, t, rows, 0, side, rows[0].date)
  {
    hide Payable;
  }

  /** The ledger a row finds, its return accrued. */
  function Ready(p: Procedure, terms: Terms, b: Books, date: int): Ledger {
    var pref, dt := FirstPreferred(terms.tiers), p.years(b.previous, date);
    Ledger(Accrued(p, pref, b.ledger.lp, dt), Accrued(p, pref, b.ledger.gp, dt))
  }

  lemma OwedAfterRow(p: Procedure, terms: Terms, t: Tier, rows: seq<Flow>, n: nat, side: Side, date: int)
    requires Lawful(p) && Additive(p) && Chronological(rows) && rows != [] && 0 < n <= |rows| && Payable(terms.tiers)
    requires FirstPreferred(terms.tiers) == Some(t) && t.PreferredReturn? && t.rate > 0.0
    requires date == (if n == 1 then rows[0].date else rows[n - 2].date) <= rows[n - 1].date
    requires Owed(p, terms, t, rows, n - 1, side, date)
    ensures Owed(p, terms, t, rows, n, side, rows[n - 1].date)
  {
    hide *;
    var row, b, lent := rows[n - 1], Run(p, terms, rows, n - 1), Lent(terms, rows, n - 1, side);
    var returned, paid := Repaid(terms.tiers, b.schedule, Capital, side), Repaid(terms.tiers, b.schedule, Return, side);
    var repaid := Repaid(terms.tiers, b.schedule, Either, side);
    var a := Accrued(p, Some(t), AccountOf(b.ledger, side), p.years(date, row.date));
    LentBy(terms, rows, n - 1, side);
    ScheduledBy(p, terms, rows, n - 1);
    RepaidBy(terms.tiers, b.schedule, side, date);
    OpenOwed(p, terms, t, rows, n - 1, side, date);
    AccruesAgreeing(p, t, AccountOf(b.ledger, side), lent, returned, paid, repaid, date, row.date);
    ReadyAccount(p, terms, t, b, row.date, side);
    if row.amount < 0.0 {
      var share := Of(ShareOf(terms, side), -row.amount);
      ContributesAgreeing(p, t, a, lent, returned, paid, repaid, row.date, share);
      RowContributes(p, terms, rows, n, side);
    } else if row.amount > 0.0 {
      var l := Ready(p, terms, b, row.date);
      var w := Walk(p, rows[0].date, terms.tiers, |terms.tiers|, row.date, l, row.amount);
      WalkRepays(p, rows[0].date, terms.tiers, |terms.tiers|, row.date, l, row.amount, side);
      ShownRepaid(terms.tiers, a, AccountOf(w.ledger, side), w.cells, side);
      RepaysAgreeing(p, t, a, AccountOf(w.ledger, side), lent, returned, paid, repaid, row.date,
          CellsPaid(terms.tiers, w.cells, Capital, side), CellsPaid(terms.tiers, w.cells, Return, side));
      RowPays(p, terms, rows, n, side);
      RepaidMore(terms.tiers, b.schedule, Entry(row.date, w.cells), Capital, side);
      RepaidMore(terms.tiers, b.schedule, Entry(row.date, w.cells), Return, side);
      RepaidMore(terms.tiers, b.schedule, Entry(row.date, w.cells), Either, side);
    } else {
      RowIdles(p, terms, rows, n, side);
    }
    CloseOwed(p, terms, t, rows, n, side, row.date);
  }

  lemma ShownRepaid(tiers: seq<Tier>, a: Account, b: Account, cells: seq<Cell>, side: Side)
    requires Shows(tiers, a, b, cells, side)
    ensures b.unreturned == a.unreturned - CellsPaid(tiers, cells, Capital, side)
    ensures b.pref == a.pref - CellsPaid(tiers, cells, Return, side)
    ensures CellsPaid(tiers, cells, Either, side)
            == CellsPaid(tiers, cells, Capital, side) + CellsPaid(tiers, cells, Return, side)
  {
    hide CellsPaid;
  }

  lemma OpenOwed(p: Procedure, terms: Terms, t: Tier, rows: seq<Flow>, n: nat, side: Side, date: int)
    requires n <= |rows| && rows != [] && Payable(terms.tiers) && t.PreferredReturn?
    requires Owed(p, terms, t, rows, n, side, date)
    ensures var b := Run(p, terms, rows, n);
            Agrees(p, t, AccountOf(b.ledger, side), Lent(terms, rows, n, side),
                   Repaid(terms.tiers, b.schedule, Capital, side), Repaid(terms.tiers, b.schedule, Return, side),
                   Repaid(terms.tiers, b.schedule, Either, side), date)
  {
    hide Agrees, Run, Lent, Repaid, Payable;
  }

  lemma CloseOwed(p: Procedure, terms: Terms, t: Tier, rows: seq<Flow>, n: nat, side: Side, date: int)
    requires n <= |rows| && rows != [] && Payable(terms.tiers) && t.PreferredReturn?
    requires var b := Run(p, terms, rows, n);
             Agrees(p, t, AccountOf(b.ledger, side), Lent(terms, rows, n, side),
                    Repaid(terms.tiers, b.schedule, Capital, side), Repaid(terms.tiers, b.schedule, Return, side),
                    Repaid(terms.tiers, b.schedule, Either, side), date)
    ensures Owed(p, terms, t, rows, n, side, date)
  {
    hide Agrees, Run, Lent, Repaid, Payable;
  }

  lemma RepaidBy(tiers: seq<Tier>, schedule: seq<Entry>, side: Side, date: int)
    requires forall k :: 0 <= k < |schedule| ==> schedule[k].date <= date
    ensures forall purpose :: MadeBy(Repaid(tiers, schedule, purpose, side), date)
  {
  }

  lemma RepaidMore(tiers: seq<Tier>, schedule: seq<Entry>, e: Entry, purpose: Purpose, side: Side)
    ensures Repaid(tiers, schedule + [e], purpose, side)
            == Repaid(tiers, schedule, purpose, side) + [Flow(e.date, CellsPaid(tiers, e.cells, purpose, side))]
  {
    assert (schedule + [e])[..|schedule|] == schedule;
    hide CellsPaid;
  }

  lemma ReadyAccount(p: Procedure, terms: Terms, t: Tier, b: Books, date: int, side: Side)
    requires FirstPreferred(terms.tiers) == Some(t)
    ensures AccountOf(Ready(p, terms, b, date), side)
            == Accrued(p, Some(t), AccountOf(b.ledger, side), p.years(b.previous, date))
  {
    hide Accrued, FirstPreferred;
  }

  lemma RowContributes(p: Procedure, terms: Terms, rows: seq<Flow>, n: nat, side: Side)
    requires rows != [] && 0 < n <= |rows| && Payable(terms.tiers) && rows[n - 1].amount < 0.0
    ensures var row, b, after := rows[n - 1], Run(p, terms, rows, n - 1), Run(p, terms, rows, n);
            var share := Of(ShareOf(terms, side), -row.amount);
            && AccountOf(after.ledger, side)
                == Contributed(AccountOf(Ready(p, terms, b, row.date), side), share, row.date)
            && Lent(terms, rows, n, side) == Lent(terms, rows, n - 1, side) + [Flow(row.date, share)]
            && after.schedule == b.schedule
  {
    hide Accrued, FirstPreferred, Contributed, Of, Payable, Walk;
  }

  lemma RowPays(p: Procedure, terms: Terms, rows: seq<Flow>, n: nat, side: Side)
    requires rows != [] && 0 < n <= |rows| && Payable(terms.tiers) && rows[n - 1].amount > 0.0
    ensures var row, b, after := rows[n - 1], Run(p, terms, rows, n - 1), Run(p, terms, rows, n);
            var w := Walk(p, rows[0].date, terms.tiers, |terms.tiers|, row.date, Ready(p, terms, b, row.date),
                row.amount);
            && after.ledger == w.ledger && after.schedule == b.schedule + [Entry(row.date, w.cells)]
            && Lent(terms, rows, n, side) == Lent(terms, rows, n - 1, side)
  {
    hide Accrued, FirstPreferred, Contributed, Of, Payable, Walk;
  }

  lemma RowIdles(p: Procedure, terms: Terms, rows: seq<Flow>, n: nat, side: Side)
    requires rows != [] && 0 < n <= |rows| && Payable(terms.tiers) && rows[n - 1].amount == 0.0
    ensures var row, b, after := rows[n - 1], Run(p, terms, rows, n - 1), Run(p, terms, rows, n);
            && after.ledger == Ready(p, terms, b, row.date) && after.schedule == b.schedule
            && Lent(terms, rows, n, side) == Lent(terms, rows, n - 1, side)
  {
    hide Accrued, FirstPreferred, Contributed, Of, Payable, Walk;
  }

  // ----- What is paid of it -----

  /**
   When a row's cash passes the preferred tier, its cells so far have paid each party exactly what
   its loans earned: under a simple rate, the rate on the time each loan was out.
   */
  lemma SimplePaid(p: Procedure, terms: Terms, t: Tier, rows: seq<Flow>, n: nat, slack: real, c: Cell, i: nat,
      side: Side)
    requires Lawful(p) && Additive(p) && Chronological(rows) && n < |rows| && Payable(terms.tiers)
    requires Usable(terms, slack)
    requires rows[n].amount > 0.0 && Run(p, terms, rows, n + 1).schedule != []
    requires var after := Run(p, terms, rows, n + 1).schedule; c in after[|after| - 1].cells
    requires FirstPreferred(terms.tiers) == Some(t) && i < |terms.tiers| && terms.tiers[i] == t && i < c.tier
    requires t.PreferredReturn? && t.simple && t.rate > 0.0
    ensures var b := Run(p, terms, rows, n + 1);
            Total(Repaid(terms.tiers, b.schedule, Return, side))
            == Of(t.rate, Elapsed(p, Lent(terms, rows, n + 1, side), rows[n].date)
                          - Elapsed(p, Repaid(terms.tiers, b.schedule, Capital, side), rows[n].date))
  {
    hide *;
    OwedOverRun(p, terms, t, rows, n + 1, side);
    OpenOwed(p, terms, t, rows, n + 1, side, rows[n].date);
    PreferredKept(t, terms.tiers, i);
    PriorityOfPayments(p, terms, rows, n, slack, c, i);
    NothingLeftOwed(p, rows[0].date, t, Run(p, terms, rows, n + 1).ledger, rows[n].date, side);
    SimpleOwed(p, terms, t, rows, n + 1, side, rows[n].date);
  }

  /** Under compounding, the grown repayments are the grown loans, but for the capital still out. */
  lemma CompoundPaid(p: Procedure, terms: Terms, t: Tier, rows: seq<Flow>, n: nat, slack: real, c: Cell, i: nat,
      side: Side)
    requires Lawful(p) && Additive(p) && Chronological(rows) && n < |rows| && Payable(terms.tiers)
    requires Usable(terms, slack)
    requires rows[n].amount > 0.0 && Run(p, terms, rows, n + 1).schedule != []
    requires var after := Run(p, terms, rows, n + 1).schedule; c in after[|after| - 1].cells
    requires FirstPreferred(terms.tiers) == Some(t) && i < |terms.tiers| && terms.tiers[i] == t && i < c.tier
    requires t.PreferredReturn? && !t.simple && t.rate > 0.0
    ensures var b := Run(p, terms, rows, n + 1);
            Grown(p, t.rate, Repaid(terms.tiers, b.schedule, Either, side), rows[n].date)
            == Grown(p, t.rate, Lent(terms, rows, n + 1, side), rows[n].date) - AccountOf(b.ledger, side).unreturned
  {
    hide *;
    OwedOverRun(p, terms, t, rows, n + 1, side);
    PreferredKept(t, terms.tiers, i);
    PriorityOfPayments(p, terms, rows, n, slack, c, i);
    NothingLeftOwed(p, rows[0].date, t, Run(p, terms, rows, n + 1).ledger, rows[n].date, side);
    CompoundOwed(p, terms, t, rows, n + 1, side, rows[n].date);
  }

  lemma PreferredKept(t: Tier, tiers: seq<Tier>, i: nat)
    requires t.PreferredReturn?
    ensures forall j :: i < j < |tiers| ==> Keeps(t, tiers[j])
  {
  }

  lemma NothingLeftOwed(p: Procedure, anchor: int, t: Tier, l: Ledger, date: int, side: Side)
    requires t.PreferredReturn? && Reached(p, anchor, t, l, date)
    ensures AccountOf(l, side).pref == 0.0
  {
  }

  /** The simple law on the record itself. */
  lemma SimpleOwed(p: Procedure, terms: Terms, t: Tier, rows: seq<Flow>, n: nat, side: Side, date: int)
    requires n <= |rows| && rows != [] && Payable(terms.tiers) && t.PreferredReturn? && t.simple
    requires Owed(p, terms, t, rows, n, side, date)
    ensures var b := Run(p, terms, rows, n);
            AccountOf(b.ledger, side).pref + Total(Repaid(terms.tiers, b.schedule, Return, side))
            == Of(t.rate, Elapsed(p, Lent(terms, rows, n, side), date)
                          - Elapsed(p, Repaid(terms.tiers, b.schedule, Capital, side), date))
  {
    hide Run, Lent, Repaid, Payable, Elapsed, Total, Of;
  }

  /** The compounding law on the record itself. */
  lemma CompoundOwed(p: Procedure, terms: Terms, t: Tier, rows: seq<Flow>, n: nat, side: Side, date: int)
    requires n <= |rows| && rows != [] && Payable(terms.tiers) && t.PreferredReturn? && !t.simple
    requires Owed(p, terms, t, rows, n, side, date)
    ensures var b := Run(p, terms, rows, n);
            AccountOf(b.ledger, side).pref + AccountOf(b.ledger, side).unreturned
            == Grown(p, t.rate, Lent(terms, rows, n, side), date)
               - Grown(p, t.rate, Repaid(terms.tiers, b.schedule, Either, side), date)
  {
    hide Run, Lent, Repaid, Payable, Grown, Total, Of;
  }

  // ----- The totals -----

  /** A party's totals, from its contributions and the schedule. */
  ghost predicate Totals(a: Account, lent: seq<Flow>, returned: seq<Flow>, paid: seq<Flow>, repaid: seq<Flow>,
      excess: seq<Flow>)
  {
    && a.contributions == Total(lent) && a.unreturned == Total(lent) - Total(returned)
    && a.roc == Total(returned) && a.prefReceived == Total(paid)
    && a.distributions == Total(repaid) + Total(excess) && Total(repaid) == Total(returned) + Total(paid)
  }

  ghost predicate TotalsAfter(p: Procedure, terms: Terms, rows: seq<Flow>, n: nat, side: Side)
    requires n <= |rows| && rows != [] && Payable(terms.tiers)
  {
    var b := Run(p, terms, rows, n);
    Totals(AccountOf(b.ledger, side), Lent(terms, rows, n, side), Repaid(terms.tiers, b.schedule, Capital, side),
           Repaid(terms.tiers, b.schedule, Return, side), Repaid(terms.tiers, b.schedule, Either, side),
           Repaid(terms.tiers, b.schedule, Excess, side))
  }

  /** Every total of a party's record is read off its contributions and the schedule's cells. */
  lemma {:induction false} TotalsOverRun(p: Procedure, terms: Terms, rows: seq<Flow>, n: nat, side: Side)
    requires n <= |rows| && rows != [] && Payable(terms.tiers)
    ensures TotalsAfter(p, terms, rows, n, side)
  {
    hide *;
    if n == 0 {
      NoTotals(p, terms, rows, side);
    } else {
      TotalsOverRun(p, terms, rows, n - 1, side);
      TotalsAfterRow(p, terms, rows, n, side);
    }
  }

  lemma NoTotals(p: Procedure, terms: Terms, rows: seq<Flow>, side: Side)
    requires rows != [] && Payable(terms.tiers)
    ensures TotalsAfter(p, terms, rows, 0, side)
  {
    hide Payable;
  }

  lemma TotalsAfterRow(p: Procedure, terms: Terms, rows: seq<Flow>, n: nat, side: Side)
    requires 0 < n <= |rows| && Payable(terms.tiers) && TotalsAfter(p, terms, rows, n - 1, side)
    ensures TotalsAfter(p, terms, rows, n, side)
  {
    hide *;
    var row, b, tiers := rows[n - 1], Run(p, terms, rows, n - 1), terms.tiers;
    var l, lent := Ready(p, terms, b, row.date), Lent(terms, rows, n - 1, side);
    var returned, paid := Repaid(tiers, b.schedule, Capital, side), Repaid(tiers, b.schedule, Return, side);
    var repaid, excess := Repaid(tiers, b.schedule, Either, side), Repaid(tiers, b.schedule, Excess, side);
    OpenTotals(p, terms, rows, n - 1, side);
    ReadyTotals(p, terms, b, row.date, side, lent, returned, paid, repaid, excess);
    var a := AccountOf(l, side);
    if row.amount < 0.0 {
      RowContributes(p, terms, rows, n, side);
      ContributesTotals(a, Of(ShareOf(terms, side), -row.amount), row.date, lent, returned, paid, repaid, excess);
    } else if row.amount > 0.0 {
      var w := Walk(p, rows[0].date, tiers, |tiers|, row.date, l, row.amount);
      var e := Entry(row.date, w.cells);
      WalkRepays(p, rows[0].date, tiers, |tiers|, row.date, l, row.amount, side);
      RowPays(p, terms, rows, n, side);
      RepaidMore(tiers, b.schedule, e, Capital, side);
      RepaidMore(tiers, b.schedule, e, Return, side);
      RepaidMore(tiers, b.schedule, e, Either, side);
      RepaidMore(tiers, b.schedule, e, Excess, side);
      PaysTotals(tiers, a, AccountOf(w.ledger, side), e, side, lent, returned, paid, repaid, excess);
    } else {
      RowIdles(p, terms, rows, n, side);
    }
    CloseTotals(p, terms, rows, n, side);
  }

  lemma OpenTotals(p: Procedure, terms: Terms, rows: seq<Flow>, n: nat, side: Side)
    requires n <= |rows| && rows != [] && Payable(terms.tiers) && TotalsAfter(p, terms, rows, n, side)
    ensures var b := Run(p, terms, rows, n);
            Totals(AccountOf(b.ledger, side), Lent(terms, rows, n, side),
                Repaid(terms.tiers, b.schedule, Capital, side),
                   Repaid(terms.tiers, b.schedule, Return, side), Repaid(terms.tiers, b.schedule, Either, side),
                   Repaid(terms.tiers, b.schedule, Excess, side))
  {
    hide Run, Lent, Repaid, Payable, Totals;
  }

  lemma CloseTotals(p: Procedure, terms: Terms, rows: seq<Flow>, n: nat, side: Side)
    requires n <= |rows| && rows != [] && Payable(terms.tiers)
    requires var b := Run(p, terms, rows, n);
             Totals(AccountOf(b.ledger, side), Lent(terms, rows, n, side),
                 Repaid(terms.tiers, b.schedule, Capital, side),
                    Repaid(terms.tiers, b.schedule, Return, side), Repaid(terms.tiers, b.schedule, Either, side),
                    Repaid(terms.tiers, b.schedule, Excess, side))
    ensures TotalsAfter(p, terms, rows, n, side)
  {
    hide Run, Lent, Repaid, Payable, Totals;
  }

  /** Accrual changes no total. */
  lemma ReadyTotals(p: Procedure, terms: Terms, b: Books, date: int, side: Side, lent: seq<Flow>, returned: seq<Flow>,
      paid: seq<Flow>, repaid: seq<Flow>, excess: seq<Flow>)
    requires Totals(AccountOf(b.ledger, side), lent, returned, paid, repaid, excess)
    ensures Totals(AccountOf(Ready(p, terms, b, date), side), lent, returned, paid, repaid, excess)
  {
    hide FirstPreferred, Total, Accrual;
  }

  lemma ContributesTotals(a: Account, share: real, date: int, lent: seq<Flow>, returned: seq<Flow>, paid: seq<Flow>,
      repaid: seq<Flow>, excess: seq<Flow>)
    requires Totals(a, lent, returned, paid, repaid, excess)
    ensures Totals(Contributed(a, share, date), lent + [Flow(date, share)], returned, paid, repaid, excess)
  {
    TotalMore(lent, Flow(date, share));
    hide Total;
  }

  lemma PaysTotals(tiers: seq<Tier>, a: Account, b: Account, e: Entry, side: Side, lent: seq<Flow>, returned: seq<Flow>,
      paid: seq<Flow>, repaid: seq<Flow>, excess: seq<Flow>)
    requires Totals(a, lent, returned, paid, repaid, excess) && Shows(tiers, a, b, e.cells, side)
    ensures Totals(b, lent, returned + [Flow(e.date, CellsPaid(tiers, e.cells, Capital, side))],
                   paid + [Flow(e.date, CellsPaid(tiers, e.cells, Return, side))],
                   repaid + [Flow(e.date, CellsPaid(tiers, e.cells, Either, side))],
                   excess + [Flow(e.date, CellsPaid(tiers, e.cells, Excess, side))])
  {
    TotalMore(returned, Flow(e.date, CellsPaid(tiers, e.cells, Capital, side)));
    TotalMore(paid, Flow(e.date, CellsPaid(tiers, e.cells, Return, side)));
    TotalMore(repaid, Flow(e.date, CellsPaid(tiers, e.cells, Either, side)));
    TotalMore(excess, Flow(e.date, CellsPaid(tiers, e.cells, Excess, side)));
    hide Total, CellsPaid;
  }

  /** A party's stated outcome against what it put in and got back. */
  ghost predicate Stated(o: PartyOutcome, lent: seq<Flow>, repaid: seq<Flow>, excess: seq<Flow>) {
    && o.contributions == Total(lent) && o.distributions == Total(repaid) + Total(excess)
    && (o.moic.None? <==> o.contributions == 0.0)
    && (o.moic.Some? ==> Of(o.contributions, o.moic.value) == o.distributions)
  }

  /** The stated outcomes of each party, from the series and the schedule. */
  lemma OutcomesFromSchedule(p: Procedure, terms: Terms, rows: seq<Flow>, side: Side)
    requires rows != [] && Payable(terms.tiers)
    ensures var n, b := |rows|, Run(p, terms, rows, |rows|);
            var o := OutcomesOf(p, terms, b.ledger, rows[0].date, rows[n - 1].date);
            Stated(if side == LimitedPartner then o.lp else o.gp, Lent(terms, rows, n, side),
                   Repaid(terms.tiers, b.schedule, Either, side), Repaid(terms.tiers, b.schedule, Excess, side))
  {
    hide *;
    TotalsOverRun(p, terms, rows, |rows|, side);
    OpenTotals(p, terms, rows, |rows|, side);
    OutcomeOfSide(p, terms, Run(p, terms, rows, |rows|).ledger, rows[0].date, rows[|rows| - 1].date, side);
    MultipleStated(AccountOf(Run(p, terms, rows, |rows|).ledger, side));
    TotalsStated(AccountOf(Run(p, terms, rows, |rows|).ledger, side), Lent(terms, rows, |rows|, side),
        Repaid(terms.tiers, Run(p, terms, rows, |rows|).schedule, Capital, side),
        Repaid(terms.tiers, Run(p, terms, rows, |rows|).schedule, Return, side),
        Repaid(terms.tiers, Run(p, terms, rows, |rows|).schedule, Either, side),
        Repaid(terms.tiers, Run(p, terms, rows, |rows|).schedule, Excess, side));
  }

  lemma OutcomeOfSide(p: Procedure, terms: Terms, l: Ledger, anchor: int, end: int, side: Side)
    ensures var o := OutcomesOf(p, terms, l, anchor, end);
            (if side == LimitedPartner then o.lp else o.gp) == OutcomeOf(AccountOf(l, side))
  {
    hide ClawbackAmount, OutcomeOf;
  }

  lemma TotalsStated(a: Account, lent: seq<Flow>, returned: seq<Flow>, paid: seq<Flow>, repaid: seq<Flow>,
      excess: seq<Flow>)
    requires Totals(a, lent, returned, paid, repaid, excess)
    ensures Stated(OutcomeOf(a), lent, repaid, excess)
  {
    MultipleStated(a);
    hide Total, OutcomeOf, Of;
  }

  lemma MultipleStated(a: Account)
    ensures var o := OutcomeOf(a);
            && o.contributions == a.contributions && o.distributions == a.distributions
            && (o.moic.None? <==> o.contributions == 0.0)
            && (o.moic.Some? ==> Of(o.contributions, o.moic.value) == o.distributions)
  {
  }

  /**
   The promote is what the tiers above the preferred return paid the general partner, and the
   profit is all that was paid less all that was lent.
   */
  lemma PromoteFromSchedule(p: Procedure, terms: Terms, rows: seq<Flow>)
    requires rows != [] && Payable(terms.tiers)
    ensures var n, tiers, b := |rows|, terms.tiers, Run(p, terms, rows, |rows|);
            var o := OutcomesOf(p, terms, b.ledger, rows[0].date, rows[n - 1].date);
            && o.promoteTotal == Total(Repaid(tiers, b.schedule, Excess, GeneralPartner))
            && o.profitTotal == BackLessLent(terms, rows, b.schedule, LimitedPartner)
                                + BackLessLent(terms, rows, b.schedule, GeneralPartner)
  {
    hide *;
    TotalsOverRun(p, terms, rows, |rows|, LimitedPartner);
    TotalsOverRun(p, terms, rows, |rows|, GeneralPartner);
    BackOfTotals(p, terms, rows, LimitedPartner);
    BackOfTotals(p, terms, rows, GeneralPartner);
    PromoteOf(p, terms, Run(p, terms, rows, |rows|).ledger, rows[0].date, rows[|rows| - 1].date);
  }

  /** What a party got back over a run, less what it lent. */
  function BackLessLent(terms: Terms, rows: seq<Flow>, schedule: seq<Entry>, side: Side): real {
    Total(Repaid(terms.tiers, schedule, Either, side)) + Total(Repaid(terms.tiers, schedule, Excess, side))
    - Total(Lent(terms, rows, |rows|, side))
  }

  lemma BackOfTotals(p: Procedure, terms: Terms, rows: seq<Flow>, side: Side)
    requires rows != [] && Payable(terms.tiers) && TotalsAfter(p, terms, rows, |rows|, side)
    ensures var b := Run(p, terms, rows, |rows|);
            var a := AccountOf(b.ledger, side);
            && a.distributions - a.contributions == BackLessLent(terms, rows, b.schedule, side)
            && a.distributions - a.roc - a.prefReceived == Total(Repaid(terms.tiers, b.schedule, Excess, side))
  {
    hide Run, Repaid, Lent, Total, Payable;
  }

  lemma PromoteOf(p: Procedure, terms: Terms, l: Ledger, anchor: int, end: int)
    ensures var o, lp, gp :=
            OutcomesOf(p, terms, l, anchor, end), AccountOf(l, LimitedPartner), AccountOf(l, GeneralPartner);
            && o.promoteTotal == gp.distributions - gp.roc - gp.prefReceived
            && o.profitTotal == lp.distributions - lp.contributions + (gp.distributions - gp.contributions)
  {
    hide ClawbackAmount, OutcomeOf;
  }

  // ----- The hurdle balance -----

  /** A party's own flows, brought to a date, are what it got back less what it put in. */
  ghost predicate FlowsAgree(p: Procedure, rate: real, a: Account, lent: seq<Flow>, repaid: seq<Flow>,
      excess: seq<Flow>,
      date: int)
  {
    Grown(p, rate, a.flows, date)
        == Grown(p, rate, repaid, date) + Grown(p, rate, excess, date) - Grown(p, rate, lent, date)
  }

  /** The balance of flows is what they grow to, whatever anchor they are discounted to. */
  lemma BalanceIsGrown(p: Procedure, anchor: int, rate: real, flows: seq<Flow>, date: int)
    requires Additive(p) && Lawful(p) && rate > 0.0 && anchor <= date && MadeBy(flows, date)
    requires forall k :: 0 <= k < |flows| ==> anchor <= flows[k].date
    ensures Balance(p, anchor, rate, flows, date) == -Grown(p, rate, flows, date)
  {
    hide *;
    DiscountedGrows(p, anchor, rate, flows, date);
    BalanceOf(p, anchor, rate, flows, date);
  }

  lemma BalanceOf(p: Procedure, anchor: int, rate: real, flows: seq<Flow>, date: int)
    ensures Balance(p, anchor, rate, flows, date)
            == -Of(p.pow(1.0 + rate, p.years(anchor, date)), Discounted(p, anchor, rate, flows))
  {
    hide Discounted;
  }

  lemma {:induction false} DiscountedGrows(p: Procedure, anchor: int, rate: real, flows: seq<Flow>, date: int)
    requires Additive(p) && Lawful(p) && rate > 0.0 && anchor <= date && MadeBy(flows, date)
    requires forall k :: 0 <= k < |flows| ==> anchor <= flows[k].date
    ensures Of(p.pow(1.0 + rate, p.years(anchor, date)), Discounted(p, anchor, rate, flows))
            == Grown(p, rate, flows, date)
  {
    hide Additive, Lawful;
    if flows == [] {
    } else {
      var last := flows[|flows| - 1];
      DiscountedGrows(p, anchor, rate, flows[..|flows| - 1], date);
      PowerLater(p, rate, anchor, last.date, date);
      PowerBack(p, rate, anchor, last.date);
      Brought(p.pow(1.0 + rate, p.years(anchor, last.date)), p.pow(1.0 + rate, -p.years(anchor, last.date)),
          p.pow(1.0 + rate, p.years(last.date, date)), last.amount);
      SumsOf(p.pow(1.0 + rate, p.years(anchor, date)), Discounted(p, anchor, rate, flows[..|flows| - 1]),
          last.amount * p.pow(1.0 + rate, -p.years(anchor, last.date)));
    }
  }

  lemma SumsOf(k: real, a: real, b: real)
    ensures Of(k, a + b) == Of(k, a) + Of(k, b)
  {
  }

  lemma PowerBack(p: Procedure, rate: real, anchor: int, date: int)
    requires Lawful(p) && rate > 0.0
    ensures p.pow(1.0 + rate, p.years(anchor, date)) * p.pow(1.0 + rate, -p.years(anchor, date)) == 1.0
  {
  }

  lemma Brought(up: real, down: real, on: real, amount: real)
    requires up * down == 1.0
    ensures Of(up * on, amount * down) == amount * on
  {
    assert (amount * down) * (up * on) == (amount * on) * (up * down);
  }

  /** The flows a party's record holds, over any run. */
  ghost predicate FlowsAfter(p: Procedure, rate: real, terms: Terms, rows: seq<Flow>, n: nat, side: Side, date: int)
    requires n <= |rows| && rows != [] && Payable(terms.tiers)
  {
    var b := Run(p, terms, rows, n);
    && MadeBy(AccountOf(b.ledger, side).flows, date)
    && FlowsAgree(p, rate, AccountOf(b.ledger, side), Lent(terms, rows, n, side),
                  Repaid(terms.tiers, b.schedule, Either, side), Repaid(terms.tiers, b.schedule, Excess, side), date)
  }

  /**
   At every rate, a party's flows grow to what its payments grow to, less its contributions: the
   hurdle balance is decided by the series and the schedule.
   */
  lemma {:induction false} FlowsOverRun(p: Procedure, rate: real, terms: Terms, rows: seq<Flow>, n: nat, side: Side)
    requires Lawful(p) && Additive(p) && rate > 0.0 && Chronological(rows) && rows != [] && n <= |rows|
    requires Payable(terms.tiers)
    ensures FlowsAfter(p, rate, terms, rows, n, side, if n == 0 then rows[0].date else rows[n - 1].date)
  {
    hide *;
    if n == 0 {
      NoFlows(p, rate, terms, rows, side);
    } else {
      Onward(rows, n);
      FlowsOverRun(p, rate, terms, rows, n - 1, side);
      FlowsAfterRow(p, rate, terms, rows, n, side, if n == 1 then rows[0].date else rows[n - 2].date);
    }
  }

  lemma NoFlows(p: Procedure, rate: real, terms: Terms, rows: seq<Flow>, side: Side)
    requires rows != [] && Payable(terms.tiers)
    ensures FlowsAfter(p, rate, terms, rows, 0, side, rows[0].date)
  {
    hide Payable;
  }

  lemma FlowsAfterRow(p: Procedure, rate: real, terms: Terms, rows: seq<Flow>, n: nat, side: Side, date: int)
    requires Lawful(p) && Additive(p) && rate > 0.0 && Chronological(rows) && 0 < n <= |rows| && Payable(terms.tiers)
    requires date == (if n == 1 then rows[0].date else rows[n - 2].date) <= rows[n - 1].date
    requires FlowsAfter(p, rate, terms, rows, n - 1, side, date)
    ensures FlowsAfter(p, rate, terms, rows, n, side, rows[n - 1].date)
  {
    hide *;
    var row, b, tiers := rows[n - 1], Run(p, terms, rows, n - 1), terms.tiers;
    var l, lent := Ready(p, terms, b, row.date), Lent(terms, rows, n - 1, side);
    var repaid, excess := Repaid(tiers, b.schedule, Either, side), Repaid(tiers, b.schedule, Excess, side);
    LentBy(terms, rows, n - 1, side);
    ScheduledBy(p, terms, rows, n - 1);
    RepaidBy(tiers, b.schedule, side, date);
    OpenFlows(p, rate, terms, rows, n - 1, side, date);
    FlowsLater(p, rate, AccountOf(b.ledger, side), lent, repaid, excess, date, row.date);
    ReadyFlows(p, terms, b, row.date, side);
    var a := AccountOf(l, side);
    FlowsKept(p, rate, AccountOf(b.ledger, side), a, lent, repaid, excess, row.date);
    if row.amount < 0.0 {
      RowContributes(p, terms, rows, n, side);
      ContributesFlows(p, rate, a, Of(ShareOf(terms, side), -row.amount), row.date, lent, repaid, excess);
    } else if row.amount > 0.0 {
      var w := Walk(p, rows[0].date, tiers, |tiers|, row.date, l, row.amount);
      WalkFlows(p, rows[0].date, tiers, |tiers|, row.date, l, row.amount, side, rate);
      RowPays(p, terms, rows, n, side);
      RepaidMore(tiers, b.schedule, Entry(row.date, w.cells), Either, side);
      RepaidMore(tiers, b.schedule, Entry(row.date, w.cells), Excess, side);
      PaysFlows(p, rate, tiers, a, AccountOf(w.ledger, side), w.cells, row.date, side, lent, repaid, excess);
    } else {
      RowIdles(p, terms, rows, n, side);
    }
    CloseFlows(p, rate, terms, rows, n, side, row.date);
  }

  lemma OpenFlows(p: Procedure, rate: real, terms: Terms, rows: seq<Flow>, n: nat, side: Side, date: int)
    requires n <= |rows| && rows != [] && Payable(terms.tiers) && FlowsAfter(p, rate, terms, rows, n, side, date)
    ensures var b := Run(p, terms, rows, n);
            && MadeBy(AccountOf(b.ledger, side).flows, date)
            && FlowsAgree(p, rate, AccountOf(b.ledger, side), Lent(terms, rows, n, side),
                          Repaid(terms.tiers, b.schedule, Either, side), Repaid(terms.tiers, b.schedule, Excess, side),
                              date)
  {
    hide Run, Lent, Repaid, Payable, FlowsAgree, MadeBy;
  }

  lemma CloseFlows(p: Procedure, rate: real, terms: Terms, rows: seq<Flow>, n: nat, side: Side, date: int)
    requires n <= |rows| && rows != [] && Payable(terms.tiers)
    requires var b := Run(p, terms, rows, n);
             && MadeBy(AccountOf(b.ledger, side).flows, date)
             && FlowsAgree(p, rate, AccountOf(b.ledger, side), Lent(terms, rows, n, side),
                           Repaid(terms.tiers, b.schedule, Either, side),
                               Repaid(terms.tiers, b.schedule, Excess, side), date)
    ensures FlowsAfter(p, rate, terms, rows, n, side, date)
  {
    hide Run, Lent, Repaid, Payable, FlowsAgree, MadeBy;
  }

  lemma FlowsLater(p: Procedure, rate: real, a: Account, lent: seq<Flow>, repaid: seq<Flow>, excess: seq<Flow>,
      date: int,
      later: int)
    requires Lawful(p) && Additive(p) && rate > 0.0 && date <= later
    requires MadeBy(a.flows, date) && MadeBy(lent, date) && MadeBy(repaid, date) && MadeBy(excess, date)
    requires FlowsAgree(p, rate, a, lent, repaid, excess, date)
    ensures MadeBy(a.flows, later) && FlowsAgree(p, rate, a, lent, repaid, excess, later)
  {
    hide Lawful, Additive, Grown;
    GrownLater(p, rate, a.flows, date, later);
    GrownLater(p, rate, lent, date, later);
    GrownLater(p, rate, repaid, date, later);
    GrownLater(p, rate, excess, date, later);
  }

  lemma ReadyFlows(p: Procedure, terms: Terms, b: Books, date: int, side: Side)
    ensures AccountOf(Ready(p, terms, b, date), side).flows == AccountOf(b.ledger, side).flows
  {
    hide FirstPreferred, Accrual;
  }

  lemma FlowsKept(p: Procedure, rate: real, a: Account, b: Account, lent: seq<Flow>, repaid: seq<Flow>,
      excess: seq<Flow>, date: int)
    requires a.flows == b.flows && FlowsAgree(p, rate, a, lent, repaid, excess, date) && MadeBy(a.flows, date)
    ensures FlowsAgree(p, rate, b, lent, repaid, excess, date) && MadeBy(b.flows, date)
  {
    hide Grown;
  }

  lemma ContributesFlows(p: Procedure, rate: real, a: Account, share: real, date: int, lent: seq<Flow>,
      repaid: seq<Flow>,
      excess: seq<Flow>)
    requires Lawful(p) && Additive(p) && rate > 0.0
    requires FlowsAgree(p, rate, a, lent, repaid, excess, date) && MadeBy(a.flows, date)
    ensures FlowsAgree(p, rate, Contributed(a, share, date), lent + [Flow(date, share)], repaid, excess, date)
    ensures MadeBy(Contributed(a, share, date).flows, date)
  {
    FlowToday(p, rate, lent, Flow(date, share));
    FlowToday(p, rate, a.flows, Flow(date, -share));
    hide Lawful, Additive, Grown, Total, Elapsed;
  }

  lemma PaysFlows(p: Procedure, rate: real, tiers: seq<Tier>, a: Account, b: Account, cells: seq<Cell>, date: int,
      side: Side, lent: seq<Flow>, repaid: seq<Flow>, excess: seq<Flow>)
    requires Lawful(p) && Additive(p) && rate > 0.0
    requires FlowsAgree(p, rate, a, lent, repaid, excess, date) && MadeBy(a.flows, date)
    requires Extends(p, rate, tiers, a, b, cells, date, side)
    ensures MadeBy(b.flows, date)
    ensures FlowsAgree(p, rate, b, lent, repaid + [Flow(date, CellsPaid(tiers, cells, Either, side))],
                       excess + [Flow(date, CellsPaid(tiers, cells, Excess, side))], date)
  {
    FlowToday(p, rate, repaid, Flow(date, CellsPaid(tiers, cells, Either, side)));
    FlowToday(p, rate, excess, Flow(date, CellsPaid(tiers, cells, Excess, side)));
    hide Lawful, Additive, Grown, Total, Elapsed, CellsPaid;
  }

  /** A record after some cells of a date: its flows have grown by what the cells paid. */
  ghost predicate Extends(p: Procedure, rate: real, tiers: seq<Tier>, a: Account, b: Account, cells: seq<Cell>,
      date: int,
      side: Side)
  {
    && (MadeBy(a.flows, date) ==> MadeBy(b.flows, date))
    && Grown(p, rate, b.flows, date)
       == Grown(p, rate, a.flows, date) + CellsPaid(tiers, cells, Either, side) + CellsPaid(tiers, cells, Excess, side)
  }

  lemma {:induction false} WalkFlows(p: Procedure, anchor: int, tiers: seq<Tier>, n: nat, date: int, ledger: Ledger,
      amount: real, side: Side, rate: real)
    requires Lawful(p) && Additive(p) && rate > 0.0 && n <= |tiers| && Payable(tiers)
    ensures var w := Walk(p, anchor, tiers, n, date, ledger, amount);
            Extends(p, rate, tiers, AccountOf(ledger, side), AccountOf(w.ledger, side), w.cells, date, side)
  {
    hide *;
    if n == 0 {
      WalkNone(p, anchor, tiers, date, ledger, amount, side);
      ExtendsNothing(p, rate, tiers, AccountOf(ledger, side), date, side);
    } else {
      var w := Walk(p, anchor, tiers, n - 1, date, ledger, amount);
      WalkFlows(p, anchor, tiers, n - 1, date, ledger, amount, side, rate);
      WalkNext(p, anchor, tiers, n, date, ledger, amount);
      PayFlows(p, rate, tiers, AccountOf(ledger, side), n - 1, date, w, Payment(p, anchor, tiers[n - 1], date, w),
          side);
    }
  }

  lemma ExtendsNothing(p: Procedure, rate: real, tiers: seq<Tier>, a: Account, date: int, side: Side)
    ensures Extends(p, rate, tiers, a, a, [], date, side)
  {
    hide Grown;
  }

  lemma PaidOnce(tiers: seq<Tier>, c: Cell, side: Side)
    requires c.tier < |tiers|
    ensures CellPaid(tiers, c, Either, side) + CellPaid(tiers, c, Excess, side) == PartOf(c, side)
  {
  }

  lemma PayFlows(p: Procedure, rate: real, tiers: seq<Tier>, start: Account, n: nat, date: int, w: Walked,
      payment: real,
      side: Side)
    requires Lawful(p) && Additive(p) && rate > 0.0
    requires n < |tiers| && Extends(p, rate, tiers, start, AccountOf(w.ledger, side), w.cells, date, side)
    ensures var after := Pay(tiers[n], n, date, w, payment);
            Extends(p, rate, tiers, start, AccountOf(after.ledger, side), after.cells, date, side)
  {
    if payment > 0.0 {
      hide Shares, Of, CellsPaid, Lawful, Additive, Grown, Total, Elapsed;
      var s := Shares(tiers[n], w.ledger);
      var cell := Cell(n, Of(s.0, payment), Of(s.1, payment));
      CellsMore(tiers, w.cells, cell, Either, side);
      CellsMore(tiers, w.cells, cell, Excess, side);
      FlowToday(p, rate, AccountOf(w.ledger, side).flows, Flow(date, PartOf(cell, side)));
      PaidOnce(tiers, cell, side);
      hide CellPaid;
    }
  }
}
