/**
 Property cash-flow assembly: lease-up rows and supplemental rows merged in date order, with
 every supplemental row in exactly one coverage cell and every required cell accounted for.

 Dates are day numbers and amounts exact reals. Transport, source selection and the period
 grammar come before this stage.
 */
module Assembly {
  import opened Common

  datatype Category = Rent | Concessions | TiLc | OtherIncome | OperatingExpenses | OtherCapex | ReserveNet
    | PurchasePrice | TransactionCosts | GrossSale

  datatype Slot = Acquisition | Disposition | InPeriod(index: nat)

  datatype Cell = Cell(slot: Slot, category: Category)

  datatype Row = Row(date: int, amount: real)

  datatype Declared = Zero | Rows(rows: seq<int>)

  datatype Entry = Entry(cell: Cell, declared: Declared)

  datatype Plan = Plan(acquisition: int, disposition: int, coverage: seq<Entry>)

  datatype Refusal = Malformed | DateHorizon | BadCell | ZeroPurchase | BadRow | Incomplete | ClosingDate | AmountSign

  const OWNED: seq<Category> := [Rent, Concessions, TiLc]

  // ----- What a plan must declare -----

  /** The cells a plan declares: closing amounts, and each period's amounts that lease-up does not own. */
  predicate Required(periods: nat, c: Cell) {
    match c.slot
    case Acquisition => c.category == PurchasePrice || c.category == TransactionCosts || c.category == ReserveNet
    case Disposition => c.category == GrossSale || c.category == TransactionCosts || c.category == ReserveNet
    case InPeriod(i) =>
      i < periods && (c.category == OtherIncome || c.category == OperatingExpenses || c.category == OtherCapex
          || c.category == ReserveNet)
  }

  function RequiredCells(periods: nat): (cells: set<Cell>)
    ensures forall c :: c in cells <==> Required(periods, c)
  {
    if periods == 0 then
      {Cell(Acquisition, PurchasePrice), Cell(Acquisition, TransactionCosts), Cell(Acquisition, ReserveNet),
       Cell(Disposition, GrossSale), Cell(Disposition, TransactionCosts), Cell(Disposition, ReserveNet)}
    else
      var p := InPeriod(periods - 1);
      RequiredCells(periods - 1)
          + {Cell(p, OtherIncome), Cell(p, OperatingExpenses), Cell(p, OtherCapex), Cell(p, ReserveNet)}
  }

  predicate SignAgrees(category: Category, amount: real) {
    match category
    case PurchasePrice => amount < 0.0
    case GrossSale => amount >= 0.0
    case OtherIncome => amount >= 0.0
    case TransactionCosts => amount <= 0.0
    case OperatingExpenses => amount <= 0.0
    case OtherCapex => amount <= 0.0
    case _ => true
  }

  predicate ClosingAgrees(p: Plan, slot: Slot, date: int) {
    match slot
    case Acquisition => date == p.acquisition
    case Disposition => date == p.disposition
    case InPeriod(_) => true
  }

  predicate InHold(p: Plan, rows: seq<Row>) {
    forall k :: 0 <= k < |rows| ==> p.acquisition <= rows[k].date <= p.disposition
  }

  /** The rows cited by the first n entries, each with its cell, in order. */
  function Cited(coverage: seq<Entry>, n: nat): seq<(int, Cell)>
    requires n <= |coverage|
  {
    if n == 0 then [] else Cited(coverage, n - 1) + CitedBy(coverage[n - 1])
  }

  function CitedBy(e: Entry): seq<(int, Cell)> {
    if e.declared.Zero? then []
        else seq(|e.declared.rows|, k requires 0 <= k < |e.declared.rows| => (e.declared.rows[k], e.cell))
  }

  predicate DistinctRows(cited: seq<(int, Cell)>) {
    forall i, j :: 0 <= i < j < |cited| ==> cited[i].0 != cited[j].0
  }

  predicate RowsExist(cited: seq<(int, Cell)>, rows: nat) {
    forall i :: 0 <= i < |cited| ==> 0 <= cited[i].0 < rows
  }

  /** The first n entries declare required cells, once each, no purchase at zero, and rows once each. */
  predicate EntriesAdmitted(p: Plan, periods: nat, rows: nat, n: nat)
    requires n <= |p.coverage|
  {
    && (forall i :: 0 <= i < n ==> Required(periods, p.coverage[i].cell))
    && (forall i, j :: 0 <= i < j < n ==> p.coverage[i].cell != p.coverage[j].cell)
    && (forall i :: 0 <= i < n ==> p.coverage[i] != Entry(Cell(Acquisition, PurchasePrice), Zero))
    && DistinctRows(Cited(p.coverage, n)) && RowsExist(Cited(p.coverage, n), rows)
  }

  /** Every required cell declared and every supplemental row cited. */
  ghost predicate Complete(p: Plan, periods: nat, rows: nat) {
    && (forall c :: Required(periods, c) ==> exists i :: 0 <= i < |p.coverage| && p.coverage[i].cell == c)
    && (forall r :: 0 <= r < rows ==> IsCited(Cited(p.coverage, |p.coverage|), r))
  }

  predicate IsCited(cited: seq<(int, Cell)>, r: int) {
    exists i :: 0 <= i < |cited| && cited[i].0 == r
  }

  /** The plan's shape: an entry that is not zero cites some row. */
  predicate Shaped(p: Plan) {
    forall i :: 0 <= i < |p.coverage| ==> p.coverage[i].declared != Rows([])
  }

  /** What makes a plan assemble. */
  ghost predicate Admissible(p: Plan, lease: seq<Row>, supplemental: seq<Row>) {
    && Shaped(p) && InHold(p, lease) && InHold(p, supplemental)
    && EntriesAdmitted(p, |lease|, |supplemental|, |p.coverage|) && Complete(p, |lease|, |supplemental|)
    && var cited := Cited(p.coverage, |p.coverage|);
       forall i :: 0 <= i < |cited| ==>
         && ClosingAgrees(p, cited[i].1.slot, supplemental[cited[i].0].date)
         && SignAgrees(cited[i].1.category, supplemental[cited[i].0].amount)
  }

  // ----- Coverage -----

  /** The maps the coverage scan fills. */
  ghost predicate Covered(p: Plan, n: nat, coverage: map<Cell, Declared>, rowCells: map<int, Cell>)
    requires n <= |p.coverage|
  {
    var cited := Cited(p.coverage, n);
    && (forall c :: c in coverage ==> exists i :: 0 <= i < n && p.coverage[i].cell == c)
    && (forall i :: 0 <= i < n ==>
        p.coverage[i].cell in coverage && coverage[p.coverage[i].cell] == p.coverage[i].declared)
    && RowsMapped(cited, rowCells)
  }

  ghost predicate RowsMapped(cited: seq<(int, Cell)>, rowCells: map<int, Cell>) {
    && (forall r :: r in rowCells ==> (r, rowCells[r]) in cited)
    && (forall i :: 0 <= i < |cited| ==> cited[i].0 in rowCells && rowCells[cited[i].0] == cited[i].1)
  }

  /** The rows of one entry, each valid and unused. */
  method CiteRows(e: Entry, rows: nat, ghost before: seq<(int, Cell)>, used: map<int, Cell>)
    returns (ok: bool, rowCells: map<int, Cell>)
    requires RowsMapped(before, used) && DistinctRows(before) && RowsExist(before, rows)
    ensures ok <==> DistinctRows(before + CitedBy(e)) && RowsExist(before + CitedBy(e), rows)
    ensures ok ==> RowsMapped(before + CitedBy(e), rowCells)
  {
    rowCells := used;
    ghost var cited := CitedBy(e);
    if e.declared.Zero? {
      assert before + [] == before;
      return true, rowCells;
    }
    for k := 0 to |e.declared.rows|
      invariant RowsMapped(before + cited[..k], rowCells)
      invariant DistinctRows(before + cited[..k]) && RowsExist(before + cited[..k], rows)
    {
      var r := e.declared.rows[k];
      assert before + cited[..k + 1] == (before + cited[..k]) + [cited[k]];
      assert cited[k] == (r, e.cell);
      if !(0 <= r < rows) || r in rowCells {
        RefusedRow(before, cited, k, rows, rowCells);
        return false, rowCells;
      }
      NewRow(before + cited[..k], cited[k], rowCells);
      rowCells := rowCells[r := e.cell];
    }
    assert cited[..|e.declared.rows|] == cited;
    return true, rowCells;
  }

  lemma NewRow(cited: seq<(int, Cell)>, pair: (int, Cell), rowCells: map<int, Cell>)
    requires RowsMapped(cited, rowCells) && DistinctRows(cited) && pair.0 !in rowCells
    ensures RowsMapped(cited + [pair], rowCells[pair.0 := pair.1]) && DistinctRows(cited + [pair])
  {
    var more := cited + [pair];
    assert forall i :: 0 <= i < |cited| ==> more[i] == cited[i];
    assert more[|cited|] == pair;
  }

  lemma RefusedRow(before: seq<(int, Cell)>, cited: seq<(int, Cell)>, k: nat, rows: nat, rowCells: map<int, Cell>)
    requires k < |cited| && RowsMapped(before + cited[..k], rowCells)
    requires !(0 <= cited[k].0 < rows) || cited[k].0 in rowCells
    ensures !(DistinctRows(before + cited) && RowsExist(before + cited, rows))
  {
    var all, some := before + cited, before + cited[..k];
    assert all[|before| + k] == cited[k];
    if cited[k].0 in rowCells {
      var r := cited[k].0;
      assert (r, rowCells[r]) in some;
      var i :| 0 <= i < |some| && some[i] == (r, rowCells[r]);
      assert all[i] == some[i];
    }
  }

  /** The scan of the coverage entries. */
  method ScanCoverage(p: Plan, periods: nat, rows: nat)
    returns (refusal: Option<Refusal>, coverage: map<Cell, Declared>, rowCells: map<int, Cell>)
    ensures refusal.None? <==> EntriesAdmitted(p, periods, rows, |p.coverage|)
    ensures refusal.None? ==> Covered(p, |p.coverage|, coverage, rowCells)
  {
    hide Required, DistinctRows, RowsExist, RowsMapped, CitedBy;
    coverage, rowCells := map[], map[];
    NothingCovered(p, periods, rows);
    for n := 0 to |p.coverage|
      invariant EntriesAdmitted(p, periods, rows, n) && Covered(p, n, coverage, rowCells)
    {
      var e := p.coverage[n];
      if !Required(periods, e.cell) || e.cell in coverage {
        FewerAdmitted(p, periods, rows, n + 1);
        return Some(BadCell), coverage, rowCells;
      }
      if e == Entry(Cell(Acquisition, PurchasePrice), Zero) {
        FewerAdmitted(p, periods, rows, n + 1);
        return Some(ZeroPurchase), coverage, rowCells;
      }
      var ok, more := CiteRows(e, rows, Cited(p.coverage, n), rowCells);
      if !ok {
        FewerAdmitted(p, periods, rows, n + 1);
        return Some(BadRow), coverage, rowCells;
      }
      NextEntry(p, periods, rows, n, coverage, rowCells, more);
      coverage, rowCells := coverage[e.cell := e.declared], more;
    }
    return None, coverage, rowCells;
  }

  lemma NextEntry(p: Plan, periods: nat, rows: nat, n: nat, coverage: map<Cell, Declared>, rowCells: map<int, Cell>,
                  more: map<int, Cell>)
    requires n < |p.coverage| && EntriesAdmitted(p, periods, rows, n) && Covered(p, n, coverage, rowCells)
    requires Required(periods, p.coverage[n].cell) && p.coverage[n].cell !in coverage
    requires p.coverage[n] != Entry(Cell(Acquisition, PurchasePrice), Zero)
    requires var cited := Cited(p.coverage, n) + CitedBy(p.coverage[n]);
             DistinctRows(cited) && RowsExist(cited, rows) && RowsMapped(cited, more)
    ensures EntriesAdmitted(p, periods, rows, n + 1)
    ensures Covered(p, n + 1, coverage[p.coverage[n].cell := p.coverage[n].declared], more)
  {
    hide Required, DistinctRows, RowsExist, RowsMapped, CitedBy;
  }

  lemma NothingCovered(p: Plan, periods: nat, rows: nat)
    ensures EntriesAdmitted(p, periods, rows, 0) && Covered(p, 0, map[], map[])
  {
  }

  lemma FewerAdmitted(p: Plan, periods: nat, rows: nat, n: nat)
    requires n <= |p.coverage|
    ensures EntriesAdmitted(p, periods, rows, |p.coverage|) ==> EntriesAdmitted(p, periods, rows, n)
  {
    hide Required;
    var some, all := Cited(p.coverage, n), Cited(p.coverage, |p.coverage|);
    CitedPrefix(p.coverage, n, |p.coverage|);
    assert forall i :: 0 <= i < |some| ==> some[i] == all[i];
  }

  lemma {:induction false} CitedPrefix(coverage: seq<Entry>, n: nat, m: nat)
    requires n <= m <= |coverage|
    ensures Cited(coverage, n) <= Cited(coverage, m)
  {
    if n < m {
      CitedPrefix(coverage, n, m - 1);
    }
  }

  // ----- The merged rows -----

  /** An output row: its date and amount, which source row it is, and the cells it is bound to. */
  datatype Bound = Bound(date: int, supplemental: bool, index: nat, amount: real, cells: seq<Cell>)

  function KeyOf(b: Bound): (int, int, nat) {
    (b.date, if b.supplemental then 1 else 0, b.index)
  }

  /** By date, then lease-up before supplemental, then source index. */
  predicate Earlier(a: (int, int, nat), b: (int, int, nat)) {
    a.0 < b.0 || (a.0 == b.0 && (a.1 < b.1 || (a.1 == b.1 && a.2 < b.2)))
  }

  predicate InOrder(rows: seq<Bound>) {
    forall i, j :: 0 <= i < j < |rows| ==> Earlier(KeyOf(rows[i]), KeyOf(rows[j]))
  }

  function InsertRow(row: Bound, rows: seq<Bound>): seq<Bound> {
    if rows == [] then [row]
    else if Earlier(KeyOf(row), KeyOf(rows[0])) then [row] + rows
    else [rows[0]] + InsertRow(row, rows[1..])
  }

  lemma {:induction false} InsertKeeps(row: Bound, rows: seq<Bound>)
    ensures multiset(InsertRow(row, rows)) == multiset(rows) + multiset{row}
  {
    if rows != [] {
      assert rows == [rows[0]] + rows[1..];
      if !Earlier(KeyOf(row), KeyOf(rows[0])) {
        InsertKeeps(row, rows[1..]);
      }
    }
  }

  lemma {:induction false} InsertOrders(row: Bound, rows: seq<Bound>)
    requires InOrder(rows) && forall k :: 0 <= k < |rows| ==> KeyOf(rows[k]) != KeyOf(row)
    ensures InOrder(InsertRow(row, rows))
  {
    if rows != [] {
      if Earlier(KeyOf(row), KeyOf(rows[0])) {
        forall k | 0 <= k < |rows|
          ensures Earlier(KeyOf(row), KeyOf(rows[k]))
        {
          assert k > 0 ==> Earlier(KeyOf(rows[0]), KeyOf(rows[k]));
        }
      } else {
        InsertOrders(row, rows[1..]);
        InsertKeeps(row, rows[1..]);
        var rest := InsertRow(row, rows[1..]);
        forall k | 0 <= k < |rest|
          ensures Earlier(KeyOf(rows[0]), KeyOf(rest[k]))
        {
          assert rest[k] in multiset(rest);
          assert Earlier(KeyOf(rows[0]), KeyOf(row));
        }
      }
    }
  }

  /** The sort of rows with distinct keys. */
  method SortRows(rows: seq<Bound>) returns (sorted: seq<Bound>)
    requires forall i, j :: 0 <= i < j < |rows| ==> KeyOf(rows[i]) != KeyOf(rows[j])
    ensures InOrder(sorted) && multiset(sorted) == multiset(rows)
  {
    hide Earlier, KeyOf, InOrder;
    sorted := [];
    NothingInOrder();
    for n := 0 to |rows|
      invariant InOrder(sorted) && multiset(sorted) == multiset(rows[..n])
    {
      forall k | 0 <= k < |sorted|
        ensures KeyOf(sorted[k]) != KeyOf(rows[n])
      {
        assert sorted[k] in multiset(rows[..n]);
      }
      InsertOrders(rows[n], sorted);
      InsertKeeps(rows[n], sorted);
      sorted := InsertRow(rows[n], sorted);
      assert rows[..n + 1] == rows[..n] + [rows[n]];
    }
    assert rows[..|rows|] == rows;
  }

  lemma NothingInOrder()
    ensures InOrder([])
  {
  }

  function OwnedCells(index: nat): seq<Cell> {
    [Cell(InPeriod(index), Rent), Cell(InPeriod(index), Concessions), Cell(InPeriod(index), TiLc)]
  }

  function LeaseRow(lease: seq<Row>, k: nat): Bound
    requires k < |lease|
  {
    Bound(lease[k].date, false, k, lease[k].amount, OwnedCells(k))
  }

  function SupplementalRow(supplemental: seq<Row>, rowCells: map<int, Cell>, k: nat): Bound
    requires k < |supplemental| && k in rowCells
  {
    Bound(supplemental[k].date, true, k, supplemental[k].amount, [rowCells[k]])
  }

  /** Both sources' rows before sorting. */
  function SourceRows(lease: seq<Row>, supplemental: seq<Row>, rowCells: map<int, Cell>): seq<Bound>
    requires forall k :: 0 <= k < |supplemental| ==> k in rowCells
  {
    seq(|lease|, k requires 0 <= k < |lease| => LeaseRow(lease, k))
    + seq(|supplemental|,
        k requires 0 <= k < |supplemental| && k in rowCells => SupplementalRow(supplemental, rowCells, k))
  }

  lemma SourceAt(lease: seq<Row>, supplemental: seq<Row>, rowCells: map<int, Cell>, i: nat)
    requires (forall k :: 0 <= k < |supplemental| ==> k in rowCells) && i < |lease| + |supplemental|
    ensures var rows := SourceRows(lease, supplemental, rowCells);
            && |rows| == |lease| + |supplemental|
            && rows[i] == if i < |lease| then LeaseRow(lease, i)
                else SupplementalRow(supplemental, rowCells, i - |lease|)
  {
  }

  lemma SourcesDistinct(lease: seq<Row>, supplemental: seq<Row>, rowCells: map<int, Cell>)
    requires forall k :: 0 <= k < |supplemental| ==> k in rowCells
    ensures var rows := SourceRows(lease, supplemental, rowCells);
            forall i, j :: 0 <= i < j < |rows| ==> KeyOf(rows[i]) != KeyOf(rows[j])
  {
    var rows := SourceRows(lease, supplemental, rowCells);
    assert forall i :: 0 <= i < |lease| ==> rows[i] == LeaseRow(lease, i);
    assert forall i :: |lease| <= i < |rows| ==> rows[i] == SupplementalRow(supplemental, rowCells, i - |lease|);
  }

  /** Output rows bound to a cell, by output position. */
  function CellRows(output: seq<Bound>, c: Cell): seq<nat> {
    if output == [] then []
    else
      var n := |output| - 1;
      CellRows(output[..n], c) + if c in output[n].cells then [n] else []
  }

  function ListedAt(m: map<Cell, seq<nat>>, c: Cell): seq<nat> {
    if c in m then m[c] else []
  }

  predicate Distinct(cells: seq<Cell>) {
    forall i, j :: 0 <= i < j < |cells| ==> cells[i] != cells[j]
  }

  /** One output row added to the list of each of its cells. */
  method BindRow(before: map<Cell, seq<nat>>, cells: seq<Cell>, n: nat) returns (after: map<Cell, seq<nat>>)
    requires Distinct(cells)
    ensures forall c :: ListedAt(after, c) == ListedAt(before, c) + if c in cells then [n] else []
  {
    after := before;
    for k := 0 to |cells|
      invariant forall c :: ListedAt(after, c) == ListedAt(before, c) + if c in cells[..k] then [n] else []
    {
      assert cells[..k + 1] == cells[..k] + [cells[k]];
      assert cells[k] !in cells[..k];
      after := after[cells[k] := ListedAt(after, cells[k]) + [n]];
    }
    assert cells[..|cells|] == cells;
  }

  /** The lists the binding loop fills: output positions by cell. */
  method BindCells(output: seq<Bound>) returns (cellRows: map<Cell, seq<nat>>)
    requires forall k :: 0 <= k < |output| ==> Distinct(output[k].cells)
    ensures forall c :: ListedAt(cellRows, c) == CellRows(output, c)
  {
    hide Distinct, ListedAt;
    cellRows := map[];
    NothingListed();
    for n := 0 to |output|
      invariant forall c :: ListedAt(cellRows, c) == CellRows(output[..n], c)
    {
      assert output[..n + 1][..n] == output[..n];
      cellRows := BindRow(cellRows, output[n].cells, n);
    }
    assert output[..|output|] == output;
  }

  lemma NothingListed()
    ensures forall c :: ListedAt(map[], c) == []
  {
  }

  datatype Assembled = Assembled(output: seq<Bound>, coverage: map<Cell, Declared>, cellRows: map<Cell, seq<nat>>)

  // ----- The assembly -----

  lemma AllCovered(p: Plan, periods: nat, coverage: map<Cell, Declared>, rowCells: map<int, Cell>, rows: nat)
    requires EntriesAdmitted(p, periods, rows, |p.coverage|) && Covered(p, |p.coverage|, coverage, rowCells)
    ensures coverage.Keys == RequiredCells(periods) && |rowCells| == rows <==> Complete(p, periods, rows)
  {
    var cited := Cited(p.coverage, |p.coverage|);
    forall r: int
      ensures r in rowCells <==> IsCited(cited, r)
    {
      if r in rowCells {
        assert (r, rowCells[r]) in cited;
      }
    }
    forall r | r in rowCells.Keys
      ensures 0 <= r < rows
    {
      var i :| 0 <= i < |cited| && cited[i] == (r, rowCells[r]);
    }
    RangeCount(rowCells.Keys, rows);
    hide Cited, DistinctRows, Required, RequiredCells;
    if coverage.Keys == RequiredCells(periods) && |rowCells| == rows {
      forall c | Required(periods, c)
        ensures exists i :: 0 <= i < |p.coverage| && p.coverage[i].cell == c
      {
        assert c in coverage.Keys;
      }
    }
  }

  predicate AllBelow(keys: set<int>, n: nat) {
    forall r: int :: 0 <= r < n ==> r in keys
  }

  lemma SomeMember<T>(keys: set<T>) returns (r: T)
    requires keys != {}
    ensures r in keys
  {
    r :| r in keys;
  }

  lemma OneFewer(keys: set<int>, n: nat)
    requires n > 0 && n - 1 in keys
    ensures AllBelow(keys, n) <==> AllBelow(keys - {n - 1}, n - 1)
  {
    var rest := keys - {n - 1};
    if AllBelow(keys, n) {
      forall r: int | 0 <= r < n - 1
        ensures r in rest
      {
        assert r in keys;
      }
    }
    if AllBelow(rest, n - 1) {
      forall r: int | 0 <= r < n
        ensures r in keys
      {
        assert r < n - 1 ==> r in rest;
      }
    }
  }

  /** Numbers of a range are all of it exactly when there are as many. */
  lemma {:induction false} RangeCount(keys: set<int>, n: nat)
    requires forall r :: r in keys ==> 0 <= r < n
    ensures |keys| == n <==> AllBelow(keys, n)
    ensures |keys| <= n
    decreases n
  {
    if n == 0 {
      if keys != {} {
        var r := SomeMember(keys);
        assert false;
      }
    } else {
      var rest := keys - {n - 1};
      RangeCount(rest, n - 1);
      if n - 1 in keys {
        assert |keys| == |rest| + 1;
        OneFewer(keys, n);
      } else {
        assert rest == keys;
        assert !AllBelow(keys, n);
      }
    }
  }

  /** Every row on the date and with the sign its cell asks for. */
  ghost predicate RowsAgree(p: Plan, supplemental: seq<Row>, rowCells: map<int, Cell>) {
    forall r :: r in rowCells && 0 <= r < |supplemental| ==>
      ClosingAgrees(p, rowCells[r].slot, supplemental[r].date)
          && SignAgrees(rowCells[r].category, supplemental[r].amount)
  }

  lemma CitedAgree(p: Plan, supplemental: seq<Row>, rowCells: map<int, Cell>)
    requires var cited := Cited(p.coverage, |p.coverage|);
             RowsMapped(cited, rowCells) && RowsExist(cited, |supplemental|)
    ensures RowsAgree(p, supplemental, rowCells) <==>
            var cited := Cited(p.coverage, |p.coverage|);
            forall i :: 0 <= i < |cited| ==>
              && ClosingAgrees(p, cited[i].1.slot, supplemental[cited[i].0].date)
              && SignAgrees(cited[i].1.category, supplemental[cited[i].0].amount)
  {
    hide Cited, ClosingAgrees, SignAgrees;
    var cited := Cited(p.coverage, |p.coverage|);
    if RowsAgree(p, supplemental, rowCells) {
      assert forall i :: 0 <= i < |cited| ==> cited[i].0 in rowCells && rowCells[cited[i].0] == cited[i].1;
    } else {
      var r :| r in rowCells && 0 <= r < |supplemental|
               && !(ClosingAgrees(p, rowCells[r].slot, supplemental[r].date)
                   && SignAgrees(rowCells[r].category, supplemental[r].amount));
      assert (r, rowCells[r]) in cited;
      var i :| 0 <= i < |cited| && cited[i] == (r, rowCells[r]);
    }
  }

  /** The output is the source rows in order, each bound to its own cells. */
  ghost predicate Merged(p: Plan, lease: seq<Row>, supplemental: seq<Row>, output: seq<Bound>,
      rowCells: map<int, Cell>)
  {
    && RowsMapped(Cited(p.coverage, |p.coverage|), rowCells)
    && (forall k :: 0 <= k < |supplemental| ==> k in rowCells)
    && InOrder(output) && multiset(output) == multiset(SourceRows(lease, supplemental, rowCells))
  }

  /** What an assembly promises of its output. */
  ghost predicate Accounts(p: Plan, lease: seq<Row>, supplemental: seq<Row>, a: Assembled) {
    && a.coverage.Keys == RequiredCells(|lease|)
    && (forall i :: 0 <= i < |p.coverage| ==>
        p.coverage[i].cell in a.coverage && a.coverage[p.coverage[i].cell] == p.coverage[i].declared)
    && (forall c :: ListedAt(a.cellRows, c) == CellRows(a.output, c))
    && exists rowCells: map<int, Cell> :: Merged(p, lease, supplemental, a.output, rowCells)
  }

  method CheckDates(p: Plan, rows: seq<Row>) returns (ok: bool)
    ensures ok <==> InHold(p, rows)
  {
    for k := 0 to |rows|
      invariant forall j :: 0 <= j < k ==> p.acquisition <= rows[j].date <= p.disposition
    {
      if !(p.acquisition <= rows[k].date <= p.disposition) {
        return false;
      }
    }
    return true;
  }

  method CheckShape(p: Plan) returns (ok: bool)
    ensures ok <==> Shaped(p)
  {
    for k := 0 to |p.coverage|
      invariant forall j :: 0 <= j < k ==> p.coverage[j].declared != Rows([])
    {
      if p.coverage[k].declared == Rows([]) {
        return false;
      }
    }
    return true;
  }

  /** Closing dates, then signs, row by row. */
  method CheckRows(p: Plan, supplemental: seq<Row>, rowCells: map<int, Cell>) returns (refusal: Option<Refusal>)
    requires forall k :: 0 <= k < |supplemental| ==> k in rowCells
    ensures refusal.None? <==> RowsAgree(p, supplemental, rowCells)
  {
    hide ClosingAgrees, SignAgrees;
    for k := 0 to |supplemental|
      invariant forall j :: 0 <= j < k ==> ClosingAgrees(p, rowCells[j].slot, supplemental[j].date)
    {
      if !ClosingAgrees(p, rowCells[k].slot, supplemental[k].date) {
        return Some(ClosingDate);
      }
    }
    for k := 0 to |supplemental|
      invariant forall j :: 0 <= j < k ==> SignAgrees(rowCells[j].category, supplemental[j].amount)
    {
      if !SignAgrees(rowCells[k].category, supplemental[k].amount) {
        return Some(AmountSign);
      }
    }
    return None;
  }

  /**
   Assembly: succeeds exactly for admissible plans, and then the output is every row of both
   sources once, in order, with unchanged amounts and bound to its cells.
   */
  method Assemble(p: Plan, lease: seq<Row>, supplemental: seq<Row>) returns (r: Result<Assembled, Refusal>)
    ensures r.Success? <==> Admissible(p, lease, supplemental)
    ensures r.Success? ==> Accounts(p, lease, supplemental, r.value)
  {
    hide Shaped, EntriesAdmitted, Complete, RowsAgree, RequiredCells, InHold, InOrder, SourceRows, RowsMapped, Distinct;
    hide CellRows, ListedAt;
    var shaped := CheckShape(p);
    if !shaped {
      return Failure(Malformed);
    }
    var leaseOk := CheckDates(p, lease);
    var supplementalOk := CheckDates(p, supplemental);
    if !leaseOk || !supplementalOk {
      return Failure(DateHorizon);
    }
    var refused, coverage, rowCells := ScanCoverage(p, |lease|, |supplemental|);
    if refused.Some? {
      return Failure(refused.value);
    }
    AllCovered(p, |lease|, coverage, rowCells, |supplemental|);
    if coverage.Keys != RequiredCells(|lease|) || |rowCells| != |supplemental| {
      return Failure(Incomplete);
    }
    CompleteRows(p, |lease|, coverage, rowCells, |supplemental|);
    CitedAgree(p, supplemental, rowCells);
    var disagreed := CheckRows(p, supplemental, rowCells);
    if disagreed.Some? {
      return Failure(disagreed.value);
    }
    SourcesDistinct(lease, supplemental, rowCells);
    var output := SortRows(SourceRows(lease, supplemental, rowCells));
    CellsDistinct(lease, supplemental, rowCells, output);
    var cellRows := BindCells(output);
    assert Merged(p, lease, supplemental, output, rowCells);
    r := Success(Assembled(output, coverage, cellRows));
  }

  lemma CompleteRows(p: Plan, periods: nat, coverage: map<Cell, Declared>, rowCells: map<int, Cell>, rows: nat)
    requires EntriesAdmitted(p, periods, rows, |p.coverage|) && Covered(p, |p.coverage|, coverage, rowCells)
    requires Complete(p, periods, rows)
    ensures RowsExist(Cited(p.coverage, |p.coverage|), rows) && forall k :: 0 <= k < rows ==> k in rowCells
  {
    hide Cited, DistinctRows, Required;
    var cited := Cited(p.coverage, |p.coverage|);
    forall k | 0 <= k < rows
      ensures k in rowCells
    {
      assert IsCited(cited, k);
    }
  }

  lemma CellsDistinct(lease: seq<Row>, supplemental: seq<Row>, rowCells: map<int, Cell>, output: seq<Bound>)
    requires forall k :: 0 <= k < |supplemental| ==> k in rowCells
    requires multiset(output) == multiset(SourceRows(lease, supplemental, rowCells))
    ensures forall k :: 0 <= k < |output| ==> Distinct(output[k].cells)
  {
    var rows := SourceRows(lease, supplemental, rowCells);
    forall k | 0 <= k < |output|
      ensures Distinct(output[k].cells)
    {
      assert output[k] in multiset(rows);
      var i :| 0 <= i < |rows| && rows[i] == output[k];
      SourceAt(lease, supplemental, rowCells, i);
    }
  }

  // ----- What the output accounts for -----

  /** Each output row is one source row, with its date and amount. */
  lemma OutputIsSource(p: Plan, lease: seq<Row>, supplemental: seq<Row>, a: Assembled, b: Bound)
    requires Accounts(p, lease, supplemental, a) && b in a.output
    ensures b.supplemental ==>
            b.index < |supplemental| && b.date == supplemental[b.index].date && b.amount == supplemental[b.index].amount
    ensures !b.supplemental ==>
            && b.index < |lease| && b.date == lease[b.index].date && b.amount == lease[b.index].amount
            && b.cells == OwnedCells(b.index)
  {
    hide CellRows, Cited, RowsMapped, RequiredCells;
    var rowCells :| Merged(p, lease, supplemental, a.output, rowCells);
    var rows := SourceRows(lease, supplemental, rowCells);
    assert b in multiset(a.output);
    assert b in multiset(rows);
    var i :| 0 <= i < |rows| && rows[i] == b;
    SourceAt(lease, supplemental, rowCells, i);
  }

  /** The k-th supplemental row is among the output rows. */
  ghost predicate HasSupplemental(output: seq<Bound>, k: nat) {
    exists b :: b in output && b.supplemental && b.index == k
  }

  /** Each source row is in the output, once. */
  lemma SourceIsOutput(p: Plan, lease: seq<Row>, supplemental: seq<Row>, a: Assembled)
    requires Accounts(p, lease, supplemental, a)
    ensures |a.output| == |lease| + |supplemental|
    ensures forall i, j :: 0 <= i < j < |a.output| ==> KeyOf(a.output[i]) != KeyOf(a.output[j])
    ensures forall k :: 0 <= k < |lease| ==> LeaseRow(lease, k) in a.output
    ensures forall k :: 0 <= k < |supplemental| ==> HasSupplemental(a.output, k)
  {
    hide *;
    var rowCells := MergedRows(p, lease, supplemental, a);
    var rows := SourceRows(lease, supplemental, rowCells);
    assert |multiset(a.output)| == |multiset(rows)|;
    KeysDiffer(a.output);
    forall k | 0 <= k < |lease|
      ensures LeaseRow(lease, k) in a.output
    {
      SourceAt(lease, supplemental, rowCells, k);
      SameElements(rows, a.output, k);
    }
    forall k | 0 <= k < |supplemental|
      ensures HasSupplemental(a.output, k)
    {
      SourceAt(lease, supplemental, rowCells, |lease| + k);
      SameElements(rows, a.output, |lease| + k);
      SupplementalThere(supplemental, rowCells, k, a.output);
    }
    SourceCount(lease, supplemental, rowCells);
  }

  lemma MergedRows(p: Plan, lease: seq<Row>, supplemental: seq<Row>, a: Assembled) returns (rowCells: map<int, Cell>)
    requires Accounts(p, lease, supplemental, a)
    ensures (forall k :: 0 <= k < |supplemental| ==> k in rowCells) && InOrder(a.output)
    ensures multiset(a.output) == multiset(SourceRows(lease, supplemental, rowCells))
  {
    hide CellRows, Cited, RowsMapped, RequiredCells, InOrder, SourceRows;
    rowCells :| Merged(p, lease, supplemental, a.output, rowCells);
  }

  lemma SourceCount(lease: seq<Row>, supplemental: seq<Row>, rowCells: map<int, Cell>)
    requires forall k :: 0 <= k < |supplemental| ==> k in rowCells
    ensures |SourceRows(lease, supplemental, rowCells)| == |lease| + |supplemental|
  {
  }

  lemma KeysDiffer(output: seq<Bound>)
    requires InOrder(output)
    ensures forall i, j :: 0 <= i < j < |output| ==> KeyOf(output[i]) != KeyOf(output[j])
  {
    forall i, j | 0 <= i < j < |output|
      ensures KeyOf(output[i]) != KeyOf(output[j])
    {
      assert Earlier(KeyOf(output[i]), KeyOf(output[j]));
    }
  }

  lemma SameElements(rows: seq<Bound>, output: seq<Bound>, k: nat)
    requires multiset(output) == multiset(rows) && k < |rows|
    ensures rows[k] in output
  {
    assert rows[k] in multiset(rows);
  }

  lemma SupplementalThere(supplemental: seq<Row>, rowCells: map<int, Cell>, k: nat, output: seq<Bound>)
    requires k < |supplemental| && k in rowCells && SupplementalRow(supplemental, rowCells, k) in output
    ensures HasSupplemental(output, k)
  {
    var b := SupplementalRow(supplemental, rowCells, k);
    assert b.supplemental && b.index == k;
  }

  lemma {:induction false} CellRowsAt(output: seq<Bound>, c: Cell, n: nat)
    ensures n in CellRows(output, c) <==> n < |output| && c in output[n].cells
  {
    if output != [] {
      CellRowsAt(output[..|output| - 1], c, n);
    }
  }

  /** A declared cell lists exactly the output rows of the supplemental rows it cites; a zero cell lists none. */
  lemma CellsAccountFor(p: Plan, lease: seq<Row>, supplemental: seq<Row>, a: Assembled, e: nat, n: nat)
    requires Accounts(p, lease, supplemental, a) && e < |p.coverage|
    requires EntriesAdmitted(p, |lease|, |supplemental|, |p.coverage|)
    ensures n in ListedAt(a.cellRows, p.coverage[e].cell) <==>
            && n < |a.output| && a.output[n].supplemental
            && (a.output[n].index as int, p.coverage[e].cell) in CitedBy(p.coverage[e])
  {
    var c := p.coverage[e].cell;
    CellRowsAt(a.output, c, n);
    assert Required(|lease|, c);
    if n < |a.output| {
      var b := a.output[n];
      assert b in a.output;
      OutputIsSource(p, lease, supplemental, a, b);
      if b.supplemental {
        BoundCell(p, lease, supplemental, a, n, e);
      } else {
        NotOwned(|lease|, c, b.index);
      }
    }
    hide Accounts, CellRows, Cited, EntriesAdmitted, Required, CitedBy;
  }

  lemma NotOwned(periods: nat, c: Cell, index: nat)
    requires Required(periods, c)
    ensures c !in OwnedCells(index)
  {
  }

  /** A supplemental output row is bound to the one cell that cites it. */
  lemma BoundCell(p: Plan, lease: seq<Row>, supplemental: seq<Row>, a: Assembled, n: nat, e: nat)
    requires Accounts(p, lease, supplemental, a) && e < |p.coverage|
    requires EntriesAdmitted(p, |lease|, |supplemental|, |p.coverage|)
    requires n < |a.output| && a.output[n].supplemental
    ensures p.coverage[e].cell in a.output[n].cells <==>
            (a.output[n].index as int, p.coverage[e].cell) in CitedBy(p.coverage[e])
  {
    var b := a.output[n];
    assert b in a.output;
    var cell := CellOf(p, lease, supplemental, a, b);
    hide Accounts;
    CitedInEntry(p, |p.coverage|, b.index, p.coverage[e].cell, e);
    CitedOnce(Cited(p.coverage, |p.coverage|), b.index, cell, p.coverage[e].cell);
    hide Cited, CitedBy, EntriesAdmitted;
  }

  /** The one cell of a supplemental output row, which cites it. */
  lemma CellOf(p: Plan, lease: seq<Row>, supplemental: seq<Row>, a: Assembled, b: Bound) returns (cell: Cell)
    requires Accounts(p, lease, supplemental, a) && b in a.output && b.supplemental
    ensures b.cells == [cell] && (b.index as int, cell) in Cited(p.coverage, |p.coverage|)
  {
    hide CellRows, RequiredCells, Cited, InOrder;
    var rowCells :| Merged(p, lease, supplemental, a.output, rowCells);
    var rows := SourceRows(lease, supplemental, rowCells);
    assert b in multiset(a.output);
    assert b in multiset(rows);
    var i :| 0 <= i < |rows| && rows[i] == b;
    SourceAt(lease, supplemental, rowCells, i);
    cell := rowCells[b.index];
    var r: int := b.index;
    assert (r, rowCells[r]) in Cited(p.coverage, |p.coverage|);
  }

  /** A row cited once is cited for one cell. */
  lemma CitedOnce(cited: seq<(int, Cell)>, r: int, c: Cell, d: Cell)
    requires DistinctRows(cited) && (r, c) in cited
    ensures (r, d) in cited <==> d == c
  {
    var i :| 0 <= i < |cited| && cited[i] == (r, c);
    if (r, d) in cited {
      var j :| 0 <= j < |cited| && cited[j] == (r, d);
      SameRow(cited, i, j);
    }
  }

  lemma SameRow(cited: seq<(int, Cell)>, i: nat, j: nat)
    requires DistinctRows(cited) && i < |cited| && j < |cited| && cited[i].0 == cited[j].0
    ensures i == j
  {
  }

  /** A pair is cited exactly by the entry of its cell. */
  lemma {:induction false} CitedInEntry(p: Plan, n: nat, r: int, c: Cell, e: nat)
    requires n <= |p.coverage| && e < |p.coverage| && p.coverage[e].cell == c
    requires forall i, j :: 0 <= i < j < |p.coverage| ==> p.coverage[i].cell != p.coverage[j].cell
    ensures (r, c) in Cited(p.coverage, n) <==> e < n && (r, c) in CitedBy(p.coverage[e])
  {
    if n > 0 {
      CitedInEntry(p, n - 1, r, c, e);
      if (r, c) in CitedBy(p.coverage[n - 1]) {
        var k :| 0 <= k < |CitedBy(p.coverage[n - 1])| && CitedBy(p.coverage[n - 1])[k] == (r, c);
        assert p.coverage[n - 1].cell == c;
      }
    }
  }

  /** A cell that lists a position is a cell of the map. */
  lemma Listed(m: map<Cell, seq<nat>>, c: Cell, n: nat)
    requires n in ListedAt(m, c)
    ensures c in m && m[c] != []
  {
  }

  /**
   The evidence finds every list it looks up: each cell that is not declared zero, and each cell
   that lease-up owns, has output rows; a cell declared zero has none.
   */
  lemma EvidenceFound(p: Plan, lease: seq<Row>, supplemental: seq<Row>, a: Assembled)
    requires Admissible(p, lease, supplemental) && Accounts(p, lease, supplemental, a)
    ensures forall e :: 0 <= e < |p.coverage| && p.coverage[e].declared.Rows? ==>
              p.coverage[e].cell in a.cellRows && a.cellRows[p.coverage[e].cell] != []
    ensures forall e :: 0 <= e < |p.coverage| && p.coverage[e].declared.Zero? ==>
            ListedAt(a.cellRows, p.coverage[e].cell) == []
    ensures forall k, c :: 0 <= k < |lease| && c in OwnedCells(k) ==> c in a.cellRows && a.cellRows[c] != []
  {
    hide Accounts, Admissible;
    forall e | 0 <= e < |p.coverage| && p.coverage[e].declared.Rows?
      ensures p.coverage[e].cell in a.cellRows && a.cellRows[p.coverage[e].cell] != []
    {
      var n := RowsListed(p, lease, supplemental, a, e);
      Listed(a.cellRows, p.coverage[e].cell, n);
    }
    forall e | 0 <= e < |p.coverage| && p.coverage[e].declared.Zero?
      ensures ListedAt(a.cellRows, p.coverage[e].cell) == []
    {
      ZeroListsNone(p, lease, supplemental, a, e);
    }
    forall k, c | 0 <= k < |lease| && c in OwnedCells(k)
      ensures c in a.cellRows && a.cellRows[c] != []
    {
      var n := OwnedListed(p, lease, supplemental, a, k, c);
      Listed(a.cellRows, c, n);
    }
  }

  lemma RowsListed(p: Plan, lease: seq<Row>, supplemental: seq<Row>, a: Assembled, e: nat) returns (n: nat)
    requires Admissible(p, lease, supplemental) && Accounts(p, lease, supplemental, a)
    requires e < |p.coverage| && p.coverage[e].declared.Rows?
    ensures n in ListedAt(a.cellRows, p.coverage[e].cell)
  {
    hide Accounts;
    var c := p.coverage[e].cell;
    var r := p.coverage[e].declared.rows[0];
    assert CitedBy(p.coverage[e])[0] == (r, c);
    CitedInEntry(p, |p.coverage|, r, c, e);
    var i :| 0 <= i < |Cited(p.coverage, |p.coverage|)| && Cited(p.coverage, |p.coverage|)[i] == (r, c);
    assert 0 <= r < |supplemental|;
    SourceIsOutput(p, lease, supplemental, a);
    hide Admissible, Cited, CitedBy, EntriesAdmitted;
    assert HasSupplemental(a.output, r);
    var b :| b in a.output && b.supplemental && b.index == r;
    n :| 0 <= n < |a.output| && a.output[n] == b;
    CellsAccountFor(p, lease, supplemental, a, e, n);
  }

  lemma ZeroListsNone(p: Plan, lease: seq<Row>, supplemental: seq<Row>, a: Assembled, e: nat)
    requires Admissible(p, lease, supplemental) && Accounts(p, lease, supplemental, a)
    requires e < |p.coverage| && p.coverage[e].declared.Zero?
    ensures ListedAt(a.cellRows, p.coverage[e].cell) == []
  {
    var listed := ListedAt(a.cellRows, p.coverage[e].cell);
    if listed != [] {
      assert listed[0] in listed;
      CellsAccountFor(p, lease, supplemental, a, e, listed[0]);
      assert false;
    }
  }

  lemma OwnedListed(p: Plan, lease: seq<Row>, supplemental: seq<Row>, a: Assembled, k: nat, c: Cell) returns (n: nat)
    requires Accounts(p, lease, supplemental, a) && k < |lease| && c in OwnedCells(k)
    ensures n in ListedAt(a.cellRows, c)
  {
    SourceIsOutput(p, lease, supplemental, a);
    assert ListedAt(a.cellRows, c) == CellRows(a.output, c);
    hide Accounts, CellRows, ListedAt;
    n :| 0 <= n < |a.output| && a.output[n] == LeaseRow(lease, k);
    CellRowsAt(a.output, c, n);
  }

  /** Output runs by date; on one date lease rows come first, and each kind keeps its source order. */
  lemma OutputOrdered(p: Plan, lease: seq<Row>, supplemental: seq<Row>, a: Assembled, i: nat, j: nat)
    requires Accounts(p, lease, supplemental, a) && i < j < |a.output|
    ensures a.output[i].date <= a.output[j].date
    ensures a.output[i].date == a.output[j].date ==> (a.output[i].supplemental ==> a.output[j].supplemental)
    ensures a.output[i].date == a.output[j].date && a.output[i].supplemental == a.output[j].supplemental ==>
              a.output[i].index < a.output[j].index
  {
    var rowCells := MergedRows(p, lease, supplemental, a);
    hide Accounts, SourceRows;
    assert Earlier(KeyOf(a.output[i]), KeyOf(a.output[j]));
  }

  /** Closing rows are dated at their closing; prices and costs go out, income and the sale come in. */
  predicate RowFits(p: Plan, c: Cell, date: int, amount: real) {
    && (c.slot == Acquisition ==> date == p.acquisition)
    && (c.slot == Disposition ==> date == p.disposition)
    && (c.category == PurchasePrice ==> c.slot == Acquisition && amount < 0.0)
    && (c.category == GrossSale ==> c.slot == Disposition && amount >= 0.0)
    && (c.category == OtherIncome ==> amount >= 0.0)
    && (c.category == TransactionCosts || c.category == OperatingExpenses || c.category == OtherCapex ==> amount <= 0.0)
    && c.category != Rent && c.category != Concessions && c.category != TiLc
  }

  lemma AgreesFits(p: Plan, periods: nat, c: Cell, date: int, amount: real)
    requires Required(periods, c) && ClosingAgrees(p, c.slot, date) && SignAgrees(c.category, amount)
    ensures RowFits(p, c, date, amount)
  {
  }

  /** In an assembled plan every row lies in the hold, and every supplemental row fits its one cell. */
  lemma OutputSigns(p: Plan, lease: seq<Row>, supplemental: seq<Row>, a: Assembled, n: nat)
    requires Admissible(p, lease, supplemental) && Accounts(p, lease, supplemental, a) && n < |a.output|
    ensures p.acquisition <= a.output[n].date <= p.disposition
    ensures var b := a.output[n];
            b.supplemental ==> |b.cells| == 1 && RowFits(p, b.cells[0], b.date, b.amount)
  {
    var b := a.output[n];
    assert b in a.output;
    OutputIsSource(p, lease, supplemental, a, b);
    RowInHold(p, lease, supplemental, b);
    if b.supplemental {
      var c := CellOf(p, lease, supplemental, a, b);
      hide *;
      RowAgrees(p, lease, supplemental, b.index, c);
      AgreesFits(p, |lease|, c, b.date, b.amount);
    }
    hide *;
  }

  lemma RowInHold(p: Plan, lease: seq<Row>, supplemental: seq<Row>, b: Bound)
    requires Admissible(p, lease, supplemental)
    requires b.supplemental ==> b.index < |supplemental| && b.date == supplemental[b.index].date
    requires !b.supplemental ==> b.index < |lease| && b.date == lease[b.index].date
    ensures p.acquisition <= b.date <= p.disposition
  {
    hide EntriesAdmitted, Complete, Shaped, Cited, ClosingAgrees, SignAgrees;
  }

  /** A cited row agrees with the cell that cites it. */
  lemma RowAgrees(p: Plan, lease: seq<Row>, supplemental: seq<Row>, r: nat, c: Cell)
    requires Admissible(p, lease, supplemental) && r < |supplemental|
    requires (r as int, c) in Cited(p.coverage, |p.coverage|)
    ensures ClosingAgrees(p, c.slot, supplemental[r].date) && SignAgrees(c.category, supplemental[r].amount)
    ensures Required(|lease|, c)
  {
    var cited := Cited(p.coverage, |p.coverage|);
    var i :| 0 <= i < |cited| && cited[i] == (r as int, c);
    CitedCell(p, |p.coverage|, r, c);
    hide Cited, SignAgrees, ClosingAgrees, Required, Complete, DistinctRows, RowsExist, Shaped;
  }

  lemma {:induction false} CitedCell(p: Plan, n: nat, r: int, c: Cell)
    requires n <= |p.coverage| && (r, c) in Cited(p.coverage, n)
    ensures exists e :: 0 <= e < n && p.coverage[e].cell == c
  {
    if (r, c) in CitedBy(p.coverage[n - 1]) {
      assert p.coverage[n - 1].cell == c;
    } else {
      CitedCell(p, n - 1, r, c);
    }
  }

  /** An assembled plan pays for the property: some output row is its purchase price, at the acquisition. */
  lemma PurchasePaid(p: Plan, lease: seq<Row>, supplemental: seq<Row>, a: Assembled)
    requires Admissible(p, lease, supplemental) && Accounts(p, lease, supplemental, a)
    ensures exists n :: 0 <= n < |a.output| && a.output[n].cells == [Cell(Acquisition, PurchasePrice)]
                        && a.output[n].date == p.acquisition && a.output[n].amount < 0.0
  {
    hide *;
    var e := PriceEntry(p, lease, supplemental);
    var n := RowsListed(p, lease, supplemental, a, e);
    AdmittedEntries(p, lease, supplemental);
    CellsAccountFor(p, lease, supplemental, a, e, n);
    OutputSigns(p, lease, supplemental, a, n);
    var d := CellOf(p, lease, supplemental, a, a.output[n]);
    ListedCell(p, lease, supplemental, a, p.coverage[e].cell, n);
    PricePaid(p, d, a.output[n].date, a.output[n].amount);
  }

  lemma PricePaid(p: Plan, c: Cell, date: int, amount: real)
    requires RowFits(p, c, date, amount) && c == Cell(Acquisition, PurchasePrice)
    ensures date == p.acquisition && amount < 0.0
  {
  }

  lemma ListedCell(p: Plan, lease: seq<Row>, supplemental: seq<Row>, a: Assembled, c: Cell, n: nat)
    requires Accounts(p, lease, supplemental, a) && n in ListedAt(a.cellRows, c)
    ensures n < |a.output| && c in a.output[n].cells
  {
    CellRowsAt(a.output, c, n);
    hide CellRows, ListedAt, Merged, RequiredCells;
  }

  lemma AdmittedEntries(p: Plan, lease: seq<Row>, supplemental: seq<Row>)
    requires Admissible(p, lease, supplemental)
    ensures EntriesAdmitted(p, |lease|, |supplemental|, |p.coverage|)
  {
    hide EntriesAdmitted, Complete, Shaped, Cited, ClosingAgrees, SignAgrees, InHold;
  }

  lemma PriceEntry(p: Plan, lease: seq<Row>, supplemental: seq<Row>) returns (e: nat)
    requires Admissible(p, lease, supplemental)
    ensures e < |p.coverage| && p.coverage[e].cell == Cell(Acquisition, PurchasePrice) && p.coverage[e].declared.Rows?
  {
    var c := Cell(Acquisition, PurchasePrice);
    assert Required(|lease|, c);
    hide Cited, ClosingAgrees, SignAgrees, InHold, DistinctRows, RowsExist, Required, IsCited;
    e :| 0 <= e < |p.coverage| && p.coverage[e].cell == c;
    assert p.coverage[e] != Entry(c, Zero);
  }
}
