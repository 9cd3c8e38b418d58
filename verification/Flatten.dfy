/**
 The Envelope's cell rows: a JSON value as one row per part, addressed by RFC 6901 pointers,
 and the value rebuilt from rows in any order.
 */
module Flatten {
  import opened Common
  import opened DecimalText
  import opened Json
  import Binary64

  /** Scalars and empty containers: the values that one row can carry. */
  predicate Leaf(v: Json) {
    match v
    case Array(items) => items == []
    case Object(members) => members == map[]
    case _ => true
  }

  /** A value with its children removed. */
  function Head(v: Json): (h: Json)
    ensures Leaf(h) && KindOf(h) == KindOf(v)
  {
    match v
    case Array(_) => Array([])
    case Object(_) => Object(map[])
    case _ => v
  }

  /** How deep the value of a cell may nest. */
  const CELL_DEPTH: nat := 127

  lemma LeafNests(v: Json)
    requires Leaf(v)
    ensures Nests(v, CELL_DEPTH)
  {
  }

  /** The JSON text layer: `dump` writes a token, `load` reads one or refuses. */
  datatype Codec = Codec(dump: Json -> string, load: string -> Option<Json>) {
    /**
     Reading undoes writing on finite values of admitted depth, except that negative zero is
     written as zero; and what is read for a row is finite.
     */
    ghost predicate Faithful() {
      && (forall v :: Storable(v) && Nests(v, CELL_DEPTH) ==> load(dump(v)) == Some(Normal(v)))
      && Unsigned()
      && (forall token :: load(token).Some? && Leaf(load(token).value) ==> Storable(load(token).value))
    }

    /** Writing does not tell negative zero from zero. */
    ghost predicate Unsigned() {
      forall v {:trigger dump(Normal(v))} :: dump(Normal(v)) == dump(v)
    }
  }

  datatype Row = Row(pointer: string, kind: Kind, token: string)

  // ----- Member order: UTF-16 code units, big endian -----

  function Units(s: string): seq<int> {
    if s == "" then []
    else
      var c := s[0] as int;
      (if c < 0x1_0000 then [c] else [0xD800 + (c - 0x1_0000) / 0x400, 0xDC00 + (c - 0x1_0000) % 0x400]) + Units(s[1..])
  }

  predicate UnitsAtMost(a: seq<int>, b: seq<int>) {
    a == [] || (b != [] && (a[0] < b[0] || (a[0] == b[0] && UnitsAtMost(a[1..], b[1..]))))
  }

  lemma {:induction false} UnitsTotal(a: seq<int>, b: seq<int>)
    ensures UnitsAtMost(a, b) || UnitsAtMost(b, a)
  {
    if a != [] && b != [] && a[0] == b[0] {
      UnitsTotal(a[1..], b[1..]);
    }
  }

  lemma {:induction false} UnitsTransitive(a: seq<int>, b: seq<int>, c: seq<int>)
    requires UnitsAtMost(a, b) && UnitsAtMost(b, c)
    ensures UnitsAtMost(a, c)
  {
    if a != [] && a[0] == b[0] && b[0] == c[0] {
      UnitsTransitive(a[1..], b[1..], c[1..]);
    }
  }

  lemma {:induction false} UnitsEqual(a: seq<int>, b: seq<int>)
    requires UnitsAtMost(a, b) && UnitsAtMost(b, a)
    ensures a == b
  {
    if a != [] {
      UnitsEqual(a[1..], b[1..]);
      assert a == [a[0]] + a[1..] && b == [b[0]] + b[1..];
    }
  }

  lemma UnitsHead(s: string)
    requires s != ""
    ensures var c, u := s[0] as int, Units(s);
            && |u| >= 1 && (c < 0x1_0000 <==> !(0xD800 <= u[0] < 0xDC00))
            && (c < 0x1_0000 ==> u == [c] + Units(s[1..]))
            && (c >= 0x1_0000 ==>
                |u| >= 2 && c == (u[0] - 0xD800) * 0x400 + u[1] - 0xDC00 + 0x1_0000 && u[2..] == Units(s[1..]))
  {
  }

  /** Distinct strings have distinct UTF-16 forms. */
  lemma {:induction false} UnitsInjective(a: string, b: string)
    requires Units(a) == Units(b)
    ensures a == b
  {
    if a != "" && b != "" {
      UnitsHead(a);
      UnitsHead(b);
      assert (a[0] as int) == (b[0] as int);
      if (a[0] as int) < 0x1_0000 {
        assert Units(a)[1..] == Units(a[1..]) && Units(b)[1..] == Units(b[1..]);
      }
      hide Units;
      UnitsInjective(a[1..], b[1..]);
      assert a == [a[0]] + a[1..] && b == [b[0]] + b[1..];
    } else {
      if a != "" {
        UnitsHead(a);
      }
      if b != "" {
        UnitsHead(b);
      }
    }
  }

  /** Unlabelled first, then by UTF-16 code units. */
  predicate Before(a: Option<string>, b: Option<string>) {
    b.Some? && (a.None? || (a != b && UnitsAtMost(Units(a.value), Units(b.value))))
  }

  ghost predicate IsFirst(k: string, keys: set<string>) {
    k in keys && forall j :: j in keys ==> UnitsAtMost(Units(k), Units(j))
  }

  lemma {:induction false} FirstExists(keys: set<string>) returns (k: string)
    requires keys != {}
    ensures IsFirst(k, keys)
    decreases keys
  {
    hide UnitsAtMost, Units;
    var j :| j in keys;
    var rest := keys - {j};
    UnitsTotal(Units(j), Units(j));
    if rest == {} {
      k := j;
      assert keys == {j};
    } else {
      var i := FirstExists(rest);
      UnitsTotal(Units(i), Units(j));
      k := if UnitsAtMost(Units(i), Units(j)) then i else j;
      forall x | x in keys
        ensures UnitsAtMost(Units(k), Units(x))
      {
        if x != j {
          assert x in rest;
          if k == j {
            UnitsTransitive(Units(j), Units(i), Units(x));
          }
        }
      }
    }
  }

  lemma HasFirst(keys: set<string>)
    requires keys != {}
    ensures exists k :: IsFirst(k, keys)
  {
    var k := FirstExists(keys);
  }

  ghost function SortedKeys(keys: set<string>): (sorted: seq<string>)
    ensures forall k :: k in sorted <==> k in keys
    ensures forall i, j :: 0 <= i < j < |sorted| ==> sorted[i] != sorted[j]
  {
    if keys == {} then []
    else
      HasFirst(keys);
      var k :| IsFirst(k, keys);
      [k] + SortedKeys(keys - {k})
  }

  lemma FirstIsOne(keys: set<string>, k: string, j: string)
    requires IsFirst(k, keys) && IsFirst(j, keys)
    ensures k == j
  {
    UnitsEqual(Units(k), Units(j));
    UnitsInjective(k, j);
    hide Units, UnitsAtMost;
  }

  lemma SortedFirst(keys: set<string>, k: string)
    requires IsFirst(k, keys)
    ensures SortedKeys(keys) == [k] + SortedKeys(keys - {k})
  {
    HasFirst(keys);
    var j :| IsFirst(j, keys) && SortedKeys(keys) == [j] + SortedKeys(keys - {j});
    FirstIsOne(keys, k, j);
    hide IsFirst;
  }

  /** The least name of a set. */
  method FirstName(keys: set<string>) returns (k: string)
    requires keys != {}
    ensures IsFirst(k, keys)
  {
    hide Units, UnitsAtMost;
    k :| k in keys;
    var rest := keys;
    UnitsTotal(Units(k), Units(k));
    while rest != {}
      invariant rest <= keys && k in keys && forall j :: j in keys && j !in rest ==> UnitsAtMost(Units(k), Units(j))
      decreases |rest|
    {
      var j :| j in rest;
      UnitsTotal(Units(k), Units(j));
      UnitsTotal(Units(j), Units(j));
      if !UnitsAtMost(Units(k), Units(j)) {
        forall x | x in keys && x !in rest
          ensures UnitsAtMost(Units(j), Units(x))
        {
          UnitsTransitive(Units(j), Units(k), Units(x));
        }
        k := j;
      }
      rest := rest - {j};
    }
  }

  /** The names of a set in UTF-16 order. */
  method SortNames(keys: set<string>) returns (sorted: seq<string>)
    ensures sorted == SortedKeys(keys)
  {
    hide *;
    sorted := [];
    var rest := keys;
    while rest != {}
      invariant sorted + SortedKeys(rest) == SortedKeys(keys)
      decreases |rest|
    {
      var k := FirstName(rest);
      SortedFirst(rest, k);
      FirstIsKey(rest, k);
      assert sorted + ([k] + SortedKeys(rest - {k})) == (sorted + [k]) + SortedKeys(rest - {k});
      sorted := sorted + [k];
      rest := rest - {k};
    }
    NoNames();
    assert sorted + [] == sorted;
  }

  lemma FirstIsKey(keys: set<string>, k: string)
    requires IsFirst(k, keys)
    ensures k in keys
  {
  }

  lemma NoNames()
    ensures SortedKeys({}) == []
  {
  }

  // ----- `flatten` -----

  ghost function Flatten(c: Codec, v: Json, pointer: string): seq<Row>
    decreases v, 1, 0
  {
    [Row(pointer, KindOf(v), c.dump(Head(v)))]
    + match v
      case Array(items) => FlattenItems(c, v, 0, pointer)
      case Object(members) => FlattenMembers(c, v, SortedKeys(members.Keys), pointer)
      case _ => []
  }

  ghost function FlattenItems(c: Codec, v: Json, i: nat, pointer: string): seq<Row>
    requires v.Array? && i <= |v.items|
    decreases v, 0, |v.items| - i
  {
    if i == |v.items| then []
    else Flatten(c, v.items[i], pointer + "/" + Dec(i)) + FlattenItems(c, v, i + 1, pointer)
  }

  ghost function FlattenMembers(c: Codec, v: Json, keys: seq<string>, pointer: string): seq<Row>
    requires v.Object? && forall k :: k in keys ==> k in v.members
    decreases v, 0, |keys|
  {
    if keys == [] then []
    else Flatten(c, v.members[keys[0]], pointer + "/" + Esc(keys[0])) + FlattenMembers(c, v, keys[1..], pointer)
  }

  /** The recursive accumulation of rows. */
  method FlattenRows(c: Codec, v: Json, pointer: string) returns (rows: seq<Row>)
    ensures rows == Flatten(c, v, pointer)
    decreases v, 1
  {
    hide SortedKeys, FlattenItems, FlattenMembers;
    rows := [Row(pointer, KindOf(v), c.dump(Head(v)))];
    match v {
      case Array(items) =>
        var more := ItemRows(c, v, pointer);
        rows := rows + more;
      case Object(members) =>
        var more := MemberRows(c, v, pointer);
        rows := rows + more;
      case _ =>
    }
  }

  method ItemRows(c: Codec, v: Json, pointer: string) returns (rows: seq<Row>)
    requires v.Array?
    ensures rows == FlattenItems(c, v, 0, pointer)
    decreases v, 0
  {
    hide Flatten, Dec;
    rows := [];
    for i := 0 to |v.items|
      invariant rows + FlattenItems(c, v, i, pointer) == FlattenItems(c, v, 0, pointer)
    {
      var more := FlattenRows(c, v.items[i], pointer + "/" + Dec(i));
      ghost var rest := FlattenItems(c, v, i + 1, pointer);
      assert rows + (more + rest) == (rows + more) + rest;
      rows := rows + more;
    }
    assert rows + [] == rows;
  }

  method MemberRows(c: Codec, v: Json, pointer: string) returns (rows: seq<Row>)
    requires v.Object?
    ensures rows == FlattenMembers(c, v, SortedKeys(v.members.Keys), pointer)
    decreases v, 0
  {
    hide Flatten, SortedKeys, Esc;
    var keys := SortNames(v.members.Keys);
    NamesOf(v.members);
    rows := [];
    for n := 0 to |keys|
      invariant rows + FlattenMembers(c, v, keys[n..], pointer) == FlattenMembers(c, v, keys, pointer)
    {
      assert keys[n..][0] == keys[n] && keys[n..][1..] == keys[n + 1..];
      var more := FlattenRows(c, v.members[keys[n]], pointer + "/" + Esc(keys[n]));
      ghost var rest := FlattenMembers(c, v, keys[n + 1..], pointer);
      assert rows + (more + rest) == (rows + more) + rest;
      rows := rows + more;
    }
    assert rows + [] == rows;
  }

  lemma NamesOf(members: map<string, Json>)
    ensures forall k :: k in SortedKeys(members.Keys) ==> k in members
  {
  }

  lemma HeadNormal(c: Codec, v: Json)
    requires c.Unsigned()
    ensures c.dump(Head(Normal(v))) == c.dump(Head(v))
  {
    HeadOfNormal(v);
  }

  lemma HeadOfNormal(v: Json)
    ensures Head(Normal(v)) == Normal(Head(v))
  {
    if v.Object? {
      assert Normal(Object(map[])).members == map[];
    }
  }

  /** A value and its normal form have the same rows. */
  lemma {:induction false} FlattenNormal(c: Codec, v: Json, pointer: string)
    requires c.Unsigned()
    ensures Flatten(c, Normal(v), pointer) == Flatten(c, v, pointer)
    decreases v, 1, 0
  {
    HeadNormal(c, v);
    hide Head, FlattenItems, FlattenMembers, SortedKeys;
    match v
    case Array(items) => ItemsNormal(c, v, 0, pointer);
    case Object(members) => MembersNormal(c, v, SortedKeys(members.Keys), pointer);
    case _ =>
  }

  lemma {:induction false} ItemsNormal(c: Codec, v: Json, i: nat, pointer: string)
    requires c.Unsigned() && v.Array? && i <= |v.items|
    ensures FlattenItems(c, Normal(v), i, pointer) == FlattenItems(c, v, i, pointer)
    decreases v, 0, |v.items| - i
  {
    if i < |v.items| {
      FlattenNormal(c, v.items[i], pointer + "/" + Dec(i));
      ItemsNormal(c, v, i + 1, pointer);
    }
    hide Flatten, Dec;
  }

  lemma {:induction false} MembersNormal(c: Codec, v: Json, keys: seq<string>, pointer: string)
    requires c.Unsigned() && v.Object? && forall k :: k in keys ==> k in v.members
    ensures FlattenMembers(c, Normal(v), keys, pointer) == FlattenMembers(c, v, keys, pointer)
    decreases v, 0, |keys|
  {
    if keys != [] {
      FlattenNormal(c, v.members[keys[0]], pointer + "/" + Esc(keys[0]));
      MembersNormal(c, v, keys[1..], pointer);
    }
    hide Flatten, Esc;
  }

  /** The row describes the part of v at its pointer, v itself standing at `prefix`. */
  ghost predicate Describes(c: Codec, v: Json, prefix: Path, row: Row) {
    var path := Parts(row.pointer);
    && path.Some? && prefix <= path.value
    && var part := At(v, path.value[|prefix|..]);
    && part.Some? && row.kind == KindOf(part.value) && row.token == c.dump(Head(part.value))
  }

  // ----- Every part has exactly one row -----

  /** Below a child: the parent's row and the child's row are the same claim. */
  lemma DescribesChild(c: Codec, v: Json, prefix: Path, row: Row, key: string, child: Json)
    requires forall p: Path :: At(v, [key] + p) == At(child, p)
    ensures Describes(c, child, prefix + [key], row) <==>
            Describes(c, v, prefix, row) && StepIs(row, prefix, key)
  {
    hide Parts, At;
    var path := Parts(row.pointer);
    if path.Some? {
      PrefixStep(path.value, prefix, key);
    }
  }

  lemma PrefixStep(q: Path, prefix: Path, key: string)
    ensures prefix + [key] <= q <==> prefix < q && q[|prefix|] == key
    ensures prefix + [key] <= q ==> q[|prefix|..] == [key] + q[|prefix + [key]|..]
  {
    if prefix + [key] <= q {
      assert q[..|prefix| + 1] == prefix + [key];
      assert q[|prefix|] == (prefix + [key])[|prefix|];
    }
    if prefix < q && q[|prefix|] == key {
      assert q[..|prefix| + 1] == prefix + [key];
    }
  }

  /** The row's path continues past prefix with key. */
  ghost predicate StepIs(row: Row, prefix: Path, key: string) {
    var path := Parts(row.pointer);
    path.Some? && prefix < path.value && path.value[|prefix|] == key
  }

  ghost predicate StepFrom(row: Row, prefix: Path, i: nat, n: nat) {
    exists j: nat :: i <= j < n && StepIs(row, prefix, Dec(j))
  }

  ghost predicate StepAmong(row: Row, prefix: Path, keys: seq<string>) {
    exists k :: k in keys && StepIs(row, prefix, k)
  }

  lemma StepFromNext(row: Row, prefix: Path, i: nat, n: nat)
    requires i < n
    ensures StepFrom(row, prefix, i, n) <==> StepIs(row, prefix, Dec(i)) || StepFrom(row, prefix, i + 1, n)
    ensures !(StepIs(row, prefix, Dec(i)) && StepFrom(row, prefix, i + 1, n))
  {
    hide Parts, Dec;
    if StepIs(row, prefix, Dec(i)) && StepFrom(row, prefix, i + 1, n) {
      var j: nat :| i + 1 <= j < n && StepIs(row, prefix, Dec(j));
      DecInjective(i, j);
    }
    if StepFrom(row, prefix, i, n) && !StepIs(row, prefix, Dec(i)) {
      var j: nat :| i <= j < n && StepIs(row, prefix, Dec(j));
    }
  }

  lemma DecNotEscaped(i: nat)
    ensures Esc(Dec(i)) == Dec(i)
  {
    DecIsNumeral(i);
    DigitsEscape(Dec(i));
  }

  lemma {:induction false} DigitsEscape(s: string)
    requires AllDigits(s)
    ensures Esc(s) == s
  {
    if s != "" {
      EscStep(s);
      DigitsEscape(s[1..]);
      hide Esc;
      assert s == [s[0]] + s[1..];
    }
  }

  /** The multiplicity of a row in `flatten`: one when it describes a part, none otherwise. */
  lemma {:induction false} FlattenCount(c: Codec, v: Json, prefix: Path, row: Row)
    ensures multiset(Flatten(c, v, Pointer(prefix)))[row] == Once(Describes(c, v, prefix, row))
    decreases v, 1, 0
  {
    var head := Row(Pointer(prefix), KindOf(v), c.dump(Head(v)));
    RootRow(c, v, prefix, row);
    hide Describes, StepFrom, StepAmong, SortedKeys, FlattenItems, FlattenMembers, Pointer, Parts;
    match v {
      case Array(items) =>
        ItemsCount(c, v, 0, prefix, row);
        if Describes(c, v, prefix, row) {
          ArraySteps(c, v, prefix, row);
        }
        StepsExcludeRoot(row, prefix, |items|, []);
      case Object(members) =>
        var keys := SortedKeys(members.Keys);
        MembersCount(c, v, keys, prefix, row);
        if Describes(c, v, prefix, row) {
          ObjectSteps(c, v, prefix, row);
        }
        StepsExcludeRoot(row, prefix, 0, keys);
      case _ =>
        if Describes(c, v, prefix, row) {
          ScalarSteps(c, v, prefix, row);
        }
    }
  }

  lemma RootRow(c: Codec, v: Json, prefix: Path, row: Row)
    ensures row == Row(Pointer(prefix), KindOf(v), c.dump(Head(v))) <==>
            Describes(c, v, prefix, row) && Parts(row.pointer) == Some(prefix)
  {
    PartsOfPointer(prefix);
    if Parts(row.pointer) == Some(prefix) {
      PointerOfParts(row.pointer);
      assert prefix[|prefix|..] == [];
    }
    hide Parts, Pointer;
  }

  lemma ArraySteps(c: Codec, v: Json, prefix: Path, row: Row)
    requires v.Array? && Describes(c, v, prefix, row)
    ensures Parts(row.pointer) == Some(prefix) || StepFrom(row, prefix, 0, |v.items|)
  {
    hide Parts;
    var q := Parts(row.pointer).value;
    if q != prefix {
      var p := q[|prefix|..];
      assert p != [] && At(v, p).Some?;
      var j: nat :| j < |v.items| && Dec(j) == p[0];
      assert StepIs(row, prefix, Dec(j));
    }
  }

  lemma ObjectSteps(c: Codec, v: Json, prefix: Path, row: Row)
    requires v.Object? && Describes(c, v, prefix, row)
    ensures Parts(row.pointer) == Some(prefix) || StepAmong(row, prefix, SortedKeys(v.members.Keys))
  {
    hide Parts;
    var q := Parts(row.pointer).value;
    if q != prefix {
      var p := q[|prefix|..];
      assert p != [] && At(v, p).Some?;
      assert StepIs(row, prefix, p[0]);
    }
  }

  lemma ScalarSteps(c: Codec, v: Json, prefix: Path, row: Row)
    requires !v.Array? && !v.Object? && Describes(c, v, prefix, row)
    ensures Parts(row.pointer) == Some(prefix)
  {
    hide Parts;
    var q := Parts(row.pointer).value;
    var p := q[|prefix|..];
    assert p != [] ==> At(v, p).None?;
    assert q == prefix + p && prefix + [] == prefix;
  }

  lemma StepsExcludeRoot(row: Row, prefix: Path, n: nat, keys: seq<string>)
    ensures Parts(row.pointer) == Some(prefix) ==> !StepFrom(row, prefix, 0, n) && !StepAmong(row, prefix, keys)
  {
    hide Parts;
  }

  lemma {:induction false} ItemsCount(c: Codec, v: Json, i: nat, prefix: Path, row: Row)
    requires v.Array? && i <= |v.items|
    ensures multiset(FlattenItems(c, v, i, Pointer(prefix)))[row] ==
            Once(Describes(c, v, prefix, row) && StepFrom(row, prefix, i, |v.items|))
    decreases v, 0, |v.items| - i
  {
    if i < |v.items| {
      var key, child := Dec(i), v.items[i];
      DecNotEscaped(i);
      PointerChild(prefix, key);
      FlattenCount(c, child, prefix + [key], row);
      ItemsCount(c, v, i + 1, prefix, row);
      forall p: Path
        ensures At(v, [key] + p) == At(child, p)
      {
        AtIndex(v.items, i, p);
      }
      DescribesChild(c, v, prefix, row, key, child);
      StepFromNext(row, prefix, i, |v.items|);
    }
    hide Describes, StepIs, StepFrom, Pointer, Dec, Esc, At, Flatten;
  }

  lemma {:induction false} MembersCount(c: Codec, v: Json, keys: seq<string>, prefix: Path, row: Row)
    requires v.Object? && forall k :: k in keys ==> k in v.members
    requires forall i, j :: 0 <= i < j < |keys| ==> keys[i] != keys[j]
    ensures multiset(FlattenMembers(c, v, keys, Pointer(prefix)))[row] ==
            Once(Describes(c, v, prefix, row) && StepAmong(row, prefix, keys))
    decreases v, 0, |keys|
  {
    if keys != [] {
      var key, child := keys[0], v.members[keys[0]];
      PointerChild(prefix, key);
      FlattenCount(c, child, prefix + [key], row);
      MembersCount(c, v, keys[1..], prefix, row);
      forall p: Path
        ensures At(v, [key] + p) == At(child, p)
      {
        AtMember(v.members, key, p);
      }
      DescribesChild(c, v, prefix, row, key, child);
      StepAmongNext(row, prefix, keys);
    }
    hide Describes, StepIs, StepAmong, Pointer, Esc, At, Flatten;
  }

  lemma StepAmongNext(row: Row, prefix: Path, keys: seq<string>)
    requires keys != [] && forall i, j :: 0 <= i < j < |keys| ==> keys[i] != keys[j]
    ensures StepAmong(row, prefix, keys) <==> StepIs(row, prefix, keys[0]) || StepAmong(row, prefix, keys[1..])
    ensures !(StepIs(row, prefix, keys[0]) && StepAmong(row, prefix, keys[1..]))
  {
    hide Parts;
  }

  // ----- `unflatten`: scanning rows -----

  type Nodes = map<Path, Json>
  type Children = map<Path, seq<Path>>

  datatype Scanned = Scanned(nodes: Nodes, children: Children)

  function Parent(path: Path): Path
    requires path != []
  {
    path[..|path| - 1]
  }

  function Kids(children: Children, path: Path): seq<Path> {
    if path in children then children[path] else []
  }

  /** Token of a row: loadable, of the stated kind, hiding no children. */
  function RowValue(c: Codec, row: Row): Option<Json> {
    match c.load(row.token)
    case None => None
    case Some(v) => if KindOf(v) == row.kind && Leaf(v) then Some(v) else None
  }

  function AddRow(c: Codec, s: Scanned, row: Row): Option<Scanned> {
    match Parts(row.pointer)
    case None => None
    case Some(path) =>
      if path in s.nodes then None
      else
        match RowValue(c, row)
        case None => None
        case Some(v) =>
          Some(Scanned(s.nodes[path := v],
                       if path == [] then s.children
                       else s.children[Parent(path) := Kids(s.children, Parent(path)) + [path]]))
  }

  function Scan(c: Codec, rows: seq<Row>): Option<Scanned> {
    if rows == [] then Some(Scanned(map[], map[]))
    else
      match Scan(c, rows[..|rows| - 1])
      case None => None
      case Some(s) => AddRow(c, s, rows[|rows| - 1])
  }

  /** Every listed child is a node one step below its parent; every node is listed once. */
  ghost predicate Linked(nodes: Nodes, children: Children) {
    && (forall p, i :: p in children && 0 <= i < |children[p]| ==>
                         children[p][i] in nodes && children[p][i] != [] && Parent(children[p][i]) == p)
    && (forall q :: q in nodes && q != [] ==> q in Kids(children, Parent(q)))
    && (forall p, i, j :: p in children && 0 <= i < j < |children[p]| ==> children[p][i] != children[p][j])
  }

  lemma AddRowLinked(c: Codec, s: Scanned, row: Row)
    requires Linked(s.nodes, s.children) && AddRow(c, s, row).Some?
    ensures var t := AddRow(c, s, row).value; Linked(t.nodes, t.children)
  {
    hide Parts, RowValue;
    var path := Parts(row.pointer).value;
    var t := AddRow(c, s, row).value;
    if path != [] {
      var parent := Parent(path);
      var before := Kids(s.children, parent);
      assert path !in before;
      assert t.children[parent] == before + [path];
      forall q | q in t.nodes && q != []
        ensures q in Kids(t.children, Parent(q))
      {
        if q != path {
          assert q in Kids(s.children, Parent(q));
        }
      }
    }
  }

  lemma {:induction false} ScanLinked(c: Codec, rows: seq<Row>)
    requires Scan(c, rows).Some?
    ensures Linked(Scan(c, rows).value.nodes, Scan(c, rows).value.children)
  {
    hide AddRow, Linked;
    if rows == [] {
      EmptyLinked();
    } else {
      ScanLinked(c, rows[..|rows| - 1]);
      AddRowLinked(c, Scan(c, rows[..|rows| - 1]).value, rows[|rows| - 1]);
    }
  }

  lemma EmptyLinked()
    ensures Linked(map[], map[])
  {
  }

  // ----- `unflatten`: building the value -----

  predicate IsNumeral(s: string) {
    |s| > 0 && AllDigits(s) && (s[0] != '0' || |s| == 1)
  }

  function Last(path: Path): string
    requires path != []
  {
    path[|path| - 1]
  }

  function IndexKey(path: Path): int {
    if path != [] && IsNumeral(Last(path)) then Nat(Last(path)) else -1
  }

  /** Insert after every entry with the same or a smaller index: a stable sort. */
  function Insert(sorted: seq<Path>, p: Path): seq<Path> {
    if sorted == [] || IndexKey(sorted[|sorted| - 1]) <= IndexKey(p) then sorted + [p]
    else Insert(sorted[..|sorted| - 1], p) + [sorted[|sorted| - 1]]
  }

  function SortByIndex(list: seq<Path>): (sorted: seq<Path>) {
    if list == [] then [] else Insert(SortByIndex(list[..|list| - 1]), list[|list| - 1])
  }

  predicate Indexed(list: seq<Path>) {
    forall i :: 0 <= i < |list| ==> list[i] != [] && Last(list[i]) == Dec(i)
  }

  function ToObject(list: seq<Path>, values: seq<Json>): map<string, Json>
    requires |list| == |values| && forall i :: 0 <= i < |list| ==> list[i] != []
  {
    if list == [] then map[]
    else ToObject(list[..|list| - 1], values[..|list| - 1])[Last(list[|list| - 1]) := values[|list| - 1]]
  }

  type Built = Option<(Json, set<Path>)>

  ghost predicate Within(nodes: Nodes, size: nat, height: nat) {
    forall q :: q in nodes ==> |q| < size + height
  }

  lemma SortKeeps(list: seq<Path>)
    ensures multiset(SortByIndex(list)) == multiset(list)
    ensures forall p :: p in SortByIndex(list) ==> p in list
  {
    SortMultiset(list);
    forall p | p in SortByIndex(list)
      ensures p in list
    {
      assert p in multiset(SortByIndex(list));
    }
  }

  lemma {:induction false} InsertMultiset(sorted: seq<Path>, p: Path)
    ensures multiset(Insert(sorted, p)) == multiset(sorted) + multiset{p}
  {
    hide IndexKey;
    if sorted != [] {
      var n := |sorted| - 1;
      assert sorted == sorted[..n] + [sorted[n]];
      InsertMultiset(sorted[..n], p);
    }
  }

  lemma {:induction false} SortMultiset(list: seq<Path>)
    ensures multiset(SortByIndex(list)) == multiset(list)
  {
    if list != [] {
      var n := |list| - 1;
      assert list == list[..n] + [list[n]];
      SortMultiset(list[..n]);
      InsertMultiset(SortByIndex(list[..n]), list[n]);
    }
  }

  function Build(nodes: Nodes, children: Children, ghost height: nat, path: Path): Built
    requires Linked(nodes, children) && Within(nodes, |path|, height)
    decreases height, 0, 0
  {
    if path !in nodes then None
    else
      var kids := Kids(children, path);
      match nodes[path]
      case Array(_) =>
        SortKeeps(kids);
        var sorted := SortByIndex(kids);
        if !Indexed(sorted) then None
        else
          (match BuildAll(nodes, children, height - 1, |path| + 1, sorted)
           case None => None
           case Some((values, used)) => Some((Array(values), {path} + used)))
      case Object(_) =>
        (match BuildAll(nodes, children, height - 1, |path| + 1, kids)
         case None => None
         case Some((values, used)) => Some((Object(ToObject(kids, values)), {path} + used)))
      case scalar => if kids != [] then None else Some((scalar, {path}))
  }

  function BuildAll(nodes: Nodes, children: Children, ghost height: nat, ghost size: nat,
      list: seq<Path>): (r: Option<(seq<Json>, set<Path>)>)
    requires Linked(nodes, children) && Within(nodes, size, height)
    requires forall p :: p in list ==> |p| == size
    ensures r.Some? ==> |r.value.0| == |list|
    decreases height, 1, |list|
  {
    if list == [] then Some(([], {}))
    else
      match BuildAll(nodes, children, height, size, list[..|list| - 1])
      case None => None
      case Some((values, used)) =>
        match Build(nodes, children, height, list[|list| - 1])
        case None => None
        case Some((v, more)) => Some((values + [v], used + more))
  }

  // ----- The stable sort finds index order -----

  ghost predicate Ascending(list: seq<Path>) {
    forall i, j :: 0 <= i < j < |list| ==> IndexKey(list[i]) <= IndexKey(list[j])
  }

  lemma {:induction false} InsertAscending(sorted: seq<Path>, p: Path)
    requires Ascending(sorted)
    ensures Ascending(Insert(sorted, p))
    ensures forall q :: q in Insert(sorted, p) ==> q in sorted || q == p
  {
    hide IndexKey;
    if sorted != [] && !(IndexKey(sorted[|sorted| - 1]) <= IndexKey(p)) {
      var n := |sorted| - 1;
      InsertAscending(sorted[..n], p);
      var front := Insert(sorted[..n], p);
      forall i | 0 <= i < |front|
        ensures IndexKey(front[i]) <= IndexKey(sorted[n])
      {
        assert front[i] in front;
      }
    }
  }

  lemma {:induction false} SortAscending(list: seq<Path>)
    ensures Ascending(SortByIndex(list))
  {
    hide Insert, IndexKey;
    if list != [] {
      SortAscending(list[..|list| - 1]);
      InsertAscending(SortByIndex(list[..|list| - 1]), list[|list| - 1]);
    }
  }

  /** The children of an array of n items, in index order. */
  function IndexList(path: Path, n: nat): (list: seq<Path>)
    ensures |list| == n
  {
    seq(n, i requires 0 <= i < n => path + [Dec(i)])
  }

  lemma IndexKeyOf(path: Path, i: nat)
    ensures IndexKey(path + [Dec(i)]) == i
    ensures Parent(path + [Dec(i)]) == path && Last(path + [Dec(i)]) == Dec(i)
  {
    DecIsNumeral(i);
    assert (path + [Dec(i)])[..|path|] == path;
    if i != 0 {
      assert Dec(i)[0] != '0';
    }
  }

  /** Sorting any arrangement of an array's children yields index order. */
  lemma {:induction false} AscendingIsIndexed(path: Path, list: seq<Path>, n: nat)
    requires Ascending(list) && multiset(list) == multiset(IndexList(path, n))
    ensures list == IndexList(path, n)
  {
    hide IndexKey, Dec, Ascending, IndexList;
    assert |multiset(list)| == |list| && |multiset(IndexList(path, n))| == n;
    if n > 0 {
      LastIsGreatest(path, list, n);
      IndexListSnoc(path, n);
      RemoveLast(list, IndexList(path, n - 1), path + [Dec(n - 1)]);
      AscendingFront(list);
      AscendingIsIndexed(path, list[..n - 1], n - 1);
    }
  }

  lemma AscendingFront(list: seq<Path>)
    requires Ascending(list) && list != []
    ensures Ascending(list[..|list| - 1])
  {
  }

  lemma RemoveLast(list: seq<Path>, front: seq<Path>, last: Path)
    requires list != [] && list[|list| - 1] == last
    requires multiset(list) == multiset(front + [last])
    ensures multiset(list[..|list| - 1]) == multiset(front)
    ensures list == list[..|list| - 1] + [last]
  {
    assert list == list[..|list| - 1] + [last];
    var a, b := multiset(list[..|list| - 1]), multiset(front);
    assert a == multiset(list) - multiset{last};
    assert b == multiset(front + [last]) - multiset{last};
  }

  lemma IndexListSnoc(path: Path, n: nat)
    requires n > 0
    ensures IndexList(path, n) == IndexList(path, n - 1) + [path + [Dec(n - 1)]]
  {
    hide Dec;
  }

  lemma LastIsGreatest(path: Path, list: seq<Path>, n: nat)
    requires n > 0 && |list| == n
    requires Ascending(list) && multiset(list) == multiset(IndexList(path, n))
    ensures list[n - 1] == path + [Dec(n - 1)]
  {
    hide Dec, IndexKey;
    var target := IndexList(path, n);
    assert target[n - 1] in multiset(target);
    assert target[n - 1] in list;
    var at :| 0 <= at < n && list[at] == target[n - 1];
    assert list[n - 1] in multiset(target);
    assert list[n - 1] in target;
    var from :| 0 <= from < n && list[n - 1] == target[from];
    IndexKeyOf(path, from);
    IndexKeyOf(path, n - 1);
  }

  /** Two duplicate-free lists with the same entries are permutations of each other. */
  lemma {:induction false} SameEntries(a: seq<Path>, b: seq<Path>)
    requires forall i, j :: 0 <= i < j < |a| ==> a[i] != a[j]
    requires forall i, j :: 0 <= i < j < |b| ==> b[i] != b[j]
    requires forall p :: p in a <==> p in b
    ensures multiset(a) == multiset(b)
  {
    forall p
      ensures multiset(a)[p] == multiset(b)[p]
    {
      CountOnce(a, p);
      CountOnce(b, p);
    }
  }

  lemma {:induction false} CountOnce(a: seq<Path>, p: Path)
    requires forall i, j :: 0 <= i < j < |a| ==> a[i] != a[j]
    ensures multiset(a)[p] == if p in a then 1 else 0
  {
    if a != [] {
      var n := |a| - 1;
      assert a == a[..n] + [a[n]];
      CountOnce(a[..n], p);
    }
  }

  // ----- What a successful build accounts for -----

  /** The builder used q for the part of v at q. */
  ghost predicate Accounts(nodes: Nodes, path: Path, v: Json, used: set<Path>, q: Path) {
    && (q in used <==> path <= q && At(v, q[|path|..]).Some?)
    && (q in used ==> q in nodes && nodes[q] == Head(At(v, q[|path|..]).value))
  }

  /** q lies in the part built from the i-th listed child. */
  ghost predicate UsedBy(list: seq<Path>, values: seq<Json>, q: Path, i: int)
    requires |list| == |values|
  {
    0 <= i < |list| && list[i] <= q && At(values[i], q[|list[i]|..]).Some?
  }

  ghost predicate AccountsAll(nodes: Nodes, list: seq<Path>, values: seq<Json>, used: set<Path>, q: Path)
    requires |list| == |values|
  {
    && (q in used <==> exists i :: UsedBy(list, values, q, i))
    && (forall i :: UsedBy(list, values, q, i) ==> q in nodes && nodes[q] == Head(At(values[i], q[|list[i]|..]).value))
  }

  lemma AccountsSnoc(nodes: Nodes, list: seq<Path>, values: seq<Json>, used: set<Path>, p: Path, v: Json,
      more: set<Path>, q: Path)
    requires |list| == |values|
    requires AccountsAll(nodes, list, values, used, q) && Accounts(nodes, p, v, more, q)
    ensures AccountsAll(nodes, list + [p], values + [v], used + more, q)
  {
    hide At;
    var l, vs := list + [p], values + [v];
    forall i | UsedBy(l, vs, q, i)
      ensures q in used + more && q in nodes && nodes[q] == Head(At(vs[i], q[|l[i]|..]).value)
    {
      if i < |list| {
        assert UsedBy(list, values, q, i);
      }
    }
    if q in used {
      var i :| UsedBy(list, values, q, i);
      assert UsedBy(l, vs, q, i);
    }
    if q in more {
      assert UsedBy(l, vs, q, |list|);
    }
  }

  ghost predicate AllLeaves(nodes: Nodes) {
    forall p :: p in nodes ==> Leaf(nodes[p])
  }

  /** What the recursive calls of `Build` may assume. */
  lemma BelowPath(nodes: Nodes, children: Children, height: nat, path: Path)
    requires Linked(nodes, children) && Within(nodes, |path|, height) && path in nodes
    ensures height > 0 && Within(nodes, |path| + 1, height - 1)
    ensures forall p :: p in Kids(children, path) ==> |p| == |path| + 1
    ensures forall p :: p in SortByIndex(Kids(children, path)) ==> p in Kids(children, path)
  {
    SortKeeps(Kids(children, path));
    forall p | p in Kids(children, path)
      ensures |p| == |path| + 1
    {
      ChildIs(children, nodes, path, p);
    }
  }

  lemma {:induction false} BuildAccounts(nodes: Nodes, children: Children, height: nat, path: Path, q: Path)
    requires Linked(nodes, children) && Within(nodes, |path|, height) && AllLeaves(nodes)
    requires Build(nodes, children, height, path).Some?
    ensures var (v, used) := Build(nodes, children, height, path).value;
            Accounts(nodes, path, v, used, q)
    decreases height, 0, 0
  {
    BelowPath(nodes, children, height, path);
    var kids, head := Kids(children, path), nodes[path];
    assert Leaf(head);
    hide Accounts, AccountsAll, Linked, Within, AllLeaves, Kids, SortByIndex, ToObject, BuildAll, Indexed;
    match head {
      case Array(_) =>
        var sorted := SortByIndex(kids);
        BuildAllAccounts(nodes, children, height - 1, |path| + 1, sorted, q);
        var (values, more) := BuildAll(nodes, children, height - 1, |path| + 1, sorted).value;
        ArrayAccounts(nodes, children, path, sorted, values, more, q);
      case Object(_) =>
        BuildAllAccounts(nodes, children, height - 1, |path| + 1, kids, q);
        var (values, more) := BuildAll(nodes, children, height - 1, |path| + 1, kids).value;
        ObjectAccounts(nodes, children, path, kids, values, more, q);
      case _ =>
        ScalarAccounts(nodes, path, head, q);
    }
  }

  lemma ScalarAccounts(nodes: Nodes, path: Path, v: Json, q: Path)
    requires path in nodes && nodes[path] == v && !v.Array? && !v.Object?
    ensures Accounts(nodes, path, v, {path}, q)
  {
    if path <= q && q != path {
      assert q[|path|..] != [];
    }
  }

  lemma {:induction false} BuildAllAccounts(nodes: Nodes, children: Children, height: nat, size: nat, list: seq<Path>,
      q: Path)
    requires Linked(nodes, children) && Within(nodes, size, height) && AllLeaves(nodes)
    requires forall p :: p in list ==> |p| == size
    requires BuildAll(nodes, children, height, size, list).Some?
    ensures var (values, used) := BuildAll(nodes, children, height, size, list).value;
            AccountsAll(nodes, list, values, used, q)
    decreases height, 1, |list|
  {
    if list == [] {
      NothingAccounted(nodes, q);
    } else {
      var n := |list| - 1;
      BuildAllSnoc(nodes, children, height, size, list);
      hide Build, BuildAll, Accounts, AccountsAll, Linked, Within, AllLeaves;
      BuildAllAccounts(nodes, children, height, size, list[..n], q);
      BuildAccounts(nodes, children, height, list[n], q);
      JoinAccounts(nodes, list, BuildAll(nodes, children, height, size, list[..n]).value,
                   Build(nodes, children, height, list[n]).value, BuildAll(nodes, children, height, size, list).value,
                       q);
    }
  }

  lemma JoinAccounts(nodes: Nodes, list: seq<Path>, front: (seq<Json>, set<Path>), last: (Json, set<Path>),
                     whole: (seq<Json>, set<Path>), q: Path)
    requires list != [] && |front.0| == |list| - 1 && whole == (front.0 + [last.0], front.1 + last.1)
    requires AccountsAll(nodes, list[..|list| - 1], front.0, front.1, q)
    requires Accounts(nodes, list[|list| - 1], last.0, last.1, q)
    ensures AccountsAll(nodes, list, whole.0, whole.1, q)
  {
    hide *;
    var n := |list| - 1;
    AccountsSnoc(nodes, list[..n], front.0, front.1, list[n], last.0, last.1, q);
    assert list[..n] + [list[n]] == list;
  }

  lemma NothingAccounted(nodes: Nodes, q: Path)
    ensures AccountsAll(nodes, [], [], {}, q)
  {
  }

  lemma BuildAllSnoc(nodes: Nodes, children: Children, height: nat, size: nat, list: seq<Path>)
    requires Linked(nodes, children) && Within(nodes, size, height)
    requires forall p :: p in list ==> |p| == size
    requires list != [] && BuildAll(nodes, children, height, size, list).Some?
    ensures var front, last := list[..|list| - 1], list[|list| - 1];
            && last in list && (forall p :: p in front ==> p in list)
            && BuildAll(nodes, children, height, size, front).Some?
            && Build(nodes, children, height, last).Some?
            && var (values, used) := BuildAll(nodes, children, height, size, front).value;
            var (v, more) := Build(nodes, children, height, last).value;
            BuildAll(nodes, children, height, size, list) == Some((values + [v], used + more))
  {
    hide Build, Linked, Within;
  }

  /** A listed child of path is path and one more key. */
  lemma ChildIs(children: Children, nodes: Nodes, path: Path, p: Path)
    requires Linked(nodes, children) && p in Kids(children, path)
    ensures p != [] && p == path + [Last(p)]
  {
    var i :| 0 <= i < |Kids(children, path)| && Kids(children, path)[i] == p;
  }

  lemma StepInto(path: Path, key: string, q: Path)
    ensures path + [key] <= q <==> path < q && q[|path|] == key
    ensures path < q ==> q[|path|..] == [q[|path|]] + q[|path| + 1..]
  {
    PrefixStep(q, path, key);
  }

  /** Looking q up in v is looking it up in the listed child it passes through. */
  ghost predicate ThroughChild(path: Path, v: Json, list: seq<Path>, values: seq<Json>, q: Path)
    requires |list| == |values|
  {
    && (path < q && At(v, q[|path|..]).Some? ==> exists i :: UsedBy(list, values, q, i))
    && (forall i :: UsedBy(list, values, q, i) ==> path < q && At(v, q[|path|..]) == At(values[i], q[|list[i]|..]))
  }

  lemma RootAccounts(nodes: Nodes, path: Path, v: Json, list: seq<Path>, values: seq<Json>, used: set<Path>, q: Path)
    requires |list| == |values| && path in nodes && nodes[path] == Head(v)
    requires ThroughChild(path, v, list, values, q) && AccountsAll(nodes, list, values, used, q)
    ensures Accounts(nodes, path, v, {path} + used, q)
  {
    if q == path {
      assert q[|path|..] == [];
      assert At(v, []) == Some(v);
    }
    hide At;
  }

  lemma ArrayAccounts(nodes: Nodes, children: Children, path: Path, list: seq<Path>, values: seq<Json>,
      used: set<Path>, q: Path)
    requires Linked(nodes, children) && forall p :: p in list ==> p in Kids(children, path)
    requires |list| == |values| && Indexed(list)
    requires path in nodes && nodes[path] == Array([])
    requires AccountsAll(nodes, list, values, used, q)
    ensures Accounts(nodes, path, Array(values), {path} + used, q)
  {
    hide Accounts, AccountsAll, At;
    forall i: nat | i < |list|
      ensures list[i] == path + [Dec(i)]
    {
      assert list[i] in list;
      ChildIs(children, nodes, path, list[i]);
    }
    hide Linked;
    ArrayThrough(path, list, values, q);
    RootAccounts(nodes, path, Array(values), list, values, used, q);
  }

  lemma ArrayThrough(path: Path, list: seq<Path>, values: seq<Json>, q: Path)
    requires |list| == |values| && forall i: nat :: i < |list| ==> list[i] == path + [Dec(i)]
    ensures ThroughChild(path, Array(values), list, values, q)
  {
    hide At, Dec;
    forall i | UsedBy(list, values, q, i)
      ensures path < q && At(Array(values), q[|path|..]) == At(values[i], q[|list[i]|..])
    {
      StepInto(path, Dec(i), q);
      AtIndex(values, i, q[|path| + 1..]);
    }
    if path < q && At(Array(values), q[|path|..]).Some? {
      StepInto(path, q[|path|], q);
      var i := IndexOfStep(values, q[|path|..]);
      AtIndex(values, i, q[|path| + 1..]);
      assert UsedBy(list, values, q, i);
    }
  }

  lemma IndexOfStep(items: seq<Json>, p: Path) returns (i: nat)
    requires p != [] && At(Array(items), p).Some?
    ensures i < |items| && Dec(i) == p[0]
  {
    i :| i < |items| && Dec(i) == p[0];
  }

  lemma ObjectAccounts(nodes: Nodes, children: Children, path: Path, list: seq<Path>, values: seq<Json>,
      used: set<Path>, q: Path)
    requires Linked(nodes, children) && list == Kids(children, path)
    requires |list| == |values|
    requires path in nodes && nodes[path] == Object(map[])
    requires AccountsAll(nodes, list, values, used, q)
    ensures forall i :: 0 <= i < |list| ==> list[i] != []
    ensures Accounts(nodes, path, Object(ToObject(list, values)), {path} + used, q)
  {
    hide Accounts, AccountsAll, At, ToObject;
    KidsAre(nodes, children, path);
    hide Linked;
    ObjectThrough(path, list, values, q);
    RootAccounts(nodes, path, Object(ToObject(list, values)), list, values, used, q);
  }

  lemma KidsAre(nodes: Nodes, children: Children, path: Path)
    requires Linked(nodes, children)
    ensures forall i :: 0 <= i < |Kids(children, path)| ==>
            Kids(children, path)[i] != [] && Kids(children, path)[i] == path + [Last(Kids(children, path)[i])]
    ensures forall i, j :: 0 <= i < j < |Kids(children, path)| ==>
            Last(Kids(children, path)[i]) != Last(Kids(children, path)[j])
  {
    var kids := Kids(children, path);
    forall i | 0 <= i < |kids|
      ensures kids[i] != [] && kids[i] == path + [Last(kids[i])]
    {
      ChildIs(children, nodes, path, kids[i]);
    }
  }

  lemma {:induction false} ToObjectAt(list: seq<Path>, values: seq<Json>, key: string)
    requires |list| == |values| && forall i :: 0 <= i < |list| ==> list[i] != []
    requires forall i, j :: 0 <= i < j < |list| ==> Last(list[i]) != Last(list[j])
    ensures var m := ToObject(list, values);
            && (key in m <==> exists i :: 0 <= i < |list| && Last(list[i]) == key)
            && (forall i :: 0 <= i < |list| && Last(list[i]) == key ==> key in m && m[key] == values[i])
  {
    if list != [] {
      var n := |list| - 1;
      ToObjectAt(list[..n], values[..n], key);
      var m := ToObject(list[..n], values[..n]);
      hide ToObject;
      if Last(list[n]) != key && key in m {
        var i :| 0 <= i < n && Last(list[..n][i]) == key;
        assert Last(list[i]) == key;
      }
      ToObjectLast(list, values);
      forall i | 0 <= i < |list| && Last(list[i]) == key
        ensures key in ToObject(list, values) && ToObject(list, values)[key] == values[i]
      {
        if i < n {
          assert Last(list[..n][i]) == key;
        }
      }
    }
  }

  lemma ToObjectLast(list: seq<Path>, values: seq<Json>)
    requires |list| == |values| && list != [] && forall i :: 0 <= i < |list| ==> list[i] != []
    ensures ToObject(list, values) ==
            ToObject(list[..|list| - 1], values[..|list| - 1])[Last(list[|list| - 1]) := values[|list| - 1]]
  {
  }

  lemma ObjectThrough(path: Path, list: seq<Path>, values: seq<Json>, q: Path)
    requires |list| == |values|
    requires forall i :: 0 <= i < |list| ==> list[i] != [] && list[i] == path + [Last(list[i])]
    requires forall i, j :: 0 <= i < j < |list| ==> Last(list[i]) != Last(list[j])
    ensures ThroughChild(path, Object(ToObject(list, values)), list, values, q)
  {
    hide At, ToObject, Last;
    var m := ToObject(list, values);
    forall i | UsedBy(list, values, q, i)
      ensures path < q && At(Object(m), q[|path|..]) == At(values[i], q[|list[i]|..])
    {
      StepInto(path, Last(list[i]), q);
      ToObjectAt(list, values, q[|path|]);
      AtMember(m, q[|path|], q[|path| + 1..]);
    }
    if path < q && At(Object(m), q[|path|..]).Some? {
      StepInto(path, q[|path|], q);
      ToObjectAt(list, values, q[|path|]);
      AtMember(m, q[|path|], q[|path| + 1..]);
      var i :| 0 <= i < |list| && Last(list[i]) == q[|path|];
      assert UsedBy(list, values, q, i);
    }
  }

  // ----- Building from the nodes of a value -----

  /** The nodes at and below path are those of v. */
  ghost predicate Holds(nodes: Nodes, path: Path, v: Json) {
    forall p: Path :: HoldsAt(nodes, path, v, p)
  }

  ghost predicate HoldsAt(nodes: Nodes, path: Path, v: Json, p: Path) {
    && (path + p in nodes <==> At(v, p).Some?)
    && (path + p in nodes ==> nodes[path + p] == Head(At(v, p).value))
  }

  lemma HoldsRoot(nodes: Nodes, path: Path, v: Json)
    requires Holds(nodes, path, v)
    ensures path in nodes && nodes[path] == Head(v)
  {
    assert HoldsAt(nodes, path, v, []);
    assert path + [] == path;
  }

  lemma HoldsChild(nodes: Nodes, path: Path, v: Json, key: string, child: Json)
    requires Holds(nodes, path, v)
    requires forall p: Path :: At(v, [key] + p) == At(child, p)
    ensures Holds(nodes, path + [key], child)
  {
    hide At;
    forall p: Path
      ensures HoldsAt(nodes, path + [key], child, p)
    {
      assert HoldsAt(nodes, path, v, [key] + p);
      assert path + ([key] + p) == path + [key] + p;
    }
  }

  lemma HoldsItem(nodes: Nodes, path: Path, items: seq<Json>, i: nat)
    requires Holds(nodes, path, Array(items)) && i < |items|
    ensures Holds(nodes, path + [Dec(i)], items[i])
  {
    hide Holds, Dec;
    forall p: Path
      ensures At(Array(items), [Dec(i)] + p) == At(items[i], p)
    {
      AtIndex(items, i, p);
    }
    HoldsChild(nodes, path, Array(items), Dec(i), items[i]);
  }

  lemma HoldsMember(nodes: Nodes, path: Path, members: map<string, Json>, key: string)
    requires Holds(nodes, path, Object(members)) && key in members
    ensures Holds(nodes, path + [key], members[key])
  {
    hide Holds;
    forall p: Path
      ensures At(Object(members), [key] + p) == At(members[key], p)
    {
      AtMember(members, key, p);
    }
    HoldsChild(nodes, path, Object(members), key, members[key]);
  }

  /** Children of path in the node table are the one-step parts of v. */
  lemma KidIffPart(nodes: Nodes, children: Children, path: Path, v: Json, p: Path)
    requires Linked(nodes, children) && Holds(nodes, path, v)
    ensures p in Kids(children, path) <==> p != [] && p == path + [Last(p)] && At(v, [Last(p)]).Some?
  {
    hide At, HoldsAt;
    if p in Kids(children, path) {
      ChildIs(children, nodes, path, p);
      var i :| 0 <= i < |Kids(children, path)| && Kids(children, path)[i] == p;
      assert p in nodes;
    }
    if p != [] && p == path + [Last(p)] {
      assert HoldsAt(nodes, path, v, [Last(p)]);
      HoldsAtMeans(nodes, path, v, [Last(p)]);
      assert Parent(p) == path;
    }
  }

  lemma HoldsAtMeans(nodes: Nodes, path: Path, v: Json, p: Path)
    requires HoldsAt(nodes, path, v, p)
    ensures path + p in nodes <==> At(v, p).Some?
  {
  }

  lemma ArrayKids(nodes: Nodes, children: Children, path: Path, items: seq<Json>)
    requires Linked(nodes, children) && Holds(nodes, path, Array(items))
    ensures SortByIndex(Kids(children, path)) == IndexList(path, |items|)
    ensures Indexed(SortByIndex(Kids(children, path)))
  {
    var kids := Kids(children, path);
    ArrayKidsListed(nodes, children, path, items);
    hide Holds, Dec, SortByIndex;
    IndexListDistinct(path, |items|);
    SameEntries(kids, IndexList(path, |items|));
    SortKeeps(kids);
    SortAscending(kids);
    AscendingIsIndexed(path, SortByIndex(kids), |items|);
  }

  lemma ArrayKidsListed(nodes: Nodes, children: Children, path: Path, items: seq<Json>)
    requires Linked(nodes, children) && Holds(nodes, path, Array(items))
    ensures forall p :: p in Kids(children, path) <==> p in IndexList(path, |items|)
  {
    hide *;
    forall p
      ensures p in Kids(children, path) <==> p in IndexList(path, |items|)
    {
      KidIffPart(nodes, children, path, Array(items), p);
      IndexListHas(path, items, p);
    }
  }

  lemma IndexListHas(path: Path, items: seq<Json>, p: Path)
    ensures p in IndexList(path, |items|) <==> p != [] && p == path + [Last(p)] && At(Array(items), [Last(p)]).Some?
  {
    if p in IndexList(path, |items|) {
      var i: nat :| i < |items| && p == path + [Dec(i)];
      AtIndex(items, i, []);
      assert [Dec(i)] + [] == [Dec(i)];
    }
    if p != [] && p == path + [Last(p)] && At(Array(items), [Last(p)]).Some? {
      var i := IndexOfStep(items, [Last(p)]);
      assert IndexList(path, |items|)[i] == p;
    }
  }

  lemma IndexListDistinct(path: Path, n: nat)
    ensures forall i, j :: 0 <= i < j < n ==> IndexList(path, n)[i] != IndexList(path, n)[j]
  {
    forall i: nat, j: nat | i < j < n
      ensures IndexList(path, n)[i] != IndexList(path, n)[j]
    {
      IndexKeyOf(path, i);
      IndexKeyOf(path, j);
    }
  }

  /** Nodes of v are enough to rebuild v. */
  lemma {:induction false} BuildSucceeds(nodes: Nodes, children: Children, height: nat, path: Path, v: Json)
    requires Linked(nodes, children) && Within(nodes, |path|, height)
    requires Holds(nodes, path, v)
    ensures Build(nodes, children, height, path).Some?
    ensures Build(nodes, children, height, path).value.0 == v
    decreases height, 1, 0
  {
    HoldsRoot(nodes, path, v);
    hide Linked, Within, Holds, Build;
    match v {
      case Array(items) =>
        BuildArraySucceeds(nodes, children, height, path, items);
      case Object(members) =>
        BuildObjectSucceeds(nodes, children, height, path, members);
      case _ =>
        NoKids(nodes, children, path, v);
        ScalarBuilt(nodes, children, height, path);
    }
  }

  lemma {:induction false} BuildArraySucceeds(nodes: Nodes, children: Children, height: nat, path: Path,
      items: seq<Json>)
    requires Linked(nodes, children) && Within(nodes, |path|, height) && path in nodes && nodes[path].Array?
    requires Holds(nodes, path, Array(items))
    ensures Build(nodes, children, height, path).Some?
    ensures Build(nodes, children, height, path).value.0 == Array(items)
    decreases height, 0, 0
  {
    BelowPath(nodes, children, height, path);
    hide Linked, Within, Holds, Kids, SortByIndex, Build, BuildAll, Indexed, IndexList;
    ArrayKids(nodes, children, path, items);
    ItemsHold(nodes, path, items);
    BuildAllSucceeds(nodes, children, height - 1, |path| + 1, SortByIndex(Kids(children, path)), items);
    ArrayBuilt(nodes, children, height, path, items);
  }

  lemma {:induction false} BuildObjectSucceeds(nodes: Nodes, children: Children, height: nat, path: Path,
      members: map<string, Json>)
    requires Linked(nodes, children) && Within(nodes, |path|, height) && path in nodes && nodes[path].Object?
    requires Holds(nodes, path, Object(members))
    ensures Build(nodes, children, height, path).Some?
    ensures Build(nodes, children, height, path).value.0 == Object(members)
    decreases height, 0, 0
  {
    BelowPath(nodes, children, height, path);
    hide Linked, Within, Holds, Kids, SortByIndex, Build, BuildAll, ToObject;
    var values := MemberValues(nodes, children, path, members);
    BuildAllSucceeds(nodes, children, height - 1, |path| + 1, Kids(children, path), values);
    ObjectRebuilt(nodes, children, path, members, values);
    ObjectBuilt(nodes, children, height, path, values);
  }

  lemma ItemsHold(nodes: Nodes, path: Path, items: seq<Json>)
    requires Holds(nodes, path, Array(items))
    ensures forall i :: 0 <= i < |items| ==> Holds(nodes, IndexList(path, |items|)[i], items[i])
  {
    forall i: nat | i < |items|
      ensures Holds(nodes, IndexList(path, |items|)[i], items[i])
    {
      HoldsItem(nodes, path, items, i);
    }
  }

  lemma ArrayBuilt(nodes: Nodes, children: Children, height: nat, path: Path, items: seq<Json>)
    requires Linked(nodes, children) && Within(nodes, |path|, height) && path in nodes && nodes[path].Array?
    requires height > 0 && Within(nodes, |path| + 1, height - 1)
    requires var sorted := SortByIndex(Kids(children, path));
             && Indexed(sorted) && (forall p :: p in sorted ==> |p| == |path| + 1)
             && var r := BuildAll(nodes, children, height - 1, |path| + 1, sorted);
             r.Some? && r.value.0 == items
    ensures Build(nodes, children, height, path).Some?
    ensures Build(nodes, children, height, path).value.0 == Array(items)
  {
    hide Linked, Within, Kids, SortByIndex, BuildAll, Indexed;
  }

  lemma ObjectBuilt(nodes: Nodes, children: Children, height: nat, path: Path, values: seq<Json>)
    requires Linked(nodes, children) && Within(nodes, |path|, height) && path in nodes && nodes[path].Object?
    requires height > 0 && Within(nodes, |path| + 1, height - 1)
    requires forall i :: 0 <= i < |Kids(children, path)| ==> Kids(children, path)[i] != []
    requires |values| == |Kids(children, path)|
    requires var kids := Kids(children, path);
             && (forall p :: p in kids ==> |p| == |path| + 1)
             && var r := BuildAll(nodes, children, height - 1, |path| + 1, kids);
             r.Some? && r.value.0 == values
    ensures Build(nodes, children, height, path).Some?
    ensures Build(nodes, children, height, path).value.0 == Object(ToObject(Kids(children, path), values))
  {
    hide Linked, Within, Kids, SortByIndex, BuildAll, ToObject;
  }

  lemma ScalarBuilt(nodes: Nodes, children: Children, height: nat, path: Path)
    requires Linked(nodes, children) && Within(nodes, |path|, height) && path in nodes
    requires !nodes[path].Array? && !nodes[path].Object? && Kids(children, path) == []
    ensures Build(nodes, children, height, path).Some?
    ensures Build(nodes, children, height, path).value.0 == nodes[path]
  {
    hide Linked, Within, Kids, SortByIndex, BuildAll, ToObject;
  }

  lemma NoKids(nodes: Nodes, children: Children, path: Path, v: Json)
    requires Linked(nodes, children) && Holds(nodes, path, v) && !v.Array? && !v.Object?
    ensures Kids(children, path) == []
  {
    if Kids(children, path) != [] {
      KidIffPart(nodes, children, path, v, Kids(children, path)[0]);
    }
  }

  ghost function MemberValues(nodes: Nodes, children: Children, path: Path,
      members: map<string, Json>): (values: seq<Json>)
    requires Linked(nodes, children) && Holds(nodes, path, Object(members))
    ensures |values| == |Kids(children, path)|
    ensures forall i :: 0 <= i < |values| ==> Holds(nodes, Kids(children, path)[i], values[i])
    ensures forall i :: 0 <= i < |values| ==> Kids(children, path)[i] != [] && Last(Kids(children, path)[i]) in members
                                              && values[i] == members[Last(Kids(children, path)[i])]
  {
    var kids := Kids(children, path);
    KidMembers(nodes, children, path, members);
    seq(|kids|, i requires 0 <= i < |kids| => members[Last(kids[i])])
  }

  lemma KidMembers(nodes: Nodes, children: Children, path: Path, members: map<string, Json>)
    requires Linked(nodes, children) && Holds(nodes, path, Object(members))
    ensures var kids := Kids(children, path);
            forall i :: 0 <= i < |kids| ==> && kids[i] != [] && Last(kids[i]) in members
                                            && Holds(nodes, kids[i], members[Last(kids[i])])
  {
    var kids := Kids(children, path);
    forall i | 0 <= i < |kids|
      ensures kids[i] != [] && Last(kids[i]) in members && Holds(nodes, kids[i], members[Last(kids[i])])
    {
      KidIffPart(nodes, children, path, Object(members), kids[i]);
      AtMember(members, Last(kids[i]), []);
      assert [Last(kids[i])] + [] == [Last(kids[i])];
      HoldsMember(nodes, path, members, Last(kids[i]));
    }
  }

  lemma ObjectRebuilt(nodes: Nodes, children: Children, path: Path, members: map<string, Json>, values: seq<Json>)
    requires Linked(nodes, children) && Holds(nodes, path, Object(members))
    requires values == MemberValues(nodes, children, path, members)
    ensures forall i :: 0 <= i < |Kids(children, path)| ==> Kids(children, path)[i] != []
    ensures ToObject(Kids(children, path), values) == members
  {
    var kids := Kids(children, path);
    KidsAre(nodes, children, path);
    var m := ToObject(kids, values);
    forall key
      ensures key in m <==> key in members
      ensures key in m ==> m[key] == members[key]
    {
      ToObjectAt(kids, values, key);
      KeyListed(nodes, children, path, members, key);
    }
  }

  lemma KeyListed(nodes: Nodes, children: Children, path: Path, members: map<string, Json>, key: string)
    requires Linked(nodes, children) && Holds(nodes, path, Object(members))
    ensures var kids := Kids(children, path);
            key in members ==> exists i :: 0 <= i < |kids| && kids[i] != [] && Last(kids[i]) == key
  {
    if key in members {
      KidIffPart(nodes, children, path, Object(members), path + [key]);
      AtMember(members, key, []);
      assert [key] + [] == [key];
      assert Last(path + [key]) == key;
    }
  }

  lemma {:induction false} BuildAllSucceeds(nodes: Nodes, children: Children, height: nat, size: nat, list: seq<Path>,
      values: seq<Json>)
    requires Linked(nodes, children) && Within(nodes, size, height)
    requires forall p :: p in list ==> |p| == size
    requires |list| == |values|
    requires forall i :: 0 <= i < |list| ==> Holds(nodes, list[i], values[i])
    ensures BuildAll(nodes, children, height, size, list).Some?
    ensures BuildAll(nodes, children, height, size, list).value.0 == values
    decreases height, 2, |list|
  {
    hide Build, Linked, Within, Holds;
    if list != [] {
      var n := |list| - 1;
      BuildAllSucceeds(nodes, children, height, size, list[..n], values[..n]);
      BuildSucceeds(nodes, children, height, list[n], values[n]);
      assert values == values[..n] + [values[n]];
    }
  }

  // ----- `unflatten` as a whole -----

  lemma {:induction false} HeightExists(paths: set<Path>) returns (height: nat)
    ensures forall q :: q in paths ==> |q| < height
    decreases paths
  {
    if paths == {} {
      height := 0;
    } else {
      var p :| p in paths;
      var h := HeightExists(paths - {p});
      height := if h > |p| then h else |p| + 1;
      forall q | q in paths
        ensures |q| < height
      {
        assert q == p || q in paths - {p};
      }
    }
  }

  ghost function HeightOf(nodes: Nodes): (height: nat)
    ensures Within(nodes, 0, height)
  {
    HasHeight(nodes);
    var h: nat :| Within(nodes, 0, h);
    h
  }

  lemma HasHeight(nodes: Nodes)
    ensures exists h: nat :: Within(nodes, 0, h)
  {
    var h := HeightExists(nodes.Keys);
    assert Within(nodes, 0, h);
  }

  function Rebuild(s: Scanned): Option<Json>
    requires Linked(s.nodes, s.children)
  {
    match Build(s.nodes, s.children, HeightOf(s.nodes), [])
    case None => None
    case Some((v, used)) => if |used| == |s.nodes| then Some(v) else None
  }

  function Unflatten(c: Codec, rows: seq<Row>): Option<Json> {
    match Scan(c, rows)
    case None => None
    case Some(s) =>
      ScanLinked(c, rows);
      Rebuild(s)
  }

  /** The loop of `unflatten` over rows, then the recursive build. */
  method UnflattenRows(c: Codec, rows: seq<Row>) returns (value: Option<Json>)
    ensures value == Unflatten(c, rows)
  {
    var scanned := Scanned(map[], map[]);
    for i := 0 to |rows|
      invariant Scan(c, rows[..i]) == Some(scanned)
    {
      assert rows[..i + 1][..i] == rows[..i];
      match AddRow(c, scanned, rows[i]) {
        case None =>
          ScanStops(c, rows, i + 1);
          return None;
        case Some(next) =>
          scanned := next;
      }
    }
    assert rows[..|rows|] == rows;
    ScanLinked(c, rows);
    value := Rebuild(scanned);
  }

  lemma {:induction false} ScanStops(c: Codec, rows: seq<Row>, k: nat)
    requires k <= |rows| && Scan(c, rows[..k]).None?
    ensures Scan(c, rows).None?
    decreases |rows| - k
  {
    if k == |rows| {
      assert rows[..k] == rows;
    } else {
      assert rows[..k + 1][..k] == rows[..k];
      ScanStops(c, rows, k + 1);
    }
  }

  // ----- Accepted rows are exactly the rearrangements of `flatten` -----

  ghost predicate Readable(c: Codec, rows: seq<Row>) {
    forall i :: 0 <= i < |rows| ==> RowValue(c, rows[i]).Some?
  }

  /** The row with its token in the spelling `dump` gives. */
  ghost function Respell(c: Codec, row: Row): Row {
    match RowValue(c, row)
    case None => row
    case Some(v) => row.(token := c.dump(v))
  }

  ghost function RespellAll(c: Codec, rows: seq<Row>): (s: seq<Row>)
    ensures |s| == |rows|
    ensures forall i :: 0 <= i < |rows| ==> s[i] == Respell(c, rows[i])
  {
    seq(|rows|, i requires 0 <= i < |rows| => Respell(c, rows[i]))
  }

  ghost predicate InNodes(c: Codec, nodes: Nodes, row: Row) {
    var path := Parts(row.pointer);
    && path.Some? && path.value in nodes
    && row.kind == KindOf(nodes[path.value]) && row.token == c.dump(nodes[path.value])
  }

  lemma RespellSnoc(c: Codec, rows: seq<Row>)
    requires rows != []
    ensures RespellAll(c, rows) == RespellAll(c, rows[..|rows| - 1]) + [Respell(c, rows[|rows| - 1])]
  {
    hide Respell;
  }

  lemma AddRowNodes(c: Codec, s: Scanned, row: Row, r: Row)
    requires AddRow(c, s, row).Some?
    ensures RowValue(c, row).Some?
    ensures var t := AddRow(c, s, row).value;
            && (InNodes(c, t.nodes, r) <==> InNodes(c, s.nodes, r) || r == Respell(c, row))
            && !(InNodes(c, s.nodes, r) && r == Respell(c, row))
  {
    var path := Parts(row.pointer).value;
    PointerOfParts(row.pointer);
    if Parts(r.pointer) == Some(path) {
      PointerOfParts(r.pointer);
    }
    hide Parts, Pointer, RowValue;
    RowValueKind(c, row);
  }

  lemma RowValueKind(c: Codec, row: Row)
    ensures RowValue(c, row).Some? ==> KindOf(RowValue(c, row).value) == row.kind && Leaf(RowValue(c, row).value)
  {
  }

  /** Multiplicity of a row among the accepted ones: one when the node table has it. */
  lemma {:induction false} ScanCount(c: Codec, rows: seq<Row>, r: Row)
    requires Scan(c, rows).Some?
    ensures Readable(c, rows)
    ensures multiset(RespellAll(c, rows))[r] == Once(InNodes(c, Scan(c, rows).value.nodes, r))
  {
    hide AddRow, InNodes, Respell, RowValue;
    if rows == [] {
      NothingInNodes(c, r);
    } else {
      var front, last := rows[..|rows| - 1], rows[|rows| - 1];
      ScanCount(c, front, r);
      AddRowNodes(c, Scan(c, front).value, last, r);
      RespellSnoc(c, rows);
      ReadableSnoc(c, rows);
    }
  }

  lemma ReadableSnoc(c: Codec, rows: seq<Row>)
    requires rows != [] && Readable(c, rows[..|rows| - 1]) && RowValue(c, rows[|rows| - 1]).Some?
    ensures Readable(c, rows)
  {
  }

  lemma NothingInNodes(c: Codec, r: Row)
    ensures !InNodes(c, map[], r)
  {
  }

  lemma {:induction false} ScanLeaves(c: Codec, rows: seq<Row>)
    requires Scan(c, rows).Some?
    ensures AllLeaves(Scan(c, rows).value.nodes)
  {
    hide Parts;
    if rows != [] {
      ScanLeaves(c, rows[..|rows| - 1]);
    }
  }

  /** A node table is that of v, with nothing besides. */
  lemma HoldsDescribes(c: Codec, nodes: Nodes, v: Json, r: Row)
    requires Holds(nodes, [], v)
    ensures InNodes(c, nodes, r) <==> Describes(c, v, [], r)
  {
    hide Parts, At;
    if Parts(r.pointer).Some? {
      var q := Parts(r.pointer).value;
      assert HoldsAt(nodes, [], v, q);
      assert [] + q == q && q[0..] == q;
    }
  }

  /** A complete build: the rows used are all of them, so the table is that of the value. */
  lemma RebuildHolds(s: Scanned, v: Json)
    requires Linked(s.nodes, s.children) && AllLeaves(s.nodes)
    requires Rebuild(s) == Some(v)
    ensures Holds(s.nodes, [], v)
  {
    var (w, used) := Build(s.nodes, s.children, HeightOf(s.nodes), []).value;
    hide Build, Linked, AllLeaves;
    forall q: Path
      ensures Accounts(s.nodes, [], v, used, q)
    {
      BuildAccounts(s.nodes, s.children, HeightOf(s.nodes), [], q);
    }
    UsedIsAll(s.nodes, v, used);
  }

  lemma UsedIsAll(nodes: Nodes, v: Json, used: set<Path>)
    requires forall q: Path :: Accounts(nodes, [], v, used, q)
    requires |used| == |nodes|
    ensures used == nodes.Keys && Holds(nodes, [], v)
  {
    hide At;
    forall q | q in used
      ensures q in nodes.Keys
    {
      assert Accounts(nodes, [], v, used, q);
    }
    SubsetOfSize(used, nodes.Keys);
    forall p: Path
      ensures HoldsAt(nodes, [], v, p)
    {
      assert Accounts(nodes, [], v, used, p);
      assert [] + p == p && p[0..] == p;
    }
  }

  lemma SubsetOfSize(a: set<Path>, b: set<Path>)
    requires a <= b && |a| == |b|
    ensures a == b
  {
    assert b == a + (b - a);
    assert |b - a| == 0;
  }

  lemma PointerOfRoot()
    ensures Pointer([]) == ""
  {
  }

  /** Soundness: what `unflatten` accepts is a rearrangement of `flatten` of its result. */
  lemma AcceptedIsFlattened(c: Codec, rows: seq<Row>, v: Json)
    requires Unflatten(c, rows) == Some(v)
    ensures Readable(c, rows) && multiset(RespellAll(c, rows)) == multiset(Flatten(c, v, ""))
  {
    ScanLinked(c, rows);
    ScanLeaves(c, rows);
    var s := Scan(c, rows).value;
    hide *;
    RebuildHolds(s, v);
    ScanCounts(c, rows, v);
  }

  lemma ScanCounts(c: Codec, rows: seq<Row>, v: Json)
    requires Scan(c, rows).Some? && Holds(Scan(c, rows).value.nodes, [], v)
    ensures Readable(c, rows) && multiset(RespellAll(c, rows)) == multiset(Flatten(c, v, ""))
  {
    hide *;
    PointerOfRoot();
    var s := Scan(c, rows).value;
    ScanCount(c, rows, Row("", NullKind, ""));
    forall r
      ensures multiset(RespellAll(c, rows))[r] == multiset(Flatten(c, v, ""))[r]
    {
      ScanCount(c, rows, r);
      FlattenCount(c, v, [], r);
      HoldsDescribes(c, s.nodes, v, r);
    }
  }

  lemma TwiceCounted(rows: seq<Row>, i: nat, j: nat)
    requires i < j < |rows| && rows[i] == rows[j]
    ensures multiset(rows)[rows[i]] >= 2
  {
    assert rows == rows[..j] + [rows[j]] + rows[j + 1..];
    assert rows[i] in rows[..j];
    assert multiset(rows) == multiset(rows[..j]) + multiset{rows[j]} + multiset(rows[j + 1..]);
  }

  lemma DescribedOnce(c: Codec, v: Json, a: Row, b: Row)
    requires Describes(c, v, [], a) && Describes(c, v, [], b) && a.pointer == b.pointer
    ensures a == b
  {
  }

  /** Rows that rearrange `flatten` have distinct, well-formed pointers. */
  lemma RearrangedRows(c: Codec, rows: seq<Row>, v: Json)
    requires Readable(c, rows) && multiset(RespellAll(c, rows)) == multiset(Flatten(c, v, ""))
    ensures forall i :: 0 <= i < |rows| ==> Describes(c, v, [], Respell(c, rows[i]))
    ensures forall i, j :: 0 <= i < j < |rows| ==> rows[i].pointer != rows[j].pointer
  {
    hide Describes, Flatten, Respell, Pointer;
    PointerOfRoot();
    var s := RespellAll(c, rows);
    forall i | 0 <= i < |rows|
      ensures Describes(c, v, [], s[i])
    {
      FlattenCount(c, v, [], s[i]);
      assert s[i] in multiset(s);
    }
    forall i, j | 0 <= i < j < |rows|
      ensures rows[i].pointer != rows[j].pointer
    {
      RespellPointer(c, rows[i]);
      RespellPointer(c, rows[j]);
      if rows[i].pointer == rows[j].pointer {
        DescribedOnce(c, v, s[i], s[j]);
        TwiceCounted(s, i, j);
        FlattenCount(c, v, [], s[i]);
        assert false;
      }
    }
  }

  lemma RespellPointer(c: Codec, row: Row)
    ensures Respell(c, row).pointer == row.pointer
  {
    hide RowValue;
  }

  /** Nodes scanned so far come from the rows scanned so far. */
  lemma {:induction false} ScanSucceeds(c: Codec, rows: seq<Row>)
    requires Readable(c, rows)
    requires forall i :: 0 <= i < |rows| ==> Parts(rows[i].pointer).Some?
    requires forall i, j :: 0 <= i < j < |rows| ==> rows[i].pointer != rows[j].pointer
    ensures Scan(c, rows).Some?
    ensures forall q :: q in Scan(c, rows).value.nodes ==>
            exists i :: 0 <= i < |rows| && Parts(rows[i].pointer) == Some(q)
  {
    hide RowValue, Parts;
    if rows != [] {
      var n := |rows| - 1;
      var front := rows[..n];
      ScanSucceeds(c, front);
      var path := Parts(rows[n].pointer).value;
      var nodes := Scan(c, front).value.nodes;
      if path in nodes {
        var i :| 0 <= i < n && Parts(front[i].pointer) == Some(path);
        PointerOfParts(rows[i].pointer);
        PointerOfParts(rows[n].pointer);
        assert false;
      }
      forall q | q in Scan(c, rows).value.nodes
        ensures exists i :: 0 <= i < |rows| && Parts(rows[i].pointer) == Some(q)
      {
        if q != path {
          var i :| 0 <= i < n && Parts(front[i].pointer) == Some(q);
          assert Parts(rows[i].pointer) == Some(q);
        }
      }
    }
  }

  /** Two leaves with one token differ at most in the sign of zero. */
  lemma FaithfulTokens(c: Codec, a: Json, b: Json)
    requires c.Faithful() && Leaf(a) && Leaf(b) && Storable(a) && Storable(b) && c.dump(a) == c.dump(b)
    ensures Normal(a) == Normal(b)
  {
    LeafNests(a);
    LeafNests(b);
    assert c.load(c.dump(a)) == Some(Normal(a));
    assert c.load(c.dump(b)) == Some(Normal(b));
  }

  lemma {:induction false} ScanStorable(c: Codec, rows: seq<Row>)
    requires c.Faithful() && Scan(c, rows).Some?
    ensures forall p :: p in Scan(c, rows).value.nodes ==> Storable(Scan(c, rows).value.nodes[p])
  {
    if rows != [] {
      ScanStorable(c, rows[..|rows| - 1]);
      LoadedStorable(c, rows[|rows| - 1]);
    }
    hide Parts, RowValue, Storable;
  }

  lemma LoadedStorable(c: Codec, row: Row)
    requires c.Faithful() && RowValue(c, row).Some?
    ensures Storable(RowValue(c, row).value)
  {
  }

  function NormalNodes(nodes: Nodes): Nodes {
    map p | p in nodes :: Normal(nodes[p])
  }

  lemma {:induction false} PartStorable(v: Json, p: Path)
    requires Storable(v) && At(v, p).Some?
    ensures Storable(At(v, p).value) && Storable(Head(At(v, p).value))
    decreases |p|
  {
    if p != [] {
      assert p == [p[0]] + p[1..];
      match v
      case Array(items) =>
        var i: nat :| i < |items| && Dec(i) == p[0];
        AtIndex(items, i, p[1..]);
        PartStorable(items[i], p[1..]);
      case Object(members) =>
        PartStorable(members[p[0]], p[1..]);
      case _ =>
    }
  }

  /** A scanned node stands for the part of the value at its path, up to the sign of zero. */
  lemma NodeIsPart(c: Codec, rows: seq<Row>, v: Json, p: Path)
    requires c.Faithful() && Storable(v) && Scan(c, rows).Some? && p in Scan(c, rows).value.nodes
    requires multiset(RespellAll(c, rows)) == multiset(Flatten(c, v, ""))
    ensures At(v, p).Some? && Normal(Scan(c, rows).value.nodes[p]) == Normal(Head(At(v, p).value))
  {
    var nodes := Scan(c, rows).value.nodes;
    ScanLeaves(c, rows);
    ScanStorable(c, rows);
    PartsOfPointer(p);
    PointerOfRoot();
    hide Scan, Flatten, Pointer, Parts, At, Storable, Normal, RespellAll;
    assert p[0..] == p;
    var r := Row(Pointer(p), KindOf(nodes[p]), c.dump(nodes[p]));
    ScanCount(c, rows, r);
    FlattenCount(c, v, [], r);
    PartStorable(v, p);
    FaithfulTokens(c, nodes[p], Head(At(v, p).value));
  }

  lemma PartHasNode(c: Codec, rows: seq<Row>, v: Json, p: Path)
    requires Scan(c, rows).Some? && At(v, p).Some?
    requires multiset(RespellAll(c, rows)) == multiset(Flatten(c, v, ""))
    ensures p in Scan(c, rows).value.nodes
  {
    PartsOfPointer(p);
    PointerOfRoot();
    hide Scan, Flatten, Pointer, Parts, At, RespellAll;
    assert p[0..] == p;
    var x := At(v, p).value;
    var r := Row(Pointer(p), KindOf(x), c.dump(Head(x)));
    ScanCount(c, rows, r);
    FlattenCount(c, v, [], r);
  }

  /** The node table of a rearrangement is that of the value, up to the sign of zero. */
  lemma RearrangedHolds(c: Codec, rows: seq<Row>, v: Json, p: Path)
    requires c.Faithful() && Storable(v) && Scan(c, rows).Some?
    requires multiset(RespellAll(c, rows)) == multiset(Flatten(c, v, ""))
    ensures HoldsAt(NormalNodes(Scan(c, rows).value.nodes), [], Normal(v), p)
  {
    if p in Scan(c, rows).value.nodes {
      NodeIsPart(c, rows, v, p);
    }
    if At(v, p).Some? {
      PartHasNode(c, rows, v, p);
    }
    hide *;
    NormalHolds(Scan(c, rows).value.nodes, v, p);
  }

  lemma NormalHolds(nodes: Nodes, v: Json, p: Path)
    requires p in nodes <==> At(v, p).Some?
    requires p in nodes ==> Normal(nodes[p]) == Normal(Head(At(v, p).value))
    ensures HoldsAt(NormalNodes(nodes), [], Normal(v), p)
  {
    AtNormal(v, p);
    assert [] + p == p;
    if p in nodes {
      HeadOfNormal(At(v, p).value);
    }
    hide At, Normal, Head;
  }

  /** Completeness: every rearrangement is accepted, and gives the value back up to the sign of zero. */
  lemma FlattenedIsAccepted(c: Codec, rows: seq<Row>, v: Json)
    requires c.Faithful() && Storable(v)
    requires Readable(c, rows) && multiset(RespellAll(c, rows)) == multiset(Flatten(c, v, ""))
    ensures Unflatten(c, rows).Some? && Normal(Unflatten(c, rows).value) == Normal(v)
  {
    RearrangedScan(c, rows, v);
    ScanLinked(c, rows);
    var s := Scan(c, rows).value;
    hide *;
    RebuildNormal(s);
  }

  /** The scan of a rearrangement succeeds, and its normal nodes build the normal value. */
  lemma RearrangedScan(c: Codec, rows: seq<Row>, v: Json)
    requires c.Faithful() && Storable(v)
    requires Readable(c, rows) && multiset(RespellAll(c, rows)) == multiset(Flatten(c, v, ""))
    ensures Scan(c, rows).Some?
    ensures var s := Scan(c, rows).value;
            && Linked(s.nodes, s.children) && Linked(NormalNodes(s.nodes), s.children)
            && Rebuild(Scanned(NormalNodes(s.nodes), s.children)) == Some(Normal(v))
  {
    RearrangedRows(c, rows, v);
    RearrangedParts(c, rows, v);
    ScanSucceeds(c, rows);
    ScanLinked(c, rows);
    ScanLeaves(c, rows);
    var s := Scan(c, rows).value;
    NormalNodesLinked(s.nodes, s.children);
    hide Scan, Build, Linked, AllLeaves, Flatten, Describes, Readable, HoldsAt, Parts, NormalNodes, Normal, Storable;
    var n := Scanned(NormalNodes(s.nodes), s.children);
    forall p: Path
      ensures HoldsAt(n.nodes, [], Normal(v), p)
    {
      RearrangedHolds(c, rows, v, p);
    }
    HoldsRebuilds(n, Normal(v));
  }

  lemma NormalNodesLinked(nodes: Nodes, children: Children)
    requires Linked(nodes, children) && AllLeaves(nodes)
    ensures Linked(NormalNodes(nodes), children) && AllLeaves(NormalNodes(nodes))
  {
    var n := NormalNodes(nodes);
    assert n.Keys == nodes.Keys;
    forall p | p in n
      ensures Leaf(n[p])
    {
      assert Leaf(nodes[p]);
    }
  }

  lemma RearrangedParts(c: Codec, rows: seq<Row>, v: Json)
    requires forall i :: 0 <= i < |rows| ==> Describes(c, v, [], Respell(c, rows[i]))
    ensures forall i :: 0 <= i < |rows| ==> Parts(rows[i].pointer).Some?
  {
    forall i | 0 <= i < |rows|
      ensures Parts(rows[i].pointer).Some?
    {
      RespellPointer(c, rows[i]);
      assert Describes(c, v, [], Respell(c, rows[i]));
    }
  }

  lemma HoldsRebuilds(s: Scanned, v: Json)
    requires Linked(s.nodes, s.children) && AllLeaves(s.nodes) && Holds(s.nodes, [], v)
    ensures Rebuild(s) == Some(v)
  {
    var height := HeightOf(s.nodes);
    BuildSucceeds(s.nodes, s.children, height, [], v);
    var used := Build(s.nodes, s.children, height, []).value.1;
    hide Build, Linked, AllLeaves;
    forall q
      ensures q in used <==> q in s.nodes.Keys
    {
      BuildAccounts(s.nodes, s.children, height, [], q);
      assert HoldsAt(s.nodes, [], v, q);
      assert [] + q == q && q[0..] == q;
    }
    assert used == s.nodes.Keys;
  }

  // ----- The build commutes with the loss of zero's sign -----

  function NormalBuilt(b: Built): Built {
    match b
    case None => None
    case Some((v, used)) => Some((Normal(v), used))
  }

  predicate SameBuilt(a: Option<(seq<Json>, set<Path>)>, b: Option<(seq<Json>, set<Path>)>) {
    match (a, b)
    case (None, None) => true
    case (Some((x, used)), Some((y, more))) =>
      used == more && |x| == |y| && forall i :: 0 <= i < |x| ==> y[i] == Normal(x[i])
    case _ => false
  }

  /** What both builds may assume below a path. */
  ghost predicate Below(nodes: Nodes, children: Children, height: nat, height': nat, path: Path) {
    && path in nodes && height > 0 && height' > 0
    && Linked(nodes, children) && Within(nodes, |path|, height) && Within(nodes, |path| + 1, height - 1)
    && Linked(NormalNodes(nodes), children) && Within(NormalNodes(nodes), |path|, height')
    && Within(NormalNodes(nodes), |path| + 1, height' - 1)
    && (forall p :: p in Kids(children, path) ==> |p| == |path| + 1)
    && (forall p :: p in SortByIndex(Kids(children, path)) ==> |p| == |path| + 1)
  }

  lemma ArrayBuildNormal(nodes: Nodes, children: Children, height: nat, height': nat, path: Path)
    requires Below(nodes, children, height, height', path) && nodes[path].Array?
    requires var sorted := SortByIndex(Kids(children, path));
             SameBuilt(BuildAll(nodes, children, height - 1, |path| + 1, sorted),
                       BuildAll(NormalNodes(nodes), children, height' - 1, |path| + 1, sorted))
    ensures Build(NormalNodes(nodes), children, height', path) == NormalBuilt(Build(nodes, children, height, path))
  {
    var sorted := SortByIndex(Kids(children, path));
    ArrayNormal(BuildAll(nodes, children, height - 1, |path| + 1, sorted),
                BuildAll(NormalNodes(nodes), children, height' - 1, |path| + 1, sorted));
    assert NormalNodes(nodes)[path].Array?;
    hide Linked, Within, Kids, BuildAll, SortByIndex, Indexed, Normal;
  }

  lemma ObjectBuildNormal(nodes: Nodes, children: Children, height: nat, height': nat, path: Path)
    requires Below(nodes, children, height, height', path) && nodes[path].Object?
    requires var kids := Kids(children, path);
             SameBuilt(BuildAll(nodes, children, height - 1, |path| + 1, kids),
                       BuildAll(NormalNodes(nodes), children, height' - 1, |path| + 1, kids))
    ensures Build(NormalNodes(nodes), children, height', path) == NormalBuilt(Build(nodes, children, height, path))
  {
    var kids := Kids(children, path);
    var built := BuildAll(nodes, children, height - 1, |path| + 1, kids);
    if built.Some? {
      KidsNotRoot(nodes, children, path);
      ObjectNormal(kids, built.value.0, BuildAll(NormalNodes(nodes), children, height' - 1, |path| + 1, kids).value.0);
    }
    assert NormalNodes(nodes)[path].Object?;
    hide Linked, Within, Kids, BuildAll, ToObject, Normal;
  }

  lemma KidsNotRoot(nodes: Nodes, children: Children, path: Path)
    requires Linked(nodes, children)
    ensures forall i :: 0 <= i < |Kids(children, path)| ==> Kids(children, path)[i] != []
  {
  }

  lemma ScalarBuildNormal(nodes: Nodes, children: Children, height: nat, height': nat, path: Path)
    requires Linked(nodes, children) && Within(nodes, |path|, height)
    requires Linked(NormalNodes(nodes), children) && Within(NormalNodes(nodes), |path|, height')
    requires path in nodes ==> !nodes[path].Array? && !nodes[path].Object?
    ensures Build(NormalNodes(nodes), children, height', path) == NormalBuilt(Build(nodes, children, height, path))
  {
    hide Linked, Within, Kids, BuildAll;
  }

  lemma BothBelow(nodes: Nodes, children: Children, height: nat, height': nat, path: Path)
    requires path in nodes && Linked(nodes, children) && Within(nodes, |path|, height)
    requires Linked(NormalNodes(nodes), children) && Within(NormalNodes(nodes), |path|, height')
    ensures Below(nodes, children, height, height', path)
  {
    BelowPath(nodes, children, height, path);
    BelowPath(NormalNodes(nodes), children, height', path);
    hide Linked, Within, Kids, SortByIndex;
  }

  lemma {:induction false} BuildNormal(nodes: Nodes, children: Children, height: nat, height': nat, path: Path)
    requires Linked(nodes, children) && Within(nodes, |path|, height)
    requires Linked(NormalNodes(nodes), children) && Within(NormalNodes(nodes), |path|, height')
    ensures Build(NormalNodes(nodes), children, height', path) == NormalBuilt(Build(nodes, children, height, path))
    decreases height, 0, 0
  {
    hide Linked, Within, Kids, BuildAll, Build, NormalNodes, SortByIndex;
    if path in nodes && (nodes[path].Array? || nodes[path].Object?) {
      BothBelow(nodes, children, height, height', path);
      if nodes[path].Array? {
        BuildAllNormal(nodes, children, height - 1, height' - 1, |path| + 1, SortByIndex(Kids(children, path)));
        ArrayBuildNormal(nodes, children, height, height', path);
      } else {
        BuildAllNormal(nodes, children, height - 1, height' - 1, |path| + 1, Kids(children, path));
        ObjectBuildNormal(nodes, children, height, height', path);
      }
    } else {
      ScalarBuildNormal(nodes, children, height, height', path);
    }
  }

  lemma ArrayNormal(a: Option<(seq<Json>, set<Path>)>, b: Option<(seq<Json>, set<Path>)>)
    requires SameBuilt(a, b)
    ensures a.Some? ==> Normal(Array(a.value.0)) == Array(b.value.0)
  {
    if a.Some? {
      assert Normal(Array(a.value.0)).items == b.value.0;
    }
  }

  lemma {:induction false} ObjectNormal(list: seq<Path>, x: seq<Json>, y: seq<Json>)
    requires |list| == |x| == |y| && (forall i :: 0 <= i < |x| ==> y[i] == Normal(x[i]))
    requires forall i :: 0 <= i < |list| ==> list[i] != []
    ensures Normal(Object(ToObject(list, x))) == Object(ToObject(list, y))
  {
    if list == [] {
      assert Normal(Object(map[])).members == map[];
    } else {
      var n := |list| - 1;
      ObjectNormal(list[..n], x[..n], y[..n]);
      assert Normal(Object(ToObject(list, x))).members == ToObject(list, y);
    }
  }

  lemma {:induction false} BuildAllNormal(nodes: Nodes, children: Children, height: nat, height': nat, size: nat,
      list: seq<Path>)
    requires Linked(nodes, children) && Within(nodes, size, height)
    requires Linked(NormalNodes(nodes), children) && Within(NormalNodes(nodes), size, height')
    requires forall p :: p in list ==> |p| == size
    ensures SameBuilt(BuildAll(nodes, children, height, size, list),
            BuildAll(NormalNodes(nodes), children, height', size, list))
    decreases height, 1, |list|
  {
    hide *;
    if list == [] {
      NothingBuilt(nodes, children, height, size);
      NothingBuilt(NormalNodes(nodes), children, height', size);
    } else {
      var front, last := list[..|list| - 1], list[|list| - 1];
      BuildAllNormal(nodes, children, height, height', size, front);
      BuildNormal(nodes, children, height, height', last);
      OneMoreBuilt(nodes, children, height, size, list);
      OneMoreBuilt(NormalNodes(nodes), children, height', size, list);
      SameBuiltNext(BuildAll(nodes, children, height, size, front),
          BuildAll(NormalNodes(nodes), children, height', size, front),
                    Build(nodes, children, height, last));
    }
  }

  lemma NothingBuilt(nodes: Nodes, children: Children, height: nat, size: nat)
    requires Linked(nodes, children) && Within(nodes, size, height)
    ensures BuildAll(nodes, children, height, size, []) == Some(([], {}))
    ensures SameBuilt(Some(([], {})), Some(([], {})))
  {
    hide Linked, Within;
  }

  /** One more value after a list of built ones. */
  function BuiltNext(all: Option<(seq<Json>, set<Path>)>, one: Built): Option<(seq<Json>, set<Path>)> {
    if all.None? || one.None? then None else Some((all.value.0 + [one.value.0], all.value.1 + one.value.1))
  }

  lemma OneMoreBuilt(nodes: Nodes, children: Children, height: nat, size: nat, list: seq<Path>)
    requires list != [] && Linked(nodes, children) && Within(nodes, size, height)
    requires forall p :: p in list ==> |p| == size
    ensures BuildAll(nodes, children, height, size, list)
            == BuiltNext(BuildAll(nodes, children, height, size, list[..|list| - 1]),
                Build(nodes, children, height, list[|list| - 1]))
  {
    hide Linked, Within, Build;
  }

  lemma SameBuiltNext(a: Option<(seq<Json>, set<Path>)>, b: Option<(seq<Json>, set<Path>)>, one: Built)
    requires SameBuilt(a, b)
    ensures SameBuilt(BuiltNext(a, one), BuiltNext(b, NormalBuilt(one)))
  {
    hide Normal;
  }

  lemma RebuildNormal(s: Scanned)
    requires Linked(s.nodes, s.children) && Linked(NormalNodes(s.nodes), s.children)
    ensures Rebuild(Scanned(NormalNodes(s.nodes), s.children)) == NormalPart(Rebuild(s))
  {
    var n := NormalNodes(s.nodes);
    BuildNormal(s.nodes, s.children, HeightOf(s.nodes), HeightOf(n), []);
    assert n.Keys == s.nodes.Keys;
    assert |n| == |n.Keys| && |s.nodes| == |s.nodes.Keys|;
    hide Build, Linked;
  }

  // ----- Acceptance and round trip -----

  /**
   The two directions together: acceptance is exactly rearrangement, up to the spelling of tokens
   and the sign of zero.
   */
  lemma UnflattenIff(c: Codec, rows: seq<Row>, v: Json)
    requires c.Faithful() && Storable(v)
    ensures NormalPart(Unflatten(c, rows)) == Some(Normal(v)) <==>
            Readable(c, rows) && multiset(RespellAll(c, rows)) == multiset(Flatten(c, v, ""))
  {
    assert c.Unsigned();
    hide *;
    if NormalPart(Unflatten(c, rows)) == Some(Normal(v)) {
      var u := PartBelow(Unflatten(c, rows));
      AcceptedIsFlattened(c, rows, u);
      FlattenNormal(c, u, "");
      FlattenNormal(c, v, "");
    }
    if Readable(c, rows) && multiset(RespellAll(c, rows)) == multiset(Flatten(c, v, "")) {
      FlattenedIsAccepted(c, rows, v);
      PartAbove(Unflatten(c, rows));
    }
  }

  lemma PartBelow(part: Option<Json>) returns (x: Json)
    requires NormalPart(part).Some?
    ensures part == Some(x) && NormalPart(part) == Some(Normal(x))
  {
    x := part.value;
  }

  lemma PartAbove(part: Option<Json>)
    requires part.Some?
    ensures NormalPart(part) == Some(Normal(part.value))
  {
  }

  /** Round trip: any permutation of `flatten(v)` unflattens to v, with negative zero read as zero. */
  lemma UnflattenFlatten(c: Codec, rows: seq<Row>, v: Json)
    requires c.Faithful() && Storable(v)
    requires multiset(rows) == multiset(Flatten(c, v, ""))
    ensures Unflatten(c, rows) == Some(Normal(v))
  {
    PointerOfRoot();
    forall i | 0 <= i < |rows|
      ensures RowValue(c, rows[i]).Some? && Respell(c, rows[i]) == rows[i] && NormalRow(c, rows[i])
    {
      FlattenCount(c, v, [], rows[i]);
      assert rows[i] in multiset(rows);
      DescribedReadable(c, v, rows[i]);
    }
    hide Flatten, Respell, RowValue, Unflatten, NormalRow, Storable;
    assert RespellAll(c, rows) == rows;
    AsFlattened(c, rows, v);
  }

  /** What the row carries is its own normal form. */
  ghost predicate NormalRow(c: Codec, row: Row) {
    RowValue(c, row).Some? ==> Normal(RowValue(c, row).value) == RowValue(c, row).value
  }

  lemma AsFlattened(c: Codec, rows: seq<Row>, v: Json)
    requires c.Faithful() && Storable(v) && forall i :: 0 <= i < |rows| ==> NormalRow(c, rows[i])
    requires Readable(c, rows) && multiset(RespellAll(c, rows)) == multiset(Flatten(c, v, ""))
    ensures Unflatten(c, rows) == Some(Normal(v))
  {
    RearrangedScan(c, rows, v);
    ScanNormal(c, rows);
    assert Scanned(NormalNodes(Scan(c, rows).value.nodes), Scan(c, rows).value.children) == Scan(c, rows).value;
    hide Scan, Rebuild, NormalNodes, Linked, Readable, Flatten, NormalRow, Storable;
  }

  lemma {:induction false} ScanNormal(c: Codec, rows: seq<Row>)
    requires Scan(c, rows).Some? && forall i :: 0 <= i < |rows| ==> NormalRow(c, rows[i])
    ensures NormalNodes(Scan(c, rows).value.nodes) == Scan(c, rows).value.nodes
  {
    if rows != [] {
      var front := rows[..|rows| - 1];
      ScanNormal(c, front);
      AddRowNormal(c, Scan(c, front).value, rows[|rows| - 1]);
    }
    hide AddRow, NormalNodes;
  }

  lemma AddRowNormal(c: Codec, s: Scanned, row: Row)
    requires NormalNodes(s.nodes) == s.nodes && NormalRow(c, row) && AddRow(c, s, row).Some?
    ensures NormalNodes(AddRow(c, s, row).value.nodes) == AddRow(c, s, row).value.nodes
  {
    hide Parts, RowValue;
    var more := AddRow(c, s, row).value.nodes;
    forall p | p in more
      ensures Normal(more[p]) == more[p]
    {
      if p in s.nodes {
        assert NormalNodes(s.nodes)[p] == s.nodes[p];
      }
    }
  }

  lemma DescribedReadable(c: Codec, v: Json, row: Row)
    requires c.Faithful() && Storable(v) && Describes(c, v, [], row)
    ensures RowValue(c, row).Some? && Respell(c, row) == row && NormalRow(c, row)
  {
    var p := Parts(row.pointer).value[0..];
    PartStorable(v, p);
    var part := At(v, p).value;
    HeadNormal(c, part);
    HeadOfNormal(part);
    NormalTwice(Head(part));
    LeafNests(Head(part));
    hide Parts, At, Storable;
    assert c.load(c.dump(Head(part))) == Some(Normal(Head(part)));
    assert Normal(Head(part)) == Head(Normal(part));
  }

  /** The value comes back word for word exactly when no number in it is negative zero. */
  lemma WordForWord(c: Codec, rows: seq<Row>, v: Json)
    requires c.Faithful() && Storable(v)
    requires multiset(rows) == multiset(Flatten(c, v, ""))
    ensures Unflatten(c, rows) == Some(v) <==> !HasNegativeZero(v)
  {
    hide *;
    UnflattenFlatten(c, rows, v);
    NormalSame(v);
  }

  /** The one lost sign: the rows of negative zero rebuild zero. */
  lemma NegativeZeroLost(c: Codec)
    requires c.Faithful()
    ensures Unflatten(c, Flatten(c, NEGATIVE_ZERO, "")) == Some(Number(0))
  {
    UnflattenFlatten(c, Flatten(c, NEGATIVE_ZERO, ""), NEGATIVE_ZERO);
    hide Flatten, Unflatten;
  }
}
