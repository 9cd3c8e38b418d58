/**
 The converse of the bundle round trip: whatever tables the decoder accepts are, up to the spelling
 of their tokens and the order of their rows, the tables the encoder writes for the model it returns.
 */
module BundleAccepted {
  import opened Common
  import opened DecimalText
  import opened Json
  import opened Cells = Flatten
  import opened Bundle
  import Canonical

  // ----- Respelled tables -----

  /** The token as the writer spells the value it carries. */
  function Retold(c: Codec, token: string): string {
    match c.load(token)
    case Some(v) => c.dump(v)
    case None => token
  }

  function RetoldDocument(c: Codec, doc: DocumentRow): DocumentRow {
    DocumentRow(Retold(c, doc.generatedAt), Retold(c, doc.generator), doc.digest, Retold(c, doc.dealId),
        Retold(c, doc.dealName),
                Retold(c, doc.extra), Retold(c, doc.empty))
  }

  ghost function RetoldValue(c: Codec, v: ValueRow): ValueRow {
    v.(row := Respell(c, v.row))
  }

  ghost function RetoldValues(c: Codec, values: seq<ValueRow>): (r: seq<ValueRow>)
    ensures |r| == |values| && forall k :: 0 <= k < |r| ==> r[k] == RetoldValue(c, values[k])
  {
    seq(|values|, k requires 0 <= k < |values| => RetoldValue(c, values[k]))
  }

  function RetoldProse(c: Codec, rows: seq<ProseRow>): (r: seq<ProseRow>)
    ensures |r| == |rows| && forall k :: 0 <= k < |r| ==> r[k] == rows[k].(token := Retold(c, rows[k].token))
  {
    seq(|rows|, k requires 0 <= k < |rows| => rows[k].(token := Retold(c, rows[k].token)))
  }

  /** Every token of the tables in the spelling of the writer. */
  ghost function Respelled(c: Codec, t: Tables): Tables {
    Tables(seq(|t.document|, k requires 0 <= k < |t.document| => RetoldDocument(c, t.document[k])),
        RespellAll(c, t.frontmatter),
           RedumpedAll(c, t.blocks), RetoldValues(c, t.values), RetoldProse(c, t.prose), t.manifestDigest)
  }

  // ----- Placement -----

  /** One block was put at l, and no other place changed. */
  ghost predicate PutAt(h: Holdings, after: Holdings, l: Location, b: Block) {
    && BlockAt(after, l) == Some(b) && LogLocation(l)
    && forall x :: x != l ==> BlockAt(after, x) == BlockAt(h, x)
  }

  lemma SectionPut(h: Holdings, path: Path, section: string, variant: Option<string>, ordinal: string, b: Block)
    returns (l: Location)
    requires PlaceSection(h, path, section, variant, ordinal, b).Success?
    ensures PathOf(l) == path && PutAt(h, PlaceSection(h, path, section, variant, ordinal, b).value, l, b)
  {
    hide Name;
    l := if |path| == 2 then AtSection(section) else AtVariant(section, path[2]);
    assert path[..2] == [Name(Sections), section];
    assert path[0] == path[..2][0] && path[1] == path[..2][1];
  }

  lemma LogPut(h: Holdings, log: Collection, path: Path, variant: Option<string>, ordinal: string, b: Block)
    returns (l: Location)
    requires log in LOGS && log in h.logs && PlaceLog(h, log, path, variant, ordinal, b).Success?
    ensures PathOf(l) == path && PutAt(h, PlaceLog(h, log, path, variant, ordinal, b).value, l, b)
  {
    hide Name, Dec;
    l := AtLog(log, |h.logs[log]|);
  }

  lemma HistoryPut(h: Holdings, path: Path, section: string, variant: Option<string>, ordinal: string, b: Block)
    returns (l: Location)
    requires PlaceHistory(h, path, section, variant, ordinal, b).Success?
    ensures PathOf(l) == path && PutAt(h, PlaceHistory(h, path, section, variant, ordinal, b).value, l, b)
  {
    hide Name, Dec;
    l := AtHistory(section, if section in h.superseded then |h.superseded[section]| else 0);
  }

  lemma ExtensionPut(h: Holdings, path: Path, section: string, variant: Option<string>, ordinal: string, mode: Mode,
      b: Block) returns (l: Location)
    requires PlaceExtension(h, path, section, variant, ordinal, mode, b).Success?
    ensures PathOf(l) == path && PutAt(h, PlaceExtension(h, path, section, variant, ordinal, mode, b).value, l, b)
  {
    hide Name, Dec, VariantStated;
    if mode == SingleMode {
      l := AtExtension(section);
    } else {
      l := AtPeer(section, if section in h.extensions && h.extensions[section].Many? then |h.extensions[section].peers|
          else 0);
    }
  }

  /** A placed row puts its block where its reference says, and nothing else. */
  lemma RowPut(c: Codec, h: Holdings, row: BlockRow, b: Block, empty: seq<string>) returns (l: Location)
    requires h.logs.Keys == LOGS && Place(c, h, row, b, empty).Success?
    ensures RefOf(l) == row.ref && PutAt(h, Place(c, h, row, b, empty).value, l, b)
    ensures Place(c, h, row, b, empty).value.logs.Keys == LOGS
  {
    PointerOfParts(row.ref);
    var path, section, variant :=
      Parts(row.ref).value, ReadText(c, row.section).value, ReadVariant(c, row.variant).value;
    hide Pointer, Parts, ReadText, ReadVariant, Overlaps, PathOf, PlaceSection, PlaceLog, PlaceHistory, PlaceExtension;
    hide PutAt;
    PlacedLogs(h, row.collection, path, section, variant, row.ordinal, row.mode, b);
    match row.collection
    case Sections => l := SectionPut(h, path, section, variant, row.ordinal, b);
    case Extensions => l := ExtensionPut(h, path, section, variant, row.ordinal, row.mode, b);
    case History => l := HistoryPut(h, path, section, variant, row.ordinal, b);
    case Unknown =>
    case log => l := LogPut(h, log, path, variant, row.ordinal, b);
  }

  lemma PlacedLogs(h: Holdings, k: Collection, path: Path, section: string, variant: Option<string>, ordinal: string,
      mode: Mode, b: Block)
    requires h.logs.Keys == LOGS && PlaceBy(h, k, path, section, variant, ordinal, mode, b).Success?
    ensures PlaceBy(h, k, path, section, variant, ordinal, mode, b).value.logs.Keys == LOGS
  {
    hide Name, Dec, VariantStated;
  }

  /** Every block of the holdings was read from the rows of its own reference. */
  ghost predicate Sourced(c: Codec, t: Tables, prose: map<string, string>, rows: seq<BlockRow>, n: nat, h: Holdings)
    requires n <= |rows|
  {
    && h.logs.Keys == LOGS
    && forall l :: BlockAt(h, l).Some? ==>
         LogLocation(l) && RefOf(l) in RefsOf(rows, n) && ReadBlock(c, t.values, prose, RefOf(l)) == BlockAt(h, l)
  }

  lemma {:induction false} StartsVacant(empty: seq<string>)
    requires StartEmpty(empty).Some?
    ensures StartEmpty(empty).value.logs == Vacant().logs && StartEmpty(empty).value.extensions == map[]
    ensures forall s :: s in StartEmpty(empty).value.sections ==> StartEmpty(empty).value.sections[s] == Variants(map[])
    ensures forall s :: s in StartEmpty(empty).value.superseded ==> StartEmpty(empty).value.superseded[s] == []
  {
    hide Parts, Units, UnitsAtMost, Name;
    if empty != [] {
      StartsVacant(empty[..|empty| - 1]);
    }
  }

  lemma NoneSourced(c: Codec, t: Tables, prose: map<string, string>, rows: seq<BlockRow>, empty: seq<string>)
    requires StartEmpty(empty).Some?
    ensures Sourced(c, t, prose, rows, 0, StartEmpty(empty).value)
  {
    StartsVacant(empty);
    var start := StartEmpty(empty).value;
    hide StartEmpty, RefOf, ReadBlock, BlockAt, RefsOf;
    forall l
      ensures BlockAt(start, l).None?
    {
      VacantAt(start, l);
    }
  }

  lemma VacantAt(start: Holdings, l: Location)
    requires start.logs == Vacant().logs && start.extensions == map[]
    requires forall s :: s in start.sections ==> start.sections[s] == Variants(map[])
    requires forall s :: s in start.superseded ==> start.superseded[s] == []
    ensures BlockAt(start, l).None?
  {
  }

  lemma {:induction false} AllSourced(c: Codec, t: Tables, prose: map<string, string>, start: Holdings,
      empty: seq<string>, rows: seq<BlockRow>, n: nat)
    requires n <= |rows| && PlaceRows(c, t, prose, start, empty, rows, n).Success?
    requires Sourced(c, t, prose, rows, 0, start)
    ensures Sourced(c, t, prose, rows, n, PlaceRows(c, t, prose, start, empty, rows, n).value)
  {
    hide *;
    if n == 0 {
      NoneRead(c, t, prose, start, empty, rows);
    } else {
      var b := PlacedBefore(c, t, prose, start, empty, rows, n);
      AllSourced(c, t, prose, start, empty, rows, n - 1);
      OneSourced(c, t, prose, empty, rows, n - 1, PlaceRows(c, t, prose, start, empty, rows, n - 1).value, b);
    }
  }

  lemma PlacedBefore(c: Codec, t: Tables, prose: map<string, string>, start: Holdings, empty: seq<string>,
      rows: seq<BlockRow>, n: nat)
    returns (b: Block)
    requires 0 < n <= |rows| && PlaceRows(c, t, prose, start, empty, rows, n).Success?
    ensures PlaceRows(c, t, prose, start, empty, rows, n - 1).Success?
    ensures ReadBlock(c, t.values, prose, rows[n - 1].ref) == Some(b)
    ensures rows[n - 1].ref !in RefsOf(rows, n - 1)
    ensures PlaceRows(c, t, prose, start, empty, rows, n)
            == Place(c, PlaceRows(c, t, prose, start, empty, rows, n - 1).value, rows[n - 1], b, empty)
  {
    hide Place, ReadBlock;
    RefsMore(rows, n - 1);
    b := ReadBlock(c, t.values, prose, rows[n - 1].ref).value;
  }

  lemma OneSourced(c: Codec, t: Tables, prose: map<string, string>, empty: seq<string>, rows: seq<BlockRow>, n: nat,
      h: Holdings, b: Block)
    requires n < |rows| && Sourced(c, t, prose, rows, n, h) && ReadBlock(c, t.values, prose, rows[n].ref) == Some(b)
    requires Place(c, h, rows[n], b, empty).Success?
    ensures Sourced(c, t, prose, rows, n + 1, Place(c, h, rows[n], b, empty).value)
  {
    RefsMore(rows, n);
    assert h.logs.Keys == LOGS;
    hide ReadBlock, Place, RefOf, RefsOf, BlockAt, LogLocation;
    var l := RowPut(c, h, rows[n], b, empty);
  }

  // ----- Empty collections -----

  ghost predicate Ordered(paths: seq<string>) {
    forall i, j :: 0 <= i < j < |paths| ==> UnitsAtMost(Units(paths[i]), Units(paths[j])) && paths[i] != paths[j]
  }

  lemma {:induction false} EmptiesOrdered(empty: seq<string>)
    requires StartEmpty(empty).Some?
    ensures Ordered(empty)
  {
    hide Units, UnitsAtMost, Parts, Name;
    if empty != [] {
      var n := |empty| - 1;
      var front := empty[..n];
      EmptiesOrdered(front);
      forall i, j | 0 <= i < j < |empty|
        ensures UnitsAtMost(Units(empty[i]), Units(empty[j])) && empty[i] != empty[j]
      {
        assert front[i] == empty[i];
        if j < n {
          assert front[j] == empty[j];
        } else if i < n - 1 {
          assert front[n - 1] == empty[n - 1];
          BeforeBoth(empty[i], empty[n - 1], empty[n]);
        }
      }
    }
  }

  lemma BeforeBoth(a: string, b: string, d: string)
    requires UnitsAtMost(Units(a), Units(b)) && a != b && UnitsAtMost(Units(b), Units(d)) && b != d
    ensures UnitsAtMost(Units(a), Units(d)) && a != d
  {
    hide Units, UnitsAtMost;
    UnitsTransitive(Units(a), Units(b), Units(d));
    if a == d {
      UnitsEqual(Units(a), Units(b));
      UnitsInjective(a, b);
    }
  }

  /** The path states an empty section or an empty history of the start. */
  ghost predicate States(start: Holdings, path: string) {
    || (exists s :: s in start.sections && path == Pointer([Name(Sections), s]))
    || (exists s :: s in start.superseded && path == Pointer([Name(History), s]))
  }

  /** The start holds what the descriptors state, and nothing else. */
  ghost predicate Stated(start: Holdings, empty: seq<string>) {
    && (forall path :: path in empty ==> States(start, path))
    && (forall s :: s in start.sections ==> Pointer([Name(Sections), s]) in empty)
    && (forall s :: s in start.superseded ==> Pointer([Name(History), s]) in empty)
  }

  lemma {:induction false} EmptiesStated(empty: seq<string>)
    requires StartEmpty(empty).Some?
    ensures Stated(StartEmpty(empty).value, empty)
  {
    hide *;
    if empty == [] {
      NothingStated();
    } else {
      var n := |empty| - 1;
      EmptyBefore(empty);
      EmptiesStated(empty[..n]);
      OneStated(StartEmpty(empty[..n]).value, empty[..n], if n == 0 then "" else empty[n - 1], empty[n]);
      assert empty == empty[..n] + [empty[n]];
    }
  }

  lemma NothingStated()
    ensures StartEmpty([]).Some? && Stated(StartEmpty([]).value, [])
  {
  }

  lemma EmptyBefore(empty: seq<string>)
    requires empty != [] && StartEmpty(empty).Some?
    ensures var n := |empty| - 1;
            && StartEmpty(empty[..n]).Some?
            && StartEmpty(empty) == AddEmpty(StartEmpty(empty[..n]).value, if n == 0 then "" else empty[n - 1],
                empty[n])
  {
    hide AddEmpty;
  }

  lemma OneStated(before: Holdings, empty: seq<string>, previous: string, path: string)
    requires Stated(before, empty) && AddEmpty(before, previous, path).Some?
    ensures Stated(AddEmpty(before, previous, path).value, empty + [path])
  {
    hide *;
    var s := AddedEmpty(before, previous, path);
    if path == Pointer([Name(Sections), s])
        && AddEmpty(before, previous, path).value == before.(sections := before.sections[s := Variants(map[])]) {
      SectionStated(before, empty, s);
    } else {
      HistoryStated(before, empty, s);
    }
  }

  lemma AddedEmpty(before: Holdings, previous: string, path: string) returns (s: string)
    requires AddEmpty(before, previous, path).Some?
    ensures var after := AddEmpty(before, previous, path).value;
            || (path == Pointer([Name(Sections), s])
                && after == before.(sections := before.sections[s := Variants(map[])]))
            || (path == Pointer([Name(History), s]) && after == before.(superseded := before.superseded[s := []]))
  {
    PointerOfParts(path);
    var p := Parts(path).value;
    s := p[1];
    assert p == [p[0], s];
    hide Units, UnitsAtMost, Pointer, Parts, Name;
  }

  lemma SectionStated(before: Holdings, empty: seq<string>, s: string)
    requires Stated(before, empty)
    ensures Stated(before.(sections := before.sections[s := Variants(map[])]), empty + [Pointer([Name(Sections), s])])
  {
    hide Pointer, Name;
    var after, path := before.(sections := before.sections[s := Variants(map[])]), Pointer([Name(Sections), s]);
    forall q | q in empty + [path]
      ensures States(after, q)
    {
      if q in empty {
        assert States(before, q);
      }
    }
  }

  lemma HistoryStated(before: Holdings, empty: seq<string>, s: string)
    requires Stated(before, empty)
    ensures Stated(before.(superseded := before.superseded[s := []]), empty + [Pointer([Name(History), s])])
  {
    hide Pointer, Name;
    var after, path := before.(superseded := before.superseded[s := []]), Pointer([Name(History), s]);
    forall q | q in empty + [path]
      ensures States(after, q)
    {
      if q in empty {
        assert States(before, q);
      }
    }
  }

  /** The empty collections of the start are still there and empty, and histories are empty only there. */
  ghost predicate Kept(start: Holdings, h: Holdings) {
    && (forall s :: s in start.sections ==> s in h.sections && h.sections[s] == Variants(map[]))
    && (forall s :: s in start.superseded ==> s in h.superseded && h.superseded[s] == [])
    && (forall s :: s in h.superseded && h.superseded[s] == [] ==> s in start.superseded)
  }

  lemma BelowOverlaps(k: Collection, s: string, path: Path, empty: seq<string>)
    requires Pointer([Name(k), s]) in empty && 2 <= |path| && path[0] == Name(k) && path[1] == s
    ensures Overlaps(path, empty)
  {
    PartsOfPointer([Name(k), s]);
    hide Pointer, Parts, Name;
    var i :| 0 <= i < |empty| && empty[i] == Pointer([Name(k), s]);
    assert [Name(k), s] <= path;
  }

  lemma SectionPath(h: Holdings, path: Path, section: string, variant: Option<string>, ordinal: string, b: Block)
    requires PlaceSection(h, path, section, variant, ordinal, b).Success?
    ensures 2 <= |path| && path[0] == Name(Sections) && path[1] == section
    ensures PlaceSection(h, path, section, variant, ordinal, b).value.superseded == h.superseded
    ensures var after := PlaceSection(h, path, section, variant, ordinal, b).value;
            forall s :: s in h.sections && s != section ==> s in after.sections && after.sections[s] == h.sections[s]
  {
    hide Name;
    assert path[..2] == [Name(Sections), section];
    assert path[0] == path[..2][0] && path[1] == path[..2][1];
  }

  lemma SectionKept(start: Holdings, h: Holdings, empty: seq<string>, path: Path, section: string,
      variant: Option<string>, ordinal: string, b: Block)
    requires Stated(start, empty) && Kept(start, h) && !Overlaps(path, empty)
    requires PlaceSection(h, path, section, variant, ordinal, b).Success?
    ensures Kept(start, PlaceSection(h, path, section, variant, ordinal, b).value)
  {
    SectionPath(h, path, section, variant, ordinal, b);
    hide Name, Pointer, Overlaps, PlaceSection;
    if section in start.sections {
      BelowOverlaps(Sections, section, path, empty);
    }
  }

  lemma HistoryKept(start: Holdings, h: Holdings, empty: seq<string>, path: Path, section: string,
      variant: Option<string>, ordinal: string, b: Block)
    requires Stated(start, empty) && Kept(start, h) && !Overlaps(path, empty)
    requires PlaceHistory(h, path, section, variant, ordinal, b).Success?
    ensures Kept(start, PlaceHistory(h, path, section, variant, ordinal, b).value)
  {
    hide Name, Pointer, Overlaps, Dec;
    if section in start.superseded {
      BelowOverlaps(History, section, path, empty);
    }
  }

  lemma RowKept(c: Codec, start: Holdings, h: Holdings, row: BlockRow, b: Block, empty: seq<string>)
    requires Stated(start, empty) && Kept(start, h) && Place(c, h, row, b, empty).Success?
    ensures Kept(start, Place(c, h, row, b, empty).value)
  {
    var path, section, variant :=
      Parts(row.ref).value, ReadText(c, row.section).value, ReadVariant(c, row.variant).value;
    hide Pointer, Parts, ReadText, ReadVariant, Overlaps, Stated, PlaceSection, PlaceHistory;
    match row.collection
    case Sections => SectionKept(start, h, empty, path, section, variant, row.ordinal, b);
    case History => HistoryKept(start, h, empty, path, section, variant, row.ordinal, b);
    case Unknown =>
    case _ => OthersKept(start, h, row.collection, path, section, variant, row.ordinal, row.mode, b);
  }

  lemma OthersKept(start: Holdings, h: Holdings, k: Collection, path: Path, section: string, variant: Option<string>,
      ordinal: string, mode: Mode, b: Block)
    requires Kept(start, h) && k != Sections && k != History
    requires PlaceBy(h, k, path, section, variant, ordinal, mode, b).Success?
    ensures Kept(start, PlaceBy(h, k, path, section, variant, ordinal, mode, b).value)
  {
    hide Name, Dec, VariantStated;
    var after := PlaceBy(h, k, path, section, variant, ordinal, mode, b).value;
    assert after.sections == h.sections && after.superseded == h.superseded;
  }

  lemma StartKept(empty: seq<string>)
    requires StartEmpty(empty).Some?
    ensures Kept(StartEmpty(empty).value, StartEmpty(empty).value)
  {
    StartsVacant(empty);
    hide StartEmpty;
  }

  lemma {:induction false} AllKept(c: Codec, t: Tables, prose: map<string, string>, start: Holdings,
      empty: seq<string>, rows: seq<BlockRow>, n: nat)
    requires n <= |rows| && PlaceRows(c, t, prose, start, empty, rows, n).Success? && Stated(start, empty)
    requires Kept(start, start)
    ensures Kept(start, PlaceRows(c, t, prose, start, empty, rows, n).value)
  {
    hide *;
    if n == 0 {
      NoneRead(c, t, prose, start, empty, rows);
    } else {
      var b := PlacedBefore(c, t, prose, start, empty, rows, n);
      AllKept(c, t, prose, start, empty, rows, n - 1);
      RowKept(c, start, PlaceRows(c, t, prose, start, empty, rows, n - 1).value, rows[n - 1], b, empty);
    }
  }

  /** A list in strict order is the ordered list of its names. */
  lemma {:induction false} OrderedIsSorted(paths: seq<string>, keys: set<string>)
    requires Ordered(paths) && forall k :: k in keys <==> k in paths
    ensures paths == SortedKeys(keys)
  {
    hide Units, UnitsAtMost, SortedKeys;
    if paths == [] {
      assert keys == {};
      NoNames();
    } else {
      var first, rest := paths[0], paths[1..];
      forall k | k in keys
        ensures UnitsAtMost(Units(first), Units(k))
      {
        var i :| 0 <= i < |paths| && paths[i] == k;
        UnitsTotal(Units(first), Units(first));
      }
      assert first in paths;
      SortedFirst(keys, first);
      forall k
        ensures k in keys - {first} <==> k in rest
      {
        if k in rest {
          var i :| 0 <= i < |rest| && rest[i] == k;
          assert paths[i + 1] == k;
        }
      }
      OrderedIsSorted(rest, keys - {first});
    }
  }

  /** With no empty map of variants, the descriptors received are those of the empty histories. */
  lemma EmptiesAgree(h: Holdings, start: Holdings, empty: seq<string>)
    requires Ordered(empty) && Stated(start, empty) && Kept(start, h)
    requires forall s :: s in h.sections && h.sections[s].Variants? ==> h.sections[s].peers != map[]
    ensures empty == EmptyPaths(h)
    ensures forall path :: path in empty ==> EmptyKind(path) == "array"
  {
    hide Pointer, Name, Ordered, SortedKeys, EmptyKind;
    var keys := set s | s in h.superseded && h.superseded[s] == [] :: Pointer([Name(History), s]);
    forall path | path in empty
      ensures path in keys && EmptyKind(path) == "array"
    {
      assert States(start, path);
      var s :| s in start.superseded && path == Pointer([Name(History), s]);
      HistoryKind(s);
    }
    OrderedIsSorted(empty, keys);
  }

  lemma HistoryKind(s: string)
    ensures EmptyKind(Pointer([Name(History), s])) == "array"
  {
    PartsOfPointer([Name(History), s]);
    hide Pointer, Parts, Name;
  }

  lemma ItemRead(item: Json)
    requires ReadItem(item).Some? && EmptyKind(ReadItem(item).value) == "array"
    ensures item == EmptyItem(ReadItem(item).value)
  {
    assert item.members == EmptyItem(ReadItem(item).value).members;
    hide EmptyKind;
  }

  lemma {:induction false} ItemsAgree(items: seq<Json>)
    requires ReadItems(items).Some? && forall path :: path in ReadItems(items).value ==> EmptyKind(path) == "array"
    ensures items == EmptyItems(ReadItems(items).value)
  {
    hide EmptyItem, ReadItem, EmptyKind;
    if items != [] {
      var n := |items| - 1;
      var front, path := ReadItems(items[..n]).value, ReadItem(items[n]).value;
      assert ReadItems(items).value == front + [path];
      ItemsAgree(items[..n]);
      ItemRead(items[n]);
      assert items == items[..n] + [items[n]] && (front + [path])[..|front|] == front;
    }
  }

  lemma EmptyCellAgrees(c: Codec, h: Holdings, token: string)
    requires ReadEmpty(c, token) == Some(EmptyPaths(h))
             && forall path :: path in EmptyPaths(h) ==> EmptyKind(path) == "array"
    ensures Retold(c, token) == c.dump(EmptyCell(h))
  {
    hide EmptyPaths, EmptyKind, ReadItems, EmptyItems;
    ItemsAgree(c.load(token).value.items);
  }

  // ----- Values -----

  lemma {:induction false} RowsOfRetold(c: Codec, values: seq<ValueRow>, ref: string, scope: Scope)
    ensures RowsOf(RetoldValues(c, values), ref, scope) == RespellAll(c, RowsOf(values, ref, scope))
  {
    hide Respell;
    if values != [] {
      var n := |values| - 1;
      RowsOfRetold(c, values[..n], ref, scope);
      assert RetoldValues(c, values)[..n] == RetoldValues(c, values[..n]);
    }
  }

  /** The received rows of one block and scope, respelled, are those of its members. */
  lemma ScopeAgrees(c: Codec, h: Holdings, ls: seq<Location>, t: Tables, prose: map<string, string>, l: Location,
      scope: Scope, row: Row)
    requires Lists(h, ls) && l in ls && scope != UnknownScope
    requires ReadBlock(c, t.values, prose, RefOf(l)) == BlockAt(h, l)
    ensures multiset(RetoldValues(c, t.values))[ValueRow(RefOf(l), scope, row)]
            == multiset(ValueTable(c, h, ls))[ValueRow(RefOf(l), scope, row)]
  {
    BlockScopes(c, h, ls, t, prose, l, scope);
    hide *;
    var rows, members := RowsOf(t.values, RefOf(l), scope), Object(ScopeOf(BlockAt(h, l).value, scope));
    AcceptedIsFlattened(c, rows, members);
    RowsOfRetold(c, t.values, RefOf(l), scope);
    RowsOfTable(c, h, ls, l, scope);
    RowsOfCount(RetoldValues(c, t.values), RefOf(l), scope, row);
    RowsOfCount(ValueTable(c, h, ls), RefOf(l), scope, row);
  }

  lemma BlockScopes(c: Codec, h: Holdings, ls: seq<Location>, t: Tables, prose: map<string, string>, l: Location,
      scope: Scope)
    requires Lists(h, ls) && l in ls && scope != UnknownScope
    requires ReadBlock(c, t.values, prose, RefOf(l)) == BlockAt(h, l)
    ensures BlockAt(h, l).Some? && LogLocation(l)
            && forall k :: 0 <= k < |ls| ==> BlockAt(h, ls[k]).Some? && LogLocation(ls[k])
    ensures forall k, m :: 0 <= k < m < |ls| ==> ls[k] != ls[m]
    ensures Unflatten(c, RowsOf(t.values, RefOf(l), scope)) == Some(Object(ScopeOf(BlockAt(h, l).value, scope)))
  {
    hide BlockAt, RefOf, RowsOf, Unflatten, LogLocation;
  }

  /** Every reference of the table is that of a listed block. */
  ghost predicate Located(ls: seq<Location>, ref: string) {
    exists l :: l in ls && RefOf(l) == ref
  }

  /** A row that belongs to no listed block, or to no scope, is in neither table. */
  lemma ElsewhereAgrees(c: Codec, h: Holdings, ls: seq<Location>, t: Tables, v: ValueRow)
    requires Lists(h, ls) && ScopesKnown(t) && (v.scope == UnknownScope || !Located(ls, v.ref))
    requires forall k :: 0 <= k < |t.values| ==> Located(ls, t.values[k].ref)
    ensures v !in RetoldValues(c, t.values) && v !in ValueTable(c, h, ls)
  {
    hide RefOf, BlockAt, Respell;
    if v in ValueTable(c, h, ls) {
      ValueRefs(c, h, ls, v);
    }
    hide ValueTable;
  }

  lemma ValuesAgree(c: Codec, h: Holdings, ls: seq<Location>, t: Tables, prose: map<string, string>)
    requires Lists(h, ls) && ScopesKnown(t) && forall k :: 0 <= k < |t.values| ==> Located(ls, t.values[k].ref)
    requires forall l :: l in ls ==> ReadBlock(c, t.values, prose, RefOf(l)) == BlockAt(h, l)
    ensures multiset(RetoldValues(c, t.values)) == multiset(ValueTable(c, h, ls))
  {
    hide *;
    ListedBlocks(h, ls);
    forall v: ValueRow
      ensures multiset(RetoldValues(c, t.values))[v] == multiset(ValueTable(c, h, ls))[v]
    {
      if v.scope != UnknownScope && Located(ls, v.ref) {
        var l := LocationOf(ls, v.ref);
        ScopeAgrees(c, h, ls, t, prose, l, v.scope, v.row);
      } else {
        ElsewhereAgrees(c, h, ls, t, v);
        NeitherCounts(RetoldValues(c, t.values), ValueTable(c, h, ls), v);
      }
    }
  }

  lemma LocationOf(ls: seq<Location>, ref: string) returns (l: Location)
    requires Located(ls, ref)
    ensures l in ls && RefOf(l) == ref
  {
    hide RefOf;
    l :| l in ls && RefOf(l) == ref;
  }

  lemma NeitherCounts(a: seq<ValueRow>, b: seq<ValueRow>, v: ValueRow)
    requires v !in a && v !in b
    ensures multiset(a)[v] == multiset(b)[v]
  {
    assert v !in multiset(a) && v !in multiset(b);
  }

  // ----- Prose -----

  /** The rows of a prose map, one a block. */
  ghost predicate ProseTold(c: Codec, rows: seq<ProseRow>, prose: map<string, string>) {
    && (forall row :: row in rows ==> row.block in prose && row == ToldRow(c, row.block, prose[row.block]))
    && (forall ref :: ref in prose ==> ToldRow(c, ref, prose[ref]) in rows)
    && (forall j, k :: 0 <= j < k < |rows| ==> rows[j] != rows[k])
  }

  function ToldRow(c: Codec, ref: string, text: string): ProseRow {
    ProseRow(ref + "/prose", ref, c.dump(Text(text)))
  }

  lemma ProseToldSame(c: Codec, a: seq<ProseRow>, b: seq<ProseRow>, prose: map<string, string>)
    requires ProseTold(c, a, prose) && ProseTold(c, b, prose)
    ensures multiset(a) == multiset(b)
  {
    hide ToldRow;
    forall row: ProseRow
      ensures multiset(a)[row] == multiset(b)[row]
    {
      DistinctCount(a, row);
      DistinctCount(b, row);
      assert row in a <==> row in b;
      assert row in multiset(a) <==> row in a;
      assert row in multiset(b) <==> row in b;
    }
  }

  /** What is read as prose is told, up to spelling, by the rows it was read from. */
  lemma {:induction false} ReadIsTold(c: Codec, rows: seq<ProseRow>)
    requires ReadProse(c, rows).Some?
    ensures ProseTold(c, RetoldProse(c, rows), ReadProse(c, rows).value)
  {
    hide *;
    if rows == [] {
      NothingTold(c);
    } else {
      var n := |rows| - 1;
      ProseBefore(c, rows);
      ReadIsTold(c, rows[..n]);
      OneTold(c, RetoldProse(c, rows[..n]), ReadProse(c, rows[..n]).value, rows[n]);
    }
  }

  lemma NothingTold(c: Codec)
    ensures ReadProse(c, []) == Some(map[]) && ProseTold(c, RetoldProse(c, []), map[])
  {
  }

  lemma ProseBefore(c: Codec, rows: seq<ProseRow>)
    requires rows != [] && ReadProse(c, rows).Some?
    ensures var n := |rows| - 1;
            && ReadProse(c, rows[..n]).Some? && rows[n].ref == rows[n].block + "/prose"
                && ReadText(c, rows[n].token).Some?
            && rows[n].block !in ReadProse(c, rows[..n]).value
            && ReadProse(c, rows).value
                == ReadProse(c, rows[..n]).value[rows[n].block := ReadText(c, rows[n].token).value]
            && RetoldProse(c, rows) == RetoldProse(c, rows[..n]) + [rows[n].(token := Retold(c, rows[n].token))]
  {
    hide ReadText, Retold;
  }

  lemma OneTold(c: Codec, told: seq<ProseRow>, prose: map<string, string>, row: ProseRow)
    requires ProseTold(c, told, prose) && row.ref == row.block + "/prose" && row.block !in prose
    requires ReadText(c, row.token).Some?
    ensures ProseTold(c, told + [row.(token := Retold(c, row.token))], prose[row.block := ReadText(c, row.token).value])
  {
    var text := ReadText(c, row.token).value;
    assert row.(token := Retold(c, row.token)) == ToldRow(c, row.block, text);
    assert forall ref, other :: ToldRow(c, ref, other).block == ref;
    hide ToldRow, ReadText, Retold;
    var all := told + [ToldRow(c, row.block, text)];
    forall r | r in all
      ensures r.block in prose[row.block := text] && r == ToldRow(c, r.block, prose[row.block := text][r.block])
    {
    }
    var more := prose[row.block := text];
    forall ref | ref in more
      ensures ToldRow(c, ref, more[ref]) in all
    {
      if ref == row.block {
        assert all[|told|] == ToldRow(c, row.block, text);
      }
    }
    forall j, k | 0 <= j < k < |all|
      ensures all[j] != all[k]
    {
      assert j < |told| && told[j] in told;
    }
  }

  /** The encoded prose rows tell the same map. */
  lemma TableIsTold(c: Codec, h: Holdings, ls: seq<Location>, prose: map<string, string>)
    requires Lists(h, ls) && ProseAgrees(h, prose) && forall ref :: ref in prose ==> Located(ls, ref)
    ensures ProseTold(c, ProseTable(c, h, ls), prose)
  {
    ProseListed(h, ls);
    ProseTableAt(c, h, ls);
    var table, located := ProseTable(c, h, ls), WithProse(h, ls);
    hide ProseTable, WithProse, RefOf, BlockAt, ToldRow, HasProse, ProseRowAt;
    forall k | 0 <= k < |table|
      ensures RefOf(located[k]) in prose && table[k] == ToldRow(c, RefOf(located[k]), prose[RefOf(located[k])])
      ensures table[k].block == RefOf(located[k])
    {
      assert located[k] in located;
      RowTold(c, h, prose, located[k]);
    }
    forall ref | ref in prose
      ensures ToldRow(c, ref, prose[ref]) in table
    {
      var l :| l in ls && RefOf(l) == ref;
      HasProseHere(h, ls, prose, l);
      var k :| 0 <= k < |located| && located[k] == l;
      assert table[k] == ToldRow(c, ref, prose[ref]);
    }
    DistinctTold(ls, located, table);
  }

  lemma RowTold(c: Codec, h: Holdings, prose: map<string, string>, l: Location)
    requires ProseAgrees(h, prose) && HasProse(h, l) && LogLocation(l)
    ensures RefOf(l) in prose && ProseRowAt(c, h, l) == ToldRow(c, RefOf(l), prose[RefOf(l)])
    ensures ProseRowAt(c, h, l).block == RefOf(l)
  {
    hide RefOf, BlockAt;
  }

  lemma HasProseHere(h: Holdings, ls: seq<Location>, prose: map<string, string>, l: Location)
    requires Lists(h, ls) && ProseAgrees(h, prose) && l in ls && RefOf(l) in prose
    ensures HasProse(h, l)
  {
    hide RefOf, BlockAt;
  }

  lemma DistinctTold(ls: seq<Location>, located: seq<Location>, table: seq<ProseRow>)
    requires |table| == |located| && forall k :: 0 <= k < |table| ==> table[k].block == RefOf(located[k])
    requires forall k, m :: 0 <= k < m < |located| ==> located[k] != located[m]
    requires forall k :: 0 <= k < |located| ==> LogLocation(located[k])
    ensures forall j, k :: 0 <= j < k < |table| ==> table[j] != table[k]
  {
    hide RefOf, LogLocation;
    forall j, k | 0 <= j < k < |table|
      ensures table[j] != table[k]
    {
      if RefOf(located[j]) == RefOf(located[k]) {
        RefInjective(located[j], located[k]);
      }
    }
  }

  lemma ProseAgree(c: Codec, h: Holdings, ls: seq<Location>, rows: seq<ProseRow>)
    requires Lists(h, ls) && ReadProse(c, rows).Some? && ProseAgrees(h, ReadProse(c, rows).value)
    requires forall ref :: ref in ReadProse(c, rows).value ==> Located(ls, ref)
    ensures multiset(RetoldProse(c, rows)) == multiset(ProseTable(c, h, ls))
  {
    hide *;
    ReadIsTold(c, rows);
    TableIsTold(c, h, ls, ReadProse(c, rows).value);
    ProseToldSame(c, RetoldProse(c, rows), ProseTable(c, h, ls), ReadProse(c, rows).value);
  }

  // ----- Descriptors -----

  lemma {:induction false} InsertRedumped(c: Codec, row: BlockRow, rows: seq<BlockRow>)
    ensures multiset(RedumpedAll(c, InsertRow(c, row, rows)))
            == multiset(RedumpedAll(c, rows)) + multiset{Redumped(c, row)}
  {
    hide NotAfter, Redumped;
    if rows == [] {
      assert RedumpedAll(c, [row]) == [Redumped(c, row)];
    } else if NotAfter(c, row, rows[0]) {
      assert RedumpedAll(c, [row] + rows) == [Redumped(c, row)] + RedumpedAll(c, rows);
    } else {
      InsertRedumped(c, row, rows[1..]);
      var rest := InsertRow(c, row, rows[1..]);
      assert RedumpedAll(c, [rows[0]] + rest) == [Redumped(c, rows[0])] + RedumpedAll(c, rest);
      assert RedumpedAll(c, rows) == [Redumped(c, rows[0])] + RedumpedAll(c, rows[1..]);
    }
  }

  /** Sorting does not change which descriptors there are. */
  lemma {:induction false} SortRedumped(c: Codec, rows: seq<BlockRow>)
    ensures multiset(RedumpedAll(c, SortRows(c, rows))) == multiset(RedumpedAll(c, rows))
  {
    hide Redumped, InsertRow;
    if rows != [] {
      var n := |rows| - 1;
      SortRedumped(c, rows[..n]);
      InsertRedumped(c, rows[n], SortRows(c, rows[..n]));
      assert RedumpedAll(c, rows) == RedumpedAll(c, rows[..n]) + [Redumped(c, rows[n])];
    }
  }

  /** A received row's reference is that of a listed block. */
  lemma RowLocated(c: Codec, h: Holdings, ls: seq<Location>, rows: seq<BlockRow>, ref: string)
    requires multiset(BlockTable(c, h, ls)) == multiset(RedumpedAll(c, rows)) && HasRow(rows, ref)
    ensures Located(ls, ref)
  {
    BlockTableAt(c, h, ls);
    var m :| 0 <= m < |rows| && rows[m].ref == ref;
    var all := RedumpedAll(c, rows);
    assert all[m].ref == ref && all[m] in multiset(all);
    hide RefOf, BlockTable, Redumped, RedumpedAll, SectionAt, VariantAt;
    var k :| 0 <= k < |ls| && BlockTable(c, h, ls)[k] == all[m];
    assert RefOf(ls[k]) == ref && ls[k] in ls;
  }

  // ----- The converse -----

  /** What acceptance establishes, check by check. */
  ghost predicate Passed(host: Host, t: Tables, m: Model, prose: map<string, string>, start: Holdings,
      empty: seq<string>, ls: seq<Location>)
  {
    var c, h, rows := host.codec, m.holdings, SortRows(host.codec, t.blocks);
    && |t.document| == 1 && Unflatten(c, t.frontmatter) == Some(Object(m.frontmatter))
    && var doc := t.document[0];
    && ReadVariant(c, doc.generatedAt) == Some(m.generatedAt) && ReadVariant(c, doc.generator) == Some(m.generator)
    && ReadObject(c, doc.extra) == Some(m.extra) && ReadEmpty(c, doc.empty) == Some(empty)
    && ReadText(c, doc.dealId).Some? && TextAt(m.frontmatter, "deal_id") == ReadText(c, doc.dealId)
    && ReadText(c, doc.dealName).Some? && TextAt(m.frontmatter, "deal_name") == ReadText(c, doc.dealName)
    && StartEmpty(empty) == Some(start) && ScopesKnown(t) && ReadProse(c, t.prose) == Some(prose)
    && PlaceRows(c, t, prose, start, empty, rows, |rows|) == Success(h)
    && AllUsed(t, prose) && Valid(host, m)
    && Lists(h, ls) && multiset(BlockTable(c, h, ls)) == multiset(RedumpedAll(c, rows))
    && t.manifestDigest == doc.digest == Digest(host, m) && m.digest == Some(doc.digest)
  }

  lemma AcceptedPassed(host: Host, t: Tables, m: Model)
    returns (prose: map<string, string>, start: Holdings, empty: seq<string>, ls: seq<Location>)
    requires Decode(host, t) == Success(m)
    ensures Passed(host, t, m, prose, start, empty, ls)
  {
    hide Unflatten, TextAt, ReadVariant, ReadText, ReadObject, ReadEmpty, StartEmpty, ReadProse, AllUsed, Orderable;
    hide SortRows, PlaceRows;
    hide DescriptorsAgree, RedumpedAll, Valid, Digest, ScopesKnown, Lists, BlockTable;
    var c := host.codec;
    empty := ReadEmpty(c, t.document[0].empty).value;
    start := StartEmpty(empty).value;
    prose := ReadProse(c, t.prose).value;
    SortKeepsRows(c, t.blocks);
    ls := AgreedListing(c, m.holdings, RedumpedAll(c, SortRows(c, t.blocks)));
  }

  lemma AgreedListing(c: Codec, h: Holdings, rows: seq<BlockRow>) returns (ls: seq<Location>)
    requires DescriptorsAgree(c, h, rows)
    ensures Lists(h, ls) && multiset(BlockTable(c, h, ls)) == multiset(rows)
  {
    hide Lists, BlockTable;
    ls :| Lists(h, ls) && multiset(BlockTable(c, h, ls)) == multiset(rows);
  }

  /** The empty collections stated are those of the model. */
  lemma PassedEmpties(host: Host, t: Tables, m: Model, prose: map<string, string>, start: Holdings, empty: seq<string>,
      ls: seq<Location>)
    requires Passed(host, t, m, prose, start, empty, ls)
    ensures empty == EmptyPaths(m.holdings) && forall path :: path in empty ==> EmptyKind(path) == "array"
  {
    PassedPlaced(host, t, m, prose, start, empty, ls);
    hide *;
    var rows := SortRows(host.codec, t.blocks);
    ValidHoldings(host, m);
    EmptiesOrdered(empty);
    EmptiesStated(empty);
    StartKept(empty);
    AllKept(host.codec, t, prose, start, empty, rows, |rows|);
    EmptiesAgree(m.holdings, start, empty);
  }

  lemma PassedPlaced(host: Host, t: Tables, m: Model, prose: map<string, string>, start: Holdings, empty: seq<string>,
      ls: seq<Location>)
    requires Passed(host, t, m, prose, start, empty, ls)
    ensures Valid(host, m) && StartEmpty(empty) == Some(start) && ReadProse(host.codec, t.prose) == Some(prose)
    ensures ScopesKnown(t)
    ensures var rows := SortRows(host.codec, t.blocks);
            PlaceRows(host.codec, t, prose, start, empty, rows, |rows|) == Success(m.holdings)
    ensures AllUsed(t, prose) && Lists(m.holdings, ls)
    ensures multiset(BlockTable(host.codec, m.holdings, ls)) == multiset(RedumpedAll(host.codec, t.blocks))
  {
    SortRedumped(host.codec, t.blocks);
    hide Unflatten, TextAt, ReadVariant, ReadText, ReadObject, ReadEmpty, StartEmpty, ReadProse, AllUsed, SortRows;
    hide PlaceRows;
    hide RedumpedAll, Valid, Digest, ScopesKnown, Lists, BlockTable;
  }

  /** Every block of the model was read from the rows of its own reference. */
  lemma PassedSourced(host: Host, t: Tables, m: Model, prose: map<string, string>, start: Holdings, empty: seq<string>,
      ls: seq<Location>)
    requires Passed(host, t, m, prose, start, empty, ls)
    ensures forall l :: BlockAt(m.holdings, l).Some? ==>
              LogLocation(l) && ReadBlock(host.codec, t.values, prose, RefOf(l)) == BlockAt(m.holdings, l)
  {
    PassedPlaced(host, t, m, prose, start, empty, ls);
    hide *;
    var rows := SortRows(host.codec, t.blocks);
    NoneSourced(host.codec, t, prose, rows, empty);
    AllSourced(host.codec, t, prose, start, empty, rows, |rows|);
    SourcedBlocks(host.codec, t, prose, rows, m.holdings);
  }

  lemma SourcedBlocks(c: Codec, t: Tables, prose: map<string, string>, rows: seq<BlockRow>, h: Holdings)
    requires Sourced(c, t, prose, rows, |rows|, h)
    ensures forall l :: BlockAt(h, l).Some? ==>
            LogLocation(l) && ReadBlock(c, t.values, prose, RefOf(l)) == BlockAt(h, l)
  {
    hide BlockAt, LogLocation, ReadBlock, RefOf, RefsOf;
  }

  lemma SourcedProse(c: Codec, values: seq<ValueRow>, prose: map<string, string>, h: Holdings)
    requires forall l :: BlockAt(h, l).Some? ==>
             LogLocation(l) && ReadBlock(c, values, prose, RefOf(l)) == BlockAt(h, l)
    ensures ProseAgrees(h, prose)
  {
    hide BlockAt, LogLocation, RefOf, ReadScope;
    forall l | BlockAt(h, l).Some? && LogLocation(l)
      ensures BlockAt(h, l).value.prose == if RefOf(l) in prose then Some(prose[RefOf(l)]) else None
    {
      assert ReadBlock(c, values, prose, RefOf(l)) == BlockAt(h, l);
    }
  }

  lemma UsedLocated(c: Codec, h: Holdings, ls: seq<Location>, t: Tables, prose: map<string, string>)
    requires AllUsed(t, prose) && multiset(BlockTable(c, h, ls)) == multiset(RedumpedAll(c, t.blocks))
    ensures forall k :: 0 <= k < |t.values| ==> Located(ls, t.values[k].ref)
    ensures forall ref :: ref in prose ==> Located(ls, ref)
  {
    hide HasRow, Located, BlockTable, RedumpedAll;
    forall k | 0 <= k < |t.values|
      ensures Located(ls, t.values[k].ref)
    {
      RowLocated(c, h, ls, t.blocks, t.values[k].ref);
    }
    forall ref | ref in prose
      ensures Located(ls, ref)
    {
      RowLocated(c, h, ls, t.blocks, ref);
    }
  }

  lemma ListedOccupied(h: Holdings, ls: seq<Location>)
    requires Lists(h, ls)
    ensures forall l :: l in ls ==> BlockAt(h, l).Some?
  {
    hide BlockAt, LogLocation;
  }

  /** The block, value and prose tables are those of the model. */
  lemma TablesAgree(host: Host, t: Tables, m: Model, prose: map<string, string>, start: Holdings, empty: seq<string>,
      ls: seq<Location>)
    requires Passed(host, t, m, prose, start, empty, ls)
    ensures Lists(m.holdings, ls)
    ensures multiset(RedumpedAll(host.codec, t.blocks)) == multiset(BlockTable(host.codec, m.holdings, ls))
    ensures (forall k :: 0 <= k < |ls| ==> BlockAt(m.holdings, ls[k]).Some?)
    ensures multiset(RetoldValues(host.codec, t.values)) == multiset(ValueTable(host.codec, m.holdings, ls))
    ensures multiset(RetoldProse(host.codec, t.prose)) == multiset(ProseTable(host.codec, m.holdings, ls))
  {
    PassedPlaced(host, t, m, prose, start, empty, ls);
    PassedSourced(host, t, m, prose, start, empty, ls);
    ListedOccupied(m.holdings, ls);
    hide *;
    var c, h := host.codec, m.holdings;
    UsedLocated(c, h, ls, t, prose);
    SourcedProse(c, t.values, prose, h);
    ProseAgree(c, h, ls, t.prose);
    ValuesAgree(c, h, ls, t, prose);
  }

  lemma TextRetold(c: Codec, token: string)
    requires ReadText(c, token).Some?
    ensures Retold(c, token) == c.dump(Text(ReadText(c, token).value))
  {
  }

  lemma VariantRetold(c: Codec, token: string)
    requires ReadVariant(c, token).Some?
    ensures Retold(c, token) == VariantToken(c, ReadVariant(c, token).value)
  {
  }

  lemma ObjectRetold(c: Codec, token: string)
    requires ReadObject(c, token).Some?
    ensures Retold(c, token) == c.dump(Object(ReadObject(c, token).value))
  {
  }

  /** The document row and the digests are those of the model. */
  lemma DocumentAgrees(host: Host, t: Tables, m: Model, prose: map<string, string>, start: Holdings,
      empty: seq<string>, ls: seq<Location>)
    requires Passed(host, t, m, prose, start, empty, ls)
    ensures Lists(m.holdings, ls) && TextAt(m.frontmatter, "deal_id").Some? && TextAt(m.frontmatter, "deal_name").Some?
    ensures |t.document| == 1 && [RetoldDocument(host.codec, t.document[0])] == Encoded(host, m, ls).document
    ensures t.manifestDigest == Encoded(host, m, ls).manifestDigest && Stamped(host, m) == m && Valid(host, m)
  {
    PassedEmpties(host, t, m, prose, start, empty, ls);
    hide EmptyPaths, EmptyKind, Unflatten, StartEmpty, ScopesKnown, ReadProse, PlaceRows, SortRows, AllUsed, Valid;
    hide Lists, BlockTable, RedumpedAll;
    hide TextAt, Digest, ValueTable, ProseTable, Flatten, ReadEmpty, EmptyCell, Retold, ReadText, ReadVariant;
    hide ReadObject, VariantToken;
    var c, doc := host.codec, t.document[0];
    EmptyCellAgrees(c, m.holdings, doc.empty);
    TextRetold(c, doc.dealId);
    TextRetold(c, doc.dealName);
    VariantRetold(c, doc.generatedAt);
    VariantRetold(c, doc.generator);
    ObjectRetold(c, doc.extra);
  }

  lemma PassedIsEncoded(host: Host, t: Tables, m: Model, prose: map<string, string>, start: Holdings,
      empty: seq<string>, ls: seq<Location>)
    requires Passed(host, t, m, prose, start, empty, ls)
    ensures Valid(host, m) && Stamped(host, m) == m && Lists(m.holdings, ls)
    ensures TextAt(m.frontmatter, "deal_id").Some? && TextAt(m.frontmatter, "deal_name").Some?
    ensures Shuffled(Respelled(host.codec, t), Encoded(host, m, ls))
  {
    hide *;
    FrontmatterAgrees(host, t, m, prose, start, empty, ls);
    DocumentAgrees(host, t, m, prose, start, empty, ls);
    TablesAgree(host, t, m, prose, start, empty, ls);
    PartsShuffled(host, t, m, ls);
  }

  lemma PartsShuffled(host: Host, t: Tables, m: Model, ls: seq<Location>)
    requires Lists(m.holdings, ls) && TextAt(m.frontmatter, "deal_id").Some? && TextAt(m.frontmatter, "deal_name").Some?
    requires |t.document| == 1 && [RetoldDocument(host.codec, t.document[0])] == Encoded(host, m, ls).document
    requires t.manifestDigest == Encoded(host, m, ls).manifestDigest
    requires forall k :: 0 <= k < |ls| ==> BlockAt(m.holdings, ls[k]).Some?
    requires multiset(RespellAll(host.codec, t.frontmatter)) == multiset(Flatten(host.codec, Object(m.frontmatter), ""))
    requires multiset(RedumpedAll(host.codec, t.blocks)) == multiset(BlockTable(host.codec, m.holdings, ls))
    requires multiset(RetoldValues(host.codec, t.values)) == multiset(ValueTable(host.codec, m.holdings, ls))
    requires multiset(RetoldProse(host.codec, t.prose)) == multiset(ProseTable(host.codec, m.holdings, ls))
    ensures Shuffled(Respelled(host.codec, t), Encoded(host, m, ls))
  {
    hide Lists, BlockAt, TextAt, Digest, RespellAll, Flatten, RedumpedAll, BlockTable, RetoldValues, ValueTable;
    hide RetoldProse, ProseTable;
    hide RetoldDocument, VariantToken, EmptyCell;
    assert Respelled(host.codec, t).document == [RetoldDocument(host.codec, t.document[0])];
  }

  lemma FrontmatterAgrees(host: Host, t: Tables, m: Model, prose: map<string, string>, start: Holdings,
      empty: seq<string>, ls: seq<Location>)
    requires Passed(host, t, m, prose, start, empty, ls)
    ensures multiset(RespellAll(host.codec, t.frontmatter)) == multiset(Flatten(host.codec, Object(m.frontmatter), ""))
  {
    assert Unflatten(host.codec, t.frontmatter) == Some(Object(m.frontmatter));
    hide *;
    AcceptedIsFlattened(host.codec, t.frontmatter, Object(m.frontmatter));
  }

  /**
   Accepted tables are encoded tables: respelled, they are those of the returned model, each table
   in some order, and the model carries its own digest.
   */
  lemma AcceptedIsEncoded(host: Host, t: Tables, m: Model) returns (ls: seq<Location>)
    requires Decode(host, t) == Success(m)
    ensures Valid(host, m) && Stamped(host, m) == m && Lists(m.holdings, ls)
    ensures TextAt(m.frontmatter, "deal_id").Some? && TextAt(m.frontmatter, "deal_name").Some?
    ensures Shuffled(Respelled(host.codec, t), Encoded(host, m, ls))
  {
    hide *;
    var prose, start, empty;
    prose, start, empty, ls := AcceptedPassed(host, t, m);
    PassedIsEncoded(host, t, m, prose, start, empty, ls);
  }

  /** What was decoded, encoded again and decoded again is the same model, up to the sign of zero. */
  lemma DecodedAgain(host: Host, t: Tables, m: Model, ls: seq<Location>, again: Tables)
    requires host.codec.Faithful() && host.Unsigned() && Decode(host, t) == Success(m) && Lists(m.holdings, ls)
    requires TextAt(m.frontmatter, "deal_id").Some? && TextAt(m.frontmatter, "deal_name").Some?
    requires Shuffled(again, Encoded(host, m, ls))
    ensures Decode(host, again) == Success(NormalModel(m))
  {
    hide *;
    var other := AcceptedIsEncoded(host, t, m);
    RoundTrip(host, m, ls, again);
  }

  // ----- With the text layer of the source -----

  /** The round trip with the canonical writer and the strict parser themselves: no law of the codec is assumed. */
  lemma TextRoundTrip(host: Host, m: Model, ls: seq<Location>, t: Tables)
    requires host.codec == Canonical.SourceCodec() && host.Unsigned() && Lists(m.holdings, ls)
    requires TextAt(m.frontmatter, "deal_id").Some? && TextAt(m.frontmatter, "deal_name").Some? && Valid(host, m)
    requires Shuffled(t, Encoded(host, m, ls))
    ensures Decode(host, t) == Success(NormalModel(Stamped(host, m)))
    ensures Decode(host, t) == Success(Stamped(host, m)) <==> !SignsZero(m)
  {
    hide *;
    Canonical.SourceIsFaithful();
    RoundTrip(host, m, ls, t);
    RoundTripIff(host, m, ls, t);
  }
}
