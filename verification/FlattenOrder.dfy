/**
 The rows of a flattening stand in document order: a part before everything inside it, items by
 their index, and members by the first differing UTF-16 code unit of their names.
 */
module FlattenOrder {
  import opened Common
  import opened DecimalText
  import opened Json
  import opened Cells = Flatten
  import CanonicalForm

  /** The step a comes before the step b in this part. */
  ghost predicate StepBefore(part: Json, a: string, b: string) {
    match part
    case Array(items) => exists i: nat, j: nat :: i < j < |items| && a == Dec(i) && b == Dec(j)
    case Object(members) => a in members && b in members && CanonicalForm.Precedes(a, b)
    case _ => false
  }

  /** The paths first part ways at n, p ending there or taking the earlier step. */
  ghost predicate PartAt(v: Json, p: Path, q: Path, n: nat) {
    && n <= |p| && n < |q| && p[..n] == q[..n]
    && (n < |p| ==> At(v, p[..n]).Some? && StepBefore(At(v, p[..n]).value, p[n], q[n]))
  }

  ghost predicate DocumentOrder(v: Json, p: Path, q: Path) {
    exists n: nat :: PartAt(v, p, q, n)
  }

  // ----- The paths of the rows -----

  function Under(key: string, paths: seq<Path>): (s: seq<Path>)
    ensures |s| == |paths|
  {
    seq(|paths|, k requires 0 <= k < |paths| => [key] + paths[k])
  }

  ghost function Paths(v: Json): (paths: seq<Path>)
    decreases v, 1, 0
  {
    [[]]
    + match v
      case Array(items) => ItemPaths(v, 0)
      case Object(members) => MemberPaths(v, SortedKeys(members.Keys))
      case _ => []
  }

  ghost function ItemPaths(v: Json, i: nat): seq<Path>
    requires v.Array? && i <= |v.items|
    decreases v, 0, |v.items| - i
  {
    if i == |v.items| then [] else Under(Dec(i), Paths(v.items[i])) + ItemPaths(v, i + 1)
  }

  ghost function MemberPaths(v: Json, keys: seq<string>): seq<Path>
    requires v.Object? && forall k :: k in keys ==> k in v.members
    decreases v, 0, |keys|
  {
    if keys == [] then [] else Under(keys[0], Paths(v.members[keys[0]])) + MemberPaths(v, keys[1..])
  }

  /** The rows carry these paths, below a prefix, in this order. */
  ghost predicate Carry(rows: seq<Row>, prefix: Path, paths: seq<Path>) {
    |rows| == |paths| && forall i :: 0 <= i < |rows| ==> rows[i].pointer == Pointer(prefix + paths[i])
  }

  lemma CarryJoin(a: seq<Row>, b: seq<Row>, prefix: Path, p: seq<Path>, q: seq<Path>)
    requires Carry(a, prefix, p) && Carry(b, prefix, q)
    ensures Carry(a + b, prefix, p + q)
  {
    forall i | 0 <= i < |a + b|
      ensures (a + b)[i].pointer == Pointer(prefix + (p + q)[i])
    {
      assert (a + b)[i] == if i < |a| then a[i] else b[i - |a|];
      assert (p + q)[i] == if i < |p| then p[i] else q[i - |p|];
    }
    hide Pointer;
  }

  lemma CarryUnder(rows: seq<Row>, prefix: Path, key: string, paths: seq<Path>)
    requires Carry(rows, prefix + [key], paths)
    ensures Carry(rows, prefix, Under(key, paths))
  {
    hide Pointer;
    forall i | 0 <= i < |rows|
      ensures rows[i].pointer == Pointer(prefix + Under(key, paths)[i])
    {
      assert prefix + [key] + paths[i] == prefix + ([key] + paths[i]);
    }
  }

  lemma CarryHead(c: Codec, v: Json, prefix: Path)
    ensures Carry([Row(Pointer(prefix), KindOf(v), c.dump(Head(v)))], prefix, [[]])
  {
    assert prefix + [] == prefix;
    hide Pointer;
  }

  lemma ChildPointer(prefix: Path, key: string)
    ensures Pointer(prefix + [key]) == Pointer(prefix) + "/" + Esc(key)
  {
    assert (prefix + [key])[..|prefix|] == prefix;
    hide Esc;
  }

  lemma DecPlain(i: nat)
    ensures Esc(Dec(i)) == Dec(i)
  {
    DecIsNumeral(i);
    hide Dec;
    DigitsPlain(Dec(i));
  }

  lemma {:induction false} DigitsPlain(s: string)
    requires AllDigits(s)
    ensures Esc(s) == s
  {
    if s == "" {
      assert Esc("") == "";
    } else {
      EscStep(s);
      DigitsPlain(s[1..]);
      assert s == [s[0]] + s[1..];
      hide Esc;
    }
  }

  lemma {:induction false} FlattenPaths(c: Codec, v: Json, prefix: Path)
    ensures Carry(Flatten(c, v, Pointer(prefix)), prefix, Paths(v))
    decreases v, 1, 0
  {
    CarryHead(c, v, prefix);
    hide Carry, FlattenItems, FlattenMembers, ItemPaths, MemberPaths, Pointer, SortedKeys, Head;
    var head := [Row(Pointer(prefix), KindOf(v), c.dump(Head(v)))];
    match v
    case Array(items) =>
      ItemsCarry(c, v, 0, prefix);
      CarryJoin(head, FlattenItems(c, v, 0, Pointer(prefix)), prefix, [[]], ItemPaths(v, 0));
    case Object(members) =>
      var keys := SortedKeys(members.Keys);
      KeysAreMembers(members);
      MembersCarry(c, v, keys, prefix);
      CarryJoin(head, FlattenMembers(c, v, keys, Pointer(prefix)), prefix, [[]], MemberPaths(v, keys));
    case _ =>
      assert Flatten(c, v, Pointer(prefix)) == head + [] == head;
      assert Paths(v) == [[]] + [] == [[]];
  }

  lemma KeysAreMembers(members: map<string, Json>)
    ensures forall k :: k in SortedKeys(members.Keys) ==> k in members
  {
  }

  lemma {:induction false} ItemsCarry(c: Codec, v: Json, i: nat, prefix: Path)
    requires v.Array? && i <= |v.items|
    ensures Carry(FlattenItems(c, v, i, Pointer(prefix)), prefix, ItemPaths(v, i))
    decreases v, 0, |v.items| - i
  {
    hide Flatten, Paths, Pointer, Dec;
    if i < |v.items| {
      ChildPointer(prefix, Dec(i));
      DecPlain(i);
      FlattenPaths(c, v.items[i], prefix + [Dec(i)]);
      var rows := Flatten(c, v.items[i], Pointer(prefix + [Dec(i)]));
      CarryUnder(rows, prefix, Dec(i), Paths(v.items[i]));
      ItemsCarry(c, v, i + 1, prefix);
      CarryJoin(rows, FlattenItems(c, v, i + 1, Pointer(prefix)), prefix, Under(Dec(i), Paths(v.items[i])),
                ItemPaths(v, i + 1));
    }
    hide Carry;
  }

  lemma {:induction false} MembersCarry(c: Codec, v: Json, keys: seq<string>, prefix: Path)
    requires v.Object? && forall k :: k in keys ==> k in v.members
    ensures Carry(FlattenMembers(c, v, keys, Pointer(prefix)), prefix, MemberPaths(v, keys))
    decreases v, 0, |keys|
  {
    hide Flatten, Paths, Pointer, Esc;
    if keys != [] {
      var key := keys[0];
      ChildPointer(prefix, key);
      FlattenPaths(c, v.members[key], prefix + [key]);
      var rows := Flatten(c, v.members[key], Pointer(prefix + [key]));
      CarryUnder(rows, prefix, key, Paths(v.members[key]));
      MembersCarry(c, v, keys[1..], prefix);
      CarryJoin(rows, FlattenMembers(c, v, keys[1..], Pointer(prefix)), prefix, Under(key, Paths(v.members[key])),
                MemberPaths(v, keys[1..]));
    }
    hide Carry;
  }

  // ----- The paths ascend -----

  ghost predicate Ascend(v: Json, paths: seq<Path>) {
    forall i, j :: 0 <= i < j < |paths| ==> DocumentOrder(v, paths[i], paths[j])
  }

  lemma OrderUnder(v: Json, key: string, child: Json, p: Path, q: Path)
    requires At(v, [key]) == Some(child) && (forall path :: At(v, [key] + path) == At(child, path))
    requires DocumentOrder(child, p, q)
    ensures DocumentOrder(v, [key] + p, [key] + q)
  {
    hide At;
    var n: nat :| PartAt(child, p, q, n);
    assert ([key] + p)[..n + 1] == [key] + p[..n];
    assert ([key] + q)[..n + 1] == [key] + q[..n];
    assert PartAt(v, [key] + p, [key] + q, n + 1);
  }

  lemma AscendUnder(v: Json, key: string, child: Json, paths: seq<Path>)
    requires At(v, [key]) == Some(child) && (forall path :: At(v, [key] + path) == At(child, path))
    requires Ascend(child, paths)
    ensures Ascend(v, Under(key, paths))
  {
    hide At, DocumentOrder;
    forall i, j | 0 <= i < j < |paths|
      ensures DocumentOrder(v, Under(key, paths)[i], Under(key, paths)[j])
    {
      OrderUnder(v, key, child, paths[i], paths[j]);
    }
  }

  lemma AscendJoin(v: Json, a: seq<Path>, b: seq<Path>)
    requires Ascend(v, a) && Ascend(v, b)
    requires forall i, j :: 0 <= i < |a| && 0 <= j < |b| ==> DocumentOrder(v, a[i], b[j])
    ensures Ascend(v, a + b)
  {
    hide DocumentOrder;
    forall i, j | 0 <= i < j < |a + b|
      ensures DocumentOrder(v, (a + b)[i], (a + b)[j])
    {
      assert (a + b)[i] == if i < |a| then a[i] else b[i - |a|];
      assert (a + b)[j] == if j < |a| then a[j] else b[j - |a|];
    }
  }

  /** Paths that part at the first step. */
  lemma FirstStep(v: Json, a: string, b: string, p: Path, q: Path)
    requires StepBefore(v, a, b)
    ensures DocumentOrder(v, [a] + p, [b] + q)
  {
    hide StepBefore;
    assert ([a] + p)[..0] == [] == ([b] + q)[..0];
    assert PartAt(v, [a] + p, [b] + q, 0);
  }

  lemma PathsAscendFrom(v: Json, rest: seq<Path>)
    requires Ascend(v, rest) && forall i :: 0 <= i < |rest| ==> rest[i] != []
    ensures Ascend(v, [[]] + rest)
  {
    forall j | 0 <= j < |rest|
      ensures DocumentOrder(v, [], rest[j])
    {
      assert rest[j][..0] == [];
      assert PartAt(v, [], rest[j], 0);
    }
    hide DocumentOrder;
    AscendJoin(v, [[]], rest);
  }

  lemma {:induction false} PathsAscend(v: Json)
    ensures Ascend(v, Paths(v))
    decreases v, 1, 0
  {
    hide Ascend, ItemPaths, MemberPaths, SortedKeys, InNameOrder;
    match v
    case Array(items) =>
      ItemsAscend(v, 0);
      PathsAscendFrom(v, ItemPaths(v, 0));
    case Object(members) =>
      var keys := SortedKeys(members.Keys);
      KeysAreMembers(members);
      KeysInOrder(members.Keys);
      MembersAscend(v, keys);
      PathsAscendFrom(v, MemberPaths(v, keys));
    case _ =>
      OneAscends(v);
      assert Paths(v) == [[]] + [] == [[]];
  }

  ghost predicate InNameOrder(keys: seq<string>) {
    forall i, j :: 0 <= i < j < |keys| ==> CanonicalForm.Precedes(keys[i], keys[j])
  }

  lemma KeysInOrder(keys: set<string>)
    ensures InNameOrder(SortedKeys(keys))
  {
    CanonicalForm.SortedPrecede(keys);
    hide CanonicalForm.Precedes, SortedKeys;
  }

  /** Every path takes a step to an item from i on. */
  ghost predicate StepsFrom(v: Json, paths: seq<Path>, i: nat)
    requires v.Array?
  {
    forall k :: 0 <= k < |paths| ==> paths[k] != [] && LaterStep(v, paths[k][0], i)
  }

  ghost predicate LaterStep(v: Json, step: string, i: nat)
    requires v.Array?
  {
    exists j: nat :: i <= j < |v.items| && step == Dec(j)
  }

  lemma StepsJoin(v: Json, i: nat, paths: seq<Path>, rest: seq<Path>)
    requires v.Array? && i < |v.items| && StepsFrom(v, rest, i + 1)
    ensures StepsFrom(v, Under(Dec(i), paths) + rest, i)
  {
    var all := Under(Dec(i), paths) + rest;
    forall k | 0 <= k < |all|
      ensures all[k] != [] && LaterStep(v, all[k][0], i)
    {
      if k < |paths| {
        assert all[k] == [Dec(i)] + paths[k];
      } else {
        assert all[k] == rest[k - |paths|];
        var j: nat :| i + 1 <= j < |v.items| && all[k][0] == Dec(j);
      }
    }
    hide Dec;
  }

  lemma OneAscends(v: Json)
    ensures Ascend(v, [[]])
  {
  }

  lemma {:induction false} ItemsAscend(v: Json, i: nat)
    requires v.Array? && i <= |v.items|
    ensures Ascend(v, ItemPaths(v, i)) && StepsFrom(v, ItemPaths(v, i), i)
    decreases v, 0, |v.items| - i
  {
    hide Paths, Dec, DocumentOrder;
    if i < |v.items| {
      var first, rest := Under(Dec(i), Paths(v.items[i])), ItemPaths(v, i + 1);
      PathsAscend(v.items[i]);
      ItemChild(v, i);
      AscendUnder(v, Dec(i), v.items[i], Paths(v.items[i]));
      ItemsAscend(v, i + 1);
      forall k, m | 0 <= k < |first| && 0 <= m < |rest|
        ensures DocumentOrder(v, first[k], rest[m])
      {
        var j: nat :| i + 1 <= j < |v.items| && rest[m][0] == Dec(j);
        assert rest[m] == [Dec(j)] + rest[m][1..];
        FirstStep(v, Dec(i), Dec(j), Paths(v.items[i])[k], rest[m][1..]);
      }
      AscendJoin(v, first, rest);
      StepsJoin(v, i, Paths(v.items[i]), rest);
      hide Ascend, StepsFrom;
    }
  }

  lemma ItemChild(v: Json, i: nat)
    requires v.Array? && i < |v.items|
    ensures At(v, [Dec(i)]) == Some(v.items[i])
    ensures forall path :: At(v, [Dec(i)] + path) == At(v.items[i], path)
  {
    forall path: Path
      ensures At(v, [Dec(i)] + path) == At(v.items[i], path)
    {
      AtIndex(v.items, i, path);
    }
    assert [Dec(i)] + [] == [Dec(i)];
    assert At(v.items[i], []) == Some(v.items[i]);
    hide At;
  }

  lemma MemberChild(v: Json, key: string)
    requires v.Object? && key in v.members
    ensures At(v, [key]) == Some(v.members[key])
    ensures forall path :: At(v, [key] + path) == At(v.members[key], path)
  {
    forall path: Path
      ensures At(v, [key] + path) == At(v.members[key], path)
    {
      AtMember(v.members, key, path);
    }
    assert [key] + [] == [key];
    assert At(v.members[key], []) == Some(v.members[key]);
    hide At;
  }

  lemma {:induction false} MembersAscend(v: Json, keys: seq<string>)
    requires v.Object? && (forall k :: k in keys ==> k in v.members)
    requires InNameOrder(keys)
    ensures Ascend(v, MemberPaths(v, keys))
    ensures forall k :: 0 <= k < |MemberPaths(v, keys)| ==>
              MemberPaths(v, keys)[k] != [] && MemberPaths(v, keys)[k][0] in keys
    decreases v, 0, |keys|
  {
    hide Paths, DocumentOrder, CanonicalForm.Precedes;
    if keys != [] {
      var key := keys[0];
      var first, rest := Under(key, Paths(v.members[key])), MemberPaths(v, keys[1..]);
      PathsAscend(v.members[key]);
      MemberChild(v, key);
      AscendUnder(v, key, v.members[key], Paths(v.members[key]));
      MembersAscend(v, keys[1..]);
      forall k, m | 0 <= k < |first| && 0 <= m < |rest|
        ensures DocumentOrder(v, first[k], rest[m])
      {
        var other := rest[m][0];
        assert other in keys[1..];
        assert rest[m] == [other] + rest[m][1..];
        FirstStep(v, key, other, Paths(v.members[key])[k], rest[m][1..]);
      }
      AscendJoin(v, first, rest);
      hide Ascend;
    }
  }

  /** The row names a part by this path. */
  ghost predicate Names(row: Row, path: Path) {
    Parts(row.pointer) == Some(path)
  }

  lemma RowNames(c: Codec, v: Json, i: nat)
    requires i < |Flatten(c, v, "")|
    ensures i < |Paths(v)| && Names(Flatten(c, v, "")[i], Paths(v)[i])
  {
    FlattenPaths(c, v, []);
    assert Pointer([]) == "";
    hide Parts, Pointer, Flatten, Paths;
    assert [] + Paths(v)[i] == Paths(v)[i];
    PartsOfPointer(Paths(v)[i]);
  }

  lemma PathsInOrder(v: Json, i: nat, j: nat)
    requires i < j < |Paths(v)|
    ensures DocumentOrder(v, Paths(v)[i], Paths(v)[j])
  {
    PathsAscend(v);
    hide DocumentOrder, Paths;
  }

  /** Of two rows of a flattening the first one names the part that comes first in the document. */
  lemma RowsInOrder(c: Codec, v: Json, i: nat, j: nat) returns (p: Path, q: Path)
    requires i < j < |Flatten(c, v, "")|
    ensures Names(Flatten(c, v, "")[i], p) && Names(Flatten(c, v, "")[j], q) && DocumentOrder(v, p, q)
  {
    hide *;
    RowNames(c, v, i);
    RowNames(c, v, j);
    PathsInOrder(v, i, j);
    p, q := Paths(v)[i], Paths(v)[j];
  }
}
