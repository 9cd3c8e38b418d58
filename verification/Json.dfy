/** JSON values, and RFC 6901 pointers to their parts. */
module Json {
  import opened Common
  import opened DecimalText
  import Binary64

  datatype Json =
    | Null
    | Bool(b: bool)
    | Number(word: nat)
    | Text(text: string)
    | Array(items: seq<Json>)
    | Object(members: map<string, Json>)

  datatype Kind = NullKind | BoolKind | NumberKind | TextKind | ArrayKind | ObjectKind

  function KindOf(v: Json): Kind {
    match v
    case Null => NullKind
    case Bool(_) => BoolKind
    case Number(_) => NumberKind
    case Text(_) => TextKind
    case Array(_) => ArrayKind
    case Object(_) => ObjectKind
  }

  type Path = seq<string>

  /** The part of v at a path of member names and decimal array indices. */
  ghost function At(v: Json, path: Path): Option<Json>
    decreases |path|
  {
    if path == [] then Some(v)
    else
      match v
      case Array(items) =>
        if exists i: nat :: i < |items| && Dec(i) == path[0] then
          var i: nat :| i < |items| && Dec(i) == path[0];
          At(items[i], path[1..])
        else None
      case Object(members) => if path[0] in members then At(members[path[0]], path[1..]) else None
      case _ => None
  }

  lemma AtIndex(items: seq<Json>, i: nat, path: Path)
    requires i < |items|
    ensures At(Array(items), [Dec(i)] + path) == At(items[i], path)
  {
    var p := [Dec(i)] + path;
    assert p[0] == Dec(i) && p[1..] == path;
    var j: nat :| j < |items| && Dec(j) == p[0] && At(Array(items), p) == At(items[j], p[1..]);
    DecInjective(i, j);
  }

  lemma AtMember(members: map<string, Json>, key: string, path: Path)
    ensures At(Object(members), [key] + path) == if key in members then At(members[key], path) else None
  {
    assert ([key] + path)[0] == key && ([key] + path)[1..] == path;
  }

  // ----- Numbers as the text layer keeps them -----

  /** The value as it comes back from text: negative zero is written as zero. */
  function Normal(v: Json): (n: Json)
    ensures KindOf(n) == KindOf(v)
    ensures v.Array? ==> |n.items| == |v.items| && forall i :: 0 <= i < |v.items| ==> n.items[i] == Normal(v.items[i])
    ensures v.Object? ==>
            n.members.Keys == v.members.Keys && forall k :: k in v.members ==> n.members[k] == Normal(v.members[k])
  {
    match v
    case Number(word) => Number(if word == Binary64.SIGN then 0 else word)
    case Array(items) => Array(seq(|items|, i requires 0 <= i < |items| => Normal(items[i])))
    case Object(members) => Object(map k | k in members :: Normal(members[k]))
    case _ => v
  }

  /** Every number is a finite binary64 word. */
  predicate Storable(v: Json) {
    match v
    case Number(word) => word < 2 * Binary64.SIGN && Binary64.Finite(word)
    case Array(items) => forall i :: 0 <= i < |items| ==> Storable(items[i])
    case Object(members) => forall k :: k in members ==> Storable(members[k])
    case _ => true
  }

  /** The value nests at most `depth` levels. */
  predicate Nests(v: Json, depth: nat) {
    match v
    case Array(items) => items == [] || (depth > 0 && forall i :: 0 <= i < |items| ==> Nests(items[i], depth - 1))
    case Object(members) => members == map[] || (depth > 0 && forall k :: k in members ==> Nests(members[k], depth - 1))
    case _ => true
  }

  const NEGATIVE_ZERO: Json := Number(Binary64.SIGN)

  /** Some part of the value is the number negative zero. */
  ghost predicate HasNegativeZero(v: Json) {
    exists p: Path :: At(v, p) == Some(NEGATIVE_ZERO)
  }

  function NormalPart(part: Option<Json>): Option<Json> {
    match part
    case None => None
    case Some(x) => Some(Normal(x))
  }

  /** The parts of the normal value are the normal parts. */
  lemma {:induction false} AtNormal(v: Json, path: Path)
    ensures At(Normal(v), path) == NormalPart(At(v, path))
    decreases |path|
  {
    if path != [] {
      assert path == [path[0]] + path[1..];
      match v
      case Array(items) =>
        var n := Normal(v).items;
        if i: nat :| i < |items| && Dec(i) == path[0] {
          AtIndex(items, i, path[1..]);
          AtIndex(n, i, path[1..]);
          AtNormal(items[i], path[1..]);
        }
      case Object(members) =>
        if path[0] in members {
          AtNormal(members[path[0]], path[1..]);
        }
      case _ =>
    }
  }

  lemma {:induction false} NormalTwice(v: Json)
    ensures Normal(Normal(v)) == Normal(v)
  {
    match v
    case Array(items) =>
      forall i | 0 <= i < |items|
        ensures Normal(Normal(items[i])) == Normal(items[i])
      {
        NormalTwice(items[i]);
      }
    case Object(members) =>
      forall k | k in members
        ensures Normal(Normal(members[k])) == Normal(members[k])
      {
        NormalTwice(members[k]);
      }
      assert Normal(Normal(v)).members == Normal(v).members;
    case _ =>
  }

  /** The value is its own normal form exactly when no part of it is negative zero. */
  lemma NormalSame(v: Json)
    ensures Normal(v) == v <==> !HasNegativeZero(v)
  {
    if Normal(v) == v {
      forall p: Path
        ensures At(v, p) != Some(NEGATIVE_ZERO)
      {
        AtNormal(v, p);
      }
    } else {
      var p := NegativeZeroIn(v);
    }
  }

  lemma {:induction false} NegativeZeroIn(v: Json) returns (p: Path)
    requires Normal(v) != v
    ensures At(v, p) == Some(NEGATIVE_ZERO)
  {
    match v
    case Array(items) =>
      assert Normal(v).items != items;
      var i :| 0 <= i < |items| && Normal(items[i]) != items[i];
      p := NegativeZeroIn(items[i]);
      AtIndex(items, i, p);
      p := [Dec(i)] + p;
    case Object(members) =>
      assert Normal(v).members != members;
      var k :| k in members && Normal(members[k]) != members[k];
      p := NegativeZeroIn(members[k]);
      AtMember(members, k, p);
      p := [k] + p;
    case _ =>
      p := [];
  }

  // ----- Pointers -----

  /** s.replace(c, with) for a single character. */
  function Replace(s: string, c: char, with: string): string {
    if s == "" then "" else (if s[0] == c then with else [s[0]]) + Replace(s[1..], c, with)
  }

  /** s.replace([a, b], with) for a pair of distinct characters. */
  function ReplacePair(s: string, a: char, b: char, with: char): string {
    if s == "" then ""
    else if |s| >= 2 && s[0] == a && s[1] == b then [with] + ReplacePair(s[2..], a, b, with)
    else [s[0]] + ReplacePair(s[1..], a, b, with)
  }

  function Esc(s: string): string {
    Replace(Replace(s, '~', "~0"), '/', "~1")
  }

  function Unesc(s: string): string {
    ReplacePair(ReplacePair(s, '~', '1', '/'), '~', '0', '~')
  }

  /** Every tilde is followed by 0 or 1. */
  predicate WellEscaped(s: string) {
    forall i :: 0 <= i < |s| && s[i] == '~' ==> i + 1 < |s| && (s[i + 1] == '0' || s[i + 1] == '1')
  }

  function Split(s: string): (parts: seq<string>)
    ensures |parts| >= 1
  {
    if s == "" then [""]
    else if s[0] == '/' then [""] + Split(s[1..])
    else var rest := Split(s[1..]); [[s[0]] + rest[0]] + rest[1..]
  }

  function UnescapeAll(segments: seq<string>): Option<Path> {
    if segments == [] then Some([])
    else
      var key := Unesc(segments[0]);
      if !WellEscaped(segments[0]) || Esc(key) != segments[0] then None
      else
        match UnescapeAll(segments[1..])
        case None => None
        case Some(rest) => Some([key] + rest)
  }

  /** `parts`: the path a pointer names, or None where the source refuses it. */
  function Parts(pointer: string): Option<Path> {
    if pointer == "" then Some([])
    else if pointer[0] != '/' then None
    else UnescapeAll(Split(pointer[1..]))
  }

  /** The pointer of a path. */
  function Pointer(path: Path): string {
    if path == [] then "" else Pointer(path[..|path| - 1]) + "/" + Esc(path[|path| - 1])
  }

  function EscChar(c: char): string {
    if c == '~' then "~0" else if c == '/' then "~1" else [c]
  }

  /** Each character is escaped by itself: a tilde as ~0, a slash as ~1, any other as it is. */
  lemma EscStep(s: string)
    requires s != ""
    ensures Esc(s) == EscChar(s[0]) + Esc(s[1..])
    ensures Esc(s) == (if s[0] == '~' then "~0" else if s[0] == '/' then "~1" else [s[0]]) + Esc(s[1..])
    ensures Esc("") == ""
  {
    var inner := Replace(s, '~', "~0");
    if s[0] == '~' {
      assert inner == "~0" + Replace(s[1..], '~', "~0");
      assert inner[1..] == "0" + Replace(s[1..], '~', "~0");
      var rest := Replace(s[1..], '~', "~0");
      assert inner[1..][1..] == rest;
      assert Replace(inner[1..], '/', "~1") == "0" + Replace(rest, '/', "~1");
      assert Esc(s) == "~" + ("0" + Replace(rest, '/', "~1"));
    } else {
      assert inner[1..] == Replace(s[1..], '~', "~0");
    }
  }

  /** Escaping leaves no bare slash and no bare tilde, and is undone by unescaping. */
  lemma {:induction false} EscRoundTrip(s: string)
    ensures '/' !in Esc(s) && WellEscaped(Esc(s))
    ensures ReplacePair(Esc(s), '~', '1', '/') == Replace(s, '~', "~0")
    ensures Unesc(Esc(s)) == s
  {
    if s != "" {
      EscStep(s);
      EscRoundTrip(s[1..]);
      var head, tail := EscChar(s[0]), Esc(s[1..]);
      assert (head + tail)[|head|..] == tail;
      hide Esc, Unesc, WellEscaped;
      EscapedTail(head, tail, s[0]);
      FirstPass(s[0], tail, Replace(s[1..], '~', "~0"));
      SecondPass(s[0], Replace(s[1..], '~', "~0"), s[1..]);
    }
  }

  lemma EscapedTail(head: string, tail: string, c: char)
    requires head == EscChar(c) && WellEscaped(tail) && '/' !in tail
    ensures WellEscaped(head + tail) && '/' !in head + tail
  {
  }

  lemma FirstPass(c: char, tail: string, rest: string)
    requires ReplacePair(tail, '~', '1', '/') == rest
    ensures ReplacePair(EscChar(c) + tail, '~', '1', '/') == (if c == '~' then "~0" else [c]) + rest
  {
    var s := EscChar(c) + tail;
    if c == '~' {
      assert s[1..] == "0" + tail;
      assert s[1..][1..] == tail;
    } else if c == '/' {
      assert s[2..] == tail;
    } else {
      assert s[1..] == tail;
    }
  }

  lemma SecondPass(c: char, rest: string, tail: string)
    requires ReplacePair(rest, '~', '0', '~') == tail
    ensures ReplacePair((if c == '~' then "~0" else [c]) + rest, '~', '0', '~') == [c] + tail
  {
    if c == '~' {
      assert ("~0" + rest)[2..] == rest;
    } else {
      assert ([c] + rest)[1..] == rest;
    }
  }

  // ----- Pointers and paths correspond -----

  lemma {:induction false} SplitSegment(a: string, b: string)
    requires '/' !in a
    ensures Split(a) == [a]
    ensures Split(a + "/" + b) == [a] + Split(b)
  {
    if a == "" {
      assert (a + "/" + b)[1..] == b;
    } else {
      SplitSegment(a[1..], b);
      var s := a + "/" + b;
      assert s[1..] == a[1..] + "/" + b;
      assert [a[0]] + a[1..] == a;
    }
  }

  /** The escaped segments of a path, joined by slashes. */
  function Joined(path: Path): string
    requires path != []
  {
    if |path| == 1 then Esc(path[0]) else Esc(path[0]) + "/" + Joined(path[1..])
  }

  lemma {:induction false} PointerJoined(path: Path)
    requires path != []
    ensures Pointer(path) == "/" + Joined(path)
  {
    if |path| == 1 {
      assert path[..0] == [];
      assert Pointer(path[..0]) == "";
    } else {
      PointerJoined(path[..|path| - 1]);
      JoinedSnoc(path[..|path| - 1], path[|path| - 1]);
      assert path[..|path| - 1] + [path[|path| - 1]] == path;
    }
  }

  lemma {:induction false} JoinedSnoc(path: Path, key: string)
    requires path != []
    ensures Joined(path + [key]) == Joined(path) + "/" + Esc(key)
  {
    var p := path + [key];
    assert p[1..] == path[1..] + [key];
    hide Esc;
    if |path| == 1 {
      assert p[1..] == [key];
    } else {
      JoinedSnoc(path[1..], key);
    }
  }

  lemma {:induction false} JoinedSplits(path: Path)
    requires path != []
    ensures UnescapeAll(Split(Joined(path))) == Some(path)
  {
    var e := Esc(path[0]);
    assert path == [path[0]] + path[1..];
    if |path| == 1 {
      UnescapeSegment(path[0], [], []);
      hide Esc, Split;
      EscRoundTrip(path[0]);
      SplitSegment(e, "");
      assert [e] + [] == [e];
    } else {
      JoinedSplits(path[1..]);
      UnescapeSegment(path[0], Split(Joined(path[1..])), path[1..]);
      hide Esc, Split;
      EscRoundTrip(path[0]);
      SplitSegment(e, Joined(path[1..]));
    }
  }

  lemma UnescapeSegment(key: string, rest: seq<string>, path: Path)
    requires UnescapeAll(rest) == Some(path)
    ensures UnescapeAll([Esc(key)] + rest) == Some([key] + path)
  {
    EscRoundTrip(key);
    hide Esc, Unesc, WellEscaped;
    var s := [Esc(key)] + rest;
    assert s[0] == Esc(key) && s[1..] == rest;
  }

  /** Reading the pointer of a path gives the path back: empty keys, tildes and slashes included. */
  lemma PartsOfPointer(path: Path)
    ensures Parts(Pointer(path)) == Some(path)
  {
    if path != [] {
      PointerJoined(path);
      JoinedSplits(path);
      hide Pointer, Joined, UnescapeAll, Split;
      assert ("/" + Joined(path))[1..] == Joined(path);
    }
  }

  lemma {:induction false} JoinSplit(s: string)
    requires UnescapeAll(Split(s)).Some?
    ensures var path := UnescapeAll(Split(s)).value;
            path != [] && Joined(path) == s
    decreases |s|
  {
    var parts := Split(s);
    var slash := SplitHead(s);
    hide Split, Esc, Unesc, WellEscaped;
    if slash == |s| {
      assert parts[1..] == [];
      assert UnescapeAll([]) == Some([]);
    } else {
      var rest := s[slash + 1..];
      assert parts == [s[..slash]] + Split(rest);
      assert parts[1..] == Split(rest);
      JoinSplit(rest);
      assert s == s[..slash] + "/" + rest;
      var path := UnescapeAll(parts).value;
      assert path[1..] == UnescapeAll(Split(rest)).value;
    }
  }

  lemma SplitStep(s: string, k: nat)
    requires s != "" && s[0] != '/' && k <= |s| - 1
    requires k == |s| - 1 ==> Split(s[1..]) == [s[1..]]
    requires k < |s| - 1 ==> Split(s[1..]) == [s[1..][..k]] + Split(s[1..][k + 1..])
    ensures k + 1 == |s| ==> Split(s) == [s]
    ensures k + 1 < |s| ==> Split(s) == [s[..k + 1]] + Split(s[k + 2..])
  {
    assert s == [s[0]] + s[1..];
    if k + 1 < |s| {
      assert s[1..][k + 1..] == s[k + 2..];
      assert [s[0]] + s[1..][..k] == s[..k + 1];
    }
  }

  /** Position of the first slash, or the length. */
  lemma {:induction false} SplitHead(s: string) returns (slash: nat)
    ensures slash <= |s|
    ensures slash == |s| ==> Split(s) == [s]
    ensures slash < |s| ==> s[slash] == '/' && Split(s) == [s[..slash]] + Split(s[slash + 1..])
  {
    if s == "" || s[0] == '/' {
      slash := 0;
      assert s[..0] == "";
    } else {
      var k := SplitHead(s[1..]);
      SplitStep(s, k);
      slash := k + 1;
      hide Split;
    }
  }

  /** Every accepted pointer is the pointer of the path it names: no aliases. */
  lemma PointerOfParts(pointer: string)
    requires Parts(pointer).Some?
    ensures Pointer(Parts(pointer).value) == pointer
  {
    if pointer != "" {
      JoinSplit(pointer[1..]);
      PointerJoined(Parts(pointer).value);
      hide Pointer, Joined, UnescapeAll, Split;
    }
  }

  lemma PointerInjective(p: Path, q: Path)
    ensures Pointer(p) == Pointer(q) <==> p == q
  {
    PartsOfPointer(p);
    PartsOfPointer(q);
  }

  lemma PointerChild(prefix: Path, key: string)
    ensures Pointer(prefix) + "/" + Esc(key) == Pointer(prefix + [key])
  {
    assert (prefix + [key])[..|prefix|] == prefix;
  }
}
