/**
 Canonical JSON text (RFC 8785) and its reader: the layer that writes the cells of the Envelope.

 Quoting and decoding of string literals are the host's, of which one law is used: a quoted
 string decodes to itself wherever it stands.
 */
module Canonical {
  import opened Common
  import opened DecimalText
  import opened Json
  import opened JsonSource
  import opened JsonString
  import opened Flatten
  import Binary64
  import ShortestDecimal

  datatype Literals = Literals(quote: string -> string, decode: Decoder) {
    ghost predicate Lawful() {
      && (forall text :: Advances(decode, text))
      && (forall s :: |quote(s)| > 0 && quote(s)[0] == '"')
      && (forall text, i: nat, s :: Stands(text, i, quote(s)) ==> decode(text, i) == Some((s, i + |quote(s)|)))
    }
  }

  // ----- The writer -----

  ghost function NumberText(word: nat): string {
    if word < 2 * Binary64.SIGN && Binary64.Finite(word) then ShortestDecimal.TextOf(word).value else ""
  }

  ghost function Write(l: Literals, v: Json): string
    decreases v, 1, 0
  {
    match v
    case Null => "null"
    case Bool(b) => if b then "true" else "false"
    case Number(word) => NumberText(word)
    case Text(s) => l.quote(s)
    case Array(items) => "[" + (if items == [] then "]" else WriteItems(l, v, 0))
    case Object(members) =>
      "{" + (if members == map[] then "}" else WriteMembers(l, v, SortedKeys(members.Keys)))
  }

  /** The items from the i-th on, with the closing bracket. */
  ghost function WriteItems(l: Literals, v: Json, i: nat): string
    requires v.Array? && i < |v.items|
    decreases v, 0, |v.items| - i
  {
    Write(l, v.items[i]) + if i + 1 == |v.items| then "]" else "," + WriteItems(l, v, i + 1)
  }

  ghost function WriteMembers(l: Literals, v: Json, keys: seq<string>): string
    requires v.Object? && forall k :: k in keys ==> k in v.members
    decreases v, 0, |keys|
  {
    if keys == [] then "}"
    else
      l.quote(keys[0]) + ":" + Write(l, v.members[keys[0]])
      + if |keys| == 1 then "}" else "," + WriteMembers(l, v, keys[1..])
  }

  // ----- A number ends where its text does -----

  predicate EndsAt(text: string, i: nat) {
    i == |text| || (i < |text| && (text[i] == ',' || text[i] == ']' || text[i] == '}' || IsSpace(text[i])))
  }

  lemma {:induction false} DigitsInside(text: string, i: nat, t: string, k: nat)
    requires Stands(text, i, t) && EndsAt(text, i + |t|) && k <= |t|
    ensures DigitsEnd(text, i + k) == i + DigitsEnd(t, k)
    decreases |t| - k
  {
    if k < |t| {
      assert text[i + k] == text[i..i + |t|][k];
      DigitsInside(text, i, t, k + 1);
    }
  }

  lemma PartsInside(text: string, i: nat, t: string, k: nat)
    requires Stands(text, i, t) && EndsAt(text, i + |t|) && k <= |t|
    ensures SignEnd(text, i + k) == i + SignEnd(t, k)
    ensures MinusEnd(text, i + k) == i + MinusEnd(t, k)
    ensures IntegerEnd(text, i + k) == i + IntegerEnd(t, k)
  {
    DigitsInside(text, i, t, k);
    if k < |t| {
      assert text[i + k] == text[i..i + |t|][k];
    }
    hide DigitsEnd;
  }

  lemma FractionInside(text: string, i: nat, t: string, k: nat)
    requires Stands(text, i, t) && EndsAt(text, i + |t|) && k <= |t|
    ensures FractionEnd(text, i + k) == i + FractionEnd(t, k)
  {
    if k < |t| {
      assert text[i + k] == text[i..i + |t|][k];
      DigitsInside(text, i, t, k + 1);
    }
    hide DigitsEnd;
  }

  lemma ExponentInside(text: string, i: nat, t: string, k: nat)
    requires Stands(text, i, t) && EndsAt(text, i + |t|) && k <= |t|
    ensures ExponentEnd(text, i + k) == i + ExponentEnd(t, k)
  {
    if k < |t| {
      assert text[i + k] == text[i..i + |t|][k];
      PartsInside(text, i, t, k + 1);
      DigitsInside(text, i, t, SignEnd(t, k + 1));
    }
    hide DigitsEnd, SignEnd;
  }

  lemma NumberParts(t: string)
    requires IsNumber(t)
    ensures var a := MinusEnd(t, 0);
            var b := IntegerEnd(t, a);
            a < b && ExponentEnd(t, FractionEnd(t, b)) == |t|
  {
    hide MinusEnd, IntegerEnd, FractionEnd, ExponentEnd;
  }

  lemma NumberInside(text: string, i: nat, t: string)
    requires Stands(text, i, t) && EndsAt(text, i + |t|) && IsNumber(t)
    ensures NumberEnd(text, i) == i + |t|
  {
    hide *;
    var a := MinusEnd(t, 0);
    var b := IntegerEnd(t, a);
    var c := FractionEnd(t, b);
    NumberParts(t);
    PartsInside(text, i, t, 0);
    PartsInside(text, i, t, a);
    FractionInside(text, i, t, b);
    ExponentInside(text, i, t, c);
    NumberEndBy(text, i, i + a, i + b, i + c, i + |t|);
  }

  lemma NumberEndBy(text: string, i: nat, a: nat, b: nat, c: nat, j: nat)
    requires i <= |text| && MinusEnd(text, i) == a < b && IntegerEnd(text, a) == b
    requires FractionEnd(text, b) == c && ExponentEnd(text, c) == j
    ensures NumberEnd(text, i) == j
  {
    hide MinusEnd, IntegerEnd, FractionEnd, ExponentEnd;
  }

  /** Reading a printed word: the word itself, and zero for negative zero. */
  lemma WordReadsBack(word: nat)
    requires word < 2 * Binary64.SIGN && Binary64.Finite(word)
    ensures IsNumber(NumberText(word))
    ensures FloatOf(NumberText(word)) == if word == Binary64.SIGN then 0 else word
    ensures !Overflows(FloatOf(NumberText(word)))
  {
    ShortestDecimal.TextReadsBack(word);
    Binary64.FiniteFields(word);
    var text := NumberText(word);
    DenotedNonnegative(text);
    var d := Denoted(text);
    assert Abs(d) == d;
    SignedWord(word, word % Binary64.SIGN, NegativeNumber(text));
    hide *;
    Read(text, d);
  }

  lemma SignedWord(word: nat, magnitude: nat, negative: bool)
    requires word < 2 * Binary64.SIGN && magnitude == word % Binary64.SIGN && magnitude < Binary64.INF
    requires negative <==> word >= Binary64.SIGN && magnitude != 0
    ensures var w := (if negative then Binary64.SIGN else 0) + magnitude;
            w == (if word == Binary64.SIGN then 0 else word) && w % Binary64.SIGN != Binary64.INF
  {
  }

  lemma Read(text: string, d: real)
    requires IsNumber(text) && d == Denoted(text) && d >= 0.0
    ensures FloatOf(text) == (if NegativeNumber(text) then Binary64.SIGN else 0) + Binary64.NearestMagnitude(d)
  {
    hide Denoted, Binary64.NearestMagnitude, IsNumber;
  }

  // ----- The reader undoes the writer -----

  /** The value written at i is read there, up to the sign of zero, and the reading ends with it. */
  ghost predicate ReadsAt(l: Literals, text: string, i: nat, v: Json, path: Path, depth: nat)
    requires l.Lawful() && i <= |text|
  {
    var r := ParseValue(text, l.decode, i, path, depth);
    r.Success? && r.value.value == Normal(v) && r.value.end == i + |Write(l, v)|
  }

  /** A value that begins with a character of its own kind is read by that kind. */
  lemma NumberDispatch(text: string, decode: Decoder, i: nat, path: Path, depth: nat)
    requires Advances(decode, text) && i < |text| && depth <= DEPTH_LIMIT
    requires text[i] == '-' || IsDigit(text[i])
    ensures ParseValue(text, decode, i, path, depth) == ParseNumber(text, i, path)
  {
    OtherWord(text, i, "true");
    OtherWord(text, i, "false");
    OtherWord(text, i, "null");
    SpaceStays(text, i);
    hide Advances, Space, ParseNumber, ParseMembers, ParseItems, ParseString, StartsWith;
  }

  lemma OtherWord(text: string, i: nat, word: string)
    requires i < |text| && word != "" && text[i] != word[0]
    ensures !StartsWith(text, i, word)
  {
  }

  lemma NumberRead(text: string, i: nat, word: nat, path: Path)
    requires Storable(Number(word)) && Stands(text, i, NumberText(word)) && EndsAt(text, i + |NumberText(word)|)
    ensures i < |text| && (text[i] == '-' || IsDigit(text[i]))
    ensures ParseNumber(text, i, path).Success?
    ensures var r := ParseNumber(text, i, path).value;
            r.value == Normal(Number(word)) && r.end == i + |NumberText(word)|
  {
    hide *;
    StorableWord(word);
    var t := NumberText(word);
    WordReadsBack(word);
    NumberStart(t);
    StandsThere(text, i, t);
    NumberInside(text, i, t);
    LexemeRead(text, i, t, path);
    NormalWord(word);
  }

  lemma StorableWord(word: nat)
    requires Storable(Number(word))
    ensures word < 2 * Binary64.SIGN && Binary64.Finite(word)
  {
    hide Binary64.Finite;
  }

  lemma StandsThere(text: string, i: nat, t: string)
    requires Stands(text, i, t) && t != ""
    ensures i + |t| <= |text| && text[i..i + |t|] == t && text[i] == t[0]
  {
    assert text[i] == text[i..i + |t|][0];
  }

  lemma NormalWord(word: nat)
    ensures Normal(Number(word)) == Number(if word == Binary64.SIGN then 0 else word)
  {
  }

  predicate Overflows(word: nat) {
    word % Binary64.SIGN == Binary64.INF
  }

  lemma LexemeRead(text: string, i: nat, t: string, path: Path)
    requires IsNumber(t) && t != "" && i + |t| <= |text| && text[i..i + |t|] == t && NumberEnd(text, i) == i + |t|
    requires !Overflows(FloatOf(t))
    ensures ParseNumber(text, i, path) == Success(Parsed(Number(FloatOf(t)), i + |t|, [Located(path, t, i, i + |t|)]))
  {
    hide FloatOf, NumberEnd, IsNumber;
  }

  lemma NumberStart(t: string)
    requires IsNumber(t)
    ensures t != ""
    ensures t[0] == '-' || IsDigit(t[0])
  {
  }

  lemma NumberReads(l: Literals, text: string, i: nat, word: nat, path: Path, depth: nat)
    requires l.Lawful() && Storable(Number(word)) && depth <= DEPTH_LIMIT
    requires Stands(text, i, Write(l, Number(word))) && EndsAt(text, i + |Write(l, Number(word))|)
    ensures ReadsAt(l, text, i, Number(word), path, depth)
  {
    assert Write(l, Number(word)) == NumberText(word);
    assert Advances(l.decode, text);
    hide *;
    NumberRead(text, i, word, path);
    NumberDispatch(text, l.decode, i, path, depth);
    AsRead(l, text, i, Number(word), path, depth);
  }

  lemma AsRead(l: Literals, text: string, i: nat, v: Json, path: Path, depth: nat)
    requires l.Lawful() && i <= |text|
    requires var r := ParseValue(text, l.decode, i, path, depth);
             r.Success? && r.value.value == Normal(v) && r.value.end == i + |Write(l, v)|
    ensures ReadsAt(l, text, i, v, path, depth)
  {
  }

  lemma TextReads(l: Literals, text: string, i: nat, s: string, path: Path, depth: nat)
    requires l.Lawful() && depth <= DEPTH_LIMIT && Stands(text, i, l.quote(s))
    ensures ReadsAt(l, text, i, Text(s), path, depth)
  {
    assert text[i] == text[i..i + |l.quote(s)|][0];
    hide ParseNumber, ParseMembers, ParseItems, StartsWith;
  }

  lemma WordsRead(l: Literals, text: string, i: nat, v: Json, path: Path, depth: nat)
    requires l.Lawful() && depth <= DEPTH_LIMIT && (v.Null? || v.Bool?) && Stands(text, i, Write(l, v))
    ensures ReadsAt(l, text, i, v, path, depth)
  {
    assert text[i] == text[i..i + |Write(l, v)|][0];
    if text[i] != 't' {
      OtherWord(text, i, "true");
    }
    if text[i] == 'n' {
      OtherWord(text, i, "false");
    }
    hide ParseNumber, ParseMembers, ParseItems;
  }

  lemma EmptyRead(l: Literals, text: string, i: nat, v: Json, path: Path, depth: nat)
    requires l.Lawful() && depth <= DEPTH_LIMIT && (v == Array([]) || v == Object(map[]))
    requires Stands(text, i, Write(l, v))
    ensures ReadsAt(l, text, i, v, path, depth)
  {
    var t := Write(l, v);
    assert |t| == 2 && text[i] == text[i..i + 2][0] && text[i + 1] == text[i..i + 2][1];
    if v.Object? {
      assert Normal(v).members == map[];
    }
    hide ParseNumber, ParseMembers, ParseItems, StartsWith;
  }

  /** What `ParseItems` and `ParseMembers` must return for the rest of a container. */
  ghost predicate RestReads(r: Result<Parsed, SourceError>, v: Json, end: nat) {
    r.Success? && r.value.value == v && r.value.end == end
  }

  lemma {:induction false} WriteReads(l: Literals, text: string, i: nat, v: Json, path: Path, depth: nat)
    requires l.Lawful() && Storable(v) && depth <= DEPTH_LIMIT && Nests(v, DEPTH_LIMIT - depth)
    requires Stands(text, i, Write(l, v)) && EndsAt(text, i + |Write(l, v)|)
    ensures i <= |text| && ReadsAt(l, text, i, v, path, depth)
    decreases v, 1, 0
  {
    hide *;
    StandsBound(text, i, Write(l, v));
    match v {
      case Null => WordsRead(l, text, i, v, path, depth);
      case Bool(_) => WordsRead(l, text, i, v, path, depth);
      case Number(word) => NumberReads(l, text, i, word, path, depth);
      case Text(s) =>
        WriteText(l, s);
        TextReads(l, text, i, s, path, depth);
      case Array(items) =>
        if items == [] {
          EmptyRead(l, text, i, v, path, depth);
        } else {
          ArrayCase(l, text, i, v, path, depth);
        }
      case Object(members) =>
        if members == map[] {
          EmptyRead(l, text, i, v, path, depth);
        } else {
          ObjectCase(l, text, i, v, path, depth);
        }
    }
  }

  lemma StandsBound(text: string, i: nat, t: string)
    requires Stands(text, i, t)
    ensures i <= |text|
  {
  }

  lemma ArrayCase(l: Literals, text: string, i: nat, v: Json, path: Path, depth: nat)
    requires l.Lawful() && Storable(v) && depth <= DEPTH_LIMIT && Nests(v, DEPTH_LIMIT - depth)
    requires v.Array? && v.items != [] && i <= |text| && Stands(text, i, Write(l, v))
    ensures ReadsAt(l, text, i, v, path, depth)
    decreases v, 0, |v.items| + 1
  {
    hide *;
    WriteArray(l, v);
    StandsSplit(text, i, "[", WriteItems(l, v, 0));
    ItemsRead(l, text, i + 1, v, 0, path, depth);
    NormalShape(v);
    assert Normal(v).items[..0] == [];
    FirstItem(l, text, i + 1, v);
    StandsThere(text, i, "[");
    LawfulAdvances(l, text);
    ArrayDispatch(text, l.decode, i, path, depth);
    AsReadRest(l, text, i, v, path, depth);
  }

  lemma ObjectCase(l: Literals, text: string, i: nat, v: Json, path: Path, depth: nat)
    requires l.Lawful() && Storable(v) && depth <= DEPTH_LIMIT && Nests(v, DEPTH_LIMIT - depth)
    requires v.Object? && v.members != map[] && i <= |text| && Stands(text, i, Write(l, v))
    ensures ReadsAt(l, text, i, v, path, depth)
    decreases v, 0, |SortedKeys(v.members.Keys)| + 1
  {
    hide *;
    var keys := SortedKeys(v.members.Keys);
    WriteObject(l, v);
    StandsSplit(text, i, "{", WriteMembers(l, v, keys));
    MembersRead(l, text, i + 1, v, keys, map[], path, depth);
    NormalShape(v);
    WithKeysHas(map[], Normal(v).members, keys);
    FirstMember(l, text, i + 1, v, keys);
    StandsThere(text, i, "{");
    LawfulAdvances(l, text);
    ObjectDispatch(text, l.decode, i, path, depth);
    AsReadRest(l, text, i, v, path, depth);
  }

  lemma NormalShape(v: Json)
    ensures v.Array? ==> Normal(v).Array? && |Normal(v).items| == |v.items|
    ensures v.Array? ==> forall n :: 0 <= n < |v.items| ==> Normal(v).items[n] == Normal(v.items[n])
    ensures v.Array? ==> Array(Normal(v).items[..|v.items|]) == Normal(v)
    ensures v.Object? ==>
            Normal(v).Object? && Normal(v).members.Keys == v.members.Keys && Object(Normal(v).members) == Normal(v)
    ensures v.Object? ==> forall k :: k in v.members ==> Normal(v).members[k] == Normal(v.members[k])
  {
    if v.Array? {
      assert Normal(v).items[..|v.items|] == Normal(v).items;
    }
  }

  lemma AsReadRest(l: Literals, text: string, i: nat, v: Json, path: Path, depth: nat)
    requires l.Lawful() && i <= |text|
    requires RestReads(ParseValue(text, l.decode, i, path, depth), Normal(v), i + |Write(l, v)|)
    ensures ReadsAt(l, text, i, v, path, depth)
  {
  }

  lemma WriteText(l: Literals, s: string)
    ensures Write(l, Text(s)) == l.quote(s)
  {
  }

  lemma WriteArray(l: Literals, v: Json)
    requires v.Array? && v.items != []
    ensures Write(l, v) == "[" + WriteItems(l, v, 0) && |Write(l, v)| == 1 + |WriteItems(l, v, 0)|
  {
    hide WriteItems;
  }

  lemma WriteObject(l: Literals, v: Json)
    requires v.Object? && v.members != map[]
    ensures SortedKeys(v.members.Keys) != []
    ensures Write(l, v) == "{" + WriteMembers(l, v, SortedKeys(v.members.Keys))
    ensures |Write(l, v)| == 1 + |WriteMembers(l, v, SortedKeys(v.members.Keys))|
  {
    hide WriteMembers;
    var k :| k in v.members;
    assert k in SortedKeys(v.members.Keys);
  }

  lemma SpaceStays(text: string, i: nat)
    requires i < |text| && !IsSpace(text[i])
    ensures Space(text, i) == i
  {
  }

  /** The first character of a written value is no white space and closes nothing. */
  lemma WriteStart(l: Literals, v: Json)
    requires l.Lawful() && Storable(v)
    ensures Write(l, v) != ""
    ensures !IsSpace(Write(l, v)[0]) && Write(l, v)[0] != ']' && Write(l, v)[0] != '}'
  {
    match v
    case Number(word) =>
      NumberTextStart(l, word);
      hide Write, Storable;
    case Array(items) =>
      hide WriteItems;
    case Object(members) =>
      hide WriteMembers;
    case _ =>
  }

  lemma NumberTextStart(l: Literals, word: nat)
    requires Storable(Number(word))
    ensures Write(l, Number(word)) != "" && (Write(l, Number(word))[0] == '-' || IsDigit(Write(l, Number(word))[0]))
  {
    hide *;
    StorableWord(word);
    WriteNumber(l, word);
    WordReadsBack(word);
    NumberStart(NumberText(word));
  }

  lemma WriteNumber(l: Literals, word: nat)
    ensures Write(l, Number(word)) == NumberText(word)
  {
  }

  lemma ArrayDispatch(text: string, decode: Decoder, i: nat, path: Path, depth: nat)
    requires Advances(decode, text) && i + 1 < |text| && depth <= DEPTH_LIMIT
    requires text[i] == '[' && !IsSpace(text[i + 1]) && text[i + 1] != ']'
    ensures ParseValue(text, decode, i, path, depth) == ParseItems(text, decode, i + 1, path, depth, [])
  {
    SpaceStays(text, i);
    SpaceStays(text, i + 1);
    hide Advances, Space, ParseItems, ParseMembers, ParseNumber, StartsWith;
  }

  lemma ObjectDispatch(text: string, decode: Decoder, i: nat, path: Path, depth: nat)
    requires Advances(decode, text) && i + 1 < |text| && depth <= DEPTH_LIMIT
    requires text[i] == '{' && text[i + 1] == '"'
    ensures ParseValue(text, decode, i, path, depth) == ParseMembers(text, decode, i + 1, path, depth, map[])
  {
    SpaceStays(text, i);
    SpaceStays(text, i + 1);
    hide Advances, Space, ParseItems, ParseMembers, ParseNumber, StartsWith;
  }

  /** The first item begins where the brackets open. */
  lemma FirstItem(l: Literals, text: string, i: nat, v: Json)
    requires l.Lawful() && Storable(v) && v.Array? && v.items != [] && Stands(text, i, WriteItems(l, v, 0))
    ensures i < |text| && !IsSpace(text[i]) && text[i] != ']'
  {
    WriteStart(l, v.items[0]);
    WriteItemsParts(l, v, 0);
    hide Write, WriteItems, ItemsRest, IsSpace;
    assert WriteItems(l, v, 0)[0] == Write(l, v.items[0])[0];
    StandsThere(text, i, WriteItems(l, v, 0));
  }

  lemma FirstMember(l: Literals, text: string, i: nat, v: Json, keys: seq<string>)
    requires l.Lawful() && v.Object? && keys != [] && (forall k :: k in keys ==> k in v.members)
    requires Stands(text, i, WriteMembers(l, v, keys))
    ensures i < |text| && text[i] == '"'
  {
    WriteMembersParts(l, v, keys);
    hide Write, WriteMembers, MembersRest;
    assert WriteMembers(l, v, keys)[0] == l.quote(keys[0])[0];
    StandsThere(text, i, WriteMembers(l, v, keys));
  }

  /** One item read, then the rest of the items as `ParseItems` goes on. */
  lemma ItemThenRest(text: string, decode: Decoder, i: nat, items: seq<Json>, item: Json, c: nat, whole: Json, end: nat,
                     path: Path, depth: nat)
    requires Advances(decode, text) && i <= |text|
    requires RestReads(ParseValue(text, decode, i, path + [Dec(|items|)], depth + 1), item, c)
    requires c < |text| && (text[c] == ']' || text[c] == ',')
    requires text[c] == ']' ==> whole == Array(items + [item]) && end == c + 1
    requires text[c] == ',' ==> RestReads(ParseItems(text, decode, c + 1, path, depth, items + [item]), whole, end)
    ensures RestReads(ParseItems(text, decode, i, path, depth, items), whole, end)
  {
    SpaceStays(text, c);
    hide *;
    ItemsUnfold(text, decode, i, items, item, c, path, depth);
  }

  lemma ItemsUnfold(text: string, decode: Decoder, i: nat, items: seq<Json>, item: Json, c: nat, path: Path, depth: nat)
    requires Advances(decode, text) && i <= |text| && c < |text| && Space(text, c) == c
    requires RestReads(ParseValue(text, decode, i, path + [Dec(|items|)], depth + 1), item, c)
    requires text[c] == ']' || text[c] == ','
    ensures text[c] == ']' ==> RestReads(ParseItems(text, decode, i, path, depth, items), Array(items + [item]), c + 1)
    ensures text[c] == ',' ==> forall whole, end ::
              (RestReads(ParseItems(text, decode, c + 1, path, depth, items + [item]), whole, end) ==>
                 RestReads(ParseItems(text, decode, i, path, depth, items), whole, end))
  {
    hide Space, ParseValue, Advances, Dec;
  }

  ghost function ItemsRest(l: Literals, v: Json, n: nat): string
    requires v.Array? && n < |v.items|
  {
    if n + 1 == |v.items| then "]" else "," + WriteItems(l, v, n + 1)
  }

  lemma WriteItemsParts(l: Literals, v: Json, n: nat)
    requires v.Array? && n < |v.items|
    ensures WriteItems(l, v, n) == Write(l, v.items[n]) + ItemsRest(l, v, n)
    ensures n + 1 == |v.items| ==> ItemsRest(l, v, n) == "]"
    ensures n + 1 < |v.items| ==> ItemsRest(l, v, n) == "," + WriteItems(l, v, n + 1)
    ensures ItemsRest(l, v, n) != "" && ItemsRest(l, v, n)[0] == if n + 1 == |v.items| then ']' else ','
  {
    hide Write;
  }

  lemma {:induction false} ItemsRead(l: Literals, text: string, i: nat, v: Json, n: nat, path: Path, depth: nat)
    requires l.Lawful() && Storable(v) && depth <= DEPTH_LIMIT && Nests(v, DEPTH_LIMIT - depth)
    requires v.Array? && n < |v.items| && Stands(text, i, WriteItems(l, v, n))
    ensures i <= |text|
    ensures RestReads(ParseItems(text, l.decode, i, path, depth, Normal(v).items[..n]), Normal(v),
            i + |WriteItems(l, v, n)|)
    decreases v, 0, |v.items| - n
  {
    hide *;
    var item := v.items[n];
    var rest := ItemsRest(l, v, n);
    ItemBelow(v, n, depth);
    WriteItemsParts(l, v, n);
    StandsSplit(text, i, Write(l, item), rest);
    var c := i + |Write(l, item)|;
    EndsThere(text, c);
    WriteReads(l, text, i, item, path + [Dec(n)], depth + 1);
    if n + 1 < |v.items| {
      StandsSplit(text, c, ",", WriteItems(l, v, n + 1));
      ItemsRead(l, text, c + 1, v, n + 1, path, depth);
    }
    NormalShape(v);
    var items := Normal(v).items;
    assert items[..n] + [Normal(item)] == items[..n + 1];
    ReadBelow(l, text, i, item, path + [Dec(n)], depth + 1);
    LawfulAdvances(l, text);
    ItemThenRest(text, l.decode, i, items[..n], Normal(item), c, Normal(v), i + |WriteItems(l, v, n)|, path, depth);
  }

  lemma EndsThere(text: string, c: nat)
    requires c < |text| && (text[c] == ',' || text[c] == ']' || text[c] == '}')
    ensures EndsAt(text, c)
  {
  }

  lemma ItemBelow(v: Json, n: nat, depth: nat)
    requires v.Array? && n < |v.items| && Storable(v) && depth <= DEPTH_LIMIT && Nests(v, DEPTH_LIMIT - depth)
    ensures depth + 1 <= DEPTH_LIMIT && Storable(v.items[n]) && Nests(v.items[n], DEPTH_LIMIT - (depth + 1))
  {
  }

  lemma MemberBelow(v: Json, k: string, depth: nat)
    requires v.Object? && k in v.members && Storable(v) && depth <= DEPTH_LIMIT && Nests(v, DEPTH_LIMIT - depth)
    ensures depth + 1 <= DEPTH_LIMIT && Storable(v.members[k]) && Nests(v.members[k], DEPTH_LIMIT - (depth + 1))
  {
  }

  /** Members read so far, with those of the remaining keys added. */
  function WithKeys(got: map<string, Json>, m: map<string, Json>, keys: seq<string>): map<string, Json>
    requires forall k :: k in keys ==> k in m
    decreases |keys|
  {
    if keys == [] then got else WithKeys(got[keys[0] := m[keys[0]]], m, keys[1..])
  }

  lemma {:induction false} WithKeysHas(got: map<string, Json>, m: map<string, Json>, keys: seq<string>)
    requires forall k :: k in keys ==> k in m
    requires forall k :: k in got ==> k in m && got[k] == m[k]
    requires forall k :: k in m ==> k in got || k in keys
    ensures WithKeys(got, m, keys) == m
    decreases |keys|
  {
    if keys == [] {
      assert got.Keys == m.Keys;
    } else {
      forall k | k in m
        ensures k in got[keys[0] := m[keys[0]]] || k in keys[1..]
      {
        assert k in keys ==> k == keys[0] || k in keys[1..];
      }
      WithKeysHas(got[keys[0] := m[keys[0]]], m, keys[1..]);
    }
  }

  ghost function MembersRest(l: Literals, v: Json, keys: seq<string>): string
    requires v.Object? && keys != [] && forall k :: k in keys ==> k in v.members
  {
    if |keys| == 1 then "}" else "," + WriteMembers(l, v, keys[1..])
  }

  lemma WriteMembersParts(l: Literals, v: Json, keys: seq<string>)
    requires v.Object? && keys != [] && forall k :: k in keys ==> k in v.members
    ensures var rest := MembersRest(l, v, keys);
            && WriteMembers(l, v, keys) == l.quote(keys[0]) + (":" + (Write(l, v.members[keys[0]]) + rest))
            && rest != "" && rest[0] == (if |keys| == 1 then '}' else ',')
            && (|keys| == 1 ==> rest == "}")
            && (|keys| > 1 ==> rest == "," + WriteMembers(l, v, keys[1..]))
  {
    assert l.quote(keys[0]) + (":" + (Write(l, v.members[keys[0]]) + MembersRest(l, v, keys)))
        == l.quote(keys[0]) + ":" + Write(l, v.members[keys[0]]) + MembersRest(l, v, keys);
    hide Write;
  }

  /** The head of a member: its key and colon. */
  lemma KeyRead(l: Literals, text: string, i: nat, key: string)
    requires l.Lawful() && i < |text| && text[i] == '"' && l.decode(text, i) == Some((key, i + |l.quote(key)|))
    requires i + |l.quote(key)| < |text| && text[i + |l.quote(key)|] == ':'
    ensures ParseString(text, l.decode, Space(text, i)) == Success((key, i + |l.quote(key)|))
    ensures Consume(text, i + |l.quote(key)|, ':') == Success(i + |l.quote(key)| + 1)
  {
    SpaceStays(text, i);
    SpaceStays(text, i + |l.quote(key)|);
    hide Space;
  }

  /** One member read, then the rest as `ParseMembers` goes on. */
  lemma MemberThenRest(text: string, decode: Decoder, i: nat, key: string, a: nat, member: Json, c: nat, whole: Json,
      end: nat,
                       got: map<string, Json>, path: Path, depth: nat)
    requires Advances(decode, text) && i <= |text| && key !in got
    requires ParseString(text, decode, Space(text, i)) == Success((key, a)) && Consume(text, a, ':') == Success(a + 1)
    requires RestReads(ParseValue(text, decode, a + 1, path + [key], depth + 1), member, c)
    requires c < |text| && (text[c] == '}' || text[c] == ',')
    requires text[c] == '}' ==> whole == Object(got[key := member]) && end == c + 1
    requires text[c] == ',' ==>
             RestReads(ParseMembers(text, decode, c + 1, path, depth, got[key := member]), whole, end)
    ensures RestReads(ParseMembers(text, decode, i, path, depth, got), whole, end)
  {
    SpaceStays(text, c);
    hide *;
    MembersUnfold(text, decode, i, key, a, member, c, got, path, depth);
  }

  lemma MembersUnfold(text: string, decode: Decoder, i: nat, key: string, a: nat, member: Json, c: nat,
                      got: map<string, Json>, path: Path, depth: nat)
    requires Advances(decode, text) && i <= |text| && key !in got && c < |text| && Space(text, c) == c
    requires ParseString(text, decode, Space(text, i)) == Success((key, a)) && Consume(text, a, ':') == Success(a + 1)
    requires RestReads(ParseValue(text, decode, a + 1, path + [key], depth + 1), member, c)
    requires text[c] == '}' || text[c] == ','
    ensures text[c] == '}' ==>
            RestReads(ParseMembers(text, decode, i, path, depth, got), Object(got[key := member]), c + 1)
    ensures text[c] == ',' ==> forall whole, end ::
              (RestReads(ParseMembers(text, decode, c + 1, path, depth, got[key := member]), whole, end) ==>
                 RestReads(ParseMembers(text, decode, i, path, depth, got), whole, end))
  {
    hide Space, ParseValue, ParseString, Advances;
  }

  lemma {:induction false} MembersRead(l: Literals, text: string, i: nat, v: Json, keys: seq<string>,
      got: map<string, Json>, path: Path, depth: nat)
    requires l.Lawful() && Storable(v) && depth <= DEPTH_LIMIT && Nests(v, DEPTH_LIMIT - depth)
    requires v.Object? && keys != [] && (forall k :: k in keys ==> k in v.members)
    requires forall a, b :: 0 <= a < b < |keys| ==> keys[a] != keys[b]
    requires forall k :: k in keys ==> k !in got
    requires Stands(text, i, WriteMembers(l, v, keys))
    ensures i <= |text|
    ensures RestReads(ParseMembers(text, l.decode, i, path, depth, got), Object(WithKeys(got, Normal(v).members, keys)),
                      i + |WriteMembers(l, v, keys)|)
    decreases v, 0, |keys|
  {
    hide *;
    NormalShape(v);
    var key, m := keys[0], Normal(v).members;
    var a := i + |l.quote(key)|;
    var c := a + 1 + |Write(l, v.members[key])|;
    MemberBelow(v, key, depth);
    MemberStands(l, text, i, v, keys);
    KeyRead(l, text, i, key);
    WriteReads(l, text, a + 1, v.members[key], path + [key], depth + 1);
    ReadBelow(l, text, a + 1, v.members[key], path + [key], depth + 1);
    WithKeysNext(got, m, keys);
    if |keys| > 1 {
      MembersRead(l, text, c + 1, v, keys[1..], got[key := m[key]], path, depth);
    }
    LawfulAdvances(l, text);
    MemberThenRest(text, l.decode, i, key, a, Normal(v.members[key]), c, Object(WithKeys(got, m, keys)),
        i + |WriteMembers(l, v, keys)|,
                   got, path, depth);
  }

  /** Where the pieces of the first member stand, and what follows them. */
  lemma MemberStands(l: Literals, text: string, i: nat, v: Json, keys: seq<string>)
    requires l.Lawful() && v.Object? && keys != [] && (forall k :: k in keys ==> k in v.members)
    requires Stands(text, i, WriteMembers(l, v, keys))
    ensures i < |text| && text[i] == '"' && l.decode(text, i) == Some((keys[0], i + |l.quote(keys[0])|))
    ensures var member := v.members[keys[0]];
            var a := i + |l.quote(keys[0])|;
            var c := a + 1 + |Write(l, member)|;
            && c < |text| && text[a] == ':' && Stands(text, a + 1, Write(l, member)) && EndsAt(text, c)
            && text[c] == (if |keys| == 1 then '}' else ',')
            && (|keys| == 1 ==> c + 1 == i + |WriteMembers(l, v, keys)|)
            && (|keys| > 1 ==> Stands(text, c + 1, WriteMembers(l, v, keys[1..]))
                               && c + 1 + |WriteMembers(l, v, keys[1..])| == i + |WriteMembers(l, v, keys)|)
  {
    hide *;
    var key, member := keys[0], v.members[keys[0]];
    var rest := MembersRest(l, v, keys);
    WriteMembersParts(l, v, keys);
    QuoteThere(l, text, i, key, ":" + (Write(l, member) + rest));
    StandsSplit(text, i, l.quote(key), ":" + (Write(l, member) + rest));
    var a := i + |l.quote(key)|;
    StandsSplit(text, a, ":", Write(l, member) + rest);
    StandsSplit(text, a + 1, Write(l, member), rest);
    var c := a + 1 + |Write(l, member)|;
    EndsThere(text, c);
    if |keys| > 1 {
      StandsSplit(text, c, ",", WriteMembers(l, v, keys[1..]));
    }
  }

  lemma LawfulAdvances(l: Literals, text: string)
    requires l.Lawful()
    ensures Advances(l.decode, text)
  {
  }

  lemma ReadBelow(l: Literals, text: string, i: nat, v: Json, path: Path, depth: nat)
    requires l.Lawful() && i <= |text| && ReadsAt(l, text, i, v, path, depth)
    ensures RestReads(ParseValue(text, l.decode, i, path, depth), Normal(v), i + |Write(l, v)|)
  {
  }

  lemma WithKeysNext(got: map<string, Json>, m: map<string, Json>, keys: seq<string>)
    requires keys != [] && forall k :: k in keys ==> k in m
    ensures WithKeys(got, m, keys) == WithKeys(got[keys[0] := m[keys[0]]], m, keys[1..])
    ensures |keys| == 1 ==> WithKeys(got, m, keys) == got[keys[0] := m[keys[0]]]
  {
  }

  lemma QuoteThere(l: Literals, text: string, i: nat, key: string, rest: string)
    requires l.Lawful() && Stands(text, i, l.quote(key) + rest)
    ensures i < |text| && text[i] == '"' && l.decode(text, i) == Some((key, i + |l.quote(key)|))
  {
    StandsSplit(text, i, l.quote(key), rest);
    StandsThere(text, i, l.quote(key));
  }

  /** Reading a written value gives it back, with negative zero read as zero. */
  lemma ReadWrite(l: Literals, v: Json)
    requires l.Lawful() && Storable(v) && Nests(v, DEPTH_LIMIT)
    ensures var r := ParseSource(Write(l, v), l.decode);
            r.Success? && r.value.value == Normal(v)
  {
    hide *;
    WholeStands(Write(l, v));
    WriteReads(l, Write(l, v), 0, v, [], 0);
    LawfulAdvances(l, Write(l, v));
    ReadBelow(l, Write(l, v), 0, v, [], 0);
    WholeRead(Write(l, v), l.decode, Normal(v));
  }

  lemma WholeStands(text: string)
    ensures Stands(text, 0, text) && EndsAt(text, |text|)
  {
    assert text[0..|text|] == text;
  }

  lemma WholeRead(text: string, decode: Decoder, v: Json)
    requires Advances(decode, text) && RestReads(ParseValue(text, decode, 0, [], 0), v, |text|)
    ensures ParseSource(text, decode).Success? && ParseSource(text, decode).value.value == v
  {
    hide ParseValue, Advances;
  }

  // ----- The cell codec of the source -----

  ghost function Source(): Literals {
    Literals(Quote, Decode)
  }

  lemma SourceIsLawful()
    ensures Source().Lawful()
  {
    var l := Source();
    forall text
      ensures Advances(l.decode, text)
    {
    }
    forall text, i: nat, s | Stands(text, i, l.quote(s))
      ensures l.decode(text, i) == Some((s, i + |l.quote(s)|))
    {
      QuoteReads(text, i, s);
    }
    hide Quote, Decode, Stands;
  }

  /** `dump` and `load_json`: canonical text, and the reader of JSON text. */
  ghost function TextCodec(l: Literals): Codec
    requires l.Lawful()
  {
    Codec(v => Write(l, v),
          token => match ParseSource(token, l.decode)
                   case Success(r) => Some(r.value)
                   case Failure(_) => None)
  }

  /** The text layer of the source: the canonical writer and the strict parser. */
  ghost function SourceCodec(): Codec {
    SourceIsLawful();
    TextCodec(Source())
  }

  /** The law of the cell codec holds of the source's own text layer. */
  lemma TextIsFaithful(l: Literals)
    requires l.Lawful()
    ensures TextCodec(l).Faithful()
  {
    var c := TextCodec(l);
    forall v | Storable(v) && Nests(v, CELL_DEPTH)
      ensures c.load(c.dump(v)) == Some(Normal(v))
    {
      NestsDeeper(v, CELL_DEPTH, DEPTH_LIMIT);
      ReadWrite(l, v);
    }
    forall token | c.load(token).Some? && Leaf(c.load(token).value)
      ensures Storable(c.load(token).value)
    {
      LeafStorable(l, token);
    }
    forall v
      ensures c.dump(Normal(v)) == c.dump(v)
    {
      WriteNormal(l, v);
    }
    hide Write, ParseSource, Storable, Nests, Normal, Literals.Lawful;
  }

  lemma SourceIsFaithful()
    ensures SourceCodec().Faithful()
  {
    SourceIsLawful();
    hide Literals.Lawful, TextCodec, Codec.Faithful;
    TextIsFaithful(Source());
  }

  /** Writing does not tell negative zero from zero. */
  lemma {:induction false} WriteNormal(l: Literals, v: Json)
    ensures Write(l, Normal(v)) == Write(l, v)
    decreases v, 1, 0
  {
    match v
    case Number(word) =>
      Binary64.FiniteFields(Binary64.SIGN);
      Binary64.FiniteFields(0);
    case Array(items) =>
      if items != [] {
        ItemsNormal(l, v, 0);
      }
      hide WriteItems;
    case Object(members) =>
      if members == map[] {
        assert Normal(v).members == map[];
      } else {
        MembersNormal(l, v, SortedKeys(members.Keys));
        var k :| k in members;
        assert k in Normal(v).members;
      }
      hide WriteMembers;
    case _ =>
  }

  lemma {:induction false} ItemsNormal(l: Literals, v: Json, n: nat)
    requires v.Array? && n < |v.items|
    ensures WriteItems(l, Normal(v), n) == WriteItems(l, v, n)
    decreases v, 0, |v.items| - n
  {
    WriteNormal(l, v.items[n]);
    if n + 1 < |v.items| {
      ItemsNormal(l, v, n + 1);
    }
    hide Write;
  }

  lemma {:induction false} MembersNormal(l: Literals, v: Json, keys: seq<string>)
    requires v.Object? && forall k :: k in keys ==> k in v.members
    ensures WriteMembers(l, Normal(v), keys) == WriteMembers(l, v, keys)
    decreases v, 0, |keys|
  {
    if keys != [] {
      WriteNormal(l, v.members[keys[0]]);
      MembersNormal(l, v, keys[1..]);
    }
    hide Write;
  }

  lemma {:induction false} NestsDeeper(v: Json, a: nat, b: nat)
    requires Nests(v, a) && a <= b
    ensures Nests(v, b)
    decreases v
  {
    match v
    case Array(items) =>
      forall i | 0 <= i < |items|
        ensures b > 0 && Nests(items[i], b - 1)
      {
        NestsDeeper(items[i], a - 1, b - 1);
      }
    case Object(members) =>
      forall k | k in members
        ensures b > 0 && Nests(members[k], b - 1)
      {
        NestsDeeper(members[k], a - 1, b - 1);
      }
    case _ =>
  }

  /** What is read as a single part is finite. */
  lemma LeafStorable(l: Literals, token: string)
    requires l.Lawful() && ParseSource(token, l.decode).Success? && Leaf(ParseSource(token, l.decode).value.value)
    ensures Storable(ParseSource(token, l.decode).value.value)
  {
    var v := ParseSource(token, l.decode).value.value;
    assert v == ParseValue(token, l.decode, 0, [], 0).value.value;
    LawfulAdvances(l, token);
    LeafFinite(v);
    hide *;
    if v.Number? {
      ReadFinite(token, l.decode);
    }
  }

  lemma LeafFinite(v: Json)
    requires Leaf(v)
    ensures !v.Number? ==> Storable(v)
  {
  }

  lemma ReadFinite(token: string, decode: Decoder)
    requires Advances(decode, token) && ParseValue(token, decode, 0, [], 0).Success?
    requires ParseValue(token, decode, 0, [], 0).value.value.Number?
    ensures Storable(ParseValue(token, decode, 0, [], 0).value.value)
  {
    hide *;
    var j := Space(token, 0);
    var shape := ValueShape(token, decode, 0, [], 0);
    match shape
    case Plain =>
    case Members =>
      MembersFaithful(token, decode, j + 1, [], 0, map[], []);
    case Items =>
      ItemsFaithful(token, decode, j + 1, [], 0, [], []);
    case Numeral =>
      LexemeFinite(token, j);
  }

  lemma LexemeFinite(token: string, j: nat)
    requires j <= |token| && ParseNumber(token, j, []).Success?
    ensures Storable(ParseNumber(token, j, []).value.value)
  {
    var lexeme := LexemeAt(token, j);
    hide *;
    WordFinite(lexeme);
    NormalWordStorable(FloatOf(lexeme));
  }

  lemma LexemeAt(token: string, j: nat) returns (lexeme: string)
    requires j <= |token| && ParseNumber(token, j, []).Success?
    ensures IsNumber(lexeme) && !Overflows(FloatOf(lexeme))
    ensures ParseNumber(token, j, []).value.value == Number(FloatOf(lexeme))
  {
    LexemeIsNumber(token, j);
    lexeme := token[j..NumberEnd(token, j)];
    hide NumberEnd, IsNumber, FloatOf;
  }

  lemma WordFinite(lexeme: string)
    requires IsNumber(lexeme) && !Overflows(FloatOf(lexeme))
    ensures FloatOf(lexeme) < 2 * Binary64.SIGN && Binary64.Finite(FloatOf(lexeme))
  {
    hide *;
    DenotedNonnegative(lexeme);
    Read(lexeme, Denoted(lexeme));
    Binary64.NearestMagnitudeCorrect(Denoted(lexeme));
    FiniteSum(NegativeNumber(lexeme), Binary64.NearestMagnitude(Denoted(lexeme)));
  }

  lemma NormalWordStorable(word: nat)
    requires word < 2 * Binary64.SIGN && Binary64.Finite(word)
    ensures Storable(Number(word))
  {
  }

  lemma FiniteSum(negative: bool, magnitude: nat)
    requires magnitude <= Binary64.INF
    requires var word := (if negative then Binary64.SIGN else 0) + magnitude; !Overflows(word)
    ensures var word := (if negative then Binary64.SIGN else 0) + magnitude;
            word < 2 * Binary64.SIGN && Binary64.Finite(word)
  {
    var word := (if negative then Binary64.SIGN else 0) + magnitude;
    assert word < 2 * Binary64.SIGN && word % Binary64.SIGN == magnitude;
    Binary64.FiniteFields(word);
    hide Binary64.Finite;
  }
}
