/**
 The JSON source parser that keeps every number's lexeme, pointer and UTF-8 byte span.

 The grammar is given twice: as functions on the text (the specification) and as the cursor
 parser that appends to a shared token list. Decoding of string literals is the host's and is
 a parameter; it must only make progress.
 */
module JsonSource {
  import opened Common
  import opened DecimalText
  import opened Json
  import Binary64

  datatype SourceError =
    | ExpectedString
    | MalformedString
    | ExpectedDelimiter(delimiter: char)
    | TooDeep
    | UnexpectedEnd
    | DuplicateMember(key: string)
    | MalformedValue
    | OutOfRange
    | TrailingContent

  /** A number with its path, its lexeme, and where the lexeme stands in the text. */
  datatype Located = Located(path: Path, lexeme: string, start: nat, stop: nat)

  datatype Parsed = Parsed(value: Json, end: nat, numbers: seq<Located>)

  /** Decoder of the string literal that starts at a quote: the decoded text and the end. */
  type Decoder = (string, nat) -> Option<(string, nat)>

  ghost predicate Advances(decode: Decoder, text: string) {
    forall i: nat :: i < |text| && decode(text, i).Some? ==> i < decode(text, i).value.1 <= |text|
  }

  const DEPTH_LIMIT: nat := 200

  // ----- Lexical pieces -----

  predicate IsSpace(c: char) {
    c == ' ' || c == '\t' || c == '\r' || c == '\n'
  }

  function Space(text: string, i: nat): (j: nat)
    requires i <= |text|
    ensures i <= j <= |text|
    ensures j < |text| ==> !IsSpace(text[j])
    decreases |text| - i
  {
    if i < |text| && IsSpace(text[i]) then Space(text, i + 1) else i
  }

  function ParseString(text: string, decode: Decoder, i: nat): (r: Result<(string, nat), SourceError>)
    requires i <= |text| && Advances(decode, text)
    ensures r.Success? ==> i < r.value.1 <= |text|
  {
    if i >= |text| || text[i] != '"' then Failure(ExpectedString)
    else
      match decode(text, i)
      case None => Failure(MalformedString)
      case Some(s) => Success(s)
  }

  /** Optional white space, then one delimiter. */
  function Consume(text: string, i: nat, delimiter: char): (r: Result<nat, SourceError>)
    requires i <= |text|
    ensures r.Success? ==> i < r.value <= |text|
  {
    var j := Space(text, i);
    if j < |text| && text[j] == delimiter then Success(j + 1) else Failure(ExpectedDelimiter(delimiter))
  }

  predicate StartsWith(text: string, i: nat, word: string)
    requires i <= |text|
  {
    i + |word| <= |text| && text[i..i + |word|] == word
  }

  /** The binary64 word a lexeme denotes: the nearest one, with the sign of the lexeme. */
  function FloatOf(lexeme: string): nat
    requires IsNumber(lexeme)
  {
    DenotedNonnegative(lexeme);
    (if NegativeNumber(lexeme) then Binary64.SIGN else 0) + Binary64.NearestMagnitude(Denoted(lexeme))
  }

  function ParseNumber(text: string, i: nat, path: Path): (r: Result<Parsed, SourceError>)
    requires i <= |text|
    ensures r.Success? ==> i < r.value.end <= |text|
  {
    var j := NumberEnd(text, i);
    if j == i then Failure(MalformedValue)
    else
      LexemeIsNumber(text, i);
      var lexeme := text[i..j];
      var word := FloatOf(lexeme);
      if word % Binary64.SIGN == Binary64.INF then Failure(OutOfRange)
      else Success(Parsed(Number(word), j, [Located(path, lexeme, i, j)]))
  }

  // ----- Values -----

  function ParseValue(text: string, decode: Decoder, i: nat, path: Path, depth: nat): (r: Result<Parsed, SourceError>)
    requires i <= |text| && Advances(decode, text)
    ensures r.Success? ==> i < r.value.end <= |text|
    decreases |text| - i, 0
  {
    var j := Space(text, i);
    if depth > DEPTH_LIMIT then Failure(TooDeep)
    else if j >= |text| then Failure(UnexpectedEnd)
    else if text[j] == '"' then
      var (s, end) :- ParseString(text, decode, j);
      Success(Parsed(Text(s), end, []))
    else if text[j] == '{' then
      var k := Space(text, j + 1);
      if k < |text| && text[k] == '}' then Success(Parsed(Object(map[]), k + 1, []))
      else ParseMembers(text, decode, j + 1, path, depth, map[])
    else if text[j] == '[' then
      var k := Space(text, j + 1);
      if k < |text| && text[k] == ']' then Success(Parsed(Array([]), k + 1, []))
      else ParseItems(text, decode, j + 1, path, depth, [])
    else if StartsWith(text, j, "true") then Success(Parsed(Bool(true), j + 4, []))
    else if StartsWith(text, j, "false") then Success(Parsed(Bool(false), j + 5, []))
    else if StartsWith(text, j, "null") then Success(Parsed(Null, j + 4, []))
    else ParseNumber(text, j, path)
  }

  /** The loop over members, with `members` read so far; the numbers are those from here on. */
  function ParseMembers(text: string, decode: Decoder, i: nat, path: Path, depth: nat,
      members: map<string, Json>): (r: Result<Parsed, SourceError>)
    requires i <= |text| && Advances(decode, text)
    ensures r.Success? ==> i < r.value.end <= |text|
    decreases |text| - i, 1
  {
    var (key, afterKey) :- ParseString(text, decode, Space(text, i));
    if key in members then Failure(DuplicateMember(key))
    else
      var afterColon :- Consume(text, afterKey, ':');
      var member :- ParseValue(text, decode, afterColon, path + [key], depth + 1);
      var more := members[key := member.value];
      var c := Space(text, member.end);
      if c < |text| && text[c] == '}' then Success(Parsed(Object(more), c + 1, member.numbers))
      else
        var next :- Consume(text, c, ',');
        var rest :- ParseMembers(text, decode, next, path, depth, more);
        Success(rest.(numbers := member.numbers + rest.numbers))
  }

  /** The loop over items, with `items` read so far. */
  function ParseItems(text: string, decode: Decoder, i: nat, path: Path, depth: nat,
      items: seq<Json>): (r: Result<Parsed, SourceError>)
    requires i <= |text| && Advances(decode, text)
    ensures r.Success? ==> i < r.value.end <= |text|
    decreases |text| - i, 1
  {
    var item :- ParseValue(text, decode, i, path + [Dec(|items|)], depth + 1);
    var more := items + [item.value];
    var c := Space(text, item.end);
    if c < |text| && text[c] == ']' then Success(Parsed(Array(more), c + 1, item.numbers))
    else
      var next :- Consume(text, c, ',');
      var rest :- ParseItems(text, decode, next, path, depth, more);
      Success(rest.(numbers := item.numbers + rest.numbers))
  }

  // ----- A matched lexeme is a number by itself -----

  lemma {:induction false} DigitsEndSlice(text: string, i: nat, j: nat, k: nat)
    requires i <= k <= j <= |text|
    ensures DigitsEnd(text[i..j], k - i) == (if DigitsEnd(text, k) <= j then DigitsEnd(text, k) else j) - i
    decreases j - k
  {
    if k < j {
      assert text[i..j][k - i] == text[k];
      DigitsEndSlice(text, i, j, k + 1);
    }
  }

  lemma ExponentSlice(text: string, i: nat, j: nat, k: nat)
    requires i <= k <= j <= |text| && ExponentEnd(text, k) == j
    ensures ExponentEnd(text[i..j], k - i) == j - i
  {
    var s := text[i..j];
    if k < j {
      assert s[k - i] == text[k];
      if k + 1 < j {
        assert s[k + 1 - i] == text[k + 1];
      }
      DigitsEndSlice(text, i, j, SignEnd(text, k + 1));
    }
  }

  lemma FractionSlice(text: string, i: nat, j: nat, k: nat)
    requires i <= k <= j <= |text| && FractionEnd(text, k) <= j
    requires FractionEnd(text, k) == k && k < j ==> text[k] != '.'
    ensures FractionEnd(text[i..j], k - i) == FractionEnd(text, k) - i
  {
    if k < j {
      assert text[i..j][k - i] == text[k];
      if text[k] == '.' {
        DigitsEndSlice(text, i, j, k + 1);
      }
    }
  }

  lemma IntegerSlice(text: string, i: nat, j: nat, k: nat)
    requires i <= k <= j <= |text| && IntegerEnd(text, k) <= j
    ensures IntegerEnd(text[i..j], k - i) == IntegerEnd(text, k) - i
  {
    DigitsEndSlice(text, i, j, k);
    if k < j {
      assert text[i..j][k - i] == text[k];
    }
  }

  lemma MinusSlice(text: string, i: nat, j: nat)
    requires i < j <= |text|
    ensures MinusEnd(text[i..j], 0) == MinusEnd(text, i) - i
  {
    assert text[i..j][0] == text[i];
  }

  /** Where no fraction was matched, the match goes on with an exponent or stops. */
  lemma NoPoint(text: string, b: nat)
    requires b <= |text|
    ensures ExponentEnd(text, b) > b ==> text[b] != '.'
  {
  }

  lemma LexemeIsNumber(text: string, i: nat)
    requires i <= |text| && NumberEnd(text, i) > i
    ensures IsNumber(text[i..NumberEnd(text, i)])
  {
    var j := NumberEnd(text, i);
    var a := MinusEnd(text, i);
    var b := IntegerEnd(text, a);
    var c := FractionEnd(text, b);
    assert a < b && j == ExponentEnd(text, c);
    hide *;
    MinusSlice(text, i, j);
    IntegerSlice(text, i, j, a);
    NoPoint(text, b);
    FractionSlice(text, i, j, b);
    ExponentSlice(text, i, j, c);
    MatchedNumber(text[i..j], a - i, b - i, c - i);
  }

  lemma MatchedNumber(s: string, a: nat, b: nat, c: nat)
    requires a < b <= c <= |s|
    requires MinusEnd(s, 0) == a && IntegerEnd(s, a) == b && FractionEnd(s, b) == c && ExponentEnd(s, c) == |s|
    ensures IsNumber(s)
  {
    hide MinusEnd, IntegerEnd, FractionEnd, ExponentEnd;
  }

  // ----- Where the numbers stand -----

  /** The lexeme is at its place in the text, inside lo..hi. */
  ghost predicate Placed(text: string, t: Located, lo: nat, hi: nat) {
    lo <= t.start < t.stop <= hi <= |text| && text[t.start..t.stop] == t.lexeme && IsNumber(t.lexeme)
  }

  /** Lexemes in text order, without overlap. */
  ghost predicate InOrder(text: string, numbers: seq<Located>, lo: nat, hi: nat) {
    && (forall k :: 0 <= k < |numbers| ==> Placed(text, numbers[k], lo, hi))
    && (forall k, l :: 0 <= k < l < |numbers| ==> numbers[k].stop <= numbers[l].start)
  }

  lemma InOrderJoin(text: string, a: seq<Located>, b: seq<Located>, lo: nat, mid: nat, hi: nat)
    requires lo <= mid <= hi <= |text| && InOrder(text, a, lo, mid) && InOrder(text, b, mid, hi)
    ensures InOrder(text, a + b, lo, hi)
  {
    var s := a + b;
    hide IsNumber;
    forall k | 0 <= k < |s|
      ensures Placed(text, s[k], lo, hi)
    {
      assert Placed(text, if k < |a| then a[k] else b[k - |a|], if k < |a| then lo else mid,
          if k < |a| then mid else hi);
    }
    forall k, l | 0 <= k < l < |s|
      ensures s[k].stop <= s[l].start
    {
      if k < |a| <= l {
        assert Placed(text, a[k], lo, mid) && Placed(text, b[l - |a|], mid, hi);
      }
    }
  }

  lemma InOrderWider(text: string, a: seq<Located>, lo: nat, hi: nat, lo': nat, hi': nat)
    requires lo' <= lo && hi <= hi' <= |text| && InOrder(text, a, lo, hi)
    ensures InOrder(text, a, lo', hi')
  {
    hide IsNumber;
    forall k | 0 <= k < |a|
      ensures Placed(text, a[k], lo', hi')
    {
      assert Placed(text, a[k], lo, hi);
    }
  }

  lemma NumberInOrder(text: string, i: nat, path: Path)
    requires i <= |text| && ParseNumber(text, i, path).Success?
    ensures var r := ParseNumber(text, i, path).value;
            InOrder(text, r.numbers, i, r.end)
  {
    LexemeIsNumber(text, i);
    hide IsNumber, NumberEnd, FloatOf;
  }

  /** The shapes a parsed value can have: no number inside, members, items or one number. */
  datatype Shape = Plain | Members | Items | Numeral

  lemma ValueShape(text: string, decode: Decoder, i: nat, path: Path, depth: nat) returns (shape: Shape)
    requires i <= |text| && Advances(decode, text)
    requires ParseValue(text, decode, i, path, depth).Success?
    ensures var j := Space(text, i);
            var parsed := ParseValue(text, decode, i, path, depth);
            && j < |text|
            && (shape.Plain? ==>
                  && parsed.value.numbers == [] && !parsed.value.value.Number?
                  && (parsed.value.value.Object? ==> parsed.value.value.members == map[])
                  && (parsed.value.value.Array? ==> parsed.value.value.items == []))
            && (shape.Members? ==> ParseMembers(text, decode, j + 1, path, depth, map[]) == parsed)
            && (shape.Items? ==> ParseItems(text, decode, j + 1, path, depth, []) == parsed)
            && (shape.Numeral? ==> ParseNumber(text, j, path) == parsed)
  {
    hide Advances, ParseNumber, ParseMembers, ParseItems, ParseString, StartsWith, Space;
    var j := Space(text, i);
    if text[j] == '{' {
      var k := Space(text, j + 1);
      shape := if k < |text| && text[k] == '}' then Plain else Members;
    } else if text[j] == '[' {
      var k := Space(text, j + 1);
      shape := if k < |text| && text[k] == ']' then Plain else Items;
    } else if text[j] == '"' || StartsWith(text, j, "true") || StartsWith(text, j, "false")
        || StartsWith(text, j, "null") {
      shape := Plain;
    } else {
      shape := Numeral;
    }
  }

  lemma {:induction false} ValueInOrder(text: string, decode: Decoder, i: nat, path: Path, depth: nat)
    requires i <= |text| && Advances(decode, text)
    requires ParseValue(text, decode, i, path, depth).Success?
    ensures var r := ParseValue(text, decode, i, path, depth).value;
            InOrder(text, r.numbers, i, r.end)
    decreases |text| - i, 0
  {
    hide *;
    var j := Space(text, i);
    var r := ParseValue(text, decode, i, path, depth).value;
    var shape := ValueShape(text, decode, i, path, depth);
    match shape
    case Plain =>
      NoNumbers(text, i, r.end);
    case Members =>
      MembersInOrder(text, decode, j + 1, path, depth, map[]);
      InOrderWider(text, r.numbers, j + 1, r.end, i, r.end);
    case Items =>
      ItemsInOrder(text, decode, j + 1, path, depth, []);
      InOrderWider(text, r.numbers, j + 1, r.end, i, r.end);
    case Numeral =>
      NumberInOrder(text, j, path);
      InOrderWider(text, r.numbers, j, r.end, i, r.end);
  }

  lemma NoNumbers(text: string, lo: nat, hi: nat)
    ensures InOrder(text, [], lo, hi)
  {
  }

  lemma {:induction false} MembersInOrder(text: string, decode: Decoder, i: nat, path: Path, depth: nat,
      members: map<string, Json>)
    requires i <= |text| && Advances(decode, text)
    requires ParseMembers(text, decode, i, path, depth, members).Success?
    ensures var r := ParseMembers(text, decode, i, path, depth, members).value;
            InOrder(text, r.numbers, i, r.end)
    decreases |text| - i, 1
  {
    var r := ParseMembers(text, decode, i, path, depth, members).value;
    var (key, afterKey) := ParseString(text, decode, Space(text, i)).value;
    var afterColon := Consume(text, afterKey, ':').value;
    var member := ParseValue(text, decode, afterColon, path + [key], depth + 1).value;
    var more := members[key := member.value];
    var c := Space(text, member.end);
    hide Advances, InOrder, ParseValue, ParseString, Space;
    ValueInOrder(text, decode, afterColon, path + [key], depth + 1);
    InOrderWider(text, member.numbers, afterColon, member.end, i, c);
    if c < |text| && text[c] == '}' {
      InOrderWider(text, member.numbers, i, c, i, c + 1);
    } else {
      var next := Consume(text, c, ',').value;
      MembersInOrder(text, decode, next, path, depth, more);
      var rest := ParseMembers(text, decode, next, path, depth, more).value;
      InOrderWider(text, rest.numbers, next, rest.end, c, rest.end);
      InOrderJoin(text, member.numbers, rest.numbers, i, c, rest.end);
    }
  }

  lemma {:induction false} ItemsInOrder(text: string, decode: Decoder, i: nat, path: Path, depth: nat, items: seq<Json>)
    requires i <= |text| && Advances(decode, text)
    requires ParseItems(text, decode, i, path, depth, items).Success?
    ensures var r := ParseItems(text, decode, i, path, depth, items).value;
            InOrder(text, r.numbers, i, r.end)
    decreases |text| - i, 1
  {
    var item := ParseValue(text, decode, i, path + [Dec(|items|)], depth + 1).value;
    var more := items + [item.value];
    var c := Space(text, item.end);
    hide Advances, InOrder, ParseValue, ParseString, Space;
    ValueInOrder(text, decode, i, path + [Dec(|items|)], depth + 1);
    InOrderWider(text, item.numbers, i, item.end, i, c);
    if c < |text| && text[c] == ']' {
      InOrderWider(text, item.numbers, i, c, i, c + 1);
    } else {
      var next := Consume(text, c, ',').value;
      ItemsInOrder(text, decode, next, path, depth, more);
      var rest := ParseItems(text, decode, next, path, depth, more).value;
      InOrderWider(text, rest.numbers, next, rest.end, c, rest.end);
      InOrderJoin(text, item.numbers, rest.numbers, i, c, rest.end);
    }
  }

  // ----- What the numbers are -----

  /** The part of v at p, v standing at path, is a number. */
  ghost predicate NumberPart(v: Json, path: Path, p: Path) {
    path <= p && At(v, p[|path|..]).Some? && At(v, p[|path|..]).value.Number?
  }

  /** The lexeme's number is the part of v at the lexeme's path. */
  ghost predicate Denotes(v: Json, path: Path, t: Located) {
    && path <= t.path && IsNumber(t.lexeme)
    && At(v, t.path[|path|..]) == Some(Number(FloatOf(t.lexeme)))
  }

  ghost predicate AllDenote(v: Json, path: Path, numbers: seq<Located>) {
    forall k :: 0 <= k < |numbers| ==> Denotes(v, path, numbers[k])
  }

  ghost function Occurrences(numbers: seq<Located>, p: Path): nat {
    if numbers == [] then 0 else (if numbers[0].path == p then 1 else 0) + Occurrences(numbers[1..], p)
  }

  lemma {:induction false} OccurrencesJoin(a: seq<Located>, b: seq<Located>, p: Path)
    ensures Occurrences(a + b, p) == Occurrences(a, p) + Occurrences(b, p)
  {
    if a == [] {
      assert a + b == b;
    } else {
      assert (a + b)[1..] == a[1..] + b;
      OccurrencesJoin(a[1..], b, p);
    }
  }

  /** Every number part below `path` has exactly one entry, and entries denote their parts. */
  ghost predicate Faithful(v: Json, path: Path, numbers: seq<Located>, p: Path) {
    AllDenote(v, path, numbers) && Occurrences(numbers, p) == Once(NumberPart(v, path, p))
  }

  /** The same for the members, or items, read from some point on: `keys` says which keys those are. */
  ghost predicate FaithfulBelow(v: Json, path: Path, keys: set<string>, numbers: seq<Located>, p: Path) {
    && AllDenote(v, path, numbers)
    && Occurrences(numbers, p) == Once(NumberPart(v, path, p) && |p| > |path| && p[|path|] in keys)
  }

  lemma ScalarFaithful(v: Json, path: Path, p: Path)
    requires !v.Array? && !v.Object? && !v.Number?
    ensures Faithful(v, path, [], p)
  {
    if path <= p && p[|path|..] != [] {
      assert At(v, p[|path|..]).None?;
    }
  }

  lemma EmptyFaithful(path: Path, p: Path)
    ensures Faithful(Object(map[]), path, [], p) && Faithful(Array([]), path, [], p)
  {
    if path <= p && p[|path|..] != [] {
      assert At(Object(map[]), p[|path|..]).None?;
      assert At(Array([]), p[|path|..]).None?;
    }
  }

  lemma NumberFaithful(text: string, i: nat, path: Path, p: Path)
    requires i <= |text| && ParseNumber(text, i, path).Success?
    ensures var r := ParseNumber(text, i, path).value;
            r.value.Number? && Faithful(r.value, path, r.numbers, p)
  {
    LexemeIsNumber(text, i);
    var r := ParseNumber(text, i, path).value;
    hide IsNumber, NumberEnd, FloatOf;
    assert path[|path|..] == [];
    assert At(r.value, []) == Some(r.value);
    if path <= p && p != path {
      assert p[|path|..] != [];
      assert At(r.value, p[|path|..]).None?;
    }
    assert Occurrences(r.numbers[1..], p) == 0;
  }

  /** Entries of a child are entries of its parent, at the same paths. */
  lemma ChildFaithful(v: Json, path: Path, key: string, child: Json, numbers: seq<Located>, p: Path)
    requires forall q: Path :: At(v, [key] + q) == At(child, q)
    requires Faithful(child, path + [key], numbers, p)
    ensures FaithfulBelow(v, path, {key}, numbers, p)
  {
    hide At, IsNumber, FloatOf;
    forall k | 0 <= k < |numbers|
      ensures Denotes(v, path, numbers[k])
    {
      var t := numbers[k];
      assert Denotes(child, path + [key], t);
      Through(path, key, t.path);
    }
    Through(path, key, p);
  }

  lemma Through(path: Path, key: string, q: Path)
    ensures path + [key] <= q <==> path <= q && |q| > |path| && q[|path|] == key
    ensures path + [key] <= q ==> q[|path|..] == [key] + q[|path + [key]|..]
  {
    if path + [key] <= q {
      assert q[..|path| + 1] == path + [key];
      assert q[|path|] == (path + [key])[|path|];
    }
    if path <= q && |q| > |path| && q[|path|] == key {
      assert q[..|path| + 1] == path + [key];
    }
  }

  lemma JoinFaithful(v: Json, path: Path, a: set<string>, b: set<string>, x: seq<Located>, y: seq<Located>, p: Path)
    requires a !! b && FaithfulBelow(v, path, a, x, p) && FaithfulBelow(v, path, b, y, p)
    ensures FaithfulBelow(v, path, a + b, x + y, p)
  {
    hide NumberPart, Denotes;
    OccurrencesJoin(x, y, p);
    assert forall k :: 0 <= k < |x + y| ==> (x + y)[k] == if k < |x| then x[k] else y[k - |x|];
  }

  /** All keys are fresh: the container itself is faithful. */
  lemma WholeFaithful(v: Json, path: Path, keys: set<string>, numbers: seq<Located>, p: Path)
    requires v.Array? || v.Object?
    requires forall k: string, q: Path :: At(v, [k] + q).Some? ==> k in keys
    requires FaithfulBelow(v, path, keys, numbers, p)
    ensures Faithful(v, path, numbers, p)
  {
    var q := if path <= p then p[|path|..] else [""];
    assert q == [] ==> At(v, q) == Some(v);
    if NumberPart(v, path, p) {
      assert q == [q[0]] + q[1..];
      assert At(v, [q[0]] + q[1..]).Some?;
      assert q[0] == p[|path|];
    }
    hide At, Denotes;
  }

  lemma {:induction false} ValueFaithful(text: string, decode: Decoder, i: nat, path: Path, depth: nat, p: Path)
    requires i <= |text| && Advances(decode, text)
    requires ParseValue(text, decode, i, path, depth).Success?
    ensures var r := ParseValue(text, decode, i, path, depth).value;
            Faithful(r.value, path, r.numbers, p)
    decreases |text| - i, 0
  {
    hide *;
    var j := Space(text, i);
    var r := ParseValue(text, decode, i, path, depth).value;
    var shape := ValueShape(text, decode, i, path, depth);
    match shape
    case Plain =>
      PlainFaithful(r.value, path, p);
    case Members =>
      var none: map<string, Json> := map[];
      MembersFaithful(text, decode, j + 1, path, depth, none, p);
      assert r.value.members.Keys - none.Keys == r.value.members.Keys;
      AllMembersFaithful(r.value, path, r.numbers, p);
    case Items =>
      ItemsFaithful(text, decode, j + 1, path, depth, [], p);
      AllItemsFaithful(r.value, path, r.numbers, p);
    case Numeral =>
      NumberFaithful(text, j, path, p);
  }

  lemma PlainFaithful(v: Json, path: Path, p: Path)
    requires !v.Number? && (v.Object? ==> v.members == map[]) && (v.Array? ==> v.items == [])
    ensures Faithful(v, path, [], p)
  {
    EmptyFaithful(path, p);
    if !v.Object? && !v.Array? {
      ScalarFaithful(v, path, p);
    }
  }

  lemma AllMembersFaithful(v: Json, path: Path, numbers: seq<Located>, p: Path)
    requires v.Object? && FaithfulBelow(v, path, v.members.Keys, numbers, p)
    ensures Faithful(v, path, numbers, p)
  {
    hide FaithfulBelow, Faithful;
    forall k: string, q: Path | At(v, [k] + q).Some?
      ensures k in v.members.Keys
    {
      AtMember(v.members, k, q);
    }
    WholeFaithful(v, path, v.members.Keys, numbers, p);
  }

  lemma {:induction false} MembersFaithful(text: string, decode: Decoder, i: nat, path: Path, depth: nat,
      members: map<string, Json>, p: Path)
    requires i <= |text| && Advances(decode, text)
    requires ParseMembers(text, decode, i, path, depth, members).Success?
    ensures var r := ParseMembers(text, decode, i, path, depth, members).value;
            && r.value.Object? && (forall k ::
                k in members ==> k in r.value.members && r.value.members[k] == members[k])
            && FaithfulBelow(r.value, path, r.value.members.Keys - members.Keys, r.numbers, p)
    decreases |text| - i, 1
  {
    var r := ParseMembers(text, decode, i, path, depth, members).value;
    var (key, afterKey) := ParseString(text, decode, Space(text, i)).value;
    var afterColon := Consume(text, afterKey, ':').value;
    var member := ParseValue(text, decode, afterColon, path + [key], depth + 1).value;
    var more := members[key := member.value];
    var c := Space(text, member.end);
    hide Advances, Faithful, FaithfulBelow, ParseValue, ParseString, Space;
    ValueFaithful(text, decode, afterColon, path + [key], depth + 1, p);
    if c < |text| && text[c] == '}' {
      hide ParseMembers, Consume;
      LastMember(r.value, path, key, member, members, p);
    } else {
      var next := Consume(text, c, ',').value;
      MembersFaithful(text, decode, next, path, depth, more, p);
      var rest := ParseMembers(text, decode, next, path, depth, more).value;
      hide ParseMembers, Consume;
      MemberThenRest(r.value, path, key, member, members, rest.numbers, p);
    }
  }

  lemma LastMember(v: Json, path: Path, key: string, member: Parsed, members: map<string, Json>, p: Path)
    requires v == Object(members[key := member.value]) && key !in members
    requires Faithful(member.value, path + [key], member.numbers, p)
    ensures forall k :: k in members ==> k in v.members && v.members[k] == members[k]
    ensures FaithfulBelow(v, path, v.members.Keys - members.Keys, member.numbers, p)
  {
    hide Faithful, FaithfulBelow;
    assert v.members.Keys - members.Keys == {key};
    MemberFaithful(v, path, key, member.numbers, p);
  }

  lemma MemberThenRest(v: Json, path: Path, key: string, member: Parsed, members: map<string, Json>,
      rest: seq<Located>, p: Path)
    requires v.Object? && key in v.members && v.members[key] == member.value && key !in members
    requires Faithful(member.value, path + [key], member.numbers, p)
    requires FaithfulBelow(v, path, v.members.Keys - members[key := member.value].Keys, rest, p)
    ensures FaithfulBelow(v, path, v.members.Keys - members.Keys, member.numbers + rest, p)
  {
    hide Faithful, FaithfulBelow;
    var others := v.members.Keys - members[key := member.value].Keys;
    assert v.members.Keys - members.Keys == {key} + others;
    MemberFaithful(v, path, key, member.numbers, p);
    JoinFaithful(v, path, {key}, others, member.numbers, rest, p);
  }

  lemma MemberFaithful(v: Json, path: Path, key: string, numbers: seq<Located>, p: Path)
    requires v.Object? && key in v.members && Faithful(v.members[key], path + [key], numbers, p)
    ensures FaithfulBelow(v, path, {key}, numbers, p)
  {
    hide Faithful, FaithfulBelow;
    forall q: Path
      ensures At(v, [key] + q) == At(v.members[key], q)
    {
      AtMember(v.members, key, q);
    }
    ChildFaithful(v, path, key, v.members[key], numbers, p);
  }

  /** The index keys lo, ..., hi - 1. */
  ghost function IndexKeys(lo: nat, hi: nat): set<string> {
    set i | lo <= i < hi :: Dec(i)
  }

  lemma IndexKeysNext(lo: nat, hi: nat)
    requires lo < hi
    ensures IndexKeys(lo, hi) == {Dec(lo)} + IndexKeys(lo + 1, hi)
    ensures Dec(lo) !in IndexKeys(lo + 1, hi)
  {
    hide Dec;
    if Dec(lo) in IndexKeys(lo + 1, hi) {
      var i :| lo + 1 <= i < hi && Dec(i) == Dec(lo);
      DecInjective(i, lo);
    }
  }

  lemma AllItemsFaithful(v: Json, path: Path, numbers: seq<Located>, p: Path)
    requires v.Array? && FaithfulBelow(v, path, IndexKeys(0, |v.items|), numbers, p)
    ensures Faithful(v, path, numbers, p)
  {
    hide FaithfulBelow, Faithful, Dec;
    forall k: string, q: Path | At(v, [k] + q).Some?
      ensures k in IndexKeys(0, |v.items|)
    {
      assert ([k] + q)[0] == k;
    }
    WholeFaithful(v, path, IndexKeys(0, |v.items|), numbers, p);
  }

  lemma ItemFaithful(v: Json, path: Path, n: nat, numbers: seq<Located>, p: Path)
    requires v.Array? && n < |v.items| && Faithful(v.items[n], path + [Dec(n)], numbers, p)
    ensures FaithfulBelow(v, path, {Dec(n)}, numbers, p)
  {
    hide Faithful, FaithfulBelow, Dec;
    forall q: Path
      ensures At(v, [Dec(n)] + q) == At(v.items[n], q)
    {
      AtIndex(v.items, n, q);
    }
    ChildFaithful(v, path, Dec(n), v.items[n], numbers, p);
  }

  lemma {:induction false} ItemsFaithful(text: string, decode: Decoder, i: nat, path: Path, depth: nat,
      items: seq<Json>, p: Path)
    requires i <= |text| && Advances(decode, text)
    requires ParseItems(text, decode, i, path, depth, items).Success?
    ensures var r := ParseItems(text, decode, i, path, depth, items).value;
            && r.value.Array? && items < r.value.items
            && FaithfulBelow(r.value, path, IndexKeys(|items|, |r.value.items|), r.numbers, p)
    decreases |text| - i, 1
  {
    var r := ParseItems(text, decode, i, path, depth, items).value;
    var n := |items|;
    var item := ParseValue(text, decode, i, path + [Dec(n)], depth + 1).value;
    var more := items + [item.value];
    var c := Space(text, item.end);
    hide Advances, Faithful, FaithfulBelow, ParseValue, Space, Dec, IndexKeys;
    ValueFaithful(text, decode, i, path + [Dec(n)], depth + 1, p);
    if c < |text| && text[c] == ']' {
      NoIndexKeys(n + 1);
    } else {
      var next := Consume(text, c, ',').value;
      ItemsFaithful(text, decode, next, path, depth, more, p);
    }
    assert r.value.items[n] == item.value;
    IndexKeysNext(n, |r.value.items|);
    ItemFaithful(r.value, path, n, item.numbers, p);
    if c < |text| && text[c] == ']' {
      assert {Dec(n)} + {} == {Dec(n)};
    } else {
      var rest := ParseItems(text, decode, Consume(text, c, ',').value, path, depth, more).value;
      JoinFaithful(r.value, path, {Dec(n)}, IndexKeys(n + 1, |r.value.items|), item.numbers, rest.numbers, p);
    }
  }

  lemma NoIndexKeys(n: nat)
    ensures IndexKeys(n, n) == {}
  {
  }

  // ----- The whole source, and its bytes -----

  function ParseSource(text: string, decode: Decoder): Result<Parsed, SourceError>
    requires Advances(decode, text)
  {
    var r :- ParseValue(text, decode, 0, [], 0);
    if Space(text, r.end) != |text| then Failure(TrailingContent) else Success(r)
  }

  /** The UTF-8 bytes of a character. */
  function Utf8(c: char): (bytes: seq<nat>)
    ensures |bytes| >= 1
  {
    var n := c as nat;
    if n < 0x80 then [n]
    else if n < 0x800 then [0xC0 + n / 0x40, 0x80 + n % 0x40]
    else if n < 0x1_0000 then [0xE0 + n / 0x1000, 0x80 + n / 0x40 % 0x40, 0x80 + n % 0x40]
    else [0xF0 + n / 0x4_0000, 0x80 + n / 0x1000 % 0x40, 0x80 + n / 0x40 % 0x40, 0x80 + n % 0x40]
  }

  /** The four forms of section 3 of RFC 3629: their lengths, their lead and continuation bytes, their payload. */
  lemma Utf8Form(c: char)
    ensures var b, n := Utf8(c), c as int;
            && (forall k :: 1 <= k < |b| ==> 0x80 <= b[k] <= 0xBF)
            && (n <= 0x7F ==> |b| == 1 && b[0] == n)
            && (0x80 <= n <= 0x7FF ==> |b| == 2 && 0xC2 <= b[0] <= 0xDF && n == 64 * (b[0] - 0xC0) + (b[1] - 0x80))
            && (0x800 <= n <= 0xFFFF ==>
                  |b| == 3 && 0xE0 <= b[0] <= 0xEF
                  && n == 4096 * (b[0] - 0xE0) + 64 * (b[1] - 0x80) + (b[2] - 0x80))
            && (n >= 0x1_0000 ==>
                  |b| == 4 && 0xF0 <= b[0] <= 0xF4
                  && n == 262144 * (b[0] - 0xF0) + 4096 * (b[1] - 0x80) + 64 * (b[2] - 0x80) + (b[3] - 0x80))
  {
    var n := c as int;
    assert n / 0x1000 == n / 0x40 / 0x40 && n / 0x4_0000 == n / 0x40 / 0x40 / 0x40;
  }

  function Encode(text: string): seq<nat> {
    if text == "" then [] else Encode(text[..|text| - 1]) + Utf8(text[|text| - 1])
  }

  lemma {:induction false} EncodeJoin(a: string, b: string)
    ensures Encode(a + b) == Encode(a) + Encode(b)
  {
    hide Utf8;
    if b == "" {
      assert a + b == a;
    } else {
      var c := b[..|b| - 1];
      assert (a + b)[..|a + b| - 1] == a + c;
      EncodeJoin(a, c);
    }
  }

  /** Byte position of the i-th character. */
  function PositionOf(text: string, offset: nat, i: nat): nat
    requires i <= |text|
  {
    offset + |Encode(text[..i])|
  }

  /** The bytes between two character positions are the encoding of the characters between them. */
  lemma BytesBetween(text: string, offset: nat, i: nat, j: nat)
    requires i <= j <= |text|
    ensures PositionOf(text, offset, |text|) == offset + |Encode(text)|
    ensures offset <= PositionOf(text, offset, i) <= PositionOf(text, offset, j) <= offset + |Encode(text)|
    ensures i < j ==> PositionOf(text, offset, i) < PositionOf(text, offset, j)
    ensures Encode(text)[PositionOf(text, offset, i) - offset..PositionOf(text, offset, j) - offset]
            == Encode(text[i..j])
  {
    assert text[..i] + text[i..j] == text[..j];
    assert text[..j] + text[j..] == text;
    assert text[..|text|] == text;
    EncodeJoin(text[..i], text[i..j]);
    EncodeJoin(text[..j], text[j..]);
    if i < j {
      EncodeNonempty(text[i..j]);
    }
    hide Encode;
  }

  lemma EncodeNonempty(s: string)
    requires s != ""
    ensures Encode(s) != []
  {
    hide Utf8;
  }

  datatype NumberToken = NumberToken(pointer: string, lexeme: string, start: nat, end: nat)

  ghost function TokenOf(text: string, offset: nat, t: Located): NumberToken
    requires t.start <= |text| && t.stop <= |text|
  {
    NumberToken(Pointer(t.path), t.lexeme, PositionOf(text, offset, t.start), PositionOf(text, offset, t.stop))
  }

  ghost predicate Inside(text: string, numbers: seq<Located>) {
    forall k :: 0 <= k < |numbers| ==> numbers[k].start <= |text| && numbers[k].stop <= |text|
  }

  ghost function TokensOf(text: string, offset: nat, numbers: seq<Located>): (tokens: seq<NumberToken>)
    requires Inside(text, numbers)
    ensures |tokens| == |numbers|
    ensures forall k :: 0 <= k < |tokens| ==> tokens[k] == TokenOf(text, offset, numbers[k])
  {
    seq(|numbers|, k requires 0 <= k < |numbers| => TokenOf(text, offset, numbers[k]))
  }

  /** The token's byte span extracts its lexeme, and its pointer resolves to the number it denotes. */
  ghost predicate TokenFaithful(raw: seq<nat>, value: Json, t: NumberToken) {
    && t.start < t.end <= |raw| && raw[t.start..t.end] == Encode(t.lexeme)
    && IsNumber(t.lexeme)
    && Parts(t.pointer).Some?
    && At(value, Parts(t.pointer).value) == Some(Number(FloatOf(t.lexeme)))
  }

  ghost function PointerCount(tokens: seq<NumberToken>, pointer: string): nat {
    if tokens == [] then 0 else (if tokens[0].pointer == pointer then 1 else 0) + PointerCount(tokens[1..], pointer)
  }

  lemma {:induction false} CountsAgree(text: string, offset: nat, numbers: seq<Located>, p: Path)
    requires Inside(text, numbers)
    ensures PointerCount(TokensOf(text, offset, numbers), Pointer(p)) == Occurrences(numbers, p)
  {
    hide Pointer;
    if numbers != [] {
      CountsAgree(text, offset, numbers[1..], p);
      PointerInjective(numbers[0].path, p);
      assert TokensOf(text, offset, numbers)[1..] == TokensOf(text, offset, numbers[1..]);
    }
  }

  /**
   Every accepted source: tokens are faithful, in byte order without overlap, and in bijection
   with the number parts of the value.
   */
  lemma SourceTokens(raw: seq<nat>, text: string, decode: Decoder, offset: nat)
    requires Advances(decode, text) && ParseSource(text, decode).Success?
    requires offset + |Encode(text)| <= |raw| && raw[offset..offset + |Encode(text)|] == Encode(text)
    ensures var r := ParseSource(text, decode).value;
            && Inside(text, r.numbers)
            && var tokens := TokensOf(text, offset, r.numbers);
            && (forall k :: 0 <= k < |tokens| ==> TokenFaithful(raw, r.value, tokens[k]))
            && (forall k, l :: 0 <= k < l < |tokens| ==> tokens[k].end <= tokens[l].start)
            && (forall p: Path :: PointerCount(tokens, Pointer(p)) == Once(NumberPart(r.value, [], p)))
  {
    var r := ParseSource(text, decode).value;
    ValueInOrder(text, decode, 0, [], 0);
    InOrderInside(text, r.numbers, r.end);
    hide ParseValue, ParseSource, Advances;
    var tokens := TokensOf(text, offset, r.numbers);
    forall k | 0 <= k < |tokens|
      ensures TokenFaithful(raw, r.value, tokens[k])
    {
      FaithfulToken(raw, text, decode, offset, k);
    }
    forall k, l | 0 <= k < l < |tokens|
      ensures tokens[k].end <= tokens[l].start
    {
      BytesBetween(text, offset, r.numbers[k].stop, r.numbers[l].start);
    }
    forall p: Path
      ensures PointerCount(tokens, Pointer(p)) == Once(NumberPart(r.value, [], p))
    {
      CountsAgree(text, offset, r.numbers, p);
      SourceFaithful(text, decode, p);
    }
  }

  lemma InOrderInside(text: string, numbers: seq<Located>, end: nat)
    requires end <= |text| && InOrder(text, numbers, 0, end)
    ensures Inside(text, numbers)
  {
    forall k | 0 <= k < |numbers|
      ensures numbers[k].start <= |text| && numbers[k].stop <= |text|
    {
      assert Placed(text, numbers[k], 0, end);
    }
  }

  lemma SourceFaithful(text: string, decode: Decoder, p: Path)
    requires Advances(decode, text) && ParseSource(text, decode).Success?
    ensures Faithful(ParseSource(text, decode).value.value, [], ParseSource(text, decode).value.numbers, p)
  {
    hide ParseValue, Faithful, Advances;
    ValueFaithful(text, decode, 0, [], 0, p);
  }

  lemma FaithfulToken(raw: seq<nat>, text: string, decode: Decoder, offset: nat, k: nat)
    requires Advances(decode, text) && ParseSource(text, decode).Success?
    requires offset + |Encode(text)| <= |raw| && raw[offset..offset + |Encode(text)|] == Encode(text)
    requires k < |ParseSource(text, decode).value.numbers|
    requires Inside(text, ParseSource(text, decode).value.numbers)
    ensures var r := ParseSource(text, decode).value;
            TokenFaithful(raw, r.value, TokenOf(text, offset, r.numbers[k]))
  {
    var r := ParseSource(text, decode).value;
    var t := r.numbers[k];
    LocatedFacts(text, decode, k);
    hide *;
    SpanExtracts(raw, text, offset, t.start, t.stop);
    PointerResolves(r.value, t);
  }

  lemma LocatedFacts(text: string, decode: Decoder, k: nat)
    requires Advances(decode, text) && ParseSource(text, decode).Success?
    requires k < |ParseSource(text, decode).value.numbers|
    ensures var r := ParseSource(text, decode).value;
            var t := r.numbers[k];
            && t.start < t.stop <= |text| && text[t.start..t.stop] == t.lexeme && Denotes(r.value, [], t)
  {
    var r := ParseSource(text, decode).value;
    ValueInOrder(text, decode, 0, [], 0);
    SourceFaithful(text, decode, r.numbers[k].path);
    hide Advances, ParseValue, Denotes, IsNumber, Space;
    assert Placed(text, r.numbers[k], 0, r.end);
  }

  lemma SpanExtracts(raw: seq<nat>, text: string, offset: nat, i: nat, j: nat)
    requires offset + |Encode(text)| <= |raw| && raw[offset..offset + |Encode(text)|] == Encode(text)
    requires i < j <= |text|
    ensures var a, b := PositionOf(text, offset, i), PositionOf(text, offset, j);
            a < b <= |raw| && raw[a..b] == Encode(text[i..j])
  {
    hide *;
    BytesBetween(text, offset, i, j);
    SubSlice(raw, Encode(text), offset, PositionOf(text, offset, i) - offset, PositionOf(text, offset, j) - offset);
  }

  lemma SubSlice(raw: seq<nat>, bytes: seq<nat>, offset: nat, x: nat, y: nat)
    requires offset + |bytes| <= |raw| && raw[offset..offset + |bytes|] == bytes
    requires x <= y <= |bytes|
    ensures raw[offset + x..offset + y] == bytes[x..y]
  {
    var slice := raw[offset..offset + |bytes|];
    forall k | 0 <= k < y - x
      ensures raw[offset + x..offset + y][k] == bytes[x..y][k]
    {
      assert slice[x + k] == raw[offset + (x + k)];
    }
  }

  lemma PointerResolves(v: Json, t: Located)
    requires Denotes(v, [], t)
    ensures IsNumber(t.lexeme)
    ensures Parts(Pointer(t.path)) == Some(t.path) && At(v, t.path) == Some(Number(FloatOf(t.lexeme)))
  {
    hide Parts, Pointer, At, IsNumber, FloatOf;
    PartsOfPointer(t.path);
    assert t.path[0..] == t.path;
  }

  // ----- The cursor parser -----

  /** Numbers found before the rest of a container's, put in front of them. */
  ghost function Preceded(numbers: seq<Located>, r: Result<Parsed, SourceError>): Result<Parsed, SourceError> {
    match r
    case Failure(e) => Failure(e)
    case Success(p) => Success(p.(numbers := numbers + p.numbers))
  }

  lemma PrecededNothing(r: Result<Parsed, SourceError>)
    ensures Preceded([], r) == r
  {
    if r.Success? {
      assert [] + r.value.numbers == r.value.numbers;
    }
  }

  lemma PrecededTwice(a: seq<Located>, b: seq<Located>, r: Result<Parsed, SourceError>)
    ensures Preceded(a, Preceded(b, r)) == Preceded(a + b, r)
  {
    if r.Success? {
      assert a + (b + r.value.numbers) == a + b + r.value.numbers;
    }
  }

  lemma NoTokens(text: string, offset: nat, tokens: seq<NumberToken>)
    ensures Inside(text, []) && tokens + TokensOf(text, offset, []) == tokens
  {
  }

  lemma TokensJoin(text: string, offset: nat, tokens: seq<NumberToken>, a: seq<Located>, b: seq<Located>)
    requires Inside(text, a) && Inside(text, b)
    ensures Inside(text, a + b)
    ensures tokens + TokensOf(text, offset, a) + TokensOf(text, offset, b) == tokens + TokensOf(text, offset, a + b)
  {
    hide TokenOf;
    InsideJoin(text, a, b);
    assert TokensOf(text, offset, a) + TokensOf(text, offset, b) == TokensOf(text, offset, a + b);
  }

  lemma InsideJoin(text: string, a: seq<Located>, b: seq<Located>)
    requires Inside(text, a) && Inside(text, b)
    ensures Inside(text, a + b)
  {
    forall k | 0 <= k < |a + b|
      ensures (a + b)[k].start <= |text| && (a + b)[k].stop <= |text|
    {
      assert (a + b)[k] == if k < |a| then a[k] else b[k - |a|];
    }
  }

  /** A value may be parsed from its leading white space or from after it. */
  lemma ValueAfterSpace(text: string, decode: Decoder, i: nat, path: Path, depth: nat)
    requires i <= |text| && Advances(decode, text)
    ensures ParseValue(text, decode, Space(text, i), path, depth) == ParseValue(text, decode, i, path, depth)
  {
    hide Advances, ParseMembers, ParseItems, ParseNumber, ParseString, StartsWith;
    assert Space(text, Space(text, i)) == Space(text, i);
  }

  /** One parser run: the text, its byte positions, a shared cursor and the tokens found so far. */
  class Parser {
    const text: string
    const decode: Decoder
    const positions: seq<nat>
    ghost const offset: nat
    var cursor: nat
    var tokens: seq<NumberToken>

    ghost predicate Valid()
      reads this
    {
      && cursor <= |text| && Advances(decode, text)
      && |positions| == |text| + 1
      && forall i :: 0 <= i <= |text| ==> positions[i] == PositionOf(text, offset, i)
    }

    constructor (text: string, decode: Decoder, byteOffset: nat)
      requires Advances(decode, text)
      ensures Valid() && this.text == text && this.decode == decode && offset == byteOffset
      ensures cursor == 0 && tokens == []
    {
      var found: seq<nat> := [byteOffset];
      for i := 0 to |text|
        invariant |found| == i + 1
        invariant forall k :: 0 <= k <= i ==> found[k] == PositionOf(text, byteOffset, k)
      {
        assert text[..i + 1][..i] == text[..i];
        found := found + [found[i] + |Utf8(text[i])|];
      }
      this.text, this.decode, this.positions, this.offset := text, decode, found, byteOffset;
      cursor, tokens := 0, [];
    }

    method Whitespace()
      requires Valid()
      modifies `cursor
      ensures Valid() && cursor == Space(text, old(cursor))
    {
      ghost var start := cursor;
      while cursor < |text| && IsSpace(text[cursor])
        invariant start <= cursor <= |text| && Space(text, cursor) == Space(text, start)
      {
        cursor := cursor + 1;
      }
    }

    method StringLiteral() returns (r: Result<string, SourceError>)
      requires Valid()
      modifies `cursor
      ensures Valid()
      ensures match ParseString(text, decode, old(cursor))
              case Failure(e) => r == Failure(e)
              case Success(s) => r == Success(s.0) && cursor == s.1
    {
      if cursor >= |text| || text[cursor] != '"' {
        return Failure(ExpectedString);
      }
      var decoded := decode(text, cursor);
      if decoded.None? {
        return Failure(MalformedString);
      }
      cursor := decoded.value.1;
      return Success(decoded.value.0);
    }

    method Delimiter(expected: char) returns (r: Result<(), SourceError>)
      requires Valid()
      modifies `cursor
      ensures Valid()
      ensures match Consume(text, old(cursor), expected)
              case Failure(e) => r == Failure(e)
              case Success(end) => r == Success(()) && cursor == end
    {
      Whitespace();
      if cursor < |text| && text[cursor] == expected {
        cursor := cursor + 1;
        return Success(());
      }
      return Failure(ExpectedDelimiter(expected));
    }

    method NumberLiteral(pointer: string, ghost path: Path) returns (r: Result<Json, SourceError>)
      requires Valid() && pointer == Pointer(path)
      modifies `cursor, `tokens
      ensures Valid()
      ensures Agrees(r, ParseNumber(text, old(cursor), path), old(tokens))
    {
      hide Encode, Pointer;
      var start := cursor;
      var end := NumberEnd(text, cursor);
      if end == start {
        return Failure(MalformedValue);
      }
      LexemeIsNumber(text, start);
      var lexeme := text[start..end];
      var number := FloatOf(lexeme);
      cursor := end;
      if number % Binary64.SIGN == Binary64.INF {
        return Failure(OutOfRange);
      }
      tokens := tokens + [NumberToken(pointer, lexeme, positions[start], positions[end])];
      return Success(Number(number));
    }

    /** Same outcome as the specification; on success the same end and exactly its tokens appended. */
    ghost predicate Agrees(r: Result<Json, SourceError>, spec: Result<Parsed, SourceError>, before: seq<NumberToken>)
      reads this
    {
      match spec
      case Failure(e) => r == Failure(e)
      case Success(p) =>
        && r == Success(p.value) && cursor == p.end
        && Inside(text, p.numbers) && tokens == before + TokensOf(text, offset, p.numbers)
    }

    method Value(pointer: string, depth: nat, ghost path: Path) returns (r: Result<Json, SourceError>)
      requires Valid() && pointer == Pointer(path)
      modifies `cursor, `tokens
      ensures Valid()
      ensures Agrees(r, ParseValue(text, decode, old(cursor), path, depth), old(tokens))
      decreases |text| - cursor, 0
    {
      hide Pointer, Encode, Utf8, ParseMembers, ParseItems, ParseNumber, Advances, FloatOf;
      if depth > DEPTH_LIMIT {
        return Failure(TooDeep);
      }
      Whitespace();
      if cursor >= |text| {
        return Failure(UnexpectedEnd);
      }
      var first := text[cursor];
      if first == '"' {
        var s := StringLiteral();
        NoTokens(text, offset, tokens);
        return if s.Failure? then Failure(s.error) else Success(Text(s.value));
      }
      if first == '{' {
        cursor := cursor + 1;
        r := Members(pointer, depth, path);
        return;
      }
      if first == '[' {
        cursor := cursor + 1;
        r := Items(pointer, depth, path);
        return;
      }
      NoTokens(text, offset, tokens);
      if StartsWith(text, cursor, "true") {
        cursor := cursor + 4;
        return Success(Bool(true));
      }
      if StartsWith(text, cursor, "false") {
        cursor := cursor + 5;
        return Success(Bool(false));
      }
      if StartsWith(text, cursor, "null") {
        cursor := cursor + 4;
        return Success(Null);
      }
      r := NumberLiteral(pointer, path);
    }

    /** After an opening brace: nothing, or the loop over members. */
    method Members(pointer: string, depth: nat, ghost path: Path) returns (r: Result<Json, SourceError>)
      requires Valid() && pointer == Pointer(path)
      modifies `cursor, `tokens
      ensures Valid()
      ensures var k := Space(text, old(cursor));
              if k < |text| && text[k] == '}'
                  then r == Success(Object(map[])) && cursor == k + 1 && tokens == old(tokens)
              else Agrees(r, ParseMembers(text, decode, old(cursor), path, depth, map[]), old(tokens))
      decreases |text| - cursor, 1
    {
      hide Pointer, Encode, Utf8, ParseValue, Advances, FloatOf;
      ghost var start := cursor;
      var members: map<string, Json> := map[];
      Whitespace();
      if cursor < |text| && text[cursor] == '}' {
        cursor := cursor + 1;
        return Success(Object(map[]));
      }
      ghost var numbers: seq<Located> := [];
      ghost var from := start;
      ghost var spec := ParseMembers(text, decode, start, path, depth, map[]);
      PrecededNothing(spec);
      NoTokens(text, offset, tokens);
      while true
        invariant Valid() && start <= from <= cursor && Space(text, from) == Space(text, cursor)
        invariant Inside(text, numbers) && tokens == old(tokens) + TokensOf(text, offset, numbers)
        invariant spec == Preceded(numbers, ParseMembers(text, decode, from, path, depth, members))
        decreases |text| - cursor
      {
        Whitespace();
        var key := StringLiteral();
        if key.Failure? {
          return Failure(key.error);
        }
        if key.value in members {
          return Failure(DuplicateMember(key.value));
        }
        var colon := Delimiter(':');
        if colon.Failure? {
          return Failure(colon.error);
        }
        ghost var at := cursor;
        PointerChild(path, key.value);
        var member := Value(pointer + "/" + Esc(key.value), depth + 1, path + [key.value]);
        if member.Failure? {
          return Failure(member.error);
        }
        ghost var found := ParseValue(text, decode, at, path + [key.value], depth + 1).value.numbers;
        TokensJoin(text, offset, old(tokens), numbers, found);
        ghost var before := numbers;
        numbers := numbers + found;
        members := members[key.value := member.value];
        Whitespace();
        if cursor < |text| && text[cursor] == '}' {
          cursor := cursor + 1;
          return Success(Object(members));
        }
        var comma := Delimiter(',');
        if comma.Failure? {
          return Failure(comma.error);
        }
        from := cursor;
        PrecededTwice(before, found, ParseMembers(text, decode, from, path, depth, members));
      }
    }

    /** After an opening bracket: nothing, or the loop over items. */
    method Items(pointer: string, depth: nat, ghost path: Path) returns (r: Result<Json, SourceError>)
      requires Valid() && pointer == Pointer(path)
      modifies `cursor, `tokens
      ensures Valid()
      ensures var k := Space(text, old(cursor));
              if k < |text| && text[k] == ']' then r == Success(Array([])) && cursor == k + 1 && tokens == old(tokens)
              else Agrees(r, ParseItems(text, decode, old(cursor), path, depth, []), old(tokens))
      decreases |text| - cursor, 1
    {
      hide Pointer, Encode, Utf8, ParseValue, Advances, FloatOf;
      ghost var start := cursor;
      var items: seq<Json> := [];
      Whitespace();
      if cursor < |text| && text[cursor] == ']' {
        cursor := cursor + 1;
        return Success(Array([]));
      }
      ghost var numbers: seq<Located> := [];
      ghost var from := start;
      ghost var spec := ParseItems(text, decode, start, path, depth, []);
      PrecededNothing(spec);
      NoTokens(text, offset, tokens);
      while true
        invariant Valid() && start <= from <= cursor && Space(text, from) == Space(text, cursor)
        invariant Inside(text, numbers) && tokens == old(tokens) + TokensOf(text, offset, numbers)
        invariant spec == Preceded(numbers, ParseItems(text, decode, from, path, depth, items))
        decreases |text| - cursor
      {
        PointerChild(path, Dec(|items|));
        ValueAfterSpace(text, decode, from, path + [Dec(|items|)], depth + 1);
        ValueAfterSpace(text, decode, cursor, path + [Dec(|items|)], depth + 1);
        var item := Value(pointer + "/" + Esc(Dec(|items|)), depth + 1, path + [Dec(|items|)]);
        if item.Failure? {
          return Failure(item.error);
        }
        ghost var found := ParseValue(text, decode, from, path + [Dec(|items|)], depth + 1).value.numbers;
        TokensJoin(text, offset, old(tokens), numbers, found);
        ghost var before := numbers;
        numbers := numbers + found;
        items := items + [item.value];
        Whitespace();
        if cursor < |text| && text[cursor] == ']' {
          cursor := cursor + 1;
          return Success(Array(items));
        }
        var comma := Delimiter(',');
        if comma.Failure? {
          return Failure(comma.error);
        }
        from := cursor;
        PrecededTwice(before, found, ParseItems(text, decode, from, path, depth, items));
      }
    }
  }

  /** `parse_json_source`: the value and every number token, or the first refusal. */
  method ParseJsonSource(text: string, decode: Decoder, byteOffset: nat)
    returns (r: Result<(Json, seq<NumberToken>), SourceError>)
    requires Advances(decode, text)
    ensures match ParseSource(text, decode)
            case Failure(e) => r == Failure(e)
            case Success(p) => Inside(text, p.numbers) && r == Success((p.value, TokensOf(text, byteOffset, p.numbers)))
  {
    hide ParseValue, Advances;
    var parser := new Parser(text, decode, byteOffset);
    var decoded := parser.Value("", 0, []);
    if decoded.Failure? {
      return Failure(decoded.error);
    }
    ghost var numbers := ParseValue(text, decode, 0, [], 0).value.numbers;
    assert [] + TokensOf(text, byteOffset, numbers) == TokensOf(text, byteOffset, numbers);
    parser.Whitespace();
    if parser.cursor != |text| {
      return Failure(TrailingContent);
    }
    return Success((decoded.value, parser.tokens));
  }
}
