/**
 The canonical form of RFC 8785, stated on syntax trees without the writer: no white space,
 the shortest escapes, each number as the text of its word, and each name before the names
 that follow it by the first differing UTF-16 code unit. The writer prints exactly this form.
 */
module CanonicalForm {
  import opened Common
  import opened DecimalText
  import opened Json
  import opened JsonGrammar
  import opened JsonLexis
  import opened JsonString
  import opened Canonical
  import opened Flatten
  import Binary64
  import JsonSource

  // ----- The order of names -----

  /** u is a proper prefix of w, or smaller where they first differ. */
  ghost predicate Smaller(u: seq<int>, w: seq<int>) {
    exists n: nat :: DifferAt(u, w, n)
  }

  predicate DifferAt(u: seq<int>, w: seq<int>, n: nat) {
    n <= |u| && n < |w| && u[..n] == w[..n] && (n < |u| ==> u[n] < w[n])
  }

  ghost predicate Precedes(a: string, b: string) {
    Smaller(Units(a), Units(b))
  }

  lemma {:induction false} SmallerIff(u: seq<int>, w: seq<int>)
    ensures Smaller(u, w) <==> UnitsAtMost(u, w) && u != w
  {
    if u == [] {
      if w != [] {
        assert DifferAt(u, w, 0);
      }
    } else if w != [] && u[0] == w[0] {
      SmallerIff(u[1..], w[1..]);
      assert u == [u[0]] + u[1..] && w == [w[0]] + w[1..];
      if n: nat :| DifferAt(u, w, n) {
        assert n > 0;
        assert u[1..][..n - 1] == u[..n][1..] == w[..n][1..] == w[1..][..n - 1];
        assert DifferAt(u[1..], w[1..], n - 1);
      }
      if n: nat :| DifferAt(u[1..], w[1..], n) {
        assert u[..n + 1] == [u[0]] + u[1..][..n];
        assert w[..n + 1] == [w[0]] + w[1..][..n];
        assert DifferAt(u, w, n + 1);
      }
    } else if w != [] {
      if u[0] < w[0] {
        assert DifferAt(u, w, 0);
      }
      if Smaller(u, w) {
        FirstDiffers(u, w);
      }
    }
  }

  lemma FirstDiffers(u: seq<int>, w: seq<int>)
    requires u != [] && w != [] && Smaller(u, w)
    ensures u[0] <= w[0]
  {
    var n: nat :| DifferAt(u, w, n);
    if n > 0 {
      assert u[0] == u[..n][0] == w[..n][0];
    }
  }

  /** A character of the first plane is one unit; any other is a high and a low surrogate. */
  lemma UnitsOfChar(s: string)
    requires s != ""
    ensures var c := s[0] as int;
            && (c < 0x1_0000 ==> Units(s) == [c] + Units(s[1..]))
            && (c >= 0x1_0000 ==> exists high, low ::
                  && 0xD800 <= high < 0xDC00 && 0xDC00 <= low < 0xE000
                  && 0x1_0000 + 0x400 * (high - 0xD800) + (low - 0xDC00) == c
                  && Units(s) == [high, low] + Units(s[1..]))
  {
    var c := s[0] as int;
    if c >= 0x1_0000 {
      var high, low := 0xD800 + (c - 0x1_0000) / 0x400, 0xDC00 + (c - 0x1_0000) % 0x400;
      assert Units(s) == [high, low] + Units(s[1..]);
    }
  }

  lemma PrecedesIff(a: string, b: string)
    ensures Precedes(a, b) <==> a != b && UnitsAtMost(Units(a), Units(b))
  {
    SmallerIff(Units(a), Units(b));
    if a != b && Units(a) == Units(b) {
      UnitsInjective(a, b);
    }
  }

  lemma PrecedesOneWay(a: string, b: string)
    requires Precedes(a, b)
    ensures a != b && !Precedes(b, a)
  {
    PrecedesIff(a, b);
    PrecedesIff(b, a);
    hide Precedes, Units, UnitsAtMost;
    if Precedes(b, a) {
      UnitsEqual(Units(a), Units(b));
      UnitsInjective(a, b);
    }
  }

  // ----- Canonical trees -----

  /** A two-character escape where there is one, lower-case digits for the other control characters. */
  predicate Shortest(p: Piece)
    requires p.Fits()
  {
    match p
    case Bare(_) => true
    case Letter(letter) => letter != '/'
    case Hexed(unit) =>
      && unit.Value() < 32 && unit.Value() !in {8, 9, 10, 12, 13}
      && !unit.a.capital && !unit.b.capital && !unit.c.capital && !unit.d.capital
    case Paired(_, _) => false
  }

  predicate ShortestPieces(pieces: seq<Piece>)
    requires PiecesFit(pieces)
  {
    forall k :: 0 <= k < |pieces| ==> Shortest(pieces[k])
  }

  ghost predicate CanonicalTree(d: Syntax)
    requires Fits(d)
  {
    match d
    case Numeric(lexeme) => lexeme.Spelling() == NumberText(WordOf(lexeme))
    case Literal(pieces) => ShortestPieces(pieces)
    case EmptyList(gap) => gap == ""
    case List(elements) => CanonicalItems(elements)
    case EmptyRecord(gap) => gap == ""
    case Record(fields) => CanonicalMembers(fields)
    case _ => true
  }

  ghost predicate CanonicalItems(items: ItemList)
    requires ItemsFit(items)
  {
    && Tight(items.item) && CanonicalTree(items.item.value)
    && (items.NextItem? ==> CanonicalItems(items.rest))
  }

  ghost predicate CanonicalMembers(members: MemberList)
    requires MembersFit(members)
  {
    && TightMember(members.member) && ShortestPieces(members.member.name)
    && CanonicalTree(members.member.value.value)
    && (members.NextMember? ==>
          && CanonicalMembers(members.rest)
          && forall k :: k in Names(members.rest) ==> Precedes(LiteralText(members.member.name), k))
  }

  predicate Tight(s: Spaced) {
    s.before == "" && s.after == ""
  }

  predicate TightMember(m: Member) {
    m.before == "" && m.between == "" && Tight(m.value)
  }

  /** A canonical tree that means the value. */
  ghost predicate Form(d: Syntax, v: Json) {
    Fits(d) && CanonicalTree(d) && Meaning(d) == v
  }

  // ----- There is one canonical spelling -----

  lemma PieceUnique(p: Piece, q: Piece)
    requires p.Fits() && q.Fits() && Shortest(p) && Shortest(q) && p.Char() == q.Char()
    ensures p == q
  {
    if p.Hexed? {
      SmallUnit(p.unit);
    }
    if q.Hexed? {
      SmallUnit(q.unit);
    }
    match p
    case Hexed(unit) =>
      hide Hex4.Value;
    case _ =>
      hide Hex4.Value;
  }

  lemma SmallUnit(unit: Hex4)
    requires Hexed(unit).Fits() && Shortest(Hexed(unit))
    ensures unit.a == unit.b == Hex(0, false) && unit.c == Hex(unit.Value() / 16, false)
    ensures unit.d == Hex(unit.Value() % 16, false) && unit.Value() < 32 && unit.Value() !in {8, 9, 10, 12, 13}
    ensures Hexed(unit).Char() as int == unit.Value()
  {
    var a, b, c, d := unit.a.digit, unit.b.digit, unit.c.digit, unit.d.digit;
    assert unit.Value() == 4096 * a + 256 * b + 16 * c + d;
    assert a == 0 && b == 0;
  }

  lemma PiecesUnique(p: seq<Piece>, q: seq<Piece>)
    requires PiecesFit(p) && PiecesFit(q) && ShortestPieces(p) && ShortestPieces(q) && LiteralText(p) == LiteralText(q)
    ensures p == q
  {
    assert |p| == |q|;
    forall k | 0 <= k < |p|
      ensures p[k] == q[k]
    {
      assert LiteralText(p)[k] == LiteralText(q)[k];
      PieceUnique(p[k], q[k]);
    }
    hide Piece.Fits, Shortest, Piece.Char;
  }

  /** Canonical trees with one meaning have one spelling. */
  lemma {:induction false} OneSpelling(d: Syntax, e: Syntax)
    requires Fits(d) && Fits(e) && CanonicalTree(d) && CanonicalTree(e) && Meaning(d) == Meaning(e)
    ensures Spelling(d) == Spelling(e)
    decreases d
  {
    match d
    case Numeric(lexeme) =>
      hide WordOf, Lexeme.Spelling, Lexeme.Fits, NumberText, ItemsFit, MembersFit, PiecesFit;
    case Literal(pieces) =>
      PiecesUnique(pieces, e.pieces);
      hide PiecesFit, ShortestPieces, LiteralText, LiteralSpelling, ItemsFit, MembersFit;
    case List(elements) =>
      assert e.List? && Values(elements) == Values(e.elements);
      OneItemsSpelling(elements, e.elements);
      hide ItemsFit, CanonicalItems, Values, ItemsSpelling, MembersFit;
    case Record(fields) =>
      assert LiteralText(fields.member.name) in Fields(fields);
      assert e.Record? && Fields(fields) == Fields(e.fields);
      OneMembersSpelling(fields, e.fields);
      hide MembersFit, CanonicalMembers, Fields, MembersSpelling, ItemsFit;
    case EmptyRecord(_) =>
      hide ItemsFit, MembersFit, CanonicalMembers, CanonicalItems;
    case _ =>
      hide ItemsFit, MembersFit, CanonicalMembers, CanonicalItems;
  }

  lemma ValuesCount(items: ItemList)
    requires ItemsFit(items)
    ensures |Values(items)| == 1 <==> items.LastItem?
  {
    hide Fits, Meaning;
  }

  lemma {:induction false} OneItemsSpelling(a: ItemList, b: ItemList)
    requires ItemsFit(a) && ItemsFit(b) && CanonicalItems(a) && CanonicalItems(b) && Values(a) == Values(b)
    ensures ItemsSpelling(a) == ItemsSpelling(b)
    decreases a
  {
    assert Values(a)[0] == Values(b)[0];
    assert Values(a)[1..] == Values(b)[1..];
    OneSpelling(a.item.value, b.item.value);
    if a.NextItem? {
      assert Values(a)[1..] == Values(a.rest) && |Values(a.rest)| > 0;
      assert b.NextItem? && Values(b)[1..] == Values(b.rest);
      OneItemsSpelling(a.rest, b.rest);
    } else {
      ValuesCount(b);
    }
    hide Fits, Meaning, Spelling, CanonicalTree;
  }

  /** The first name of a canonical record precedes every other. */
  lemma FirstIsLeast(members: MemberList, k: string)
    requires MembersFit(members) && CanonicalMembers(members) && k in Names(members)
    requires k != LiteralText(members.member.name)
    ensures Precedes(LiteralText(members.member.name), k)
  {
    hide Fits, CanonicalTree, LiteralText, Precedes, NameFits, TightMember, ShortestPieces;
  }

  lemma SameFirst(a: MemberList, b: MemberList)
    requires MembersFit(a) && MembersFit(b) && CanonicalMembers(a) && CanonicalMembers(b) && Names(a) == Names(b)
    ensures LiteralText(a.member.name) == LiteralText(b.member.name)
  {
    var j, k := LiteralText(a.member.name), LiteralText(b.member.name);
    assert j in Names(a) && k in Names(b);
    hide MembersFit, CanonicalMembers, Names, LiteralText, Precedes;
    if j != k {
      FirstIsLeast(a, k);
      FirstIsLeast(b, j);
      PrecedesOneWay(j, k);
    }
  }

  lemma {:induction false} OneMembersSpelling(a: MemberList, b: MemberList)
    requires MembersFit(a) && MembersFit(b) && CanonicalMembers(a) && CanonicalMembers(b) && Fields(a) == Fields(b)
    ensures MembersSpelling(a) == MembersSpelling(b)
    decreases a
  {
    hide *;
    FieldsNames(a);
    FieldsNames(b);
    SameFirst(a, b);
    MembersSplit(a);
    MembersSplit(b);
    var m, n := a.member, b.member;
    OneSpelling(m.value.value, n.value.value);
    PiecesUnique(m.name, n.name);
    SameMember(m, n);
    if a.NextMember? && b.NextMember? {
      OneMembersSpelling(a.rest, b.rest);
    }
    SameMembers(a, b);
  }

  lemma FieldsNames(members: MemberList)
    requires MembersFit(members)
    ensures Fields(members).Keys == Names(members)
  {
    hide Fits, Meaning, LiteralText;
  }

  /** The first member and the fields of the rest, which do not have its name. */
  lemma MembersSplit(members: MemberList)
    requires MembersFit(members) && CanonicalMembers(members)
    ensures var m := members.member;
            && MemberFits(m) && PiecesFit(m.name) && Fits(m.value.value) && TightMember(m) && ShortestPieces(m.name)
            && CanonicalTree(m.value.value)
            && LiteralText(m.name) in Fields(members)
            && Fields(members)[LiteralText(m.name)] == Meaning(m.value.value)
            && (members.NextMember? ==>
                  && MembersFit(members.rest) && CanonicalMembers(members.rest)
                  && Fields(members.rest) == Fields(members) - {LiteralText(m.name)}
                  && Fields(members.rest) != map[])
            && (members.LastMember? ==> Fields(members) - {LiteralText(m.name)} == map[])
  {
    var m := members.member;
    if members.NextMember? {
      FirstIsAlone(members);
      assert LiteralText(members.rest.member.name) in Fields(members.rest);
      hide Fits, Meaning, LiteralText, CanonicalTree, Precedes, NameFits, TightMember, ShortestPieces;
      RemoveFirst(LiteralText(m.name), Meaning(m.value.value), Fields(members.rest));
    } else {
      hide Fits, Meaning, LiteralText, CanonicalTree, Precedes, NameFits, TightMember, ShortestPieces;
      RemoveFirst(LiteralText(m.name), Meaning(m.value.value), map[]);
    }
  }

  lemma FirstIsAlone(members: MemberList)
    requires MembersFit(members) && CanonicalMembers(members) && members.NextMember?
    ensures PiecesFit(members.member.name) && MembersFit(members.rest)
    ensures LiteralText(members.member.name) !in Fields(members.rest)
  {
    var k := LiteralText(members.member.name);
    hide Fits, Meaning, LiteralText, CanonicalTree, Precedes, NameFits, TightMember, ShortestPieces;
    if k in Names(members.rest) {
      PrecedesOneWay(k, k);
    }
  }

  lemma RemoveFirst(key: string, v: Json, rest: map<string, Json>)
    requires key !in rest
    ensures (map[key := v] + rest) - {key} == rest && key in map[key := v] + rest
    ensures (map[key := v] + rest)[key] == v
  {
  }

  lemma SameMember(m: Member, n: Member)
    requires MemberFits(m) && MemberFits(n) && TightMember(m) && TightMember(n) && m.name == n.name
    requires Fits(m.value.value) && Fits(n.value.value) && Spelling(m.value.value) == Spelling(n.value.value)
    ensures MemberSpelling(m) == MemberSpelling(n)
  {
    hide Fits, Spelling, LiteralSpelling, PiecesFit;
  }

  lemma SameMembers(a: MemberList, b: MemberList)
    requires MembersFit(a) && MembersFit(b) && MemberFits(a.member) && MemberFits(b.member)
    requires MemberSpelling(a.member) == MemberSpelling(b.member) && (a.NextMember? <==> b.NextMember?)
    requires a.NextMember? ==>
             MembersFit(a.rest) && MembersFit(b.rest) && MembersSpelling(a.rest) == MembersSpelling(b.rest)
    ensures MembersSpelling(a) == MembersSpelling(b)
  {
    hide Fits, MemberSpelling, NameFits;
  }

  // ----- The writer prints the canonical spelling -----

  /** The piece that stands for a character in a canonical literal. */
  function PieceOf(c: char): (p: Piece)
    ensures p.Fits() && Shortest(p) && p.Char() == c && p.Spelling() == EscapeChar(c)
  {
    if c == '"' || c == '\\' then Letter(c)
    else if c == '\n' then Letter('n')
    else if c == '\r' then Letter('r')
    else if c == '\t' then Letter('t')
    else if c == BACKSPACE then Letter('b')
    else if c == FORM_FEED then Letter('f')
    else if c < ' ' then
      ControlPiece(c);
      Hexed(Hex4(Hex(0, false), Hex(0, false), Hex(c as nat / 16, false), Hex(c as nat % 16, false)))
    else Bare(c)
  }

  lemma ControlPiece(c: char)
    requires c < ' ' && !Short(c)
    ensures var p := Hexed(Hex4(Hex(0, false), Hex(0, false), Hex(c as nat / 16, false), Hex(c as nat % 16, false)));
            p.Fits() && Shortest(p) && p.Char() == c && p.Spelling() == EscapeChar(c)
  {
    var n := c as nat;
    var unit := Hex4(Hex(0, false), Hex(0, false), Hex(n / 16, false), Hex(n % 16, false));
    assert unit.Value() == n;
    LowerDigit(0);
    LowerDigit(n / 16);
    LowerDigit(n % 16);
    hide Hex.Char, HexDigit;
    assert unit.Spelling() == "00" + [HexDigit(n / 16), HexDigit(n % 16)];
  }

  lemma LowerDigit(d: nat)
    requires d < 16
    ensures Hex(d, false).Char() == HexDigit(d)
    ensures HexDigit(0) == '0'
  {
    if d < 10 {
      assert LOWER[d] == '0' + d as char;
    } else {
      assert LOWER[d] == 'a' + (d - 10) as char;
    }
  }

  function PiecesOf(s: string): seq<Piece> {
    seq(|s|, k requires 0 <= k < |s| => PieceOf(s[k]))
  }

  lemma {:induction false} PiecesOfString(s: string)
    ensures PiecesFit(PiecesOf(s)) && ShortestPieces(PiecesOf(s)) && LiteralText(PiecesOf(s)) == s
    ensures PiecesSpelling(PiecesOf(s)) == EscapeAll(s) + "\""
    decreases |s|
  {
    if s != "" {
      PiecesOfString(s[1..]);
      assert PiecesOf(s)[1..] == PiecesOf(s[1..]);
    }
    hide PieceOf, EscapeChar;
  }

  lemma LiteralWritten(s: string)
    ensures PiecesFit(PiecesOf(s)) && ShortestPieces(PiecesOf(s)) && LiteralText(PiecesOf(s)) == s
    ensures LiteralSpelling(PiecesOf(s)) == Quote(s)
  {
    PiecesOfString(s);
    hide PiecesOf, EscapeAll, PiecesSpelling, PiecesFit, ShortestPieces, LiteralText;
  }

  /** The tree d is canonical, means the normal form of v, and is what the writer prints for v. */
  ghost predicate WrittenAs(d: Syntax, v: Json) {
    Fits(d) && CanonicalTree(d) && Meaning(d) == Normal(v) && Spelling(d) == Write(Source(), v)
  }

  lemma NumberWritten(word: nat) returns (d: Syntax)
    requires Storable(Number(word))
    ensures WrittenAs(d, Number(word))
  {
    hide *;
    StorableWord(word);
    WordReadsBack(word);
    var t := NumberText(word);
    LexemeFound(t);
    LexemeIsRead(PartsOf(t));
    WordRead(PartsOf(t), t);
    SameZero();
    d := Numeric(PartsOf(t));
    NumericWritten(PartsOf(t), word);
  }

  lemma SameZero()
    ensures NumberText(Binary64.SIGN) == NumberText(0)
  {
    Binary64.FiniteFields(Binary64.SIGN);
    Binary64.FiniteFields(0);
  }

  lemma NumericWritten(lexeme: Lexeme, word: nat)
    requires lexeme.Fits() && lexeme.Spelling() == NumberText(word)
    requires WordOf(lexeme) == (if word == Binary64.SIGN then 0 else word)
    requires NumberText(Binary64.SIGN) == NumberText(0)
    ensures WrittenAs(Numeric(lexeme), Number(word))
  {
    hide Lexeme.Fits, Lexeme.Spelling, NumberText, WordOf;
  }

  lemma TextWritten(s: string)
    ensures WrittenAs(Literal(PiecesOf(s)), Text(s))
  {
    LiteralWritten(s);
    hide PiecesOf, PiecesFit, ShortestPieces, LiteralText, LiteralSpelling, Quote;
  }

  lemma WordWritten(v: Json) returns (d: Syntax)
    requires v.Null? || v.Bool?
    ensures WrittenAs(d, v)
  {
    d := if v.Null? then NullWord else if v.b then TrueWord else FalseWord;
  }

  lemma EmptyWritten(v: Json) returns (d: Syntax)
    requires v == Array([]) || v == Object(map[])
    ensures WrittenAs(d, v)
  {
    d := if v.Array? then EmptyList("") else EmptyRecord("");
    if v.Object? {
      assert Normal(v).members == map[];
    }
  }

  lemma {:induction false} Written(v: Json) returns (d: Syntax)
    requires Storable(v)
    ensures WrittenAs(d, v)
    decreases v, 1, 0
  {
    hide *;
    match v {
      case Number(word) => d := NumberWritten(word);
      case Text(s) =>
        TextWritten(s);
        d := Literal(PiecesOf(s));
      case Array(items) =>
        if items == [] {
          d := EmptyWritten(v);
        } else {
          var elements := ItemsWritten(v, 0);
          ListWritten(v, elements);
          d := List(elements);
        }
      case Object(members) =>
        if members == map[] {
          d := EmptyWritten(v);
        } else {
          var keys := SortedKeys(members.Keys);
          KeysToWrite(v);
          var fields := MembersWritten(v, keys);
          RecordWritten(v, fields);
          d := Record(fields);
        }
      case _ => d := WordWritten(v);
    }
  }

  ghost predicate ItemsWrittenAs(items: ItemList, v: Json, n: nat)
    requires v.Array? && n < |v.items|
  {
    && ItemsFit(items) && CanonicalItems(items) && ItemsSpelling(items) == WriteItems(Source(), v, n)
    && Values(items) == Normal(v).items[n..]
  }

  lemma ListWritten(v: Json, elements: ItemList)
    requires v.Array? && v.items != [] && ItemsWrittenAs(elements, v, 0)
    ensures WrittenAs(List(elements), v)
  {
    WriteArray(Source(), v);
    assert Normal(v).items[0..] == Normal(v).items;
    hide ItemsFit, CanonicalItems, ItemsSpelling, WriteItems, Write, Values;
    assert Fits(List(elements)) && CanonicalTree(List(elements));
  }

  lemma {:induction false} ItemsWritten(v: Json, n: nat) returns (items: ItemList)
    requires v.Array? && n < |v.items| && Storable(v)
    ensures ItemsWrittenAs(items, v, n)
    decreases v, 0, |v.items| - n
  {
    hide *;
    ItemStorable(v, n);
    var d := Written(v.items[n]);
    var item := Spaced("", d, "");
    WriteItemsParts(Source(), v, n);
    if n + 1 == |v.items| {
      items := LastItem(item);
      LastItemWritten(v, n, d);
    } else {
      var rest := ItemsWritten(v, n + 1);
      items := NextItem(item, rest);
      NextItemWritten(v, n, d, rest);
    }
  }

  lemma ItemStorable(v: Json, n: nat)
    requires v.Array? && n < |v.items| && Storable(v)
    ensures Storable(v.items[n])
  {
  }

  lemma TightSpelling(d: Syntax)
    requires Fits(d)
    ensures var s := Spaced("", d, "");
            SpacedFits(s) && Tight(s) && BlankAround(s) && SpacedSpelling(s) == Spelling(d)
  {
    assert "" + (Spelling(d) + "") == Spelling(d);
    hide Fits, Spelling;
  }

  lemma LastItemWritten(v: Json, n: nat, d: Syntax)
    requires v.Array? && n + 1 == |v.items| && WrittenAs(d, v.items[n])
    requires WriteItems(Source(), v, n) == Write(Source(), v.items[n]) + "]"
    ensures ItemsWrittenAs(LastItem(Spaced("", d, "")), v, n)
  {
    TightSpelling(d);
    hide Fits, CanonicalTree, Meaning, Spelling, Write, WriteItems, SpacedSpelling, BlankAround, Tight;
    assert Normal(v).items[n..] == [Normal(v.items[n])];
  }

  lemma NextItemWritten(v: Json, n: nat, d: Syntax, rest: ItemList)
    requires v.Array? && n + 1 < |v.items| && WrittenAs(d, v.items[n]) && ItemsWrittenAs(rest, v, n + 1)
    requires WriteItems(Source(), v, n) == Write(Source(), v.items[n]) + ("," + WriteItems(Source(), v, n + 1))
    ensures ItemsWrittenAs(NextItem(Spaced("", d, ""), rest), v, n)
  {
    hide *;
    var item := Spaced("", d, "");
    WrittenParts(d, v.items[n]);
    ItemsWrittenParts(rest, v, n + 1);
    TightSpelling(d);
    NextItemShape(item, rest);
    NormalFrom(v, n);
    NextItemsCanonical(item, rest);
    ItemsWrittenBy(NextItem(item, rest), v, n);
  }

  lemma WrittenParts(d: Syntax, v: Json)
    requires WrittenAs(d, v)
    ensures Fits(d) && CanonicalTree(d) && Meaning(d) == Normal(v) && Spelling(d) == Write(Source(), v)
  {
    hide Fits, CanonicalTree, Meaning, Normal, Spelling, Write, Source;
  }

  lemma ItemsWrittenParts(items: ItemList, v: Json, n: nat)
    requires v.Array? && n < |v.items| && ItemsWrittenAs(items, v, n)
    ensures ItemsFit(items) && CanonicalItems(items) && ItemsSpelling(items) == WriteItems(Source(), v, n)
    ensures Normal(v).Array? && n <= |Normal(v).items| && Values(items) == Normal(v).items[n..]
  {
    hide ItemsFit, CanonicalItems, ItemsSpelling, WriteItems, Source, Values;
  }

  lemma ItemsWrittenBy(items: ItemList, v: Json, n: nat)
    requires v.Array? && n < |v.items| && ItemsFit(items) && CanonicalItems(items)
    requires ItemsSpelling(items) == WriteItems(Source(), v, n)
    requires Normal(v).Array? && n <= |Normal(v).items| && Values(items) == Normal(v).items[n..]
    ensures ItemsWrittenAs(items, v, n)
  {
    hide ItemsFit, CanonicalItems, ItemsSpelling, WriteItems, Source, Values;
  }

  lemma NormalFrom(v: Json, n: nat)
    requires v.Array? && n < |v.items|
    ensures Normal(v).Array? && |Normal(v).items| == |v.items|
    ensures Normal(v).items[n..] == [Normal(v.items[n])] + Normal(v).items[n + 1..]
  {
  }

  lemma NextItemsCanonical(item: Spaced, rest: ItemList)
    requires ItemsFit(NextItem(item, rest)) && ItemsFit(rest) && CanonicalItems(rest) && Tight(item)
    requires Fits(item.value) && CanonicalTree(item.value)
    ensures CanonicalItems(NextItem(item, rest))
  {
    hide ItemsFit, Tight, Fits, CanonicalTree;
  }

  /** The names still to be written, in order: each precedes the later ones. */
  ghost predicate Ordered(v: Json, keys: seq<string>) {
    && v.Object? && keys != [] && (forall k :: k in keys ==> k in v.members)
    && (forall i, j :: 0 <= i < j < |keys| ==> Precedes(keys[i], keys[j]))
  }

  lemma KeysToWrite(v: Json)
    requires v.Object? && v.members != map[]
    ensures Ordered(v, SortedKeys(v.members.Keys))
    ensures forall k :: k in SortedKeys(v.members.Keys) <==> k in v.members
  {
    WriteObject(Source(), v);
    SortedPrecede(v.members.Keys);
  }

  lemma {:induction false} SortedPrecede(keys: set<string>)
    ensures var sorted := SortedKeys(keys);
            forall i, j :: 0 <= i < j < |sorted| ==> Precedes(sorted[i], sorted[j])
    decreases |keys|
  {
    if keys != {} {
      var k := FirstExists(keys);
      SortedFirst(keys, k);
      FirstIsKey(keys, k);
      SortedPrecede(keys - {k});
      var sorted, rest := SortedKeys(keys), SortedKeys(keys - {k});
      assert sorted == [k] + rest;
      forall j | 0 <= j < |rest|
        ensures Precedes(k, rest[j])
      {
        assert rest[j] in rest;
        PrecedesIff(k, rest[j]);
      }
      hide *;
      PrecedeJoin(k, rest);
    }
  }

  lemma PrecedeJoin(k: string, rest: seq<string>)
    requires forall j :: 0 <= j < |rest| ==> Precedes(k, rest[j])
    requires forall i, j :: 0 <= i < j < |rest| ==> Precedes(rest[i], rest[j])
    ensures var all := [k] + rest; forall i, j :: 0 <= i < j < |all| ==> Precedes(all[i], all[j])
  {
    hide Precedes;
  }

  ghost predicate MembersWrittenAs(members: MemberList, v: Json, keys: seq<string>)
    requires v.Object? && forall k :: k in keys ==> k in v.members
  {
    && MembersFit(members) && CanonicalMembers(members)
    && MembersSpelling(members) == WriteMembers(Source(), v, keys)
    && Fields(members) == map k | k in keys :: Normal(v.members[k])
  }

  lemma RecordWritten(v: Json, fields: MemberList)
    requires v.Object? && v.members != map[] && MembersWrittenAs(fields, v, SortedKeys(v.members.Keys))
    ensures WrittenAs(Record(fields), v)
  {
    var keys := SortedKeys(v.members.Keys);
    WriteObject(Source(), v);
    NormalOfKeys(v, keys);
    hide *;
    MembersWrittenParts(fields, v, keys);
    RecordShape(fields);
    RecordCanonical(fields, v);
  }

  lemma MembersWrittenParts(members: MemberList, v: Json, keys: seq<string>)
    requires v.Object? && (forall k :: k in keys ==> k in v.members) && MembersWrittenAs(members, v, keys)
    ensures MembersFit(members) && CanonicalMembers(members) && Fits(Record(members))
    ensures MembersSpelling(members) == WriteMembers(Source(), v, keys)
    ensures Fields(members) == map k | k in keys :: Normal(v.members[k])
  {
    hide MembersFit, CanonicalMembers, MembersSpelling, WriteMembers, Fields, Normal;
  }

  lemma NormalOfKeys(v: Json, keys: seq<string>)
    requires v.Object? && forall k :: k in keys <==> k in v.members
    ensures Normal(v) == Object(map k | k in keys :: Normal(v.members[k]))
  {
    assert Normal(v).members == map k | k in keys :: Normal(v.members[k]);
  }

  lemma RecordCanonical(fields: MemberList, v: Json)
    requires MembersFit(fields) && CanonicalMembers(fields) && Fits(Record(fields))
    requires Meaning(Record(fields)) == Normal(v) && Spelling(Record(fields)) == Write(Source(), v)
    ensures WrittenAs(Record(fields), v)
  {
    hide MembersFit, CanonicalMembers, Meaning, Spelling, Write, Normal, Source;
  }

  lemma {:induction false} MembersWritten(v: Json, keys: seq<string>) returns (members: MemberList)
    requires Ordered(v, keys) && Storable(v)
    ensures v.Object? && (forall k :: k in keys ==> k in v.members) && MembersWrittenAs(members, v, keys)
    decreases v, 0, |keys|
  {
    OrderedRest(v, keys);
    hide *;
    var key := keys[0];
    MemberStorable(v, key);
    var d := Written(v.members[key]);
    var m := Member("", PiecesOf(key), "", Spaced("", d, ""));
    WriteMembersParts(Source(), v, keys);
    TightMemberWritten(v, key, d);
    if |keys| == 1 {
      members := LastMember(m);
      LastMemberWritten(v, keys, m);
    } else {
      var rest := MembersWritten(v, keys[1..]);
      members := NextMember(m, rest);
      NextMemberWritten(v, keys, m, rest);
    }
  }

  lemma OrderedRest(v: Json, keys: seq<string>)
    requires Ordered(v, keys)
    ensures v.Object? && keys != [] && (forall k :: k in keys ==> k in v.members) && keys[0] in v.members
    ensures |keys| > 1 ==> Ordered(v, keys[1..]) && keys == [keys[0]] + keys[1..]
    ensures forall k :: k in keys[1..] ==> Precedes(keys[0], k)
  {
    hide Precedes;
  }

  lemma MemberStorable(v: Json, k: string)
    requires v.Object? && k in v.members && Storable(v)
    ensures Storable(v.members[k])
  {
  }

  /** A member without white space that means and spells the written member of v. */
  ghost predicate MemberWrittenAs(m: Member, v: Json, key: string)
    requires v.Object? && key in v.members
  {
    && MemberFits(m) && NameFits(m) && PiecesFit(m.name) && TightMember(m) && ShortestPieces(m.name)
    && LiteralText(m.name) == key
    && Fits(m.value.value) && CanonicalTree(m.value.value) && Meaning(m.value.value) == Normal(v.members[key])
    && MemberSpelling(m) == Source().quote(key) + (":" + Write(Source(), v.members[key]))
  }

  lemma TightMemberWritten(v: Json, key: string, d: Syntax)
    requires v.Object? && key in v.members && WrittenAs(d, v.members[key])
    ensures MemberWrittenAs(Member("", PiecesOf(key), "", Spaced("", d, "")), v, key)
  {
    LiteralWritten(key);
    TightSpelling(d);
    hide Fits, CanonicalTree, Meaning, Spelling, Write, SpacedSpelling, PiecesOf, LiteralText, LiteralSpelling, Quote,
         PiecesFit, ShortestPieces, Normal;
    var m := Member("", PiecesOf(key), "", Spaced("", d, ""));
    assert MemberSpelling(m) == "" + (Quote(key) + ("" + (":" + Write(Source(), v.members[key]))));
  }

  lemma LastMemberWritten(v: Json, keys: seq<string>, m: Member)
    requires v.Object? && |keys| == 1 && keys[0] in v.members && MemberWrittenAs(m, v, keys[0])
    requires WriteMembers(Source(), v, keys)
          == Source().quote(keys[0]) + (":" + (Write(Source(), v.members[keys[0]]) + "}"))
    ensures MembersWrittenAs(LastMember(m), v, keys)
  {
    LastMemberShape(m);
    NextFields(v, keys, map[]);
    hide Fits, Spelling, Write, MemberSpelling, LiteralText, PiecesFit, ShortestPieces, MembersFit, Meaning, Fields,
         CanonicalTree, MembersSpelling, WriteMembers, Source, TightMember, NameFits;
    LastJoin(Source().quote(keys[0]), Write(Source(), v.members[keys[0]]));
  }

  lemma LastJoin(name: string, value: string)
    ensures name + (":" + value) + "}" == name + (":" + (value + "}"))
  {
  }

  lemma NextMemberWritten(v: Json, keys: seq<string>, m: Member, rest: MemberList)
    requires v.Object? && |keys| > 1 && (forall k :: k in keys ==> k in v.members)
    requires keys == [keys[0]] + keys[1..] && forall k :: k in keys[1..] ==> Precedes(keys[0], k)
    requires MemberWrittenAs(m, v, keys[0]) && MembersWrittenAs(rest, v, keys[1..])
    requires WriteMembers(Source(), v, keys)
          == Source().quote(keys[0])
             + (":" + (Write(Source(), v.members[keys[0]]) + ("," + WriteMembers(Source(), v, keys[1..]))))
    ensures MembersWrittenAs(NextMember(m, rest), v, keys)
  {
    hide *;
    MemberWrittenParts(m, v, keys[0]);
    MembersWrittenParts(rest, v, keys[1..]);
    NextMemberShape(m, rest);
    FieldsNames(rest);
    MembersJoin(Source().quote(keys[0]), Write(Source(), v.members[keys[0]]), WriteMembers(Source(), v, keys[1..]));
    NextFields(v, keys, Fields(rest));
    NextCanonical(m, rest, keys[0]);
    MembersWrittenBy(NextMember(m, rest), v, keys);
  }

  lemma MemberWrittenParts(m: Member, v: Json, key: string)
    requires v.Object? && key in v.members && MemberWrittenAs(m, v, key)
    ensures MemberFits(m) && NameFits(m) && PiecesFit(m.name) && TightMember(m) && ShortestPieces(m.name)
    ensures LiteralText(m.name) == key
    ensures Fits(m.value.value) && CanonicalTree(m.value.value) && Meaning(m.value.value) == Normal(v.members[key])
    ensures MemberSpelling(m) == Source().quote(key) + (":" + Write(Source(), v.members[key]))
  {
    hide Fits, Spelling, Write, MemberSpelling, LiteralText, PiecesFit, ShortestPieces, Meaning, CanonicalTree, Source,
         TightMember, NameFits, Normal, MemberFits;
  }

  lemma NextCanonical(m: Member, rest: MemberList, key: string)
    requires MembersFit(NextMember(m, rest)) && MembersFit(rest) && CanonicalMembers(rest) && PiecesFit(m.name)
    requires TightMember(m) && ShortestPieces(m.name) && Fits(m.value.value) && CanonicalTree(m.value.value)
    requires LiteralText(m.name) == key && forall k :: k in Names(rest) ==> Precedes(key, k)
    ensures CanonicalMembers(NextMember(m, rest))
  {
    hide Fits, LiteralText, PiecesFit, ShortestPieces, CanonicalTree, TightMember, Precedes, Names, MembersFit;
  }

  lemma MembersWrittenBy(members: MemberList, v: Json, keys: seq<string>)
    requires v.Object? && (forall k :: k in keys ==> k in v.members) && MembersFit(members)
    requires CanonicalMembers(members) && MembersSpelling(members) == WriteMembers(Source(), v, keys)
    requires Fields(members) == map k | k in keys :: Normal(v.members[k])
    ensures MembersWrittenAs(members, v, keys)
  {
    hide MembersFit, CanonicalMembers, MembersSpelling, WriteMembers, Fields, Normal, Source;
  }

  lemma MembersJoin(name: string, value: string, rest: string)
    ensures name + (":" + value) + ("," + rest) == name + (":" + (value + ("," + rest)))
  {
  }

  lemma NextFields(v: Json, keys: seq<string>, rest: map<string, Json>)
    requires v.Object? && keys != [] && (forall k :: k in keys ==> k in v.members) && keys == [keys[0]] + keys[1..]
    requires rest == map k | k in keys[1..] :: Normal(v.members[k])
    ensures map[keys[0] := Normal(v.members[keys[0]])] + rest == map k | k in keys :: Normal(v.members[k])
  {
  }

  /**
   The text written for a value is the spelling of a canonical tree that means its normal form,
   and there is no other canonical spelling of that meaning.
   */
  lemma WrittenIffCanonical(v: Json, text: string)
    requires Storable(v)
    ensures text == Write(Source(), v) <==>
            exists d :: Fits(d) && CanonicalTree(d) && Meaning(d) == Normal(v) && Spelling(d) == text
  {
    var w := Written(v);
    assert Fits(w) && CanonicalTree(w) && Meaning(w) == Normal(v) && Spelling(w) == Write(Source(), v);
    hide Fits, CanonicalTree, Meaning, Spelling, Write, Source, Storable, Normal;
    forall d | Fits(d) && CanonicalTree(d) && Meaning(d) == Normal(v)
      ensures Spelling(d) == Write(Source(), v)
    {
      OneSpelling(d, w);
    }
  }
}
