/**
 The grammar of the JSON texts that the source parser accepts (RFC 8259), as syntax trees that
 hold every white space, and the theorem that the parser accepts exactly the spellings of the
 admitted trees, each with the value that the tree means.
 */
module JsonGrammar {
  import opened Common
  import opened DecimalText
  import opened Json
  import opened JsonLexis
  import opened JsonSource
  import opened JsonString
  import opened Canonical
  import Binary64

  // ----- Syntax trees -----

  datatype Syntax =
    | TrueWord
    | FalseWord
    | NullWord
    | Numeric(lexeme: Lexeme)
    | Literal(pieces: seq<Piece>)
    | EmptyList(gap: string)
    | List(elements: ItemList)
    | EmptyRecord(gap: string)
    | Record(fields: MemberList)

  /** A value with the white space around it. */
  datatype Spaced = Spaced(before: string, value: Syntax, after: string)

  datatype ItemList = LastItem(item: Spaced) | NextItem(item: Spaced, rest: ItemList)

  datatype Member = Member(before: string, name: seq<Piece>, between: string, value: Spaced)

  datatype MemberList = LastMember(member: Member) | NextMember(member: Member, rest: MemberList)

  /** Any run of space, tab, line feed and carriage return. */
  predicate Blank(s: string) {
    forall k :: 0 <= k < |s| ==> s[k] == ' ' || s[k] == '\t' || s[k] == '\n' || s[k] == '\r'
  }

  predicate Fits(d: Syntax) {
    match d
    case Numeric(lexeme) => lexeme.Fits()
    case Literal(pieces) => PiecesFit(pieces)
    case EmptyList(gap) => Blank(gap)
    case List(elements) => ItemsFit(elements)
    case EmptyRecord(gap) => Blank(gap)
    case Record(fields) => MembersFit(fields)
    case _ => true
  }

  predicate ItemsFit(items: ItemList) {
    BlankAround(items.item) && Fits(items.item.value) && (items.NextItem? ==> ItemsFit(items.rest))
  }

  predicate MembersFit(members: MemberList) {
    && NameFits(members.member) && Fits(members.member.value.value)
    && (members.NextMember? ==> MembersFit(members.rest))
  }

  predicate BlankAround(s: Spaced) {
    Blank(s.before) && Blank(s.after)
  }

  predicate NameFits(m: Member) {
    Blank(m.before) && PiecesFit(m.name) && Blank(m.between) && BlankAround(m.value)
  }

  predicate SpacedFits(s: Spaced) {
    BlankAround(s) && Fits(s.value)
  }

  predicate MemberFits(m: Member) {
    NameFits(m) && Fits(m.value.value)
  }

  // ----- What a tree spells -----

  function Spelling(d: Syntax): string
    requires Fits(d)
  {
    match d
    case TrueWord => "true"
    case FalseWord => "false"
    case NullWord => "null"
    case Numeric(lexeme) => lexeme.Spelling()
    case Literal(pieces) => LiteralSpelling(pieces)
    case EmptyList(gap) => "[" + (gap + "]")
    case List(elements) => "[" + ItemsSpelling(elements)
    case EmptyRecord(gap) => "{" + (gap + "}")
    case Record(fields) => "{" + MembersSpelling(fields)
  }

  function SpacedSpelling(s: Spaced): string
    requires SpacedFits(s)
  {
    s.before + (Spelling(s.value) + s.after)
  }

  /** The items, separated by commas, with the closing bracket. */
  function ItemsSpelling(items: ItemList): string
    requires ItemsFit(items)
  {
    SpacedSpelling(items.item) +
    match items
    case LastItem(_) => "]"
    case NextItem(_, rest) => "," + ItemsSpelling(rest)
  }

  function MembersSpelling(members: MemberList): string
    requires MembersFit(members)
  {
    MemberSpelling(members.member) +
    match members
    case LastMember(_) => "}"
    case NextMember(_, rest) => "," + MembersSpelling(rest)
  }

  function MemberSpelling(m: Member): string
    requires MemberFits(m)
  {
    m.before + (LiteralSpelling(m.name) + (m.between + (":" + SpacedSpelling(m.value))))
  }

  // ----- What a tree means -----

  /** The binary64 word closest to the number, with its sign. */
  function WordOf(lexeme: Lexeme): nat
    requires lexeme.Fits()
  {
    (if lexeme.minus then Binary64.SIGN else 0) + Binary64.NearestMagnitude(lexeme.Magnitude())
  }

  function Meaning(d: Syntax): Json
    requires Fits(d)
  {
    match d
    case TrueWord => Bool(true)
    case FalseWord => Bool(false)
    case NullWord => Null
    case Numeric(lexeme) => Number(WordOf(lexeme))
    case Literal(pieces) => Text(LiteralText(pieces))
    case EmptyList(_) => Array([])
    case List(elements) => Array(Values(elements))
    case EmptyRecord(_) => Object(map[])
    case Record(fields) => Object(Fields(fields))
  }

  function Values(items: ItemList): seq<Json>
    requires ItemsFit(items)
  {
    [Meaning(items.item.value)] + if items.NextItem? then Values(items.rest) else []
  }

  function Fields(members: MemberList): (fields: map<string, Json>)
    requires MembersFit(members)
    ensures fields.Keys == Names(members)
  {
    var m := members.member;
    map[LiteralText(m.name) := Meaning(m.value.value)] + if members.NextMember? then Fields(members.rest) else map[]
  }

  function Names(members: MemberList): set<string>
    requires MembersFit(members)
  {
    {LiteralText(members.member.name)} + if members.NextMember? then Names(members.rest) else {}
  }

  // ----- What is admitted -----

  /** Every number is finite as a binary64 word, and the decoded names of each record are distinct. */
  predicate Admitted(d: Syntax)
    requires Fits(d)
  {
    match d
    case Numeric(lexeme) => Binary64.NearestMagnitude(lexeme.Magnitude()) != Binary64.INF
    case List(elements) => ItemsAdmitted(elements)
    case Record(fields) => MembersAdmitted(fields)
    case _ => true
  }

  predicate ItemsAdmitted(items: ItemList)
    requires ItemsFit(items)
  {
    Admitted(items.item.value) && (items.NextItem? ==> ItemsAdmitted(items.rest))
  }

  predicate MembersAdmitted(members: MemberList)
    requires MembersFit(members)
  {
    && Admitted(members.member.value.value)
    && (members.NextMember? ==>
          LiteralText(members.member.name) !in Names(members.rest) && MembersAdmitted(members.rest))
  }

  function Max(a: nat, b: nat): nat {
    if a < b then b else a
  }

  /** How many lists and records enclose the innermost part. */
  function Depth(d: Syntax): nat {
    match d
    case List(elements) => 1 + ItemsDepth(elements)
    case Record(fields) => 1 + MembersDepth(fields)
    case _ => 0
  }

  function ItemsDepth(items: ItemList): nat {
    Max(Depth(items.item.value), if items.NextItem? then ItemsDepth(items.rest) else 0)
  }

  function MembersDepth(members: MemberList): nat {
    Max(Depth(members.member.value.value), if members.NextMember? then MembersDepth(members.rest) else 0)
  }

  /** A whole document: an admitted value of at most 200 levels between white space. */
  predicate Document(s: Spaced) {
    SpacedFits(s) && Admitted(s.value) && Depth(s.value) <= 200
  }

  /** The grammar spells the whole text, with this value. */
  ghost predicate Spells(text: string, v: Json) {
    exists s: Spaced :: Document(s) && SpacedSpelling(s) == text && Meaning(s.value) == v
  }

  // ----- White space -----

  lemma {:induction false} BlankSkipped(text: string, i: nat, s: string)
    requires Stands(text, i, s) && Blank(s) && (i + |s| < |text| ==> !IsSpace(text[i + |s|]))
    ensures i + |s| <= |text| && Space(text, i) == i + |s|
    decreases |s|
  {
    if s != "" {
      StandsAt(text, i, s, 0);
      assert s == s[..1] + s[1..];
      StandsSplit(text, i, s[..1], s[1..]);
      BlankSkipped(text, i + 1, s[1..]);
      hide Stands;
    }
  }

  lemma {:induction false} SpaceRun(text: string, i: nat)
    requires i <= |text|
    ensures Blank(text[i..Space(text, i)])
    decreases |text| - i
  {
    var j := Space(text, i);
    if i < j {
      SpaceRun(text, i + 1);
      assert text[i..j] == [text[i]] + text[i + 1..j];
    }
  }

  lemma SliceStands(text: string, i: nat, j: nat)
    requires i <= j <= |text|
    ensures Stands(text, i, text[i..j]) && |text[i..j]| == j - i
  {
  }

  // ----- What is spelled is parsed -----

  /** The first character of a value is no white space and closes nothing. */
  lemma SyntaxStart(d: Syntax)
    requires Fits(d)
    ensures Spelling(d) != ""
    ensures !IsSpace(Spelling(d)[0]) && Spelling(d)[0] != ']' && Spelling(d)[0] != '}'
  {
    hide *;
    match d
    case Numeric(lexeme) =>
      NumericShape(lexeme);
      LexemeIsRead(lexeme);
      NumberStart(lexeme.Spelling());
      StartOfKind(lexeme.Spelling());
    case List(elements) =>
      ListShape(elements);
      StartOfKind(Spelling(d));
    case Record(fields) =>
      RecordShape(fields);
      StartOfKind(Spelling(d));
    case Literal(pieces) =>
      LiteralShape(pieces);
      LiteralParts(pieces);
      StartOfKind(Spelling(d));
    case _ =>
      ShortStart(d);
      StartOfKind(Spelling(d));
  }

  lemma StartOfKind(t: string)
    requires t != "" && (t[0] in "\"[{tfn-" || IsDigit(t[0]))
    ensures !IsSpace(t[0]) && t[0] != ']' && t[0] != '}'
  {
  }

  lemma ShortStart(d: Syntax)
    requires Fits(d) && !d.Numeric? && !d.List? && !d.Record? && !d.Literal?
    ensures Spelling(d) != "" && Spelling(d)[0] in "\"[{tfn-"
  {
    hide ItemsFit, MembersFit;
  }

  lemma SpacedShape(s: Spaced)
    requires SpacedFits(s)
    ensures Blank(s.before) && Fits(s.value) && Blank(s.after)
    ensures SpacedSpelling(s) == s.before + (Spelling(s.value) + s.after)
    ensures |SpacedSpelling(s)| == |s.before| + |Spelling(s.value)| + |s.after|
  {
    hide Fits, Spelling, Blank;
  }

  /** Where the parts of a spaced value stand. */
  lemma SpacedParts(text: string, i: nat, s: Spaced)
    requires SpacedFits(s) && Stands(text, i, SpacedSpelling(s))
    ensures var j := i + |s.before|;
            var c := j + |Spelling(s.value)|;
            && j < c <= |text| && Space(text, i) == j && text[j] == Spelling(s.value)[0]
            && Stands(text, j, Spelling(s.value)) && Stands(text, c, s.after)
            && c + |s.after| == i + |SpacedSpelling(s)|
  {
    hide *;
    SpacedShape(s);
    SyntaxStart(s.value);
    var j := i + |s.before|;
    StandsSplit(text, i, s.before, Spelling(s.value) + s.after);
    StandsSplit(text, j, Spelling(s.value), s.after);
    StandsThere(text, j, Spelling(s.value));
    BlankSkipped(text, i, s.before);
  }

  /** No value goes on at e. */
  predicate Closes(text: string, e: nat) {
    e <= |text| && (e < |text| ==> text[e] == ',' || text[e] == ']' || text[e] == '}')
  }

  lemma AfterValue(text: string, c: nat, after: string)
    requires Stands(text, c, after) && Blank(after) && Closes(text, c + |after|)
    ensures EndsAt(text, c) && c <= |text| && Space(text, c) == c + |after|
  {
    BlankSkipped(text, c, after);
    if after != "" {
      StandsAt(text, c, after, 0);
    }
    hide Stands, Space;
  }

  lemma {:induction false} SpacedReads(text: string, i: nat, s: Spaced, path: Path, depth: nat)
    requires Advances(Decode, text) && SpacedFits(s) && Admitted(s.value) && depth + Depth(s.value) <= DEPTH_LIMIT
    requires Stands(text, i, SpacedSpelling(s)) && Closes(text, i + |SpacedSpelling(s)|)
    ensures var c := i + |s.before| + |Spelling(s.value)|;
            && i <= c <= |text| && Space(text, c) == i + |SpacedSpelling(s)|
            && RestReads(ParseValue(text, Decode, i, path, depth), Meaning(s.value), c)
    decreases s
  {
    hide *;
    SpacedShape(s);
    var j := i + |s.before|;
    var c := j + |Spelling(s.value)|;
    SpacedParts(text, i, s);
    AfterValue(text, c, s.after);
    ValueReads(text, j, s.value, path, depth);
    ReadsAfterSpace(text, i, j, path, depth, Meaning(s.value), c);
  }

  lemma ReadsAfterSpace(text: string, i: nat, j: nat, path: Path, depth: nat, v: Json, c: nat)
    requires Advances(Decode, text) && i <= |text| && Space(text, i) == j
    requires RestReads(ParseValue(text, Decode, j, path, depth), v, c)
    ensures RestReads(ParseValue(text, Decode, i, path, depth), v, c)
  {
    hide *;
    ValueAfterSpace(text, Decode, i, path, depth);
  }

  lemma {:induction false} ValueReads(text: string, i: nat, d: Syntax, path: Path, depth: nat)
    requires Advances(Decode, text) && Fits(d) && Admitted(d) && depth + Depth(d) <= DEPTH_LIMIT
    requires Stands(text, i, Spelling(d)) && EndsAt(text, i + |Spelling(d)|)
    ensures i <= |text| && RestReads(ParseValue(text, Decode, i, path, depth), Meaning(d), i + |Spelling(d)|)
    decreases d
  {
    hide *;
    StandsInside(text, i, Spelling(d));
    match d {
      case Numeric(lexeme) =>
        NumericShape(lexeme);
        NumericReads(text, i, lexeme, path, depth);
      case Literal(pieces) =>
        LiteralShape(pieces);
        LiteralReads(text, i, pieces, path, depth);
      case EmptyList(gap) => EmptyReads(text, i, d, path, depth);
      case List(elements) =>
        ListShape(elements);
        StandsSplit(text, i, "[", ItemsSpelling(elements));
        ItemsReads(text, i + 1, elements, [], path, depth);
        FirstElement(text, i + 1, elements);
        StandsAt(text, i, "[", 0);
        ListDispatch(text, i, path, depth);
        ListMeans(elements);
      case EmptyRecord(gap) => EmptyReads(text, i, d, path, depth);
      case Record(fields) =>
        RecordShape(fields);
        StandsSplit(text, i, "{", MembersSpelling(fields));
        MembersReads(text, i + 1, fields, map[], path, depth);
        FirstField(text, i + 1, fields);
        StandsAt(text, i, "{", 0);
        RecordDispatch(text, i, path, depth);
        RecordMeans(fields);
      case _ => WordReads(text, i, d, path, depth);
    }
  }

  lemma NumericShape(lexeme: Lexeme)
    requires Fits(Numeric(lexeme))
    ensures lexeme.Fits() && Spelling(Numeric(lexeme)) == lexeme.Spelling()
    ensures Meaning(Numeric(lexeme)) == Number(WordOf(lexeme))
    ensures Admitted(Numeric(lexeme)) ==> Binary64.NearestMagnitude(lexeme.Magnitude()) != Binary64.INF
  {
    hide WordOf, Lexeme.Spelling, Lexeme.Fits, Lexeme.Magnitude, Binary64.NearestMagnitude;
  }

  lemma LiteralShape(pieces: seq<Piece>)
    requires Fits(Literal(pieces))
    ensures PiecesFit(pieces) && Spelling(Literal(pieces)) == LiteralSpelling(pieces)
    ensures Meaning(Literal(pieces)) == Text(LiteralText(pieces))
  {
    hide PiecesFit, LiteralSpelling, LiteralText;
  }

  lemma ListShape(elements: ItemList)
    requires Fits(List(elements))
    ensures ItemsFit(elements) && Spelling(List(elements)) == "[" + ItemsSpelling(elements)
    ensures |Spelling(List(elements))| == 1 + |ItemsSpelling(elements)|
    ensures Meaning(List(elements)) == Array(Values(elements)) && Depth(List(elements)) == 1 + ItemsDepth(elements)
    ensures Admitted(List(elements)) ==> ItemsAdmitted(elements)
  {
    hide ItemsFit, ItemsSpelling, ItemsDepth, ItemsAdmitted, Values;
  }

  lemma RecordShape(fields: MemberList)
    requires Fits(Record(fields))
    ensures MembersFit(fields) && Spelling(Record(fields)) == "{" + MembersSpelling(fields)
    ensures |Spelling(Record(fields))| == 1 + |MembersSpelling(fields)|
    ensures Meaning(Record(fields)) == Object(Fields(fields)) && Depth(Record(fields)) == 1 + MembersDepth(fields)
    ensures Admitted(Record(fields)) ==> MembersAdmitted(fields)
  {
    hide MembersFit, MembersSpelling, MembersDepth, MembersAdmitted, Fields;
  }

  lemma ListMeans(elements: ItemList)
    requires ItemsFit(elements)
    ensures [] + Values(elements) == Values(elements)
  {
  }

  lemma RecordMeans(fields: MemberList)
    requires MembersFit(fields)
    ensures map[] + Fields(fields) == Fields(fields)
  {
  }

  lemma NumericReads(text: string, i: nat, lexeme: Lexeme, path: Path, depth: nat)
    requires Advances(Decode, text) && depth <= DEPTH_LIMIT && lexeme.Fits()
    requires Binary64.NearestMagnitude(lexeme.Magnitude()) != Binary64.INF
    requires Stands(text, i, lexeme.Spelling()) && EndsAt(text, i + |lexeme.Spelling()|) && i <= |text|
    ensures RestReads(ParseValue(text, Decode, i, path, depth), Number(WordOf(lexeme)), i + |lexeme.Spelling()|)
  {
    hide *;
    var t := lexeme.Spelling();
    LexemeIsRead(lexeme);
    WordRead(lexeme, t);
    NumberStart(t);
    StandsThere(text, i, t);
    NumberInside(text, i, t);
    LexemeRead(text, i, t, path);
    NumberDispatch(text, Decode, i, path, depth);
    NumberRest(Number(FloatOf(t)), i + |t|, [Located(path, t, i, i + |t|)]);
  }

  lemma NumberRest(v: Json, end: nat, numbers: seq<Located>)
    ensures RestReads(Success(Parsed(v, end, numbers)), v, end)
  {
  }

  lemma WordRead(lexeme: Lexeme, t: string)
    requires lexeme.Fits() && IsNumber(t) && NegativeNumber(t) == lexeme.minus && Denoted(t) == lexeme.Magnitude()
    ensures FloatOf(t) == WordOf(lexeme)
    ensures Binary64.NearestMagnitude(lexeme.Magnitude()) == Binary64.INF <==> Overflows(FloatOf(t))
  {
    var m := Binary64.NearestMagnitude(lexeme.Magnitude());
    assert WordOf(lexeme) == (if lexeme.minus then Binary64.SIGN else 0) + m;
    hide *;
    Read(t, lexeme.Magnitude());
    Binary64.NearestMagnitudeCorrect(lexeme.Magnitude());
    SignedInfinity(lexeme.minus, m);
  }

  lemma SignedInfinity(minus: bool, m: nat)
    requires m <= Binary64.INF
    ensures m == Binary64.INF <==> Overflows((if minus then Binary64.SIGN else 0) + m)
  {
  }

  lemma LiteralReads(text: string, i: nat, pieces: seq<Piece>, path: Path, depth: nat)
    requires Advances(Decode, text) && depth <= DEPTH_LIMIT && PiecesFit(pieces)
    requires Stands(text, i, LiteralSpelling(pieces)) && i <= |text|
    ensures RestReads(ParseValue(text, Decode, i, path, depth), Text(LiteralText(pieces)),
                      i + |LiteralSpelling(pieces)|)
  {
    LiteralRead(text, i, pieces);
    SpaceStays(text, i);
    hide ParseNumber, ParseMembers, ParseItems, StartsWith, LiteralSpelling, PiecesFit, Space, Decode, Stands,
         LiteralText, Advances;
  }

  lemma WordReads(text: string, i: nat, d: Syntax, path: Path, depth: nat)
    requires Advances(Decode, text) && depth <= DEPTH_LIMIT && (d.TrueWord? || d.FalseWord? || d.NullWord?)
    requires Stands(text, i, Spelling(d)) && i <= |text|
    ensures RestReads(ParseValue(text, Decode, i, path, depth), Meaning(d), i + |Spelling(d)|)
  {
    StandsAt(text, i, Spelling(d), 0);
    if text[i] != 't' {
      OtherWord(text, i, "true");
    }
    if text[i] == 'n' {
      OtherWord(text, i, "false");
    }
    SpaceStays(text, i);
    hide ParseNumber, ParseMembers, ParseItems, Space, Decode, Advances;
  }

  lemma EmptyReads(text: string, i: nat, d: Syntax, path: Path, depth: nat)
    requires Advances(Decode, text) && depth <= DEPTH_LIMIT && (d.EmptyList? || d.EmptyRecord?) && Fits(d)
    requires Stands(text, i, Spelling(d)) && i <= |text|
    ensures RestReads(ParseValue(text, Decode, i, path, depth), Meaning(d), i + |Spelling(d)|)
  {
    hide *;
    EmptyShape(d);
    GapThere(text, i, d.gap, if d.EmptyList? then "[" else "{", if d.EmptyList? then "]" else "}");
    if d.EmptyList? {
      EmptyBrackets(text, i, path, depth);
    } else {
      EmptyBraces(text, i, path, depth);
    }
  }

  lemma EmptyShape(d: Syntax)
    requires (d.EmptyList? || d.EmptyRecord?) && Fits(d)
    ensures Blank(d.gap) && Meaning(d) == (if d.EmptyList? then Array([]) else Object(map[]))
    ensures Spelling(d) == (if d.EmptyList? then "[" else "{") + (d.gap + if d.EmptyList? then "]" else "}")
    ensures |Spelling(d)| == |d.gap| + 2
  {
    hide Blank;
  }

  lemma GapThere(text: string, i: nat, gap: string, open: string, close: string)
    requires Stands(text, i, open + (gap + close)) && |open| == |close| == 1 && Blank(gap)
    requires close == "]" || close == "}"
    ensures i + 1 + |gap| < |text| && text[i] == open[0] && text[i + 1 + |gap|] == close[0]
    ensures Space(text, i + 1) == i + 1 + |gap|
  {
    hide *;
    StandsSplit(text, i, open, gap + close);
    StandsSplit(text, i + 1, gap, close);
    StandsThere(text, i, open);
    StandsThere(text, i + 1 + |gap|, close);
    NotSpace(text, i + 1 + |gap|);
    BlankSkipped(text, i + 1, gap);
  }

  lemma EmptyBrackets(text: string, i: nat, path: Path, depth: nat)
    requires Advances(Decode, text) && depth <= DEPTH_LIMIT && i < |text| && text[i] == '['
    requires Space(text, i + 1) < |text| && text[Space(text, i + 1)] == ']'
    ensures RestReads(ParseValue(text, Decode, i, path, depth), Array([]), Space(text, i + 1) + 1)
  {
    SpaceStays(text, i);
    hide ParseNumber, ParseMembers, ParseItems, Space, Decode, Advances, StartsWith;
  }

  lemma EmptyBraces(text: string, i: nat, path: Path, depth: nat)
    requires Advances(Decode, text) && depth <= DEPTH_LIMIT && i < |text| && text[i] == '{'
    requires Space(text, i + 1) < |text| && text[Space(text, i + 1)] == '}'
    ensures RestReads(ParseValue(text, Decode, i, path, depth), Object(map[]), Space(text, i + 1) + 1)
  {
    SpaceStays(text, i);
    hide ParseNumber, ParseMembers, ParseItems, Space, Decode, Advances, StartsWith;
  }

  lemma ListDispatch(text: string, i: nat, path: Path, depth: nat)
    requires Advances(Decode, text) && i < |text| && depth <= DEPTH_LIMIT && text[i] == '['
    requires Space(text, i + 1) < |text| && text[Space(text, i + 1)] != ']'
    ensures ParseValue(text, Decode, i, path, depth) == ParseItems(text, Decode, i + 1, path, depth, [])
  {
    SpaceStays(text, i);
    hide Advances, Space, ParseItems, ParseMembers, ParseNumber, StartsWith, Decode;
  }

  lemma RecordDispatch(text: string, i: nat, path: Path, depth: nat)
    requires Advances(Decode, text) && i < |text| && depth <= DEPTH_LIMIT && text[i] == '{'
    requires Space(text, i + 1) < |text| && text[Space(text, i + 1)] != '}'
    ensures ParseValue(text, Decode, i, path, depth) == ParseMembers(text, Decode, i + 1, path, depth, map[])
  {
    SpaceStays(text, i);
    hide Advances, Space, ParseItems, ParseMembers, ParseNumber, StartsWith, Decode;
  }

  lemma FirstElement(text: string, i: nat, items: ItemList)
    requires ItemsFit(items) && Stands(text, i, ItemsSpelling(items))
    ensures i <= |text| && Space(text, i) < |text| && text[Space(text, i)] != ']'
  {
    ItemsParts(text, i, items);
    SpacedParts(text, i, items.item);
    SyntaxStart(items.item.value);
    hide Spelling, SpacedSpelling, Stands, Space, IsSpace;
  }

  /** Where the first item ends, and what follows it. */
  lemma ItemsParts(text: string, i: nat, items: ItemList)
    requires ItemsFit(items) && Stands(text, i, ItemsSpelling(items))
    ensures SpacedFits(items.item) && Stands(text, i, SpacedSpelling(items.item))
    ensures var e := i + |SpacedSpelling(items.item)|;
            && e < |text| && text[e] == (if items.LastItem? then ']' else ',')
            && (items.LastItem? ==> e + 1 == i + |ItemsSpelling(items)|)
            && (items.NextItem? ==>
                  && ItemsFit(items.rest) && Stands(text, e + 1, ItemsSpelling(items.rest))
                  && e + 1 + |ItemsSpelling(items.rest)| == i + |ItemsSpelling(items)|)
  {
    hide *;
    match items
    case LastItem(item) =>
      LastItemSpelling(item);
      ThenOne(text, i, SpacedSpelling(item), ']', "");
    case NextItem(item, rest) =>
      NextItemSpelling(item, rest);
      ThenOne(text, i, SpacedSpelling(item), ',', ItemsSpelling(rest));
  }

  lemma LastItemSpelling(item: Spaced)
    requires ItemsFit(LastItem(item))
    ensures SpacedFits(item) && ItemsSpelling(LastItem(item)) == SpacedSpelling(item) + ([']'] + "")
    ensures |ItemsSpelling(LastItem(item))| == |SpacedSpelling(item)| + 1
  {
    hide Fits, SpacedSpelling;
  }

  lemma NextItemSpelling(item: Spaced, rest: ItemList)
    requires ItemsFit(NextItem(item, rest))
    ensures SpacedFits(item) && ItemsFit(rest)
    ensures ItemsSpelling(NextItem(item, rest)) == SpacedSpelling(item) + ([','] + ItemsSpelling(rest))
    ensures |ItemsSpelling(NextItem(item, rest))| == |SpacedSpelling(item)| + 1 + |ItemsSpelling(rest)|
  {
    hide Fits, SpacedSpelling;
  }

  lemma ThenOne(text: string, i: nat, a: string, c: char, b: string)
    requires Stands(text, i, a + ([c] + b))
    ensures Stands(text, i, a) && i + |a| < |text| && text[i + |a|] == c && Stands(text, i + |a| + 1, b)
  {
    hide *;
    StandsSplit(text, i, a, [c] + b);
    StandsSplit(text, i + |a|, [c], b);
    StandsThere(text, i + |a|, [c]);
  }

  lemma {:induction false} ItemsReads(text: string, i: nat, items: ItemList, got: seq<Json>, path: Path, depth: nat)
    requires Advances(Decode, text) && ItemsFit(items) && ItemsAdmitted(items)
    requires depth + 1 + ItemsDepth(items) <= DEPTH_LIMIT && Stands(text, i, ItemsSpelling(items))
    ensures i <= |text|
    ensures RestReads(ParseItems(text, Decode, i, path, depth, got), Array(got + Values(items)),
                      i + |ItemsSpelling(items)|)
    decreases items
  {
    hide *;
    var item := items.item;
    ItemsParts(text, i, items);
    ItemsShape(items);
    var e := i + |SpacedSpelling(item)|;
    var c := i + |item.before| + |Spelling(item.value)|;
    ClosesThere(text, e);
    SpacedReads(text, i, item, path + [Dec(|got|)], depth + 1);
    ValuesNext(items, got);
    if items.NextItem? {
      ItemsReads(text, e + 1, items.rest, got + [Meaning(item.value)], path, depth);
    }
    ItemNext(text, i, got, Meaning(item.value), c, e, path, depth, Array(got + Values(items)),
             i + |ItemsSpelling(items)|);
  }

  lemma ClosesThere(text: string, e: nat)
    requires e < |text| && (text[e] == ',' || text[e] == ']' || text[e] == '}')
    ensures Closes(text, e)
  {
  }

  lemma ItemsShape(items: ItemList)
    requires ItemsFit(items)
    ensures Fits(items.item.value) && Depth(items.item.value) <= ItemsDepth(items)
    ensures ItemsAdmitted(items) ==> Admitted(items.item.value)
    ensures items.NextItem? ==>
            ItemsDepth(items.rest) <= ItemsDepth(items) && (ItemsAdmitted(items) ==> ItemsAdmitted(items.rest))
  {
    hide Fits, Depth, Admitted;
  }

  lemma ValuesNext(items: ItemList, got: seq<Json>)
    requires ItemsFit(items) && Fits(items.item.value)
    ensures items.LastItem? ==> got + Values(items) == got + [Meaning(items.item.value)]
    ensures items.NextItem? ==>
            got + Values(items) == got + [Meaning(items.item.value)] + Values(items.rest)
  {
    hide Fits, Meaning;
  }

  /** One item read, then the rest of the items as `ParseItems` goes on. */
  lemma ItemNext(text: string, i: nat, got: seq<Json>, item: Json, c: nat, e: nat, path: Path, depth: nat, whole: Json,
      end: nat)
    requires Advances(Decode, text) && i <= |text| && c <= |text| && Space(text, c) == e < |text|
    requires RestReads(ParseValue(text, Decode, i, path + [Dec(|got|)], depth + 1), item, c)
    requires text[e] == ']' || text[e] == ','
    requires text[e] == ']' ==> whole == Array(got + [item]) && end == e + 1
    requires text[e] == ',' ==>
             RestReads(ParseItems(text, Decode, e + 1, path, depth, got + [item]), whole, end)
    ensures RestReads(ParseItems(text, Decode, i, path, depth, got), whole, end)
  {
    hide *;
    CommaReads(text, e);
    if text[e] == ']' {
      ItemsClose(text, i, got, item, c, path, depth);
    } else {
      ItemsGoOn(text, i, got, item, c, path, depth, whole, end);
    }
  }

  lemma CommaReads(text: string, e: nat)
    requires e < |text|
    ensures text[e] == ',' ==> Consume(text, e, ',') == Success(e + 1)
  {
    hide Space;
    if text[e] == ',' {
      SpaceStays(text, e);
    }
  }

  lemma ItemsClose(text: string, i: nat, got: seq<Json>, item: Json, c: nat, path: Path, depth: nat)
    requires Advances(Decode, text) && i <= |text| && c <= |text| && Space(text, c) < |text|
    requires RestReads(ParseValue(text, Decode, i, path + [Dec(|got|)], depth + 1), item, c)
    requires text[Space(text, c)] == ']'
    ensures RestReads(ParseItems(text, Decode, i, path, depth, got), Array(got + [item]), Space(text, c) + 1)
  {
    hide Space, ParseValue, Advances, Dec, Decode, Consume;
  }

  lemma ItemsGoOn(text: string, i: nat, got: seq<Json>, item: Json, c: nat, path: Path, depth: nat, whole: Json,
      end: nat)
    requires Advances(Decode, text) && i <= |text| && c <= |text| && Space(text, c) < |text|
    requires RestReads(ParseValue(text, Decode, i, path + [Dec(|got|)], depth + 1), item, c)
    requires text[Space(text, c)] == ',' && Consume(text, Space(text, c), ',') == Success(Space(text, c) + 1)
    requires RestReads(ParseItems(text, Decode, Space(text, c) + 1, path, depth, got + [item]), whole, end)
    ensures RestReads(ParseItems(text, Decode, i, path, depth, got), whole, end)
  {
    hide Space, ParseValue, Advances, Dec, Decode, Consume;
  }

  lemma FirstField(text: string, i: nat, members: MemberList)
    requires MembersFit(members) && Stands(text, i, MembersSpelling(members))
    ensures i <= |text| && Space(text, i) < |text| && text[Space(text, i)] == '"'
  {
    hide *;
    MembersParts(text, i, members);
    MemberParts(text, i, members.member);
    StandsInside(text, i, MembersSpelling(members));
  }

  /** Where the first member ends, and what follows it. */
  lemma MembersParts(text: string, i: nat, members: MemberList)
    requires MembersFit(members) && Stands(text, i, MembersSpelling(members))
    ensures MemberFits(members.member) && Stands(text, i, MemberSpelling(members.member))
    ensures var e := i + |MemberSpelling(members.member)|;
            && e < |text| && text[e] == (if members.LastMember? then '}' else ',')
            && (members.LastMember? ==> e + 1 == i + |MembersSpelling(members)|)
            && (members.NextMember? ==>
                  && MembersFit(members.rest) && Stands(text, e + 1, MembersSpelling(members.rest))
                  && e + 1 + |MembersSpelling(members.rest)| == i + |MembersSpelling(members)|)
  {
    hide *;
    match members
    case LastMember(m) =>
      LastMemberSpelling(m);
      ThenOne(text, i, MemberSpelling(m), '}', "");
    case NextMember(m, rest) =>
      NextMemberSpelling(m, rest);
      ThenOne(text, i, MemberSpelling(m), ',', MembersSpelling(rest));
  }

  lemma LastMemberSpelling(m: Member)
    requires MembersFit(LastMember(m))
    ensures MemberFits(m) && MembersSpelling(LastMember(m)) == MemberSpelling(m) + (['}'] + "")
    ensures |MembersSpelling(LastMember(m))| == |MemberSpelling(m)| + 1
  {
    hide Fits, MemberSpelling, NameFits;
  }

  lemma NextMemberSpelling(m: Member, rest: MemberList)
    requires MembersFit(NextMember(m, rest))
    ensures MemberFits(m) && MembersFit(rest)
    ensures MembersSpelling(NextMember(m, rest)) == MemberSpelling(m) + ([','] + MembersSpelling(rest))
    ensures |MembersSpelling(NextMember(m, rest))| == |MemberSpelling(m)| + 1 + |MembersSpelling(rest)|
  {
    hide Fits, MemberSpelling, NameFits;
  }

  lemma MemberPieces(text: string, i: nat, before: string, name: string, between: string, value: string)
    requires Stands(text, i, before + (name + (between + (":" + value)))) && name != ""
    ensures var j := i + |before|;
            var a := j + |name|;
            var k := a + |between|;
            && k < |text| && text[j] == name[0] && text[k] == ':'
            && Stands(text, i, before) && Stands(text, j, name) && Stands(text, a, between)
            && Stands(text, k + 1, value)
  {
    hide *;
    var j := i + |before|;
    var a := j + |name|;
    var k := a + |between|;
    StandsSplit(text, i, before, name + (between + (":" + value)));
    StandsSplit(text, j, name, between + (":" + value));
    StandsSplit(text, a, between, ":" + value);
    StandsSplit(text, k, ":", value);
    StandsThere(text, j, name);
    StandsThere(text, k, ":");
  }

  lemma MemberShape(m: Member)
    requires MemberFits(m)
    ensures Blank(m.before) && PiecesFit(m.name) && Blank(m.between) && SpacedFits(m.value)
    ensures LiteralSpelling(m.name) != "" && LiteralSpelling(m.name)[0] == '"'
    ensures |MemberSpelling(m)|
         == |m.before| + |LiteralSpelling(m.name)| + |m.between| + 1 + |SpacedSpelling(m.value)|
  {
    hide SpacedSpelling, Fits, PiecesSpelling, PiecesFit, Blank;
  }

  lemma MemberStandsThere(text: string, i: nat, m: Member, j: nat, a: nat, k: nat)
    requires MemberFits(m) && PiecesFit(m.name) && SpacedFits(m.value) && Stands(text, i, MemberSpelling(m))
    requires j == i + |m.before| && a == j + |LiteralSpelling(m.name)| && k == a + |m.between|
    ensures k < |text| && text[j] == '"' && text[k] == ':' && Stands(text, i, m.before)
    ensures Stands(text, j, LiteralSpelling(m.name)) && Stands(text, a, m.between)
    ensures Stands(text, k + 1, SpacedSpelling(m.value))
  {
    MemberPieces(text, i, m.before, LiteralSpelling(m.name), m.between, SpacedSpelling(m.value));
    hide Stands, SpacedSpelling, PiecesSpelling, PiecesFit, MemberFits, SpacedFits;
  }

  /** Where the name, the colon and the value of a member stand. */
  lemma MemberParts(text: string, i: nat, m: Member)
    requires MemberFits(m) && Stands(text, i, MemberSpelling(m))
    ensures PiecesFit(m.name) && SpacedFits(m.value)
    ensures var j := i + |m.before|;
            var a := j + |LiteralSpelling(m.name)|;
            var k := a + |m.between|;
            && j < a <= k < |text| && Space(text, i) == j && text[j] == '"' && Stands(text, j, LiteralSpelling(m.name))
            && Space(text, a) == k && text[k] == ':' && Stands(text, k + 1, SpacedSpelling(m.value))
            && k + 1 + |SpacedSpelling(m.value)| == i + |MemberSpelling(m)|
  {
    hide *;
    MemberShape(m);
    var j := i + |m.before|;
    var a := j + |LiteralSpelling(m.name)|;
    var k := a + |m.between|;
    MemberStandsThere(text, i, m, j, a, k);
    NotSpace(text, j);
    NotSpace(text, k);
    BlankSkipped(text, i, m.before);
    BlankSkipped(text, a, m.between);
  }

  lemma NotSpace(text: string, i: nat)
    requires i < |text| && (text[i] == '"' || text[i] == ':' || text[i] == ']' || text[i] == '}')
    ensures !IsSpace(text[i])
  {
  }

  lemma {:induction false} MembersReads(text: string, i: nat, members: MemberList, got: map<string, Json>, path: Path,
      depth: nat)
    requires Advances(Decode, text) && MembersFit(members) && MembersAdmitted(members) && Names(members) !! got.Keys
    requires depth + 1 + MembersDepth(members) <= DEPTH_LIMIT && Stands(text, i, MembersSpelling(members))
    ensures i <= |text|
    ensures RestReads(ParseMembers(text, Decode, i, path, depth, got), Object(got + Fields(members)),
                      i + |MembersSpelling(members)|)
    decreases members
  {
    hide *;
    var m := members.member;
    MembersParts(text, i, members);
    MembersShape(members, got);
    MemberParts(text, i, m);
    var key := LiteralText(m.name);
    var e := i + |MemberSpelling(m)|;
    var j := i + |m.before|;
    var a := j + |LiteralSpelling(m.name)|;
    var b := a + |m.between| + 1;
    var c := b + |m.value.before| + |Spelling(m.value.value)|;
    ClosesThere(text, e);
    SpacedReads(text, b, m.value, path + [key], depth + 1);
    FieldsNext(members, got);
    if members.NextMember? {
      MembersReads(text, e + 1, members.rest, got[key := Meaning(m.value.value)], path, depth);
    }
    NameReads(text, i, j, m.name);
    ColonReads(text, a, b - 1);
    MemberNext(text, i, got, key, a, b, Meaning(m.value.value), c, e, path, depth, Object(got + Fields(members)),
               i + |MembersSpelling(members)|);
  }

  lemma MembersShape(members: MemberList, got: map<string, Json>)
    requires MembersFit(members) && MembersAdmitted(members) && Names(members) !! got.Keys
    ensures var m := members.member;
            && PiecesFit(m.name) && LiteralText(m.name) !in got && Fits(m.value.value) && Admitted(m.value.value)
            && Depth(m.value.value) <= MembersDepth(members)
            && (members.NextMember? ==>
                  && MembersAdmitted(members.rest) && MembersDepth(members.rest) <= MembersDepth(members)
                  && Names(members.rest) !! got[LiteralText(m.name) := Meaning(m.value.value)].Keys)
  {
    assert LiteralText(members.member.name) in Names(members);
    if members.NextMember? {
      assert Names(members.rest) <= Names(members);
    }
    hide Fits, Depth, Admitted, PiecesFit, LiteralText, Meaning;
  }

  lemma FieldsNext(members: MemberList, got: map<string, Json>)
    requires MembersFit(members) && PiecesFit(members.member.name) && Fits(members.member.value.value)
    ensures var m := members.member;
            var more := got[LiteralText(m.name) := Meaning(m.value.value)];
            && (members.LastMember? ==> got + Fields(members) == more)
            && (members.NextMember? ==> got + Fields(members) == more + Fields(members.rest))
  {
    hide Fits, PiecesFit, LiteralText, Meaning;
    var m := members.member;
    MoreFields(got, LiteralText(m.name), Meaning(m.value.value),
               if members.NextMember? then Fields(members.rest) else map[]);
  }

  lemma MoreFields(got: map<string, Json>, key: string, v: Json, rest: map<string, Json>)
    ensures got[key := v] + rest == got + (map[key := v] + rest)
    ensures got[key := v] + map[] == got[key := v]
  {
  }

  lemma NameReads(text: string, i: nat, j: nat, name: seq<Piece>)
    requires Advances(Decode, text) && i <= |text| && Space(text, i) == j < |text| && PiecesFit(name)
    requires Stands(text, j, LiteralSpelling(name))
    ensures ParseString(text, Decode, Space(text, i)) == Success((LiteralText(name), j + |LiteralSpelling(name)|))
  {
    LiteralRead(text, j, name);
    hide LiteralSpelling, PiecesFit, Space, Decode, Stands, LiteralText, Advances;
  }

  lemma ColonReads(text: string, a: nat, k: nat)
    requires a <= |text| && Space(text, a) == k < |text| && text[k] == ':'
    ensures Consume(text, a, ':') == Success(k + 1)
  {
    hide Space;
  }

  /** One member read, then the rest as `ParseMembers` goes on. */
  lemma MemberNext(text: string, i: nat, got: map<string, Json>, key: string, a: nat, b: nat, member: Json, c: nat,
      e: nat, path: Path, depth: nat, whole: Json, end: nat)
    requires Advances(Decode, text) && i <= |text| && key !in got && c <= |text| && Space(text, c) == e < |text|
    requires ParseString(text, Decode, Space(text, i)) == Success((key, a)) && a <= |text|
    requires Consume(text, a, ':') == Success(b) && b <= |text|
    requires RestReads(ParseValue(text, Decode, b, path + [key], depth + 1), member, c)
    requires text[e] == '}' || text[e] == ','
    requires text[e] == '}' ==> whole == Object(got[key := member]) && end == e + 1
    requires text[e] == ',' ==>
             RestReads(ParseMembers(text, Decode, e + 1, path, depth, got[key := member]), whole, end)
    ensures RestReads(ParseMembers(text, Decode, i, path, depth, got), whole, end)
  {
    hide *;
    CommaReads(text, e);
    if text[e] == '}' {
      MembersClose(text, i, got, key, a, b, member, c, path, depth);
    } else {
      MembersGoOn(text, i, got, key, a, b, member, c, path, depth, whole, end);
    }
  }

  lemma MembersClose(text: string, i: nat, got: map<string, Json>, key: string, a: nat, b: nat, member: Json, c: nat,
      path: Path, depth: nat)
    requires Advances(Decode, text) && i <= |text| && key !in got && c <= |text| && Space(text, c) < |text|
    requires ParseString(text, Decode, Space(text, i)) == Success((key, a)) && a <= |text|
    requires Consume(text, a, ':') == Success(b) && b <= |text|
    requires RestReads(ParseValue(text, Decode, b, path + [key], depth + 1), member, c)
    requires text[Space(text, c)] == '}'
    ensures RestReads(ParseMembers(text, Decode, i, path, depth, got), Object(got[key := member]), Space(text, c) + 1)
  {
    hide Space, ParseValue, ParseString, Advances, Decode, Consume;
  }

  lemma MembersGoOn(text: string, i: nat, got: map<string, Json>, key: string, a: nat, b: nat, member: Json, c: nat,
      path: Path, depth: nat, whole: Json, end: nat)
    requires Advances(Decode, text) && i <= |text| && key !in got && c <= |text| && Space(text, c) < |text|
    requires ParseString(text, Decode, Space(text, i)) == Success((key, a)) && a <= |text|
    requires Consume(text, a, ':') == Success(b) && b <= |text|
    requires RestReads(ParseValue(text, Decode, b, path + [key], depth + 1), member, c)
    requires text[Space(text, c)] == ',' && Consume(text, Space(text, c), ',') == Success(Space(text, c) + 1)
    requires RestReads(ParseMembers(text, Decode, Space(text, c) + 1, path, depth, got[key := member]), whole, end)
    ensures RestReads(ParseMembers(text, Decode, i, path, depth, got), whole, end)
  {
    hide Space, ParseValue, ParseString, Advances, Decode, Consume;
  }

  /** What the grammar spells is parsed to what it means. */
  lemma SpelledIsParsed(s: Spaced)
    requires Document(s)
    ensures var text := SpacedSpelling(s);
            && Advances(Decode, text) && ParseSource(text, Decode).Success?
            && ParseSource(text, Decode).value.value == Meaning(s.value)
  {
    hide *;
    DocumentShape(s);
    var text := SpacedSpelling(s);
    DecodeAdvances(text);
    SliceStands(text, 0, |text|);
    WholeCloses(text);
    SpacedReads(text, 0, s, [], 0);
    SourceReads(text, Meaning(s.value), |s.before| + |Spelling(s.value)|);
  }

  lemma DocumentShape(s: Spaced)
    requires Document(s)
    ensures SpacedFits(s) && Fits(s.value) && Admitted(s.value) && 0 + Depth(s.value) <= DEPTH_LIMIT
  {
    hide Fits, Admitted, Depth;
  }

  lemma DecodeAdvances(text: string)
    ensures Advances(Decode, text)
  {
    hide DecodeRest;
  }

  lemma WholeCloses(text: string)
    ensures Closes(text, 0 + |text|) && text[0..|text|] == text
  {
  }

  lemma SourceReads(text: string, v: Json, c: nat)
    requires Advances(Decode, text) && RestReads(ParseValue(text, Decode, 0, [], 0), v, c)
    requires c <= |text| && Space(text, c) == |text|
    ensures ParseSource(text, Decode).Success? && ParseSource(text, Decode).value.value == v
  {
    hide ParseValue, Advances, Space, Decode;
  }

  // ----- What is parsed is spelled -----

  /** A tree that stands at j up to end and means v, inside `depth` containers. */
  ghost predicate Found(text: string, j: nat, d: Syntax, depth: nat, v: Json, end: nat) {
    && Fits(d) && Admitted(d) && depth + Depth(d) <= DEPTH_LIMIT
    && Stands(text, j, Spelling(d)) && j + |Spelling(d)| == end && Meaning(d) == v
  }

  datatype First = Quoted | Braces | NoBraces | Brackets | NoBrackets | Keyword(word: Syntax) | Digits

  /** The branch that a successful parse took. */
  lemma FirstOf(text: string, i: nat, path: Path, depth: nat) returns (first: First)
    requires i <= |text| && Advances(Decode, text) && ParseValue(text, Decode, i, path, depth).Success?
    ensures depth <= DEPTH_LIMIT && Space(text, i) < |text|
    ensures var j := Space(text, i);
            var parsed := ParseValue(text, Decode, i, path, depth);
            var r := parsed.value;
            match first
            case Quoted =>
              text[j] == '"' && ParseString(text, Decode, j) == Success((r.value.text, r.end)) && r.value.Text?
            case Braces => text[j] == '{' && ParseMembers(text, Decode, j + 1, path, depth, map[]) == parsed
            case NoBraces =>
              var k := Space(text, j + 1);
              text[j] == '{' && k < |text| && text[k] == '}' && r.value == Object(map[]) && r.end == k + 1
            case Brackets => text[j] == '[' && ParseItems(text, Decode, j + 1, path, depth, []) == parsed
            case NoBrackets =>
              var k := Space(text, j + 1);
              text[j] == '[' && k < |text| && text[k] == ']' && r.value == Array([]) && r.end == k + 1
            case Keyword(word) =>
              && (word.TrueWord? || word.FalseWord? || word.NullWord?)
              && StartsWith(text, j, Spelling(word)) && r.value == Meaning(word) && r.end == j + |Spelling(word)|
            case Digits => ParseNumber(text, j, path) == parsed
  {
    hide Advances, ParseNumber, ParseMembers, ParseItems, ParseString, StartsWith, Space, Decode;
    var j := Space(text, i);
    var k := if j < |text| then Space(text, j + 1) else 0;
    if text[j] == '"' {
      first := Quoted;
    } else if text[j] == '{' {
      first := if k < |text| && text[k] == '}' then NoBraces else Braces;
    } else if text[j] == '[' {
      first := if k < |text| && text[k] == ']' then NoBrackets else Brackets;
    } else if StartsWith(text, j, "true") {
      first := Keyword(TrueWord);
    } else if StartsWith(text, j, "false") {
      first := Keyword(FalseWord);
    } else if StartsWith(text, j, "null") {
      first := Keyword(NullWord);
    } else {
      first := Digits;
    }
  }

  lemma QuotedFound(text: string, j: nat, depth: nat, t: string, end: nat) returns (d: Syntax)
    requires Advances(Decode, text) && j <= |text| && ParseString(text, Decode, j) == Success((t, end))
    requires depth <= DEPTH_LIMIT
    ensures Found(text, j, d, depth, Text(t), end)
  {
    var pieces := LiteralFound(text, j);
    d := Literal(pieces);
    hide Decode, PiecesFit, LiteralSpelling, LiteralText, Stands, Advances;
  }

  lemma DigitsFound(text: string, j: nat, path: Path, depth: nat) returns (d: Syntax)
    requires j <= |text| && depth <= DEPTH_LIMIT && ParseNumber(text, j, path).Success?
    ensures var r := ParseNumber(text, j, path).value; Found(text, j, d, depth, r.value, r.end)
  {
    var lexeme, end := NumberTaken(text, j, path);
    hide *;
    SliceStands(text, j, end);
    LexemeFound(lexeme);
    LexemeIsRead(PartsOf(lexeme));
    WordRead(PartsOf(lexeme), lexeme);
    d := Numeric(PartsOf(lexeme));
    NumericFound(text, j, depth, PartsOf(lexeme), end);
  }

  lemma NumberTaken(text: string, j: nat, path: Path) returns (lexeme: string, end: nat)
    requires j <= |text| && ParseNumber(text, j, path).Success?
    ensures end == ParseNumber(text, j, path).value.end && j <= end <= |text| && lexeme == text[j..end]
    ensures IsNumber(lexeme) && ParseNumber(text, j, path).value.value == Number(FloatOf(lexeme))
    ensures !Overflows(FloatOf(lexeme))
  {
    LexemeIsNumber(text, j);
    end := NumberEnd(text, j);
    lexeme := text[j..end];
    hide NumberEnd, IsNumber, FloatOf;
  }

  lemma NumericFound(text: string, j: nat, depth: nat, lexeme: Lexeme, end: nat)
    requires lexeme.Fits() && Binary64.NearestMagnitude(lexeme.Magnitude()) != Binary64.INF && depth <= DEPTH_LIMIT
    requires Stands(text, j, lexeme.Spelling()) && j + |lexeme.Spelling()| == end
    ensures Found(text, j, Numeric(lexeme), depth, Number(WordOf(lexeme)), end)
  {
    hide WordOf, Lexeme.Spelling, Lexeme.Fits, Lexeme.Magnitude, Binary64.NearestMagnitude, Stands;
  }

  lemma EmptyFound(text: string, j: nat, depth: nat, k: nat, braces: bool) returns (d: Syntax)
    requires j < |text| && depth <= DEPTH_LIMIT && k == Space(text, j + 1) < |text|
    requires text[j] == (if braces then '{' else '[') && text[k] == if braces then '}' else ']'
    ensures Found(text, j, d, depth, if braces then Object(map[]) else Array([]), k + 1)
  {
    var gap := text[j + 1..k];
    SpaceRun(text, j + 1);
    d := if braces then EmptyRecord(gap) else EmptyList(gap);
    assert text[j..k + 1] == [text[j]] + (gap + [text[k]]);
    hide Space, Blank;
  }

  lemma KeywordFound(text: string, j: nat, depth: nat, word: Syntax)
    requires j <= |text| && depth <= DEPTH_LIMIT && (word.TrueWord? || word.FalseWord? || word.NullWord?)
    requires StartsWith(text, j, Spelling(word))
    ensures Found(text, j, word, depth, Meaning(word), j + |Spelling(word)|)
  {
  }

  lemma FoundBy(text: string, j: nat, d: Syntax, depth: nat, v: Json, end: nat)
    requires Fits(d) && Admitted(d) && depth + Depth(d) <= DEPTH_LIMIT
    requires Stands(text, j, Spelling(d)) && j + |Spelling(d)| == end && Meaning(d) == v
    ensures Found(text, j, d, depth, v, end)
  {
    hide Fits, Admitted, Depth, Stands, Spelling, Meaning;
  }

  /** A bracket or brace before what stands behind it. */
  lemma OpenBefore(text: string, j: nat, open: string, rest: string)
    requires j < |text| && |open| == 1 && text[j] == open[0] && Stands(text, j + 1, rest)
    ensures Stands(text, j, open + rest)
  {
    assert text[j..j + 1] == open;
    StandsJoin(text, j, open, rest);
    hide Stands;
  }

  lemma ListFound(text: string, j: nat, depth: nat, elements: ItemList, v: Json, end: nat)
    requires j < |text| && text[j] == '[' && ItemsFound(text, j + 1, elements, [], depth, v, end)
    ensures Found(text, j, List(elements), depth, v, end)
  {
    ItemsFoundParts(text, j + 1, elements, [], depth, v, end);
    ListFits(elements);
    hide *;
    ListShape(elements);
    OpenBefore(text, j, "[", ItemsSpelling(elements));
    ListMeans(elements);
    FoundBy(text, j, List(elements), depth, v, end);
  }

  lemma ListFits(elements: ItemList)
    requires ItemsFit(elements) && ItemsAdmitted(elements)
    ensures Fits(List(elements)) && Admitted(List(elements))
  {
    hide ItemsFit, ItemsAdmitted;
  }

  lemma ItemsFoundParts(text: string, i: nat, items: ItemList, got: seq<Json>, depth: nat, v: Json, end: nat)
    requires ItemsFound(text, i, items, got, depth, v, end)
    ensures ItemsFit(items) && ItemsAdmitted(items) && depth + 1 + ItemsDepth(items) <= DEPTH_LIMIT
    ensures Stands(text, i, ItemsSpelling(items)) && i + |ItemsSpelling(items)| == end
    ensures v == Array(got + Values(items))
  {
    hide ItemsFit, ItemsAdmitted, ItemsDepth, Stands, ItemsSpelling, Values;
  }

  lemma RecordFound(text: string, j: nat, depth: nat, fields: MemberList, v: Json, end: nat)
    requires j < |text| && text[j] == '{' && MembersFound(text, j + 1, fields, map[], depth, v, end)
    ensures Found(text, j, Record(fields), depth, v, end)
  {
    MembersFoundParts(text, j + 1, fields, map[], depth, v, end);
    RecordFits(fields);
    hide *;
    RecordShape(fields);
    OpenBefore(text, j, "{", MembersSpelling(fields));
    RecordMeans(fields);
    FoundBy(text, j, Record(fields), depth, v, end);
  }

  lemma RecordFits(fields: MemberList)
    requires MembersFit(fields) && MembersAdmitted(fields)
    ensures Fits(Record(fields)) && Admitted(Record(fields))
  {
    hide MembersFit, MembersAdmitted;
  }

  ghost predicate SpacedFound(text: string, i: nat, s: Spaced, depth: nat, v: Json, e: nat) {
    && SpacedFits(s) && Admitted(s.value) && depth + Depth(s.value) <= DEPTH_LIMIT
    && Stands(text, i, SpacedSpelling(s)) && i + |SpacedSpelling(s)| == e && Meaning(s.value) == v
  }

  ghost predicate ItemsFound(text: string, i: nat, items: ItemList, got: seq<Json>, depth: nat, v: Json, end: nat) {
    && ItemsFit(items) && ItemsAdmitted(items) && depth + 1 + ItemsDepth(items) <= DEPTH_LIMIT
    && Stands(text, i, ItemsSpelling(items)) && i + |ItemsSpelling(items)| == end && v == Array(got + Values(items))
  }

  ghost predicate MembersFound(text: string, i: nat, members: MemberList, got: map<string, Json>, depth: nat, v: Json,
      end: nat)
  {
    && MembersFit(members) && MembersAdmitted(members) && depth + 1 + MembersDepth(members) <= DEPTH_LIMIT
    && Names(members) !! got.Keys && Stands(text, i, MembersSpelling(members))
    && i + |MembersSpelling(members)| == end && v == Object(got + Fields(members))
  }

  lemma {:induction false} FindValue(text: string, i: nat, path: Path, depth: nat) returns (d: Syntax)
    requires i <= |text| && Advances(Decode, text) && ParseValue(text, Decode, i, path, depth).Success?
    ensures var r := ParseValue(text, Decode, i, path, depth).value;
            Found(text, Space(text, i), d, depth, r.value, r.end)
    decreases |text| - i, 0
  {
    hide *;
    var j := Space(text, i);
    var r := ParseValue(text, Decode, i, path, depth).value;
    var first := FirstOf(text, i, path, depth);
    match first
    case Quoted => d := QuotedFound(text, j, depth, r.value.text, r.end);
    case Braces =>
      var fields := FindMembers(text, j + 1, map[], path, depth);
      RecordFound(text, j, depth, fields, r.value, r.end);
      d := Record(fields);
    case NoBraces => d := EmptyFound(text, j, depth, Space(text, j + 1), true);
    case Brackets =>
      var elements := FindItems(text, j + 1, [], path, depth);
      ListFound(text, j, depth, elements, r.value, r.end);
      d := List(elements);
    case NoBrackets => d := EmptyFound(text, j, depth, Space(text, j + 1), false);
    case Keyword(word) =>
      KeywordFound(text, j, depth, word);
      d := word;
    case Digits => d := DigitsFound(text, j, path, depth);
  }

  /** A value with the white space around it, up to e. */
  lemma {:induction false} FindSpaced(text: string, i: nat, path: Path, depth: nat) returns (s: Spaced)
    requires i <= |text| && Advances(Decode, text) && ParseValue(text, Decode, i, path, depth).Success?
    ensures var r := ParseValue(text, Decode, i, path, depth).value;
            SpacedFound(text, i, s, depth, r.value, Space(text, r.end))
    decreases |text| - i, 1
  {
    hide *;
    var r := ParseValue(text, Decode, i, path, depth).value;
    var d := FindValue(text, i, path, depth);
    s := Spaced(text[i..Space(text, i)], d, text[r.end..Space(text, r.end)]);
    SpaceRun(text, i);
    SpaceRun(text, r.end);
    SpacedBetween(text, i, s, depth, r.value, r.end);
  }

  lemma SpacedBetween(text: string, i: nat, s: Spaced, depth: nat, v: Json, c: nat)
    requires i <= |text| && c <= |text| && Found(text, Space(text, i), s.value, depth, v, c)
    requires s.before == text[i..Space(text, i)] && s.after == text[c..Space(text, c)]
    requires Blank(s.before) && Blank(s.after)
    ensures SpacedFound(text, i, s, depth, v, Space(text, c))
  {
    var j := Space(text, i);
    SliceStands(text, i, j);
    SliceStands(text, c, Space(text, c));
    hide Fits, Admitted, Depth, Spelling, Stands, Meaning, Space, Blank;
    StandsJoin(text, j, Spelling(s.value), s.after);
    StandsJoin(text, i, s.before, Spelling(s.value) + s.after);
  }

  /** What a successful parse of items took first, and how it went on. */
  lemma ItemsTaken(text: string, i: nat, got: seq<Json>, path: Path, depth: nat)
    requires i <= |text| && Advances(Decode, text) && ParseItems(text, Decode, i, path, depth, got).Success?
    ensures ParseValue(text, Decode, i, path + [Dec(|got|)], depth + 1).Success?
    ensures var whole := ParseItems(text, Decode, i, path, depth, got).value;
            var item := ParseValue(text, Decode, i, path + [Dec(|got|)], depth + 1).value;
            var e := Space(text, item.end);
            && e < |text|
            && (text[e] == ']' ==> whole.value == Array(got + [item.value]) && whole.end == e + 1)
            && (text[e] != ']' ==>
                  && text[e] == ','
                  && ParseItems(text, Decode, e + 1, path, depth, got + [item.value]).Success?
                  && whole.value == ParseItems(text, Decode, e + 1, path, depth, got + [item.value]).value.value
                  && whole.end == ParseItems(text, Decode, e + 1, path, depth, got + [item.value]).value.end)
  {
    var item := ParseValue(text, Decode, i, path + [Dec(|got|)], depth + 1);
    if item.Success? {
      CommaTaken(text, item.value.end);
    }
    hide Space, ParseValue, Advances, Dec, Decode, Consume;
  }

  lemma CommaTaken(text: string, c: nat)
    requires c <= |text|
    ensures var e := Space(text, c);
            Consume(text, e, ',').Success? ==> Consume(text, e, ',') == Success(e + 1) && e < |text| && text[e] == ','
  {
  }

  lemma {:induction false} FindItems(text: string, i: nat, got: seq<Json>, path: Path, depth: nat)
    returns (items: ItemList)
    requires i <= |text| && Advances(Decode, text) && ParseItems(text, Decode, i, path, depth, got).Success?
    ensures var r := ParseItems(text, Decode, i, path, depth, got).value;
            ItemsFound(text, i, items, got, depth, r.value, r.end)
    decreases |text| - i, 2
  {
    hide *;
    var r := ParseItems(text, Decode, i, path, depth, got).value;
    ItemsTaken(text, i, got, path, depth);
    var v := ParseValue(text, Decode, i, path + [Dec(|got|)], depth + 1).value;
    var e := Space(text, v.end);
    var item := FindSpaced(text, i, path + [Dec(|got|)], depth + 1);
    if text[e] == ']' {
      items := LastItem(item);
      OneItemFound(text, i, item, got, depth, v.value, e);
    } else {
      var rest := FindItems(text, e + 1, got + [v.value], path, depth);
      items := NextItem(item, rest);
      MoreItemsFound(text, i, item, rest, got, depth, v.value, e, r.value, r.end);
    }
  }

  lemma OneItemFound(text: string, i: nat, item: Spaced, got: seq<Json>, depth: nat, v: Json, e: nat)
    requires SpacedFound(text, i, item, depth + 1, v, e) && e < |text| && text[e] == ']'
    ensures ItemsFound(text, i, LastItem(item), got, depth, Array(got + [v]), e + 1)
  {
    assert text[e..e + 1] == "]";
    StandsJoin(text, i, SpacedSpelling(item), "]");
    hide SpacedSpelling, Stands, Fits, Admitted, Depth, Meaning, BlankAround;
  }

  lemma MoreItemsFound(text: string, i: nat, item: Spaced, rest: ItemList, got: seq<Json>, depth: nat, v: Json, e: nat,
      whole: Json, end: nat)
    requires SpacedFound(text, i, item, depth + 1, v, e) && e < |text| && text[e] == ','
    requires ItemsFound(text, e + 1, rest, got + [v], depth, whole, end)
    ensures ItemsFound(text, i, NextItem(item, rest), got, depth, whole, end)
  {
    var items := NextItem(item, rest);
    NextItemShape(item, rest);
    hide SpacedSpelling, Stands, Fits, Admitted, Depth, Meaning, BlankAround, ItemsFit, ItemsSpelling, ItemsDepth,
         ItemsAdmitted, Values, SpacedFits;
    CommaBetween(text, i, e, SpacedSpelling(item), ItemsSpelling(rest));
    assert got + Values(items) == got + [v] + Values(rest);
  }

  lemma NextItemShape(item: Spaced, rest: ItemList)
    requires SpacedFits(item) && ItemsFit(rest)
    ensures var items := NextItem(item, rest);
            && ItemsFit(items) && Values(items) == [Meaning(item.value)] + Values(rest)
            && ItemsSpelling(items) == SpacedSpelling(item) + ("," + ItemsSpelling(rest))
            && (Admitted(item.value) && ItemsAdmitted(rest) ==> ItemsAdmitted(items))
            && ItemsDepth(items) == Max(Depth(item.value), ItemsDepth(rest))
  {
    hide Fits, Meaning, Spelling, Admitted, Depth;
  }

  /** What a successful parse of members took first, and how it went on. */
  lemma MembersTaken(text: string, i: nat, got: map<string, Json>, path: Path, depth: nat)
    returns (key: string, a: nat, b: nat)
    requires i <= |text| && Advances(Decode, text) && ParseMembers(text, Decode, i, path, depth, got).Success?
    ensures ParseString(text, Decode, Space(text, i)) == Success((key, a)) && key !in got && a <= |text|
    ensures Consume(text, a, ':') == Success(b) && b <= |text|
    ensures ParseValue(text, Decode, b, path + [key], depth + 1).Success? && i < b
    ensures var whole := ParseMembers(text, Decode, i, path, depth, got).value;
            var member := ParseValue(text, Decode, b, path + [key], depth + 1).value;
            var more := got[key := member.value];
            var e := Space(text, member.end);
            && e < |text|
            && (text[e] == '}' ==> whole.value == Object(more) && whole.end == e + 1)
            && (text[e] != '}' ==>
                  && text[e] == ','
                  && ParseMembers(text, Decode, e + 1, path, depth, more).Success?
                  && whole.value == ParseMembers(text, Decode, e + 1, path, depth, more).value.value
                  && whole.end == ParseMembers(text, Decode, e + 1, path, depth, more).value.end)
  {
    hide Space, ParseValue, Advances, Decode, Consume, ParseString;
    var name := ParseString(text, Decode, Space(text, i)).value;
    key, a := name.0, name.1;
    b := Consume(text, a, ':').value;
    var member := ParseValue(text, Decode, b, path + [key], depth + 1).value;
    CommaTaken(text, member.end);
  }

  lemma {:induction false} FindMembers(text: string, i: nat, got: map<string, Json>, path: Path, depth: nat)
    returns (members: MemberList)
    requires i <= |text| && Advances(Decode, text) && ParseMembers(text, Decode, i, path, depth, got).Success?
    ensures var r := ParseMembers(text, Decode, i, path, depth, got).value;
            MembersFound(text, i, members, got, depth, r.value, r.end)
    decreases |text| - i, 2
  {
    hide *;
    var r := ParseMembers(text, Decode, i, path, depth, got).value;
    var key, a, b := MembersTaken(text, i, got, path, depth);
    var v := ParseValue(text, Decode, b, path + [key], depth + 1).value;
    var e := Space(text, v.end);
    var value := FindSpaced(text, b, path + [key], depth + 1);
    var m := NameFound(text, i, key, a, b, value, depth, v.value, e);
    if text[e] == '}' {
      members := LastMember(m);
      OneMemberFound(text, i, m, got, depth, key, v.value, e);
    } else {
      var rest := FindMembers(text, e + 1, got[key := v.value], path, depth);
      members := NextMember(m, rest);
      MoreMembersFound(text, i, m, rest, got, depth, key, v.value, e, r.value, r.end);
    }
  }

  ghost predicate MemberFound(text: string, i: nat, m: Member, depth: nat, key: string, v: Json, e: nat) {
    && MemberFits(m) && Admitted(m.value.value) && depth + 1 + Depth(m.value.value) <= DEPTH_LIMIT
    && Stands(text, i, MemberSpelling(m)) && i + |MemberSpelling(m)| == e
    && LiteralText(m.name) == key && Meaning(m.value.value) == v
  }

  lemma NameFound(text: string, i: nat, key: string, a: nat, b: nat, value: Spaced, depth: nat, v: Json, e: nat)
    returns (m: Member)
    requires i <= |text| && Advances(Decode, text) && a <= |text|
    requires ParseString(text, Decode, Space(text, i)) == Success((key, a)) && Consume(text, a, ':') == Success(b)
    requires SpacedFound(text, b, value, depth + 1, v, e)
    ensures MemberFound(text, i, m, depth, key, v, e)
  {
    hide *;
    var j, k := Space(text, i), Space(text, a);
    SpaceGoesOn(text, i);
    ColonTaken(text, a, b);
    NameTaken(text, i, key, a);
    var pieces := LiteralFound(text, j);
    m := Member(text[i..j], pieces, text[a..k], value);
    LiteralForward(pieces);
    SpaceRun(text, i);
    SpaceRun(text, a);
    SliceStands(text, i, j);
    SliceStands(text, a, k);
    MemberBetween(text, m, i, j, a, k, depth, key, v, e);
  }

  lemma SpaceGoesOn(text: string, i: nat)
    requires i <= |text|
    ensures i <= Space(text, i) <= |text|
  {
  }

  lemma LiteralForward(pieces: seq<Piece>)
    requires PiecesFit(pieces)
    ensures |LiteralSpelling(pieces)| >= 1
  {
    hide PiecesSpelling, PiecesFit;
  }

  lemma ColonTaken(text: string, a: nat, b: nat)
    requires a <= |text| && Consume(text, a, ':') == Success(b)
    ensures a <= Space(text, a) && b == Space(text, a) + 1 && b <= |text| && text[b - 1] == ':'
  {
    hide Space;
  }

  lemma NameTaken(text: string, i: nat, key: string, a: nat)
    requires i <= |text| && Advances(Decode, text) && ParseString(text, Decode, Space(text, i)) == Success((key, a))
    ensures Decode(text, Space(text, i)) == Some((key, a))
  {
    hide Space, Decode, Advances;
  }

  lemma MemberBetween(text: string, m: Member, i: nat, j: nat, a: nat, k: nat, depth: nat, key: string, v: Json, e: nat)
    requires i <= j <= |text| && j <= a <= k < |text| && text[k] == ':' && Blank(m.before) && Blank(m.between)
    requires Stands(text, i, m.before) && |m.before| == j - i && Stands(text, a, m.between) && |m.between| == k - a
    requires PiecesFit(m.name) && Stands(text, j, LiteralSpelling(m.name)) && a == j + |LiteralSpelling(m.name)|
    requires LiteralText(m.name) == key && SpacedFound(text, k + 1, m.value, depth + 1, v, e)
    ensures MemberFound(text, i, m, depth, key, v, e)
  {
    hide *;
    SpacedFoundParts(text, k + 1, m.value, depth + 1, v, e);
    MemberJoins(text, i, m.before, LiteralSpelling(m.name), m.between, SpacedSpelling(m.value));
    MemberFoundBy(text, i, m, depth, key, v, e);
  }

  lemma SpacedFoundParts(text: string, i: nat, s: Spaced, depth: nat, v: Json, e: nat)
    requires SpacedFound(text, i, s, depth, v, e)
    ensures SpacedFits(s) && Fits(s.value) && Admitted(s.value) && depth + Depth(s.value) <= DEPTH_LIMIT
    ensures Stands(text, i, SpacedSpelling(s)) && i + |SpacedSpelling(s)| == e && Meaning(s.value) == v
  {
    hide Fits, Admitted, Depth, Stands, SpacedSpelling, Meaning, BlankAround;
  }

  lemma MemberJoins(text: string, i: nat, before: string, name: string, between: string, value: string)
    requires var j := i + |before|;
             var a := j + |name|;
             var k := a + |between|;
             && Stands(text, i, before) && Stands(text, j, name) && Stands(text, a, between)
             && k < |text| && text[k] == ':' && Stands(text, k + 1, value)
    ensures Stands(text, i, before + (name + (between + (":" + value))))
  {
    var j := i + |before|;
    var a := j + |name|;
    var k := a + |between|;
    ColonStands(text, k);
    hide *;
    StandsJoin(text, k, ":", value);
    StandsJoin(text, a, between, ":" + value);
    StandsJoin(text, j, name, between + (":" + value));
    StandsJoin(text, i, before, name + (between + (":" + value)));
  }

  lemma ColonStands(text: string, k: nat)
    requires k < |text| && text[k] == ':'
    ensures Stands(text, k, ":")
  {
    assert text[k..k + 1] == ":";
  }

  lemma MemberFoundBy(text: string, i: nat, m: Member, depth: nat, key: string, v: Json, e: nat)
    requires Blank(m.before) && Blank(m.between) && PiecesFit(m.name) && SpacedFits(m.value) && Fits(m.value.value)
    requires Stands(text, i, m.before + (LiteralSpelling(m.name) + (m.between + (":" + SpacedSpelling(m.value)))))
    requires i + |m.before| + |LiteralSpelling(m.name)| + |m.between| + 1 + |SpacedSpelling(m.value)| == e
    requires LiteralText(m.name) == key && Admitted(m.value.value) && depth + 1 + Depth(m.value.value) <= DEPTH_LIMIT
    requires Meaning(m.value.value) == v
    ensures MemberFound(text, i, m, depth, key, v, e)
  {
    hide Stands, SpacedSpelling, LiteralSpelling, LiteralText, PiecesFit, Blank, Fits, Admitted, Depth, Meaning;
  }

  lemma OneMemberFound(text: string, i: nat, m: Member, got: map<string, Json>, depth: nat, key: string, v: Json,
      e: nat)
    requires MemberFound(text, i, m, depth, key, v, e) && e < |text| && text[e] == '}' && key !in got
    ensures MembersFound(text, i, LastMember(m), got, depth, Object(got[key := v]), e + 1)
  {
    hide *;
    MemberFoundParts(text, i, m, depth, key, v, e);
    LastMemberShape(m);
    CloseAfter(text, i, e, MemberSpelling(m));
    OneField(got, key, v);
    MembersFoundBy(text, i, LastMember(m), got, depth, Object(got[key := v]), e + 1);
  }

  lemma MemberFoundParts(text: string, i: nat, m: Member, depth: nat, key: string, v: Json, e: nat)
    requires MemberFound(text, i, m, depth, key, v, e)
    ensures MemberFits(m) && PiecesFit(m.name) && Fits(m.value.value) && Admitted(m.value.value)
    ensures depth + 1 + Depth(m.value.value) <= DEPTH_LIMIT
    ensures Stands(text, i, MemberSpelling(m)) && i + |MemberSpelling(m)| == e
    ensures LiteralText(m.name) == key && Meaning(m.value.value) == v
  {
    hide Fits, Admitted, Depth, Stands, MemberSpelling, Meaning, PiecesFit, LiteralText;
  }

  lemma CloseAfter(text: string, i: nat, e: nat, a: string)
    requires Stands(text, i, a) && e == i + |a| && e < |text| && text[e] == '}'
    ensures Stands(text, i, a + "}")
  {
    assert text[e..e + 1] == "}";
    StandsJoin(text, i, a, "}");
    hide Stands;
  }

  lemma OneField(got: map<string, Json>, key: string, v: Json)
    ensures got + map[key := v] == got[key := v]
  {
  }

  lemma MembersFoundBy(text: string, i: nat, members: MemberList, got: map<string, Json>, depth: nat, v: Json, end: nat)
    requires MembersFit(members) && MembersAdmitted(members) && depth + 1 + MembersDepth(members) <= DEPTH_LIMIT
    requires Names(members) !! got.Keys && Stands(text, i, MembersSpelling(members))
    requires i + |MembersSpelling(members)| == end && v == Object(got + Fields(members))
    ensures MembersFound(text, i, members, got, depth, v, end)
  {
    hide MembersFit, MembersAdmitted, MembersDepth, Names, Stands, MembersSpelling, Fields;
  }

  lemma LastMemberShape(m: Member)
    requires MemberFits(m)
    ensures var members := LastMember(m);
            && MembersFit(members) && MembersSpelling(members) == MemberSpelling(m) + "}"
            && |MembersSpelling(members)| == |MemberSpelling(m)| + 1
            && (Admitted(m.value.value) ==> MembersAdmitted(members)) && MembersDepth(members) == Depth(m.value.value)
            && Names(members) == {LiteralText(m.name)}
            && Fields(members) == map[LiteralText(m.name) := Meaning(m.value.value)]
  {
    hide Fits, NameFits, LiteralText, Meaning, MemberSpelling, Admitted, Depth;
  }

  lemma MoreMembersFound(text: string, i: nat, m: Member, rest: MemberList, got: map<string, Json>, depth: nat,
      key: string, v: Json, e: nat, whole: Json, end: nat)
    requires MemberFound(text, i, m, depth, key, v, e) && e < |text| && text[e] == ',' && key !in got
    requires MembersFound(text, e + 1, rest, got[key := v], depth, whole, end)
    ensures MembersFound(text, i, NextMember(m, rest), got, depth, whole, end)
  {
    hide *;
    var members := NextMember(m, rest);
    MemberFoundParts(text, i, m, depth, key, v, e);
    MembersFoundParts(text, e + 1, rest, got[key := v], depth, whole, end);
    NextMemberShape(m, rest);
    CommaBetween(text, i, e, MemberSpelling(m), MembersSpelling(rest));
    assert key in got[key := v].Keys;
    MoreFields(got, key, v, Fields(rest));
    assert Max(Depth(m.value.value), MembersDepth(rest)) == MembersDepth(members);
    DeeperOf(Depth(m.value.value), MembersDepth(rest));
    MembersFoundBy(text, i, members, got, depth, whole, end);
  }

  lemma DeeperOf(a: nat, b: nat)
    ensures Max(a, b) == a || Max(a, b) == b
  {
  }

  lemma MembersFoundParts(text: string, i: nat, members: MemberList, got: map<string, Json>, depth: nat, v: Json,
      end: nat)
    requires MembersFound(text, i, members, got, depth, v, end)
    ensures MembersFit(members) && MembersAdmitted(members) && depth + 1 + MembersDepth(members) <= DEPTH_LIMIT
    ensures Names(members) !! got.Keys && Stands(text, i, MembersSpelling(members))
    ensures i + |MembersSpelling(members)| == end && v == Object(got + Fields(members))
  {
    hide MembersFit, MembersAdmitted, MembersDepth, Names, Stands, MembersSpelling, Fields;
  }

  lemma CommaBetween(text: string, i: nat, e: nat, a: string, b: string)
    requires Stands(text, i, a) && e == i + |a| && e < |text| && text[e] == ',' && Stands(text, e + 1, b)
    ensures Stands(text, i, a + ("," + b))
  {
    SliceStands(text, e, e + 1);
    assert text[e..e + 1] == ",";
    hide Stands;
    StandsJoin(text, e, ",", b);
    StandsJoin(text, i, a, "," + b);
  }

  lemma NextMemberShape(m: Member, rest: MemberList)
    requires MemberFits(m) && MembersFit(rest)
    ensures var members := NextMember(m, rest);
            && MembersFit(members) && MembersSpelling(members) == MemberSpelling(m) + ("," + MembersSpelling(rest))
            && |MembersSpelling(members)| == |MemberSpelling(m)| + 1 + |MembersSpelling(rest)|
            && (Admitted(m.value.value) && MembersAdmitted(rest) && LiteralText(m.name) !in Names(rest) ==>
                  MembersAdmitted(members))
            && MembersDepth(members) == Max(Depth(m.value.value), MembersDepth(rest))
            && Names(members) == {LiteralText(m.name)} + Names(rest)
            && Fields(members) == map[LiteralText(m.name) := Meaning(m.value.value)] + Fields(rest)
  {
    hide Fits, NameFits, LiteralText, Meaning, MemberSpelling, Admitted, Depth;
  }

  /** Whatever is parsed is spelled by a document that means the parsed value. */
  lemma ParsedIsSpelled(text: string) returns (s: Spaced)
    requires Advances(Decode, text) && ParseSource(text, Decode).Success?
    ensures Document(s) && SpacedSpelling(s) == text
    ensures Meaning(s.value) == ParseSource(text, Decode).value.value
  {
    SourceTaken(text);
    hide *;
    s := FindSpaced(text, 0, [], 0);
    WholeSpelled(text, s, ParseValue(text, Decode, 0, [], 0).value.value);
  }

  lemma SourceTaken(text: string)
    requires Advances(Decode, text) && ParseSource(text, Decode).Success?
    ensures ParseValue(text, Decode, 0, [], 0) == ParseSource(text, Decode)
    ensures Space(text, ParseSource(text, Decode).value.end) == |text|
  {
    hide ParseValue, Advances, Space, Decode;
  }

  lemma WholeSpelled(text: string, s: Spaced, v: Json)
    requires SpacedFound(text, 0, s, 0, v, |text|)
    ensures Document(s) && SpacedSpelling(s) == text && Meaning(s.value) == v
  {
    assert text[0..|text|] == text;
    hide Fits, Admitted, Depth, Meaning, Spelling, BlankAround;
  }

  /**
   The parser accepts a text with a value if and only if the grammar spells the whole text with
   that value: finite numbers, distinct names in every record, and at most 200 levels.
   */
  lemma AcceptedIffSpelled(text: string, v: Json)
    ensures Advances(Decode, text)
    ensures ParseSource(text, Decode).Success? && ParseSource(text, Decode).value.value == v <==> Spells(text, v)
  {
    DecodeAdvances(text);
    hide *;
    if ParseSource(text, Decode).Success? && ParseSource(text, Decode).value.value == v {
      var s := ParsedIsSpelled(text);
      SpellsBy(s);
    }
    if Spells(text, v) {
      var s := SpelledBy(text, v);
      SpelledIsParsed(s);
    }
  }

  lemma SpellsBy(s: Spaced)
    requires Document(s)
    ensures Spells(SpacedSpelling(s), Meaning(s.value))
  {
  }

  lemma SpelledBy(text: string, v: Json) returns (s: Spaced)
    requires Spells(text, v)
    ensures Document(s) && SpacedSpelling(s) == text && Meaning(s.value) == v
  {
    s :| Document(s) && SpacedSpelling(s) == text && Meaning(s.value) == v;
  }

  // ----- White space between tokens is free -----

  /** The tree without any white space. */
  function Stripped(d: Syntax): Syntax {
    match d
    case EmptyList(_) => EmptyList("")
    case List(elements) => List(StrippedItems(elements))
    case EmptyRecord(_) => EmptyRecord("")
    case Record(fields) => Record(StrippedMembers(fields))
    case _ => d
  }

  function StrippedItems(items: ItemList): ItemList {
    var item := Spaced("", Stripped(items.item.value), "");
    match items
    case LastItem(_) => LastItem(item)
    case NextItem(_, rest) => NextItem(item, StrippedItems(rest))
  }

  function StrippedMembers(members: MemberList): MemberList {
    var m := Member("", members.member.name, "", Spaced("", Stripped(members.member.value.value), ""));
    match members
    case LastMember(_) => LastMember(m)
    case NextMember(_, rest) => NextMember(m, StrippedMembers(rest))
  }

  /** Nothing the grammar asks for depends on the white space. */
  ghost predicate SameButSpace(d: Syntax, e: Syntax)
    requires Fits(d)
  {
    && Fits(e) && Meaning(e) == Meaning(d) && (Admitted(e) <==> Admitted(d)) && Depth(e) == Depth(d)
  }

  lemma {:induction false} StrippedSame(d: Syntax)
    requires Fits(d)
    ensures SameButSpace(d, Stripped(d))
    decreases d
  {
    match d
    case List(elements) =>
      StrippedItemsSame(elements);
      hide ItemsFit, ItemsAdmitted, ItemsDepth, StrippedItems, Values;
    case Record(fields) =>
      StrippedMembersSame(fields);
      hide MembersFit, MembersAdmitted, MembersDepth, StrippedMembers, Fields;
    case _ =>
  }

  lemma {:induction false} StrippedItemsSame(items: ItemList)
    requires ItemsFit(items)
    ensures var e := StrippedItems(items);
            && ItemsFit(e) && Values(e) == Values(items) && (ItemsAdmitted(e) <==> ItemsAdmitted(items))
            && ItemsDepth(e) == ItemsDepth(items)
    decreases items
  {
    StrippedSame(items.item.value);
    if items.NextItem? {
      StrippedItemsSame(items.rest);
    }
    hide Fits, Meaning, Admitted, Depth, Stripped;
  }

  lemma {:induction false} StrippedMembersSame(members: MemberList)
    requires MembersFit(members)
    ensures var e := StrippedMembers(members);
            && MembersFit(e) && Fields(e) == Fields(members) && Names(e) == Names(members)
            && (MembersAdmitted(e) <==> MembersAdmitted(members)) && MembersDepth(e) == MembersDepth(members)
    decreases members
  {
    StrippedSame(members.member.value.value);
    if members.NextMember? {
      StrippedMembersSame(members.rest);
    }
    hide Fits, Meaning, Admitted, Depth, Stripped, PiecesFit, LiteralText;
  }

  /** Texts that differ only in the runs of white space around their tokens are parsed alike. */
  lemma WhiteSpaceIsFree(s: Spaced, t: Spaced)
    requires SpacedFits(s) && SpacedFits(t) && Stripped(s.value) == Stripped(t.value)
    ensures Document(s) <==> Document(t)
    ensures Document(s) ==>
            var a, b := SpacedSpelling(s), SpacedSpelling(t);
            && Advances(Decode, a) && ParseSource(a, Decode).Success?
            && Advances(Decode, b) && ParseSource(b, Decode).Success?
            && ParseSource(a, Decode).value.value == ParseSource(b, Decode).value.value
  {
    StrippedSame(s.value);
    StrippedSame(t.value);
    if Document(s) {
      SpelledIsParsed(s);
    }
    if Document(t) {
      SpelledIsParsed(t);
    }
    hide Fits, Meaning, Admitted, Depth, Stripped, ParseSource, SpacedSpelling, BlankAround, Advances;
  }
}
