/**
 The lexical grammar of JSON text (sections 6 and 7 of RFC 8259): string literals piece by
 piece and numbers part by part, each with what it stands for, and the theorems that the
 decoder and the number pattern accept exactly these spellings with exactly these meanings.
 */
module JsonLexis {
  import opened Common
  import opened DecimalText
  import opened JsonString

  // ----- String literals -----

  const LOWER: string := "0123456789abcdef"
  const UPPER: string := "0123456789ABCDEF"

  datatype Hex = Hex(digit: nat, capital: bool) {
    predicate Fits() {
      digit < 16
    }

    function Char(): char
      requires Fits()
    {
      if capital then UPPER[digit] else LOWER[digit]
    }
  }

  /** Four hexadecimal digits, high digit first. */
  datatype Hex4 = Hex4(a: Hex, b: Hex, c: Hex, d: Hex) {
    predicate Fits() {
      a.Fits() && b.Fits() && c.Fits() && d.Fits()
    }

    function Value(): nat
      requires Fits()
    {
      4096 * a.digit + 256 * b.digit + 16 * c.digit + d.digit
    }

    function Spelling(): string
      requires Fits()
    {
      [a.Char(), b.Char(), c.Char(), d.Char()]
    }
  }

  /** One character of a literal: itself, a letter escape, a unit escape or a surrogate pair. */
  datatype Piece = Bare(c: char) | Letter(letter: char) | Hexed(unit: Hex4) | Paired(high: Hex4, low: Hex4) {
    predicate Fits() {
      match this
      case Bare(c) => c as int >= 32 && c != '"' && c != '\\'
      case Letter(letter) => letter in "\"\\/bfnrt"
      case Hexed(unit) => unit.Fits() && !(0xD800 <= unit.Value() <= 0xDFFF)
      case Paired(high, low) =>
        && high.Fits() && 0xD800 <= high.Value() <= 0xDBFF
        && low.Fits() && 0xDC00 <= low.Value() <= 0xDFFF
    }

    function Spelling(): string
      requires Fits()
    {
      match this
      case Bare(c) => [c]
      case Letter(letter) => "\\" + [letter]
      case Hexed(unit) => "\\u" + unit.Spelling()
      case Paired(high, low) => "\\u" + high.Spelling() + "\\u" + low.Spelling()
    }

    /** The character meant, by its code point. */
    function Char(): char
      requires Fits()
    {
      match this
      case Bare(c) => c
      case Letter(letter) =>
        if letter == 'b' then 8 as char
        else if letter == 't' then 9 as char
        else if letter == 'n' then 10 as char
        else if letter == 'f' then 12 as char
        else if letter == 'r' then 13 as char
        else letter
      case Hexed(unit) => unit.Value() as char
      case Paired(high, low) => (0x1_0000 + 0x400 * (high.Value() - 0xD800) + (low.Value() - 0xDC00)) as char
    }
  }

  predicate PiecesFit(pieces: seq<Piece>) {
    forall k :: 0 <= k < |pieces| ==> pieces[k].Fits()
  }

  function PiecesSpelling(pieces: seq<Piece>): string
    requires PiecesFit(pieces)
  {
    if pieces == [] then "\"" else pieces[0].Spelling() + PiecesSpelling(pieces[1..])
  }

  /** The literal between its quotes. */
  function LiteralSpelling(pieces: seq<Piece>): string
    requires PiecesFit(pieces)
  {
    "\"" + PiecesSpelling(pieces)
  }

  function LiteralText(pieces: seq<Piece>): (s: string)
    requires PiecesFit(pieces)
    ensures |s| == |pieces|
  {
    seq(|pieces|, k requires 0 <= k < |pieces| => pieces[k].Char())
  }

  lemma HexRead(h: Hex)
    requires h.Fits()
    ensures HexValue(h.Char()) == Some(h.digit)
  {
    if h.digit < 10 {
      assert LOWER[h.digit] == UPPER[h.digit] == '0' + h.digit as char;
    } else {
      assert LOWER[h.digit] == 'a' + (h.digit - 10) as char && UPPER[h.digit] == 'A' + (h.digit - 10) as char;
    }
  }

  lemma HexFound(c: char) returns (h: Hex)
    requires HexValue(c).Some?
    ensures h.Fits() && h.Char() == c && HexValue(c) == Some(h.digit)
  {
    h := Hex(HexValue(c).value, 'A' <= c <= 'F');
    HexRead(h);
    if h.digit < 10 {
      assert LOWER[h.digit] == UPPER[h.digit] == '0' + h.digit as char;
    } else {
      assert LOWER[h.digit] == 'a' + (h.digit - 10) as char && UPPER[h.digit] == 'A' + (h.digit - 10) as char;
    }
  }

  lemma UnitRead(text: string, i: nat, unit: Hex4)
    requires unit.Fits() && Stands(text, i, unit.Spelling())
    ensures Unit(text, i) == Some(unit.Value())
  {
    var t := unit.Spelling();
    StandsAt(text, i, t, 0);
    StandsAt(text, i, t, 1);
    StandsAt(text, i, t, 2);
    StandsAt(text, i, t, 3);
    HexRead(unit.a);
    HexRead(unit.b);
    HexRead(unit.c);
    HexRead(unit.d);
    hide HexValue, Hex.Char, Stands;
  }

  lemma UnitFound(text: string, i: nat) returns (unit: Hex4)
    requires Unit(text, i).Some?
    ensures unit.Fits() && Unit(text, i) == Some(unit.Value()) && Stands(text, i, unit.Spelling())
    ensures unit.Value() < 0x1_0000
  {
    var a := HexFound(text[i]);
    var b := HexFound(text[i + 1]);
    var c := HexFound(text[i + 2]);
    var d := HexFound(text[i + 3]);
    hide HexValue, Hex.Char;
    unit := Hex4(a, b, c, d);
    assert text[i..i + 4] == [text[i], text[i + 1], text[i + 2], text[i + 3]];
  }

  /** The decoder's step at i: the character read and where the next one begins. */
  function Step(text: string, i: nat): Option<(char, nat)>
    requires i < |text|
  {
    if text[i] == '\\' then Unescape(text, i + 1) else Some((text[i], i + 1))
  }

  lemma PieceRead(text: string, i: nat, p: Piece)
    requires p.Fits() && Stands(text, i, p.Spelling())
    ensures i < |text| && text[i] >= ' ' && text[i] != '"'
    ensures Step(text, i) == Some((p.Char(), i + |p.Spelling()|))
  {
    hide *;
    match p
    case Bare(c) => BareRead(text, i, c);
    case Letter(letter) => LetterRead(text, i, letter);
    case Hexed(unit) => HexedRead(text, i, unit);
    case Paired(high, low) => PairedRead(text, i, high, low);
  }

  lemma BareRead(text: string, i: nat, c: char)
    requires Bare(c).Fits() && Stands(text, i, Bare(c).Spelling())
    ensures i < |text| && text[i] >= ' ' && text[i] != '"'
    ensures Step(text, i) == Some((Bare(c).Char(), i + |Bare(c).Spelling()|))
  {
    StandsAt(text, i, [c], 0);
    hide Unescape, Stands;
  }

  lemma LetterRead(text: string, i: nat, letter: char)
    requires Letter(letter).Fits() && Stands(text, i, Letter(letter).Spelling())
    ensures i < |text| && text[i] >= ' ' && text[i] != '"'
    ensures Step(text, i) == Some((Letter(letter).Char(), i + |Letter(letter).Spelling()|))
  {
    StandsAt(text, i, "\\" + [letter], 0);
    StandsAt(text, i, "\\" + [letter], 1);
    hide Wide, Stands;
  }

  lemma HexedRead(text: string, i: nat, unit: Hex4)
    requires Hexed(unit).Fits() && Stands(text, i, Hexed(unit).Spelling())
    ensures i < |text| && text[i] >= ' ' && text[i] != '"'
    ensures Step(text, i) == Some((Hexed(unit).Char(), i + |Hexed(unit).Spelling()|))
  {
    StandsSplit(text, i, "\\u", unit.Spelling());
    StandsAt(text, i, "\\u", 0);
    StandsAt(text, i, "\\u", 1);
    UnitRead(text, i + 2, unit);
    hide Unit, Stands, Hex4.Value, Hex.Char;
  }

  lemma PairedRead(text: string, i: nat, high: Hex4, low: Hex4)
    requires Paired(high, low).Fits() && Stands(text, i, Paired(high, low).Spelling())
    ensures i < |text| && text[i] >= ' ' && text[i] != '"'
    ensures Step(text, i) == Some((Paired(high, low).Char(), i + |Paired(high, low).Spelling()|))
  {
    PairStands(text, i, high, low);
    UnitRead(text, i + 2, high);
    UnitRead(text, i + 8, low);
    PairRead(text, i, high, low);
    hide *;
  }

  lemma PairStands(text: string, i: nat, high: Hex4, low: Hex4)
    requires high.Fits() && low.Fits()
    requires Stands(text, i, "\\u" + high.Spelling() + "\\u" + low.Spelling())
    ensures i + 12 <= |text| && text[i] == '\\' && text[i + 1] == 'u' && Stands(text, i + 2, high.Spelling())
    ensures Stands(text, i + 6, "\\u") && Stands(text, i + 8, low.Spelling())
  {
    var t := "\\u" + (high.Spelling() + ("\\u" + low.Spelling()));
    assert t == "\\u" + high.Spelling() + "\\u" + low.Spelling();
    assert |high.Spelling()| == |low.Spelling()| == 4;
    StandsSplit(text, i, "\\u", high.Spelling() + ("\\u" + low.Spelling()));
    StandsSplit(text, i + 2, high.Spelling(), "\\u" + low.Spelling());
    StandsSplit(text, i + 6, "\\u", low.Spelling());
    StandsAt(text, i, t, 0);
    StandsAt(text, i, t, 1);
    hide Stands, Hex4.Spelling;
  }

  lemma PairRead(text: string, i: nat, high: Hex4, low: Hex4)
    requires Paired(high, low).Fits() && i + 12 <= |text| && text[i] == '\\' && text[i + 1] == 'u'
    requires Unit(text, i + 2) == Some(high.Value()) && Stands(text, i + 6, "\\u")
    requires Unit(text, i + 8) == Some(low.Value())
    ensures Step(text, i) == Some((Paired(high, low).Char(), i + 12))
    ensures |Paired(high, low).Spelling()| == 12
  {
    hide Unit, Hex4.Value, Hex.Char;
  }

  lemma PieceFound(text: string, i: nat) returns (p: Piece)
    requires i < |text| && text[i] >= ' ' && text[i] != '"' && Step(text, i).Some?
    ensures p.Fits() && Stands(text, i, p.Spelling())
    ensures Step(text, i) == Some((p.Char(), i + |p.Spelling()|))
  {
    hide *;
    StepKinds(text, i);
    if text[i] != '\\' {
      p := Bare(text[i]);
      BareFound(text, i);
    } else if text[i + 1] != 'u' {
      p := Letter(text[i + 1]);
      LetterFound(text, i);
    } else {
      p := WideFound(text, i);
    }
  }

  lemma StepKinds(text: string, i: nat)
    requires i < |text| && Step(text, i).Some?
    ensures text[i] == '\\' ==> i + 1 < |text| && Step(text, i) == Unescape(text, i + 1)
    ensures text[i] == '\\' && text[i + 1] == 'u' ==> Step(text, i) == Wide(text, i + 2)
  {
    hide Wide;
  }

  lemma BareFound(text: string, i: nat)
    requires i < |text| && text[i] >= ' ' && text[i] != '"' && text[i] != '\\'
    ensures var p := Bare(text[i]);
            p.Fits() && Stands(text, i, p.Spelling()) && Step(text, i) == Some((p.Char(), i + |p.Spelling()|))
  {
    assert text[i..i + 1] == [text[i]];
    hide Unescape;
  }

  lemma LetterFound(text: string, i: nat)
    requires i + 1 < |text| && text[i] == '\\' && text[i + 1] != 'u' && Step(text, i).Some?
    ensures var p := Letter(text[i + 1]);
            p.Fits() && Stands(text, i, p.Spelling()) && Step(text, i) == Some((p.Char(), i + |p.Spelling()|))
  {
    assert text[i..i + 2] == [text[i], text[i + 1]];
    hide Wide;
  }

  lemma WideFound(text: string, i: nat) returns (p: Piece)
    requires i + 1 < |text| && text[i] == '\\' && text[i + 1] == 'u' && Wide(text, i + 2).Some?
    ensures p.Fits() && Stands(text, i, p.Spelling())
    ensures Wide(text, i + 2) == Some((p.Char(), i + |p.Spelling()|))
  {
    hide *;
    WideKinds(text, i + 2);
    var unit := UnitFound(text, i + 2);
    if unit.Value() < 0xD800 || unit.Value() >= 0xE000 {
      p := Hexed(unit);
      HexedFound(text, i, unit);
    } else {
      var low := UnitFound(text, i + 8);
      p := Paired(unit, low);
      PairedFound(text, i, unit, low);
    }
  }

  lemma WideKinds(text: string, i: nat)
    requires Wide(text, i).Some?
    ensures Unit(text, i).Some?
    ensures var u := Unit(text, i).value;
            0xD800 <= u < 0xE000 ==>
              && u < 0xDC00 && i + 6 <= |text| && text[i + 4..i + 6] == "\\u"
              && Unit(text, i + 6).Some? && 0xDC00 <= Unit(text, i + 6).value < 0xE000
              && Wide(text, i)
              == Some(((0x1_0000 + 0x400 * (u - 0xD800) + (Unit(text, i + 6).value - 0xDC00)) as char, i + 10))
  {
    hide Unit;
  }

  lemma HexedFound(text: string, i: nat, unit: Hex4)
    requires i + 1 < |text| && text[i] == '\\' && text[i + 1] == 'u' && unit.Fits()
    requires Unit(text, i + 2) == Some(unit.Value()) && (unit.Value() < 0xD800 || unit.Value() >= 0xE000)
    requires Stands(text, i + 2, unit.Spelling()) && unit.Value() < 0x1_0000
    ensures var p := Hexed(unit);
            p.Fits() && Stands(text, i, p.Spelling()) && Wide(text, i + 2) == Some((p.Char(), i + |p.Spelling()|))
  {
    assert text[i..i + 2] == "\\u";
    StandsJoin(text, i, "\\u", unit.Spelling());
    hide Unit, Stands, Hex4.Value, Hex.Char;
  }

  lemma PairedFound(text: string, i: nat, high: Hex4, low: Hex4)
    requires i + 1 < |text| && text[i] == '\\' && text[i + 1] == 'u' && high.Fits() && low.Fits()
    requires Unit(text, i + 2) == Some(high.Value()) && 0xD800 <= high.Value() < 0xE000 && Wide(text, i + 2).Some?
    requires Stands(text, i + 2, high.Spelling()) && Stands(text, i + 8, low.Spelling())
    requires Unit(text, i + 8) == Some(low.Value())
    ensures var p := Paired(high, low);
            p.Fits() && Stands(text, i, p.Spelling()) && Wide(text, i + 2) == Some((p.Char(), i + |p.Spelling()|))
  {
    hide *;
    WideKinds(text, i + 2);
    PairParts(high, low);
    PairJoins(text, i, high.Spelling(), low.Spelling());
  }

  lemma PairParts(high: Hex4, low: Hex4)
    requires high.Fits() && low.Fits() && 0xD800 <= high.Value() < 0xDC00 && 0xDC00 <= low.Value() < 0xE000
    ensures var p := Paired(high, low);
            && p.Fits() && p.Spelling() == "\\u" + high.Spelling() + "\\u" + low.Spelling() && |p.Spelling()| == 12
            && |high.Spelling()| == 4 && |low.Spelling()| == 4
            && p.Char() == (0x1_0000 + 0x400 * (high.Value() - 0xD800) + (low.Value() - 0xDC00)) as char
  {
    hide Hex4.Value, Hex.Char;
  }

  lemma PairJoins(text: string, i: nat, high: string, low: string)
    requires i + 8 <= |text| && text[i] == '\\' && text[i + 1] == 'u' && text[i + 6..i + 8] == "\\u"
    requires Stands(text, i + 2, high) && |high| == 4 && Stands(text, i + 8, low)
    ensures Stands(text, i, "\\u" + high + "\\u" + low)
  {
    assert text[i..i + 2] == "\\u";
    assert Stands(text, i, "\\u") && Stands(text, i + 6, "\\u");
    hide Stands;
    StandsJoin(text, i, "\\u", high);
    StandsJoin(text, i, "\\u" + high, "\\u");
    StandsJoin(text, i, "\\u" + high + "\\u", low);
  }

  lemma StandsJoin(text: string, i: nat, a: string, b: string)
    requires Stands(text, i, a) && Stands(text, i + |a|, b)
    ensures Stands(text, i, a + b)
  {
    assert text[i..i + |a| + |b|] == text[i..i + |a|] + text[i + |a|..i + |a| + |b|];
  }

  lemma PiecesParts(pieces: seq<Piece>)
    requires PiecesFit(pieces) && pieces != []
    ensures pieces[0].Fits() && PiecesFit(pieces[1..])
    ensures PiecesSpelling(pieces) == pieces[0].Spelling() + PiecesSpelling(pieces[1..])
    ensures LiteralText(pieces) == [pieces[0].Char()] + LiteralText(pieces[1..])
  {
    hide Piece.Spelling, Piece.Char, Piece.Fits;
  }

  lemma RestGoesOn(text: string, i: nat, c: char, next: nat, rest: string, end: nat)
    requires i < |text| && text[i] >= ' ' && text[i] != '"' && Step(text, i) == Some((c, next)) && next <= |text|
    requires DecodeRest(text, next) == Some((rest, end))
    ensures DecodeRest(text, i) == Some(([c] + rest, end))
  {
    hide Unescape;
  }

  lemma NoPieceRead(text: string, i: nat)
    requires Stands(text, i, PiecesSpelling([]))
    ensures DecodeRest(text, i) == Some((LiteralText([]), i + |PiecesSpelling([])|))
  {
    StandsAt(text, i, "\"", 0);
  }

  /** What the grammar spells is decoded to what it means, and the decoding ends with it. */
  lemma {:induction false} PiecesRead(text: string, i: nat, pieces: seq<Piece>)
    requires PiecesFit(pieces) && Stands(text, i, PiecesSpelling(pieces))
    ensures DecodeRest(text, i) == Some((LiteralText(pieces), i + |PiecesSpelling(pieces)|))
    decreases |pieces|
  {
    hide *;
    if pieces == [] {
      NoPieceRead(text, i);
    } else {
      PiecesParts(pieces);
      var next := i + |pieces[0].Spelling()|;
      StandsSplit(text, i, pieces[0].Spelling(), PiecesSpelling(pieces[1..]));
      PieceRead(text, i, pieces[0]);
      PiecesRead(text, next, pieces[1..]);
      StandsInside(text, next, PiecesSpelling(pieces[1..]));
      RestGoesOn(text, i, pieces[0].Char(), next, LiteralText(pieces[1..]), i + |PiecesSpelling(pieces)|);
    }
  }

  lemma StandsInside(text: string, i: nat, t: string)
    requires Stands(text, i, t)
    ensures i + |t| <= |text|
  {
  }

  lemma {:induction false} PiecesFound(text: string, i: nat) returns (pieces: seq<Piece>)
    requires DecodeRest(text, i).Some?
    ensures PiecesFit(pieces) && Stands(text, i, PiecesSpelling(pieces))
    ensures DecodeRest(text, i) == Some((LiteralText(pieces), i + |PiecesSpelling(pieces)|))
    decreases |text| - i
  {
    hide *;
    RestKinds(text, i);
    if text[i] == '"' {
      pieces := [];
      QuoteFound(text, i);
    } else {
      var p := PieceFound(text, i);
      var rest := PiecesFound(text, Step(text, i).value.1);
      pieces := [p] + rest;
      PiecesJoin(text, i, p, rest);
    }
    PiecesRead(text, i, pieces);
  }

  lemma RestKinds(text: string, i: nat)
    requires DecodeRest(text, i).Some?
    ensures i < |text| && text[i] >= ' '
    ensures text[i] != '"' ==>
            Step(text, i).Some? && i < Step(text, i).value.1 <= |text| && DecodeRest(text, Step(text, i).value.1).Some?
  {
    hide Unescape;
  }

  lemma QuoteFound(text: string, i: nat)
    requires i < |text| && text[i] == '"'
    ensures PiecesFit([]) && Stands(text, i, PiecesSpelling([]))
  {
    assert text[i..i + 1] == "\"";
  }

  lemma PiecesJoin(text: string, i: nat, p: Piece, rest: seq<Piece>)
    requires p.Fits() && PiecesFit(rest) && Stands(text, i, p.Spelling())
    requires Stands(text, i + |p.Spelling()|, PiecesSpelling(rest))
    ensures PiecesFit([p] + rest) && Stands(text, i, PiecesSpelling([p] + rest))
  {
    hide *;
    JoinSpelling(p, rest);
    StandsJoin(text, i, p.Spelling(), PiecesSpelling(rest));
  }

  lemma JoinSpelling(p: Piece, rest: seq<Piece>)
    requires p.Fits() && PiecesFit(rest)
    ensures PiecesFit([p] + rest) && PiecesSpelling([p] + rest) == p.Spelling() + PiecesSpelling(rest)
  {
    assert ([p] + rest)[1..] == rest;
    assert PiecesFit([p] + rest);
    hide Piece.Fits, Piece.Spelling;
  }

  /** The decoder accepts at i exactly the literals of the grammar, with exactly their texts. */
  lemma DecodeIffSpelled(text: string, i: nat, s: string, end: nat)
    ensures Decode(text, i) == Some((s, end)) <==>
            exists pieces :: PiecesFit(pieces) && Stands(text, i, LiteralSpelling(pieces))
                             && s == LiteralText(pieces) && end == i + |LiteralSpelling(pieces)|
  {
    if Decode(text, i).Some? {
      var pieces := LiteralFound(text, i);
      if Decode(text, i) == Some((s, end)) {
        assert s == LiteralText(pieces);
      }
    }
    forall pieces | PiecesFit(pieces) && Stands(text, i, LiteralSpelling(pieces))
      ensures Decode(text, i) == Some((LiteralText(pieces), i + |LiteralSpelling(pieces)|))
    {
      LiteralRead(text, i, pieces);
    }
  }

  lemma LiteralParts(pieces: seq<Piece>)
    requires PiecesFit(pieces)
    ensures LiteralSpelling(pieces) == "\"" + PiecesSpelling(pieces)
    ensures |LiteralSpelling(pieces)| == 1 + |PiecesSpelling(pieces)|
  {
    hide PiecesSpelling, PiecesFit;
  }

  lemma LiteralRead(text: string, i: nat, pieces: seq<Piece>)
    requires PiecesFit(pieces) && Stands(text, i, LiteralSpelling(pieces))
    ensures i < |text| && text[i] == '"'
    ensures Decode(text, i) == Some((LiteralText(pieces), i + |LiteralSpelling(pieces)|))
  {
    hide *;
    LiteralParts(pieces);
    StandsSplit(text, i, "\"", PiecesSpelling(pieces));
    StandsAt(text, i, "\"", 0);
    PiecesRead(text, i + 1, pieces);
    DecodeStarts(text, i);
  }

  lemma LiteralFound(text: string, i: nat) returns (pieces: seq<Piece>)
    requires Decode(text, i).Some?
    ensures PiecesFit(pieces) && Stands(text, i, LiteralSpelling(pieces))
    ensures Decode(text, i) == Some((LiteralText(pieces), i + |LiteralSpelling(pieces)|))
  {
    DecodeFound(text, i);
    hide *;
    pieces := PiecesFound(text, i + 1);
    StandsJoin(text, i, "\"", PiecesSpelling(pieces));
    LiteralParts(pieces);
    LiteralRead(text, i, pieces);
  }

  lemma DecodeFound(text: string, i: nat)
    requires Decode(text, i).Some?
    ensures Stands(text, i, "\"") && DecodeRest(text, i + 1).Some?
  {
    assert text[i..i + 1] == "\"";
    hide DecodeRest;
  }

  // ----- Numbers -----

  datatype Power = Power(capital: bool, sign: string, digits: string)

  /** A number by its parts; an empty fraction means there is none. */
  datatype Lexeme = Lexeme(minus: bool, whole: string, fraction: string, power: Option<Power>) {
    predicate Fits() {
      && AllDigits(whole) && whole != "" && (whole[0] == '0' ==> whole == "0")
      && AllDigits(fraction)
      && (power.Some? ==>
            power.value.sign in ["", "+", "-"] && AllDigits(power.value.digits) && power.value.digits != "")
    }

    function Sign(): string {
      if minus then "-" else ""
    }

    function Fraction(): string {
      if fraction == "" then "" else "." + fraction
    }

    function Exponent(): string {
      match power
      case None => ""
      case Some(p) => (if p.capital then "E" else "e") + (p.sign + p.digits)
    }

    function Spelling(): string {
      Sign() + (whole + (Fraction() + Exponent()))
    }

    function Scale(): int
      requires Fits()
    {
      match power
      case None => 0
      case Some(p) => if p.sign == "-" then 0 - Nat(p.digits) else Nat(p.digits)
    }

    /** The digits before and after the point as one integer, moved by the exponent. */
    function Magnitude(): (m: real)
      requires Fits()
      ensures m >= 0.0
    {
      ScaledOrder(Nat(whole + fraction), 0, Scale() - |fraction|);
      Scaled(Nat(whole + fraction), Scale() - |fraction|)
    }
  }

  lemma {:induction false} RunEnds(t: string, a: nat, b: nat)
    requires a <= b <= |t| && (forall k :: a <= k < b ==> IsDigit(t[k])) && (b < |t| ==> !IsDigit(t[b]))
    ensures DigitsEnd(t, a) == b
    decreases b - a
  {
    if a < b {
      RunEnds(t, a + 1, b);
    }
  }

  lemma Behind(p: string, a: string, b: string)
    ensures var t := p + (a + b);
            |p| + |a| <= |t| && t[|p|..|p| + |a|] == a && t[|p| + |a|..] == b && t == (p + a) + b
  {
    var t := p + (a + b);
    assert t == (p + a) + b;
    assert t[|p| + |a|..] == b;
  }

  /** Four pieces one after the other, each found where it stands. */
  lemma Cut(s: string, w: string, f: string, e: string)
    ensures var t := s + (w + (f + e));
            var a := |s|;
            var b := a + |w|;
            var c := b + |f|;
            && a <= b <= c && c + |e| == |t|
            && t[..a] == s && t[a..b] == w && t[b..c] == f && t[c..] == e
  {
    var t := s + (w + (f + e));
    assert t[..|s|] == s;
    Behind(s, w, f + e);
    Behind(s + w, f, e);
  }

  lemma SliceChar(t: string, a: nat, b: nat, k: nat)
    requires a <= k < b <= |t|
    ensures t[a..b][k - a] == t[k]
  {
  }

  lemma {:induction false} DigitsThere(t: string, a: nat, b: nat)
    requires a <= b <= |t| && AllDigits(t[a..b]) && (b < |t| ==> !IsDigit(t[b]))
    ensures DigitsEnd(t, a) == b
  {
    forall k | a <= k < b
      ensures IsDigit(t[k])
    {
      SliceChar(t, a, b, k);
    }
    RunEnds(t, a, b);
  }

  lemma WholeThere(t: string, minus: bool, a: nat, b: nat)
    requires a < b <= |t| && t[..a] == (if minus then "-" else "")
    requires AllDigits(t[a..b]) && (t[a..b][0] == '0' ==> b == a + 1) && (b < |t| ==> !IsDigit(t[b]))
    ensures MinusEnd(t, 0) == a && IntegerEnd(t, a) == b
    ensures NegativeNumber(t) == minus
  {
    SliceChar(t, a, b, a);
    assert minus ==> t[..a][0] == t[0];
    DigitsThere(t, a, b);
    hide DigitsEnd;
  }

  lemma FractionThere(t: string, fraction: string, b: nat, c: nat)
    requires b <= c <= |t| && t[b..c] == (if fraction == "" then "" else "." + fraction) && AllDigits(fraction)
    requires c < |t| ==> t[c] == 'e' || t[c] == 'E'
    ensures FractionEnd(t, b) == c
    ensures c > b ==> t[b + 1..c] == fraction
    ensures (b < |t| ==> !IsDigit(t[b])) && (c > b <==> fraction != "") && (c > b ==> c - b - 1 == |fraction|)
  {
    if fraction != "" {
      SliceChar(t, b, c, b);
      assert t[b + 1..c] == t[b..c][1..] == fraction;
      DigitsThere(t, b + 1, c);
    }
    hide DigitsEnd;
  }

  lemma ExponentThere(t: string, p: Power, c: nat)
    requires c < |t| && t[c..] == [if p.capital then 'E' else 'e'] + (p.sign + p.digits)
    requires p.sign in ["", "+", "-"] && AllDigits(p.digits) && p.digits != ""
    ensures t[c] == 'e' || t[c] == 'E'
    ensures ExponentEnd(t, c) == |t|
    ensures ExponentValue(t, c) == if p.sign == "-" then 0 - Nat(p.digits) else Nat(p.digits)
  {
    var s := c + 1 + |p.sign|;
    SliceChar(t, c, |t|, c);
    assert t[c + 1..] == t[c..][1..] == p.sign + p.digits;
    assert t[c + 1..s] == p.sign && t[s..] == t[s..|t|] == p.digits;
    SliceChar(t, s, |t|, s);
    DigitsThere(t, s, |t|);
    SignThere(t, p.sign, c + 1);
    hide DigitsEnd, SignEnd, Nat;
  }

  lemma SignThere(t: string, sign: string, i: nat)
    requires sign in ["", "+", "-"] && i + |sign| < |t| && t[i..i + |sign|] == sign && IsDigit(t[i + |sign|])
    ensures SignEnd(t, i) == i + |sign|
  {
    if sign != "" {
      SliceChar(t, i, i + |sign|, i);
    }
  }

  lemma LexemePieces(n: Lexeme)
    requires n.Fits()
    ensures n.power.None? ==> n.Exponent() == "" && n.Scale() == 0
    ensures n.power.Some? ==>
            var p := n.power.value;
            && n.Exponent() == [if p.capital then 'E' else 'e'] + (p.sign + p.digits)
            && p.sign in ["", "+", "-"] && AllDigits(p.digits) && p.digits != ""
            && n.Scale() == if p.sign == "-" then 0 - Nat(p.digits) else Nat(p.digits)
  {
  }

  /** The pattern takes t apart at a, b and c. */
  ghost predicate Matched(t: string, a: nat, b: nat, c: nat) {
    && a < b <= c <= |t| && MinusEnd(t, 0) == a && IntegerEnd(t, a) == b && FractionEnd(t, b) == c
    && ExponentEnd(t, c) == |t|
  }

  /** The pieces between those places are those of n. */
  ghost predicate Carries(t: string, a: nat, b: nat, c: nat, n: Lexeme)
    requires n.Fits()
  {
    && a < b <= c <= |t| && t[a..b] == n.whole && (c > b ==> t[b + 1..c] == n.fraction)
    && (c > b <==> n.fraction != "") && (c > b ==> c - b - 1 == |n.fraction|)
    && (if c < |t| then ExponentValue(t, c) else 0) == n.Scale() && NegativeNumber(t) == n.minus
  }

  lemma MatchedBy(t: string, a: nat, b: nat, c: nat)
    requires a < b <= c <= |t| && MinusEnd(t, 0) == a && IntegerEnd(t, a) == b && FractionEnd(t, b) == c
    requires ExponentEnd(t, c) == |t|
    ensures Matched(t, a, b, c)
  {
    hide MinusEnd, IntegerEnd, FractionEnd, ExponentEnd;
  }

  lemma CarriesBy(t: string, a: nat, b: nat, c: nat, n: Lexeme)
    requires n.Fits() && a < b <= c <= |t| && t[a..b] == n.whole && (c > b ==> t[b + 1..c] == n.fraction)
    requires (c > b <==> n.fraction != "") && (c > b ==> c - b - 1 == |n.fraction|)
    requires (if c < |t| then ExponentValue(t, c) else 0) == n.Scale() && NegativeNumber(t) == n.minus
    ensures Carries(t, a, b, c, n)
  {
    hide ExponentValue, Lexeme.Scale, Lexeme.Fits;
  }

  lemma NoExponent(t: string, c: nat)
    requires c <= |t| && t[c..] == ""
    ensures c == |t| && ExponentEnd(t, c) == |t|
  {
  }

  lemma ExponentOf(n: Lexeme, t: string, c: nat)
    requires n.Fits() && c <= |t| && t[c..] == n.Exponent()
    ensures ExponentEnd(t, c) == |t| && (c < |t| ==> t[c] == 'e' || t[c] == 'E')
    ensures (if c < |t| then ExponentValue(t, c) else 0) == n.Scale()
  {
    LexemePieces(n);
    hide *;
    if n.power.Some? {
      ExponentThere(t, n.power.value, c);
    } else {
      NoExponent(t, c);
    }
  }

  lemma LexemeCut(n: Lexeme, t: string, a: nat, b: nat, c: nat)
    requires n.Fits() && t == n.Spelling() && a == |n.Sign()| && b == a + |n.whole| && c == b + |n.Fraction()|
    ensures a < b <= c <= |t| && t[..a] == n.Sign() && t[a..b] == n.whole && t[b..c] == n.Fraction()
    ensures t[c..] == n.Exponent()
  {
    hide *;
    WholeNotEmpty(n);
    Cut(n.Sign(), n.whole, n.Fraction(), n.Exponent());
  }

  lemma WholeNotEmpty(n: Lexeme)
    requires n.Fits()
    ensures |n.whole| > 0 && n.Spelling() == n.Sign() + (n.whole + (n.Fraction() + n.Exponent()))
  {
    hide Lexeme.Sign, Lexeme.Fraction, Lexeme.Exponent;
  }

  lemma LexemeShape(n: Lexeme)
    requires n.Fits()
    ensures n.Sign() == if n.minus then "-" else ""
    ensures n.Fraction() == if n.fraction == "" then "" else "." + n.fraction
    ensures AllDigits(n.whole) && n.whole != "" && (n.whole[0] == '0' ==> |n.whole| == 1) && AllDigits(n.fraction)
  {
  }

  /** The parts of a number stand one after the other, and each ends where it should. */
  lemma LexemeParts(n: Lexeme, t: string, a: nat, b: nat, c: nat)
    requires n.Fits() && t == n.Spelling() && a == |n.Sign()| && b == a + |n.whole| && c == b + |n.Fraction()|
    ensures Matched(t, a, b, c) && Carries(t, a, b, c, n)
  {
    hide *;
    LexemeCut(n, t, a, b, c);
    LexemeShape(n);
    ExponentOf(n, t, c);
    FractionThere(t, n.fraction, b, c);
    WholeThere(t, n.minus, a, b);
    MatchedBy(t, a, b, c);
    CarriesBy(t, a, b, c, n);
  }

  /** What the grammar spells is a number, with its sign and its magnitude. */
  lemma LexemeIsRead(n: Lexeme)
    requires n.Fits()
    ensures IsNumber(n.Spelling()) && NegativeNumber(n.Spelling()) == n.minus
    ensures Denoted(n.Spelling()) == n.Magnitude()
  {
    hide *;
    var t := n.Spelling();
    var a := |n.Sign()|;
    var b := a + |n.whole|;
    var c := b + |n.Fraction()|;
    LexemeParts(n, t, a, b, c);
    PartsMatch(t, a, b, c);
    PartsDenote(n, t, a, b, c);
  }

  lemma PartsMatch(t: string, a: nat, b: nat, c: nat)
    requires Matched(t, a, b, c)
    ensures IsNumber(t)
  {
    hide MinusEnd, IntegerEnd, FractionEnd, ExponentEnd;
  }

  lemma PartsDenote(n: Lexeme, t: string, a: nat, b: nat, c: nat)
    requires n.Fits() && Matched(t, a, b, c) && Carries(t, a, b, c, n) && IsNumber(t)
    ensures Denoted(t) == n.Magnitude() && NegativeNumber(t) == n.minus
  {
    hide MinusEnd, IntegerEnd, FractionEnd, ExponentEnd, ExponentValue, Mantissa, Scaled, Nat, Lexeme.Fits,
         Lexeme.Scale, NegativeNumber, IsNumber;
    MantissaThere(t, a, b, c, n.whole, n.fraction);
  }

  lemma MantissaThere(t: string, a: nat, b: nat, c: nat, whole: string, fraction: string)
    requires a < b <= c <= |t| && IntegerEnd(t, a) == b && FractionEnd(t, b) == c
    requires t[a..b] == whole && (c > b ==> t[b + 1..c] == fraction) && (c > b <==> fraction != "")
    ensures Mantissa(t, a, b, c) == whole + fraction
  {
    hide IntegerEnd, FractionEnd;
  }

  /** The parts that the pattern finds in t. */
  function PartsOf(t: string): Lexeme
    requires IsNumber(t)
  {
    var a := MinusEnd(t, 0);
    var b := IntegerEnd(t, a);
    var c := FractionEnd(t, b);
    Lexeme(a == 1, t[a..b], if c > b then t[b + 1..c] else "", if c < |t| then Some(PowerOf(t, c)) else None)
  }

  function PowerOf(t: string, c: nat): Power
    requires c < |t|
  {
    var s := SignEnd(t, c + 1);
    Power(t[c] == 'E', t[c + 1..s], t[s..])
  }

  lemma PowerFound(t: string, c: nat)
    requires c < |t| && ExponentEnd(t, c) == |t|
    ensures var p := PowerOf(t, c);
            && p.sign in ["", "+", "-"] && AllDigits(p.digits) && p.digits != ""
            && t[c..] == [if p.capital then 'E' else 'e'] + (p.sign + p.digits)
  {
    var s := SignEnd(t, c + 1);
    assert t[c..] == [t[c]] + (t[c + 1..s] + t[s..]);
    assert s > c + 1 ==> t[c + 1..s] == [t[c + 1]];
    hide DigitsEnd;
  }

  lemma FractionFound(t: string, b: nat)
    requires b <= |t|
    ensures var c := FractionEnd(t, b);
            c > b ==> t[b..c] == "." + t[b + 1..c] && AllDigits(t[b + 1..c]) && t[b + 1..c] != ""
  {
    var c := FractionEnd(t, b);
    if c > b {
      assert t[b..c] == [t[b]] + t[b + 1..c];
    }
    hide DigitsEnd;
  }

  lemma WholeFound(t: string)
    requires IsNumber(t)
    ensures var a := MinusEnd(t, 0);
            var b := IntegerEnd(t, a);
            && a < b && t[..a] == (if a == 1 then "-" else "") && AllDigits(t[a..b])
            && (t[a..b][0] == '0' ==> t[a..b] == "0")
  {
    hide DigitsEnd, FractionEnd, ExponentEnd;
  }

  lemma EndFound(t: string)
    requires IsNumber(t)
    ensures ExponentEnd(t, FractionEnd(t, IntegerEnd(t, MinusEnd(t, 0)))) == |t|
  {
    hide MinusEnd, IntegerEnd, FractionEnd, ExponentEnd;
  }

  lemma PartsFound(t: string, n: Lexeme, a: nat, b: nat, c: nat)
    requires a <= b <= c <= |t|
    requires t[..a] == n.Sign() && t[a..b] == n.whole && t[b..c] == n.Fraction() && t[c..] == n.Exponent()
    ensures n.Spelling() == t
  {
    assert t[..a] + (t[a..b] + (t[b..c] + t[c..])) == t;
    hide Lexeme.Sign, Lexeme.Fraction, Lexeme.Exponent;
  }

  lemma PiecesOfParts(t: string, a: nat, b: nat, c: nat)
    requires IsNumber(t) && a == MinusEnd(t, 0) && b == IntegerEnd(t, a) && c == FractionEnd(t, b)
    ensures var n := PartsOf(t);
            && n.minus == (a == 1) && n.whole == t[a..b] && n.fraction == (if c > b then t[b + 1..c] else "")
            && n.power == if c < |t| then Some(PowerOf(t, c)) else None
  {
    hide MinusEnd, IntegerEnd, FractionEnd, ExponentEnd, PowerOf, IsNumber;
  }

  /** Conversely, every number of the pattern is spelled by the grammar. */
  lemma LexemeFound(t: string)
    requires IsNumber(t)
    ensures PartsOf(t).Fits() && PartsOf(t).Spelling() == t
  {
    hide *;
    var a := MinusEnd(t, 0);
    var b := IntegerEnd(t, a);
    var c := FractionEnd(t, b);
    WholeFound(t);
    FractionFound(t, b);
    EndFound(t);
    if c < |t| {
      PowerFound(t, c);
    }
    PiecesOfParts(t, a, b, c);
    PartsFit(PartsOf(t), t, a, b, c);
    PartsFound(t, PartsOf(t), a, b, c);
  }

  lemma PartsFit(n: Lexeme, t: string, a: nat, b: nat, c: nat)
    requires a < b <= c <= |t| && t[..a] == (if a == 1 then "-" else "") && AllDigits(t[a..b])
    requires t[a..b][0] == '0' ==> t[a..b] == "0"
    requires c > b ==> t[b..c] == "." + t[b + 1..c] && AllDigits(t[b + 1..c]) && t[b + 1..c] != ""
    requires c < |t| ==>
             var p := PowerOf(t, c);
             && p.sign in ["", "+", "-"] && AllDigits(p.digits) && p.digits != ""
             && t[c..] == [if p.capital then 'E' else 'e'] + (p.sign + p.digits)
    requires n.minus == (a == 1) && n.whole == t[a..b] && n.fraction == (if c > b then t[b + 1..c] else "")
    requires n.power == if c < |t| then Some(PowerOf(t, c)) else None
    ensures n.Fits()
    ensures t[..a] == n.Sign() && t[a..b] == n.whole && t[b..c] == n.Fraction() && t[c..] == n.Exponent()
  {
    hide PowerOf;
  }

  /** A string is a number of the JSON grammar if and only if some fitting parts spell it. */
  lemma NumberIffSpelled(t: string)
    ensures IsNumber(t) <==> exists n: Lexeme :: n.Fits() && n.Spelling() == t
  {
    if IsNumber(t) {
      LexemeFound(t);
    }
    forall n: Lexeme | n.Fits() && n.Spelling() == t
      ensures IsNumber(t)
    {
      LexemeIsRead(n);
    }
  }
}
