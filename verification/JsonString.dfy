/** JSON string literals: quoting with the short escapes, and the strict decoder. */
module JsonString {
  import opened Common

  const BACKSPACE: char := '\U{08}'
  const FORM_FEED: char := '\U{0C}'

  // ----- Writing -----

  function HexDigit(n: nat): char
    requires n < 16
  {
    if n < 10 then '0' + n as char else 'a' + (n - 10) as char
  }

  function EscapeChar(c: char): string {
    if c == '"' then "\\\""
    else if c == '\\' then "\\\\"
    else if c == '\n' then "\\n"
    else if c == '\r' then "\\r"
    else if c == '\t' then "\\t"
    else if c == BACKSPACE then "\\b"
    else if c == FORM_FEED then "\\f"
    else if c < ' ' then "\\u00" + [HexDigit(c as nat / 16), HexDigit(c as nat % 16)]
    else [c]
  }

  function EscapeAll(s: string): string {
    if s == "" then "" else EscapeChar(s[0]) + EscapeAll(s[1..])
  }

  function Quote(s: string): (q: string)
    ensures |q| > 0 && q[0] == '"'
  {
    "\"" + EscapeAll(s) + "\""
  }

  // ----- Reading -----

  function HexValue(c: char): Option<nat> {
    if '0' <= c <= '9' then Some(c as nat - '0' as nat)
    else if 'a' <= c <= 'f' then Some(c as nat - 'a' as nat + 10)
    else if 'A' <= c <= 'F' then Some(c as nat - 'A' as nat + 10)
    else None
  }

  /** Four hexadecimal digits at i. */
  function Unit(text: string, i: nat): (unit: Option<nat>)
    ensures unit.Some? ==> i + 4 <= |text| && unit.value < 0x1_0000
  {
    if i + 4 > |text| then None
    else
      match (HexValue(text[i]), HexValue(text[i + 1]), HexValue(text[i + 2]), HexValue(text[i + 3]))
      case (Some(a), Some(b), Some(c), Some(d)) =>
        HexBelow(text[i]);
        HexBelow(text[i + 1]);
        HexBelow(text[i + 2]);
        HexBelow(text[i + 3]);
        Some(0x1000 * a + 0x100 * b + 0x10 * c + d)
      case _ => None
  }

  lemma HexBelow(c: char)
    ensures HexValue(c).Some? ==> HexValue(c).value < 16
  {
  }

  /** The character a `\u` escape stands for: one unit, or a surrogate pair; a lone surrogate is refused. */
  function Wide(text: string, i: nat): (r: Option<(char, nat)>)
    ensures r.Some? ==> i < r.value.1 <= |text|
  {
    match Unit(text, i)
    case None => None
    case Some(u) =>
      if u < 0xD800 || u >= 0xE000 then Some((u as char, i + 4))
      else if u >= 0xDC00 || i + 6 > |text| || text[i + 4..i + 6] != "\\u" then None
      else
        match Unit(text, i + 6)
        case Some(w) =>
          if 0xDC00 <= w < 0xE000 then Some(((0x1_0000 + (u - 0xD800) * 0x400 + (w - 0xDC00)) as char, i + 10))
              else None
        case None => None
  }

  /** The escape whose letter stands at i. */
  function Unescape(text: string, i: nat): (r: Option<(char, nat)>)
    ensures r.Some? ==> i < r.value.1 <= |text|
  {
    if i >= |text| then None
    else if text[i] == '"' || text[i] == '\\' || text[i] == '/' then Some((text[i], i + 1))
    else if text[i] == 'n' then Some(('\n', i + 1))
    else if text[i] == 'r' then Some(('\r', i + 1))
    else if text[i] == 't' then Some(('\t', i + 1))
    else if text[i] == 'b' then Some((BACKSPACE, i + 1))
    else if text[i] == 'f' then Some((FORM_FEED, i + 1))
    else if text[i] == 'u' then Wide(text, i + 1)
    else None
  }

  /** The rest of a literal from i: its decoded text and the position past the closing quote. */
  function DecodeRest(text: string, i: nat): (r: Option<(string, nat)>)
    ensures r.Some? ==> i < r.value.1 <= |text|
    decreases |text| - i
  {
    if i >= |text| || text[i] < ' ' then None
    else if text[i] == '"' then Some(("", i + 1))
    else
      match (if text[i] == '\\' then Unescape(text, i + 1) else Some((text[i], i + 1)))
      case None => None
      case Some((c, next)) =>
        match DecodeRest(text, next)
        case None => None
        case Some((rest, end)) => Some(([c] + rest, end))
  }

  function Decode(text: string, i: nat): (r: Option<(string, nat)>)
    ensures r.Some? ==> i < r.value.1 <= |text|
  {
    if i < |text| && text[i] == '"' then DecodeRest(text, i + 1) else None
  }

  // ----- Reading undoes writing -----

  /** The text t stands at position i. */
  ghost predicate Stands(text: string, i: nat, t: string) {
    i + |t| <= |text| && text[i..i + |t|] == t
  }

  lemma StandsSplit(text: string, i: nat, a: string, b: string)
    requires Stands(text, i, a + b)
    ensures Stands(text, i, a) && Stands(text, i + |a|, b)
    ensures b != "" ==> i + |a| < |text| && text[i + |a|] == b[0]
  {
    assert text[i..i + |a|] == (a + b)[..|a|];
    assert text[i + |a|..i + |a| + |b|] == (a + b)[|a|..];
    if b != "" {
      assert text[i + |a|] == text[i + |a|..i + |a| + |b|][0];
    }
  }

  lemma HexReads(n: nat)
    requires n < 16
    ensures HexValue(HexDigit(n)) == Some(n)
  {
  }

  /** An escaped character is read as itself, and the reading goes on behind it. */
  lemma CharReads(text: string, i: nat, c: char)
    requires Stands(text, i, EscapeChar(c))
    ensures i < |text| && text[i] >= ' ' && text[i] != '"'
    ensures (if text[i] == '\\' then Unescape(text, i + 1) else Some((text[i], i + 1)))
            == Some((c, i + |EscapeChar(c)|))
  {
    if EscapeChar(c) == [c] {
      StandsAt(text, i, [c], 0);
    } else if Short(c) {
      StandsAt(text, i, EscapeChar(c), 0);
      StandsAt(text, i, EscapeChar(c), 1);
      hide Stands;
    } else {
      ControlReads(text, i, c);
    }
  }

  lemma StandsAt(text: string, i: nat, t: string, k: nat)
    requires Stands(text, i, t) && k < |t|
    ensures i + k < |text| && text[i + k] == t[k]
  {
    assert text[i..i + |t|][k] == text[i + k];
  }

  /** Characters with a two-character escape. */
  predicate Short(c: char) {
    c == '"' || c == '\\' || c == '\n' || c == '\r' || c == '\t' || c == BACKSPACE || c == FORM_FEED
  }

  /** Another control character stands as a four-digit escape. */
  lemma ControlReads(text: string, i: nat, c: char)
    requires Stands(text, i, EscapeChar(c)) && c < ' ' && !Short(c)
    ensures i + 6 <= |text| && text[i] == '\\' && |EscapeChar(c)| == 6
    ensures Unescape(text, i + 1) == Some((c, i + 6))
  {
    var t := EscapeChar(c);
    StandsAt(text, i, t, 0);
    StandsAt(text, i, t, 1);
    StandsAt(text, i, t, 2);
    StandsAt(text, i, t, 3);
    StandsAt(text, i, t, 4);
    StandsAt(text, i, t, 5);
    hide Stands;
    HexReads(0);
    HexReads(c as nat / 16);
    HexReads(c as nat % 16);
    assert text[i + 2] == '0' == HexDigit(0) && text[i + 3] == '0';
    hide HexDigit, HexValue;
    assert Unit(text, i + 2) == Some(c as nat);
    hide Unit;
  }

  lemma {:induction false} LiteralReads(text: string, i: nat, s: string)
    requires Stands(text, i, EscapeAll(s) + "\"")
    ensures DecodeRest(text, i) == Some((s, i + |EscapeAll(s)| + 1))
    decreases |s|
  {
    hide *;
    if s == "" {
      NothingRead(text, i);
    } else {
      var rest := EscapeAll(s[1..]) + "\"";
      EscapeParts(s);
      StandsSplit(text, i, EscapeChar(s[0]), rest);
      CharReads(text, i, s[0]);
      LiteralReads(text, i + |EscapeChar(s[0])|, s[1..]);
      RestNext(text, i, s);
    }
  }

  lemma NothingRead(text: string, i: nat)
    requires Stands(text, i, EscapeAll("") + "\"")
    ensures DecodeRest(text, i) == Some(("", i + |EscapeAll("")| + 1))
  {
    assert text[i] == text[i..i + 1][0];
  }

  lemma EscapeParts(s: string)
    requires s != ""
    ensures EscapeAll(s) + "\"" == EscapeChar(s[0]) + (EscapeAll(s[1..]) + "\"")
    ensures |EscapeAll(s)| == |EscapeChar(s[0])| + |EscapeAll(s[1..])|
  {
    hide EscapeChar;
  }

  lemma RestNext(text: string, i: nat, s: string)
    requires s != "" && i < |text| && text[i] >= ' ' && text[i] != '"'
    requires (if text[i] == '\\' then Unescape(text, i + 1) else Some((text[i], i + 1)))
             == Some((s[0], i + |EscapeChar(s[0])|))
    requires i + |EscapeChar(s[0])| <= |text|
    requires DecodeRest(text, i + |EscapeChar(s[0])|)
             == Some((s[1..], i + |EscapeChar(s[0])| + |EscapeAll(s[1..])| + 1))
    ensures DecodeRest(text, i) == Some((s, i + |EscapeAll(s)| + 1))
  {
    assert s == [s[0]] + s[1..];
    hide EscapeChar, Unescape;
  }

  /** A quoted string is decoded to itself wherever it stands, and the literal ends with it. */
  lemma QuoteReads(text: string, i: nat, s: string)
    requires Stands(text, i, Quote(s))
    ensures Decode(text, i) == Some((s, i + |Quote(s)|))
  {
    hide *;
    QuoteParts(s);
    StandsSplit(text, i, "\"", EscapeAll(s) + "\"");
    StandsAt(text, i, "\"", 0);
    LiteralReads(text, i + 1, s);
    DecodeStarts(text, i);
  }

  lemma QuoteParts(s: string)
    ensures Quote(s) == "\"" + (EscapeAll(s) + "\"") && |Quote(s)| == |EscapeAll(s)| + 2
    ensures EscapeAll(s) + "\"" != ""
  {
    hide EscapeAll;
  }

  lemma DecodeStarts(text: string, i: nat)
    requires i < |text| && text[i] == '"'
    ensures Decode(text, i) == DecodeRest(text, i + 1)
  {
  }
}
