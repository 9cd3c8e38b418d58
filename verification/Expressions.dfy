/**
 The safe-expression language over its tokens: the grammar, the recursive-descent parser, the
 printer and the reference inventory.

 The token list ends with End, which is never consumed. Lexing is not part of this module.
 */
module Expressions {
  import opened Common

  /** The symbols of the language. */
  datatype Mark =
    | Question | Colon | Open | Close | Comma | Dot | OpenBracket | CloseBracket | AtSign | Bang
    | OrOr | AndAnd | Equal | NotEqual | AtMost | AtLeast | Below | Above
    | Plus | Minus | Star | Slash | Percent

  datatype Token =
    | Numeral(text: string)
    | Quoted(text: string)
    | Identifier(text: string)
    | Symbol(mark: Mark)
    | Period(text: string)
    | End

  /** A reference: a head, a member path, and at most one period selector somewhere along it. */
  datatype Reference = Reference(head: string, members: seq<string>, selector: Option<string>,
      selectorAfter: Option<nat>)

  function WithMember(r: Reference, member: string): Reference {
    r.(members := r.members + [member])
  }

  function WithSelector(r: Reference, selector: string): Reference {
    r.(selector := Some(selector), selectorAfter := Some(|r.members|))
  }

  function WithoutLast(r: Reference): Reference
    requires r.members != []
  {
    r.(members := r.members[..|r.members| - 1])
  }

  function WithoutSelector(r: Reference): Reference {
    r.(selector := None, selectorAfter := None)
  }

  datatype Tree =
    | Num(text: string)
    | Str(text: string)
    | Boolean(value: bool)
    | Null
    | Ref(reference: Reference)
    | Call(name: string, arguments: seq<Tree>)
    | Unary(operator: Mark, operand: Tree)
    | Binary(operator: Mark, left: Tree, right: Tree)
    | Conditional(condition: Tree, yes: Tree, no: Tree)

  datatype ParseError = Malformed | Limit

  const MAX_DEPTH: nat := 64
  const LEVELS: nat := 5
  const COMPARISON: nat := 2

  /** The binary operators, loosest level first. */
  predicate OperatorAt(level: nat, op: Mark) {
    match level
    case 0 => op == OrOr
    case 1 => op == AndAnd
    case 2 => op == Equal || op == NotEqual || op == AtMost || op == AtLeast || op == Below || op == Above
    case 3 => op == Plus || op == Minus
    case 4 => op == Star || op == Slash || op == Percent
    case _ => false
  }

  predicate IsOperator(t: Token, level: nat) {
    t.Symbol? && OperatorAt(level, t.mark)
  }

  predicate UnaryOperator(op: Mark) {
    op == Minus || op == Bang
  }

  predicate Reserved(name: string) {
    name == "true" || name == "false" || name == "null"
  }

  predicate Ended(ts: seq<Token>) {
    ts != [] && ts[|ts| - 1] == End
  }

  /** A token list as lexed: the end mark is the last token and no other. */
  predicate Sealed(ts: seq<Token>) {
    Ended(ts) && forall k :: 0 <= k < |ts| - 1 ==> ts[k] != End
  }

  // ----- The grammar -----

  /** The tokens from i to j spell a reference: head, members in either spelling, one selector. */
  predicate Path(ts: seq<Token>, r: Reference, i: nat, j: nat)
    requires j <= |ts|
    decreases j
  {
    || (j == i + 1 && ts[i] == Identifier(r.head) && r == Reference(r.head, [], None, None))
    || (i + 2 < j && r.members != [] && r.selectorAfter != Some(|r.members|)
        && ts[j - 2] == Symbol(Dot) && ts[j - 1] == Identifier(r.members[|r.members| - 1])
        && Path(ts, WithoutLast(r), i, j - 2))
    || (i + 3 < j && r.members != [] && r.selectorAfter != Some(|r.members|)
        && ts[j - 3] == Symbol(OpenBracket) && ts[j - 2] == Quoted(r.members[|r.members| - 1])
            && ts[j - 1] == Symbol(CloseBracket)
        && Path(ts, WithoutLast(r), i, j - 3))
    || (i + 2 < j && r.members != [] && r.selectorAfter == Some(|r.members|) && r.selector.Some?
        && ts[j - 2] == Symbol(AtSign) && ts[j - 1] == Period(r.selector.value)
        && Path(ts, WithoutSelector(r), i, j - 2))
  }

  /** A primary: parenthesised expression, literal, call or reference. */
  ghost predicate Primary(ts: seq<Token>, t: Tree, i: nat, j: nat, depth: nat)
    requires i <= j <= |ts|
    decreases j - i, 0
  {
    || (i + 2 < j && ts[i] == Symbol(Open) && ts[j - 1] == Symbol(Close) && Expression(ts, t, i + 1, j - 1, depth))
    || (j == i + 1 && match t
                      case Num(text) => ts[i] == Numeral(text)
                      case Str(text) => ts[i] == Quoted(text)
                      case Boolean(value) => ts[i] == Identifier(if value then "true" else "false")
                      case Null => ts[i] == Identifier("null")
                      case _ => false)
    || (t.Ref? && !Reserved(t.reference.head) && Path(ts, t.reference, i, j))
    || (i + 2 < j && t.Call? && !Reserved(t.name) && ts[i] == Identifier(t.name)
        && ts[i + 1] == Symbol(Open) && ts[j - 1] == Symbol(Close)
        && (if j == i + 3 then t.arguments == [] else Arguments(ts, t.arguments, i + 2, j - 1, depth)))
  }

  /** One or more expressions separated by commas. */
  ghost predicate Arguments(ts: seq<Token>, arguments: seq<Tree>, i: nat, j: nat, depth: nat)
    requires i <= j <= |ts|
    decreases j - i, 9
  {
    && |arguments| > 0
    && if |arguments| == 1 then Expression(ts, arguments[0], i, j, depth)
       else exists m: nat :: i <= m < j && ts[m] == Symbol(Comma)
                             && Arguments(ts, arguments[..|arguments| - 1], i, m, depth)
                             && Expression(ts, arguments[|arguments| - 1], m + 1, j, depth)
  }

  /** A phrase of a binary level; the last level is a primary with at most one unary operator. */
  ghost predicate Phrase(ts: seq<Token>, level: nat, t: Tree, i: nat, j: nat, depth: nat)
    requires i <= j <= |ts| && level <= LEVELS
    decreases j - i, 7 - level
  {
    if level == LEVELS then
      || Primary(ts, t, i, j, depth)
      || (t.Unary? && i < j && UnaryOperator(t.operator) && ts[i] == Symbol(t.operator)
          && Primary(ts, t.operand, i + 1, j, depth))
    else
      || Phrase(ts, level + 1, t, i, j, depth)
      || (t.Binary? && OperatorAt(level, t.operator)
          && exists m: nat :: i <= m < j && ts[m] == Symbol(t.operator)
              && Operands(ts, level, t.left, t.right, i, m, j, depth))
  }

  /** The operands of a binary phrase: left-associative, but a comparison takes no comparison. */
  ghost predicate Operands(ts: seq<Token>, level: nat, left: Tree, right: Tree, i: nat, m: nat, j: nat, depth: nat)
    requires i <= m < j <= |ts| && level < LEVELS
    decreases j - i, 6 - level, 1
  {
    && Phrase(ts, if level == COMPARISON then level + 1 else level, left, i, m, depth)
    && Phrase(ts, level + 1, right, m + 1, j, depth)
  }

  /** An expression: a phrase, or a conditional nested to the right; nesting is bounded. */
  ghost predicate Expression(ts: seq<Token>, t: Tree, i: nat, j: nat, depth: nat)
    requires i <= j <= |ts|
    decreases j - i, 8
  {
    && depth < MAX_DEPTH
    && (|| Phrase(ts, 0, t, i, j, depth + 1)
        || (t.Conditional? && exists m: nat, n: nat :: i <= m < n < j && Choice(ts, t, i, m, n, j, depth)))
  }

  ghost predicate Choice(ts: seq<Token>, t: Tree, i: nat, m: nat, n: nat, j: nat, depth: nat)
    requires i <= m < n < j <= |ts| && t.Conditional? && depth < MAX_DEPTH
    decreases j - i, 7, 1
  {
    && ts[m] == Symbol(Question) && ts[n] == Symbol(Colon)
    && Phrase(ts, 0, t.condition, i, m, depth + 1)
    && Expression(ts, t.yes, m + 1, n, depth + 1)
    && Expression(ts, t.no, n + 1, j, depth + 1)
  }

  // ----- The parser -----

  predicate At(ts: seq<Token>, i: nat, mark: Mark)
    requires i < |ts|
  {
    ts[i] == Symbol(mark)
  }

  function ParseExpression(ts: seq<Token>, i: nat, depth: nat): (r: Result<(Tree, nat), ParseError>)
    requires Ended(ts) && i < |ts|
    ensures r.Success? ==> i < r.value.1 < |ts|
    decreases |ts| - i, 8
  {
    if depth + 1 > MAX_DEPTH then Failure(Limit)
    else
      var (value, j) :- ParseLevel(ts, 0, i, depth + 1);
      if !At(ts, j, Question) then Success((value, j))
      else
        var (yes, k) :- ParseExpression(ts, j + 1, depth + 1);
        if !At(ts, k, Colon) then Failure(Malformed)
        else
          var (no, l) :- ParseExpression(ts, k + 1, depth + 1);
          Success((Conditional(value, yes, no), l))
  }

  function ParseLevel(ts: seq<Token>, level: nat, i: nat, depth: nat): (r: Result<(Tree, nat), ParseError>)
    requires Ended(ts) && i < |ts| && level <= LEVELS
    ensures r.Success? ==> i < r.value.1 < |ts|
    decreases |ts| - i, 7 - level
  {
    if level == LEVELS then
      if ts[i].Symbol? && UnaryOperator(ts[i].mark) then
        var (operand, j) :- ParsePrimary(ts, i + 1, depth);
        Success((Unary(ts[i].mark, operand), j))
      else ParsePrimary(ts, i, depth)
    else
      var (value, j) :- ParseLevel(ts, level + 1, i, depth);
      ParseRest(ts, level, value, j, depth)
  }

  /** The loop of a binary level, with the value parsed so far. */
  function ParseRest(ts: seq<Token>, level: nat, value: Tree, i: nat, depth: nat): (r: Result<(Tree, nat), ParseError>)
    requires Ended(ts) && i < |ts| && level < LEVELS
    ensures r.Success? ==> i <= r.value.1 < |ts|
    decreases |ts| - i, 7 - level
  {
    if !IsOperator(ts[i], level) then Success((value, i))
    else
      var (right, j) :- ParseLevel(ts, level + 1, i + 1, depth);
      var more := Binary(ts[i].mark, value, right);
      if level == COMPARISON then Success((more, j)) else ParseRest(ts, level, more, j, depth)
  }

  function ParsePrimary(ts: seq<Token>, i: nat, depth: nat): (r: Result<(Tree, nat), ParseError>)
    requires Ended(ts) && i < |ts|
    ensures r.Success? ==> i < r.value.1 < |ts|
    decreases |ts| - i, 0
  {
    if At(ts, i, Open) then
      var (value, j) :- ParseExpression(ts, i + 1, depth);
      if At(ts, j, Close) then Success((value, j + 1)) else Failure(Malformed)
    else
      match ts[i]
      case Numeral(text) => Success((Num(text), i + 1))
      case Quoted(text) => Success((Str(text), i + 1))
      case Identifier(name) => ParseNamed(ts, name, i + 1, depth)
      case _ => Failure(Malformed)
  }

  function ParseNamed(ts: seq<Token>, name: string, i: nat, depth: nat): (r: Result<(Tree, nat), ParseError>)
    requires Ended(ts) && i < |ts|
    ensures r.Success? ==> i <= r.value.1 < |ts|
    decreases |ts| - i, 10
  {
    if name == "true" || name == "false" then Success((Boolean(name == "true"), i))
    else if name == "null" then Success((Null, i))
    else if At(ts, i, Open) then
      if At(ts, i + 1, Close) then Success((Call(name, []), i + 2))
      else
        var (arguments, j) :- ParseArguments(ts, i + 1, [], depth);
        Success((Call(name, arguments), j))
    else
      var (reference, j) :- ParsePath(ts, Reference(name, [], None, None), i);
      Success((Ref(reference), j))
  }

  /** The loop over arguments, past the closing parenthesis. */
  function ParseArguments(ts: seq<Token>, i: nat, before: seq<Tree>,
      depth: nat): (r: Result<(seq<Tree>, nat), ParseError>)
    requires Ended(ts) && i < |ts|
    ensures r.Success? ==> i < r.value.1 < |ts|
    decreases |ts| - i, 9
  {
    var (argument, j) :- ParseExpression(ts, i, depth);
    if At(ts, j, Close) then Success((before + [argument], j + 1))
    else if At(ts, j, Comma) then ParseArguments(ts, j + 1, before + [argument], depth)
    else Failure(Malformed)
  }

  /** The loop over members and selector. */
  function ParsePath(ts: seq<Token>, r: Reference, i: nat): (result: Result<(Reference, nat), ParseError>)
    requires Ended(ts) && i < |ts|
    ensures result.Success? ==> i <= result.value.1 < |ts|
    decreases |ts| - i
  {
    if At(ts, i, Dot) then
      if ts[i + 1].Identifier? then ParsePath(ts, WithMember(r, ts[i + 1].text), i + 2)
      else Failure(Malformed)
    else if At(ts, i, OpenBracket) then
      if ts[i + 1].Quoted? && At(ts, i + 2, CloseBracket) then ParsePath(ts, WithMember(r, ts[i + 1].text), i + 3)
      else Failure(Malformed)
    else if At(ts, i, AtSign) then
      if r.members == [] || r.selector.Some? || !ts[i + 1].Period? then Failure(Malformed)
      else ParsePath(ts, WithSelector(r, ts[i + 1].text), i + 2)
    else Success((r, i))
  }

  /** A whole text: one expression and nothing after it. */
  function Parse(ts: seq<Token>): Result<Tree, ParseError>
    requires Sealed(ts)
  {
    var (tree, j) :- ParseExpression(ts, 0, 0);
    if ts[j] == End then Success(tree) else Failure(Malformed)
  }

  // ----- What is parsed is spelled -----

  /** A selector is recorded with its place, after at least one member. */
  predicate Selected(r: Reference) {
    && (r.selector.Some? <==> r.selectorAfter.Some?)
    && (r.selectorAfter.Some? ==> 0 < r.selectorAfter.value <= |r.members|)
  }

  lemma PathWithMember(ts: seq<Token>, r: Reference, member: string, i: nat, j: nat)
    requires i < j && j + 3 <= |ts| && Path(ts, r, i, j) && r.selectorAfter != Some(|r.members| + 1)
    requires ts[j] == Symbol(OpenBracket) && ts[j + 1] == Quoted(member) && ts[j + 2] == Symbol(CloseBracket)
    ensures Path(ts, WithMember(r, member), i, j + 3)
  {
    var more := WithMember(r, member);
    assert WithoutLast(more) == r;
  }

  lemma PathWithDotted(ts: seq<Token>, r: Reference, member: string, i: nat, j: nat)
    requires i < j && j + 2 <= |ts| && Path(ts, r, i, j) && r.selectorAfter != Some(|r.members| + 1)
    requires ts[j] == Symbol(Dot) && ts[j + 1] == Identifier(member)
    ensures Path(ts, WithMember(r, member), i, j + 2)
  {
    var more := WithMember(r, member);
    assert WithoutLast(more) == r;
  }

  lemma PathWithSelector(ts: seq<Token>, r: Reference, selector: string, i: nat, j: nat)
    requires i < j && j + 2 <= |ts| && Path(ts, r, i, j) && r.selector.None? && r.selectorAfter.None? && r.members != []
    requires ts[j] == Symbol(AtSign) && ts[j + 1] == Period(selector)
    ensures Path(ts, WithSelector(r, selector), i, j + 2)
  {
    var more := WithSelector(r, selector);
    assert WithoutSelector(more) == r;
  }

  lemma {:induction false} ParsedPath(ts: seq<Token>, r: Reference, start: nat, i: nat)
    requires Ended(ts) && start < i < |ts| && Path(ts, r, start, i) && Selected(r)
    requires ParsePath(ts, r, i).Success?
    ensures var (result, j) := ParsePath(ts, r, i).value;
            Path(ts, result, start, j) && result.head == r.head
    decreases |ts| - i
  {
    hide Path;
    if At(ts, i, Dot) {
      PathWithDotted(ts, r, ts[i + 1].text, start, i);
      ParsedPath(ts, WithMember(r, ts[i + 1].text), start, i + 2);
    } else if At(ts, i, OpenBracket) {
      PathWithMember(ts, r, ts[i + 1].text, start, i);
      ParsedPath(ts, WithMember(r, ts[i + 1].text), start, i + 3);
    } else if At(ts, i, AtSign) {
      PathWithSelector(ts, r, ts[i + 1].text, start, i);
      ParsedPath(ts, WithSelector(r, ts[i + 1].text), start, i + 2);
    }
  }

  lemma AsExpression(ts: seq<Token>, t: Tree, i: nat, j: nat, depth: nat)
    requires i <= j <= |ts| && depth < MAX_DEPTH && Phrase(ts, 0, t, i, j, depth + 1)
    ensures Expression(ts, t, i, j, depth)
  {
    hide Phrase;
  }

  lemma ChoiceIsExpression(ts: seq<Token>, c: Tree, y: Tree, n: Tree, i: nat, m: nat, k: nat, j: nat, depth: nat)
    requires i <= m < k < j <= |ts| && depth < MAX_DEPTH && At(ts, m, Question) && At(ts, k, Colon)
    requires Phrase(ts, 0, c, i, m, depth + 1) && Expression(ts, y, m + 1, k, depth + 1)
    requires Expression(ts, n, k + 1, j, depth + 1)
    ensures Expression(ts, Conditional(c, y, n), i, j, depth)
  {
    var t := Conditional(c, y, n);
    assert Choice(ts, t, i, m, k, j, depth);
    hide Choice, Phrase;
  }

  /** The parts of a parsed conditional. */
  lemma ConditionalParts(ts: seq<Token>, i: nat, depth: nat)
    requires Ended(ts) && i < |ts| && ParseExpression(ts, i, depth).Success?
    ensures depth < MAX_DEPTH && ParseLevel(ts, 0, i, depth + 1).Success?
    ensures var (value, j) := ParseLevel(ts, 0, i, depth + 1).value;
            if !At(ts, j, Question) then ParseExpression(ts, i, depth) == Success((value, j))
            else
              && ParseExpression(ts, j + 1, depth + 1).Success?
              && var (yes, k) := ParseExpression(ts, j + 1, depth + 1).value;
                 && At(ts, k, Colon) && ParseExpression(ts, k + 1, depth + 1).Success?
                 && var (no, l) := ParseExpression(ts, k + 1, depth + 1).value;
                    ParseExpression(ts, i, depth) == Success((Conditional(value, yes, no), l))
  {
    hide ParseLevel;
  }

  lemma {:induction false} ParsedExpression(ts: seq<Token>, i: nat, depth: nat)
    requires Ended(ts) && i < |ts| && ParseExpression(ts, i, depth).Success?
    ensures var (t, j) := ParseExpression(ts, i, depth).value;
            Expression(ts, t, i, j, depth)
    decreases |ts| - i, 8
  {
    hide *;
    ConditionalParts(ts, i, depth);
    var (value, j) := ParseLevel(ts, 0, i, depth + 1).value;
    ParsedLevel(ts, 0, i, depth + 1);
    if At(ts, j, Question) {
      var (yes, k) := ParseExpression(ts, j + 1, depth + 1).value;
      var (no, l) := ParseExpression(ts, k + 1, depth + 1).value;
      ParsedExpression(ts, j + 1, depth + 1);
      ParsedExpression(ts, k + 1, depth + 1);
      ChoiceIsExpression(ts, value, yes, no, i, j, k, l, depth);
    } else {
      AsExpression(ts, value, i, j, depth);
    }
  }

  lemma {:induction false} ParsedLevel(ts: seq<Token>, level: nat, i: nat, depth: nat)
    requires Ended(ts) && i < |ts| && level <= LEVELS && ParseLevel(ts, level, i, depth).Success?
    ensures var (t, j) := ParseLevel(ts, level, i, depth).value;
            Phrase(ts, level, t, i, j, depth)
    decreases |ts| - i, 7 - level
  {
    hide Primary, ParsePrimary, ParseRest;
    if level == LEVELS {
      if ts[i].Symbol? && UnaryOperator(ts[i].mark) {
        ParsedPrimary(ts, i + 1, depth);
      } else {
        ParsedPrimary(ts, i, depth);
      }
    } else {
      var (value, j) := ParseLevel(ts, level + 1, i, depth).value;
      ParsedLevel(ts, level + 1, i, depth);
      hide ParseLevel;
      ParsedRest(ts, level, value, i, j, depth);
    }
  }

  lemma {:induction false} ParsedRest(ts: seq<Token>, level: nat, value: Tree, start: nat, i: nat, depth: nat)
    requires Ended(ts) && start < i < |ts| && level < LEVELS && ParseRest(ts, level, value, i, depth).Success?
    requires Phrase(ts, if level == COMPARISON then level + 1 else level, value, start, i, depth)
    ensures var (t, j) := ParseRest(ts, level, value, i, depth).value;
            Phrase(ts, level, t, start, j, depth)
    decreases |ts| - i, 7 - level
  {
    hide ParseLevel;
    if IsOperator(ts[i], level) {
      var (right, j) := ParseLevel(ts, level + 1, i + 1, depth).value;
      var more := Binary(ts[i].mark, value, right);
      ParsedLevel(ts, level + 1, i + 1, depth);
      BinaryPhrase(ts, level, value, right, start, i, j, depth);
      if level != COMPARISON {
        hide Phrase;
        ParsedRest(ts, level, more, start, j, depth);
      }
    }
  }

  lemma BinaryPhrase(ts: seq<Token>, level: nat, left: Tree, right: Tree, i: nat, m: nat, j: nat, depth: nat)
    requires i <= m < j <= |ts| && level < LEVELS && IsOperator(ts[m], level)
    requires Operands(ts, level, left, right, i, m, j, depth)
    ensures Phrase(ts, level, Binary(ts[m].mark, left, right), i, j, depth)
  {
    hide Operands;
  }

  lemma {:induction false} ParsedPrimary(ts: seq<Token>, i: nat, depth: nat)
    requires Ended(ts) && i < |ts| && ParsePrimary(ts, i, depth).Success?
    ensures var (t, j) := ParsePrimary(ts, i, depth).value;
            Primary(ts, t, i, j, depth)
    decreases |ts| - i, 0
  {
    hide Expression, ParseExpression, ParseNamed;
    if At(ts, i, Open) {
      ParsedExpression(ts, i + 1, depth);
    } else if ts[i].Identifier? {
      ParsedNamed(ts, ts[i].text, i + 1, depth);
    }
  }

  lemma {:induction false} ParsedNamed(ts: seq<Token>, name: string, i: nat, depth: nat)
    requires Ended(ts) && 0 < i < |ts| && ts[i - 1] == Identifier(name) && ParseNamed(ts, name, i, depth).Success?
    ensures var (t, j) := ParseNamed(ts, name, i, depth).value;
            Primary(ts, t, i - 1, j, depth)
    decreases |ts| - i, 10
  {
    hide Path, ParsePath, ParseArguments, Arguments, Expression;
    if Reserved(name) {
    } else if At(ts, i, Open) {
      if !At(ts, i + 1, Close) {
        ParsedArguments(ts, i + 1, [], i + 1, depth);
      }
    } else {
      var start := Reference(name, [], None, None);
      PathStarts(ts, name, i - 1);
      ParsedPath(ts, start, i - 1, i);
    }
  }

  lemma PathStarts(ts: seq<Token>, name: string, i: nat)
    requires i < |ts| && ts[i] == Identifier(name)
    ensures Path(ts, Reference(name, [], None, None), i, i + 1)
  {
  }

  /** Arguments read so far, with the comma after them. */
  ghost predicate ArgumentsSoFar(ts: seq<Token>, before: seq<Tree>, start: nat, i: nat, depth: nat)
    requires start <= i <= |ts|
  {
    if before == [] then start == i
    else start < i && ts[i - 1] == Symbol(Comma) && Arguments(ts, before, start, i - 1, depth)
  }

  lemma ArgumentsMore(ts: seq<Token>, before: seq<Tree>, argument: Tree, start: nat, i: nat, j: nat, depth: nat)
    requires start <= i < j <= |ts| && ArgumentsSoFar(ts, before, start, i, depth)
    requires Expression(ts, argument, i, j, depth)
    ensures Arguments(ts, before + [argument], start, j, depth)
  {
    hide Expression;
    var arguments := before + [argument];
    if before != [] {
      assert arguments[..|arguments| - 1] == before;
    }
  }

  lemma ArgumentParts(ts: seq<Token>, i: nat, before: seq<Tree>, depth: nat)
    requires Ended(ts) && i < |ts| && ParseArguments(ts, i, before, depth).Success?
    ensures ParseExpression(ts, i, depth).Success?
    ensures var (argument, j) := ParseExpression(ts, i, depth).value;
            if At(ts, j, Close) then ParseArguments(ts, i, before, depth) == Success((before + [argument], j + 1))
            else At(ts, j, Comma) && j + 1 < |ts|
                 && ParseArguments(ts, i, before, depth) == ParseArguments(ts, j + 1, before + [argument], depth)
  {
    hide ParseExpression;
  }

  lemma {:induction false} ParsedArguments(ts: seq<Token>, i: nat, before: seq<Tree>, start: nat, depth: nat)
    requires Ended(ts) && start <= i < |ts| && ParseArguments(ts, i, before, depth).Success?
    requires ArgumentsSoFar(ts, before, start, i, depth)
    ensures var (arguments, j) := ParseArguments(ts, i, before, depth).value;
            start < j - 1 && ts[j - 1] == Symbol(Close) && Arguments(ts, arguments, start, j - 1, depth)
    decreases |ts| - i, 9
  {
    ArgumentParts(ts, i, before, depth);
    var (argument, j) := ParseExpression(ts, i, depth).value;
    hide ParseExpression, Expression, Arguments, ParseArguments;
    ParsedExpression(ts, i, depth);
    ArgumentsMore(ts, before, argument, start, i, j, depth);
    if !At(ts, j, Close) {
      ParsedArguments(ts, j + 1, before + [argument], start, depth);
    }
  }

  // ----- What is spelled is parsed -----

  predicate Postfix(t: Token) {
    t == Symbol(Dot) || t == Symbol(OpenBracket) || t == Symbol(AtSign) || t == Symbol(Open)
  }

  /** The token after a phrase of a level does not go on with it. */
  ghost predicate Stops(t: Token, level: nat) {
    !Postfix(t) && forall k: nat :: level <= k ==> !IsOperator(t, k)
  }

  ghost predicate Closes(t: Token) {
    Stops(t, 0) && t != Symbol(Question)
  }

  lemma OperatorStops(t: Token, level: nat)
    requires IsOperator(t, level)
    ensures Stops(t, level + 1)
  {
  }

  lemma {:induction false} SpelledPath(ts: seq<Token>, r: Reference, i: nat, j: nat)
    requires Ended(ts) && i < j < |ts| && Path(ts, r, i, j)
    ensures Selected(r) && ts[i] == Identifier(r.head)
    ensures ParsePath(ts, Reference(r.head, [], None, None), i + 1) == ParsePath(ts, r, j)
    decreases j
  {
    if !(j == i + 1 && r == Reference(r.head, [], None, None)) {
      var last := |r.members| - 1;
      if i + 2 < j && r.selectorAfter != Some(|r.members|) && ts[j - 2] == Symbol(Dot) {
        var less := WithoutLast(r);
        SpelledPath(ts, less, i, j - 2);
        assert less.members + [r.members[last]] == r.members;
      } else if r.selectorAfter != Some(|r.members|) {
        var less := WithoutLast(r);
        SpelledPath(ts, less, i, j - 3);
        assert less.members + [r.members[last]] == r.members;
      } else {
        SpelledPath(ts, WithoutSelector(r), i, j - 2);
      }
    }
  }

  lemma PathNonempty(ts: seq<Token>, r: Reference, i: nat, j: nat)
    requires j <= |ts| && Path(ts, r, i, j)
    ensures i < j
  {
  }

  lemma {:induction false} SpelledExpression(ts: seq<Token>, t: Tree, i: nat, j: nat, depth: nat)
    requires Ended(ts) && i <= j < |ts| && Expression(ts, t, i, j, depth) && Closes(ts[j])
    ensures ParseExpression(ts, i, depth) == Success((t, j))
    decreases j - i, 8
  {
    hide Phrase, ParseLevel, Stops;
    if Phrase(ts, 0, t, i, j, depth + 1) {
      SpelledLevel(ts, 0, t, i, j, depth + 1);
    } else {
      var m: nat, n: nat :| i <= m < n < j && Choice(ts, t, i, m, n, j, depth);
      MarkCloses(ts[m], ts[n]);
      SpelledLevel(ts, 0, t.condition, i, m, depth + 1);
      SpelledExpression(ts, t.yes, m + 1, n, depth + 1);
      SpelledExpression(ts, t.no, n + 1, j, depth + 1);
    }
  }

  lemma MarkCloses(question: Token, colon: Token)
    requires question == Symbol(Question) && colon == Symbol(Colon)
    ensures Stops(question, 0) && Closes(colon)
  {
  }

  /** A phrase is parsed to itself when nothing goes on with it. */
  lemma {:induction false} SpelledLevel(ts: seq<Token>, level: nat, t: Tree, i: nat, j: nat, depth: nat)
    requires Ended(ts) && i <= j < |ts| && level <= LEVELS && Phrase(ts, level, t, i, j, depth) && Stops(ts[j], level)
    ensures ParseLevel(ts, level, i, depth) == Success((t, j))
    decreases j - i, 7 - level, 1
  {
    if level == LEVELS {
      hide Primary, ParsePrimary;
      if Primary(ts, t, i, j, depth) {
        PrimaryStart(ts, t, i, j, depth);
        SpelledPrimary(ts, t, i, j, depth);
      } else {
        SpelledPrimary(ts, t.operand, i + 1, j, depth);
      }
    } else if level == COMPARISON {
      SpelledComparison(ts, t, i, j, depth);
    } else {
      hide *;
      LevelNumbers();
      RestStops(ts, level, t, j, depth);
      SpelledPrefix(ts, level, t, i, j, depth);
    }
  }

  lemma LevelNumbers()
    ensures LEVELS == 5 && COMPARISON == 2
  {
  }

  lemma LevelBegins(ts: seq<Token>, level: nat, value: Tree, i: nat, j: nat, depth: nat)
    requires Ended(ts) && i < |ts| && level < LEVELS && j < |ts|
    requires ParseLevel(ts, level + 1, i, depth) == Success((value, j))
    ensures ParseLevel(ts, level, i, depth) == ParseRest(ts, level, value, j, depth)
  {
    hide ParseRest;
  }

  lemma RestSteps(ts: seq<Token>, level: nat, value: Tree, m: nat, right: Tree, j: nat, depth: nat)
    requires Ended(ts) && m < j < |ts| && level < LEVELS && IsOperator(ts[m], level) && m + 1 < |ts|
    requires ParseLevel(ts, level + 1, m + 1, depth) == Success((right, j))
    ensures ParseRest(ts, level, value, m, depth)
            == var more := Binary(ts[m].mark, value, right);
               if level == COMPARISON then Success((more, j)) else ParseRest(ts, level, more, j, depth)
  {
    hide ParseLevel;
  }

  lemma RestStops(ts: seq<Token>, level: nat, value: Tree, j: nat, depth: nat)
    requires Ended(ts) && j < |ts| && level < LEVELS && Stops(ts[j], level)
    ensures ParseRest(ts, level, value, j, depth) == Success((value, j)) && Stops(ts[j], level + 1)
  {
    assert !IsOperator(ts[j], level);
  }

  /** Where the operator of a binary phrase stands. */
  lemma BinaryParts(ts: seq<Token>, level: nat, t: Tree, i: nat, j: nat, depth: nat) returns (m: nat)
    requires i <= j <= |ts| && level < LEVELS && Phrase(ts, level, t, i, j, depth)
    requires !Phrase(ts, level + 1, t, i, j, depth)
    ensures t.Binary? && i <= m < j && IsOperator(ts[m], level) && ts[m].mark == t.operator
    ensures Phrase(ts, if level == COMPARISON then level + 1 else level, t.left, i, m, depth)
    ensures Phrase(ts, level + 1, t.right, m + 1, j, depth)
    ensures Stops(ts[m], level + 1)
  {
    m :| i <= m < j && ts[m] == Symbol(t.operator) && Operands(ts, level, t.left, t.right, i, m, j, depth);
    OperatorStops(ts[m], level);
  }

  /** At an associative level, a phrase that goes on leaves the loop with its value. */
  lemma {:induction false} SpelledPrefix(ts: seq<Token>, level: nat, t: Tree, i: nat, j: nat, depth: nat)
    requires Ended(ts) && i <= j < |ts| && level < LEVELS && level != COMPARISON
    requires Phrase(ts, level, t, i, j, depth) && Stops(ts[j], level + 1)
    ensures ParseLevel(ts, level, i, depth) == ParseRest(ts, level, t, j, depth)
    decreases j - i, 7 - level, 0
  {
    hide *;
    LevelNumbers();
    if Phrase(ts, level + 1, t, i, j, depth) {
      SpelledLevel(ts, level + 1, t, i, j, depth);
      LevelBegins(ts, level, t, i, j, depth);
    } else {
      var m := BinaryParts(ts, level, t, i, j, depth);
      SpelledPrefix(ts, level, t.left, i, m, depth);
      SpelledLevel(ts, level + 1, t.right, m + 1, j, depth);
      RestSteps(ts, level, t.left, m, t.right, j, depth);
    }
  }

  lemma {:induction false} SpelledComparison(ts: seq<Token>, t: Tree, i: nat, j: nat, depth: nat)
    requires Ended(ts) && i <= j < |ts| && Phrase(ts, COMPARISON, t, i, j, depth) && Stops(ts[j], COMPARISON)
    ensures ParseLevel(ts, COMPARISON, i, depth) == Success((t, j))
    decreases j - i, 7 - COMPARISON, 0
  {
    hide *;
    LevelNumbers();
    RestStops(ts, COMPARISON, t, j, depth);
    if Phrase(ts, COMPARISON + 1, t, i, j, depth) {
      SpelledLevel(ts, COMPARISON + 1, t, i, j, depth);
      LevelBegins(ts, COMPARISON, t, i, j, depth);
    } else {
      var m := BinaryParts(ts, COMPARISON, t, i, j, depth);
      SpelledLevel(ts, COMPARISON + 1, t.left, i, m, depth);
      LevelBegins(ts, COMPARISON, t.left, i, m, depth);
      SpelledLevel(ts, COMPARISON + 1, t.right, m + 1, j, depth);
      RestSteps(ts, COMPARISON, t.left, m, t.right, j, depth);
    }
  }

  /** A primary is not empty and does not begin with a unary operator. */
  lemma PrimaryStart(ts: seq<Token>, t: Tree, i: nat, j: nat, depth: nat)
    requires i <= j <= |ts| && Primary(ts, t, i, j, depth)
    ensures i < j && !(ts[i].Symbol? && UnaryOperator(ts[i].mark))
  {
    hide Expression, Arguments, Path;
    if t.Ref? && Path(ts, t.reference, i, j) {
      PathHead(ts, t.reference, i, j);
    }
  }

  lemma {:induction false} PathHead(ts: seq<Token>, r: Reference, i: nat, j: nat)
    requires j <= |ts| && Path(ts, r, i, j)
    ensures i < j && ts[i] == Identifier(r.head)
    decreases j
  {
    if !(j == i + 1 && r == Reference(r.head, [], None, None)) {
      if i + 2 < j && r.members != [] && Path(ts, WithoutLast(r), i, j - 2) {
        PathHead(ts, WithoutLast(r), i, j - 2);
      } else if i + 3 < j && r.members != [] && Path(ts, WithoutLast(r), i, j - 3) {
        PathHead(ts, WithoutLast(r), i, j - 3);
      } else {
        PathHead(ts, WithoutSelector(r), i, j - 2);
      }
    }
  }

  lemma {:induction false} SpelledPrimary(ts: seq<Token>, t: Tree, i: nat, j: nat, depth: nat)
    requires Ended(ts) && i <= j < |ts| && Primary(ts, t, i, j, depth) && !Postfix(ts[j])
    ensures ParsePrimary(ts, i, depth) == Success((t, j))
    decreases j - i, 0
  {
    hide Expression, Arguments, Path, ParseExpression, ParseArguments, ParsePath;
    if i + 2 < j && ts[i] == Symbol(Open) && ts[j - 1] == Symbol(Close) && Expression(ts, t, i + 1, j - 1, depth) {
      BracketCloses(ts[j - 1]);
      SpelledExpression(ts, t, i + 1, j - 1, depth);
    } else if t.Ref? {
      SpelledReference(ts, t.reference, i, j, depth);
    } else if t.Call? {
      SpelledCall(ts, t, i, j, depth);
    }
  }

  lemma BracketCloses(t: Token)
    requires t == Symbol(Close) || t == Symbol(Comma)
    ensures Closes(t)
  {
  }

  lemma SpelledReference(ts: seq<Token>, r: Reference, i: nat, j: nat, depth: nat)
    requires Ended(ts) && i <= j < |ts| && Path(ts, r, i, j) && !Reserved(r.head) && !Postfix(ts[j])
    ensures ParsePrimary(ts, i, depth) == Success((Ref(r), j))
  {
    PathNonempty(ts, r, i, j);
    SpelledPath(ts, r, i, j);
    AfterHead(ts, r, i, j);
    assert ParsePath(ts, r, j) == Success((r, j));
    hide Path;
  }

  /** A head is not followed by an opening parenthesis. */
  lemma {:induction false} AfterHead(ts: seq<Token>, r: Reference, i: nat, j: nat)
    requires i < j < |ts| && Path(ts, r, i, j) && !Postfix(ts[j])
    ensures ts[i + 1] != Symbol(Open)
  {
    AfterHeadWithin(ts, r, i, j);
  }

  lemma {:induction false} AfterHeadWithin(ts: seq<Token>, r: Reference, i: nat, j: nat)
    requires i < j <= |ts| && Path(ts, r, i, j)
    ensures j == i + 1 || ts[i + 1] != Symbol(Open)
    decreases j
  {
    if !(j == i + 1 && r == Reference(r.head, [], None, None)) {
      if i + 2 < j && r.members != [] && ts[j - 2] == Symbol(Dot) && Path(ts, WithoutLast(r), i, j - 2) {
        AfterHeadWithin(ts, WithoutLast(r), i, j - 2);
      } else if i + 3 < j && r.members != [] && ts[j - 3] == Symbol(OpenBracket) && Path(ts, WithoutLast(r), i, j - 3) {
        AfterHeadWithin(ts, WithoutLast(r), i, j - 3);
      } else {
        AfterHeadWithin(ts, WithoutSelector(r), i, j - 2);
      }
    }
  }

  lemma {:induction false} SpelledCall(ts: seq<Token>, t: Tree, i: nat, j: nat, depth: nat)
    requires Ended(ts) && i + 2 < j < |ts| && t.Call? && !Reserved(t.name) && ts[i] == Identifier(t.name)
    requires ts[i + 1] == Symbol(Open) && ts[j - 1] == Symbol(Close)
    requires if j == i + 3 then t.arguments == [] else Arguments(ts, t.arguments, i + 2, j - 1, depth)
    ensures ParsePrimary(ts, i, depth) == Success((t, j))
    decreases j - i - 1, 20
  {
    hide Arguments, ParseArguments;
    if j != i + 3 {
      SpelledArguments(ts, t.arguments, i + 2, j - 1, depth);
      if At(ts, i + 2, Close) {
        NoArgumentAtClose(ts, i + 2, depth);
      }
    }
  }

  lemma NoArgumentAtClose(ts: seq<Token>, i: nat, depth: nat)
    requires Ended(ts) && i < |ts| && At(ts, i, Close)
    ensures ParseArguments(ts, i, [], depth).Failure?
  {
    NoLevelAtClose(ts, LEVELS, i, depth + 1);
    NoLevelAtClose(ts, 4, i, depth + 1);
    NoLevelAtClose(ts, 3, i, depth + 1);
    NoLevelAtClose(ts, 2, i, depth + 1);
    NoLevelAtClose(ts, 1, i, depth + 1);
    NoLevelAtClose(ts, 0, i, depth + 1);
    hide ParseLevel;
  }

  lemma NoLevelAtClose(ts: seq<Token>, level: nat, i: nat, depth: nat)
    requires Ended(ts) && i < |ts| && At(ts, i, Close) && level <= LEVELS
    requires level < LEVELS ==> ParseLevel(ts, level + 1, i, depth).Failure?
    ensures ParseLevel(ts, level, i, depth).Failure?
  {
  }

  lemma {:induction false} SpelledArguments(ts: seq<Token>, arguments: seq<Tree>, i: nat, j: nat, depth: nat)
    requires Ended(ts) && i <= j < |ts| && Arguments(ts, arguments, i, j, depth)
    requires (At(ts, j, Close) || At(ts, j, Comma))
    ensures ParseArguments(ts, i, [], depth)
            == if At(ts, j, Close) then Success((arguments, j + 1)) else ParseArguments(ts, j + 1, arguments, depth)
    decreases j - i, 9
  {
    hide Expression, ParseExpression;
    BracketCloses(ts[j]);
    var last := |arguments| - 1;
    if last == 0 {
      SpelledExpression(ts, arguments[0], i, j, depth);
      assert [] + [arguments[0]] == arguments;
    } else {
      var m: nat :| i <= m < j && ts[m] == Symbol(Comma)
                    && Arguments(ts, arguments[..last], i, m, depth)
                        && Expression(ts, arguments[last], m + 1, j, depth);
      hide Arguments;
      SpelledArguments(ts, arguments[..last], i, m, depth);
      SpelledExpression(ts, arguments[last], m + 1, j, depth);
      assert arguments[..last] + [arguments[last]] == arguments;
    }
  }

  /**
   The parser accepts exactly the grammar: a token list parses to a tree if and only if it spells
   that tree as an expression, within the nesting limit.
   */
  lemma ParseIffSpelled(ts: seq<Token>, t: Tree)
    requires Sealed(ts)
    ensures Parse(ts) == Success(t) <==> Expression(ts, t, 0, |ts| - 1, 0)
  {
    EndCloses();
    hide Expression, ParseExpression, Closes;
    if Expression(ts, t, 0, |ts| - 1, 0) {
      SpelledExpression(ts, t, 0, |ts| - 1, 0);
    }
    if Parse(ts) == Success(t) {
      ParsedExpression(ts, 0, 0);
    }
  }

  lemma EndCloses()
    ensures Closes(End)
  {
  }

  /** The grammar is unambiguous: a token list spells at most one tree. */
  lemma Unambiguous(ts: seq<Token>, t: Tree, u: Tree)
    requires Sealed(ts) && Expression(ts, t, 0, |ts| - 1, 0) && Expression(ts, u, 0, |ts| - 1, 0)
    ensures t == u
  {
    hide Expression, Parse;
    ParseIffSpelled(ts, t);
    ParseIffSpelled(ts, u);
  }

  // ----- Printing -----

  function LevelOf(op: Mark): nat {
    if OperatorAt(0, op) then 0
    else if OperatorAt(1, op) then 1
    else if OperatorAt(2, op) then 2
    else if OperatorAt(3, op) then 3
    else 4
  }

  const EXPRESSION: nat := 0
  const OPERAND: nat := 6
  const PRIMARY: nat := 7

  /** The tightest place a tree can stand without parentheses: level k of the binary levels is k + 1. */
  function Rank(t: Tree): nat {
    match t
    case Conditional(_, _, _) => EXPRESSION
    case Binary(op, _, _) => LevelOf(op) + 1
    case Unary(_, _) => OPERAND
    case _ => PRIMARY
  }

  /** Trees of the language: known operators, unreserved names, selectors along the path. */
  predicate Grammatical(t: Tree) {
    match t
    case Num(_) => true
    case Str(_) => true
    case Boolean(_) => true
    case Null => true
    case Ref(r) => !Reserved(r.head) && Selected(r)
    case Call(name, arguments) => !Reserved(name) && forall k :: 0 <= k < |arguments| ==> Grammatical(arguments[k])
    case Unary(op, x) => UnaryOperator(op) && Grammatical(x)
    case Binary(op, l, r) => OperatorAt(LevelOf(op), op) && Grammatical(l) && Grammatical(r)
    case Conditional(c, y, n) => Grammatical(c) && Grammatical(y) && Grammatical(n)
  }

  function PrintReference(r: Reference): seq<Token>
    decreases |r.members|, r.selector.Some?
  {
    if r.selector.Some? && r.selectorAfter == Some(|r.members|) then
      PrintReference(WithoutSelector(r)) + [Symbol(AtSign), Period(r.selector.value)]
    else if r.members == [] then [Identifier(r.head)]
    else
      PrintReference(WithoutLast(r))
      + [Symbol(OpenBracket), Quoted(r.members[|r.members| - 1]), Symbol(CloseBracket)]
  }

  /** The place of the left operand of an operator: a comparison takes no comparison. */
  function LeftRank(op: Mark): nat {
    if LevelOf(op) == COMPARISON then COMPARISON + 2 else LevelOf(op) + 1
  }

  function Print(t: Tree): seq<Token>
    decreases t, 0
  {
    match t
    case Num(text) => [Numeral(text)]
    case Str(text) => [Quoted(text)]
    case Boolean(value) => [Identifier(if value then "true" else "false")]
    case Null => [Identifier("null")]
    case Ref(r) => PrintReference(r)
    case Call(name, arguments) =>
      if arguments == [] then [Identifier(name), Symbol(Open), Symbol(Close)]
      else [Identifier(name), Symbol(Open)] + PrintArguments(t, |arguments|) + [Symbol(Close)]
    case Unary(op, x) => [Symbol(op)] + PrintAt(x, PRIMARY)
    case Binary(op, l, r) => PrintAt(l, LeftRank(op)) + [Symbol(op)] + PrintAt(r, LevelOf(op) + 2)
    case Conditional(c, y, n) =>
      PrintAt(c, 1) + [Symbol(Question)] + PrintAt(y, EXPRESSION) + [Symbol(Colon)] + PrintAt(n, EXPRESSION)
  }

  /** The tree printed in a place: in parentheses only if it does not fit. */
  function PrintAt(t: Tree, place: nat): seq<Token>
    decreases t, 1
  {
    if Rank(t) < place then [Symbol(Open)] + Print(t) + [Symbol(Close)] else Print(t)
  }

  /** The first n arguments of a call. */
  function PrintArguments(t: Tree, n: nat): seq<Token>
    requires t.Call? && 0 < n <= |t.arguments|
    decreases t, 0, n
  {
    if n == 1 then Print(t.arguments[0])
    else PrintArguments(t, n - 1) + [Symbol(Comma)] + Print(t.arguments[n - 1])
  }

  function MaxOf(a: nat, b: nat): nat {
    if a < b then b else a
  }

  /** How deep expressions nest inside the printed tree. */
  function Nesting(t: Tree): nat
    decreases t, 0
  {
    match t
    case Call(_, arguments) => if arguments == [] then 0 else NestingOf(t, |arguments|)
    case Unary(_, x) => NestingAt(x, PRIMARY)
    case Binary(op, l, r) => MaxOf(NestingAt(l, LeftRank(op)), NestingAt(r, LevelOf(op) + 2))
    case Conditional(c, y, n) =>
      MaxOf(NestingAt(c, 1), MaxOf(NestingAt(y, EXPRESSION) + 1, NestingAt(n, EXPRESSION) + 1))
    case _ => 0
  }

  function NestingAt(t: Tree, place: nat): nat
    decreases t, 1
  {
    if Rank(t) < place then Nesting(t) + 1 else Nesting(t)
  }

  function NestingOf(t: Tree, n: nat): nat
    requires t.Call? && 0 < n <= |t.arguments|
    decreases t, 0, n
  {
    if n == 1 then Nesting(t.arguments[0]) + 1
    else MaxOf(NestingOf(t, n - 1), Nesting(t.arguments[n - 1]) + 1)
  }

  /** The tokens from i are these. */
  predicate Holds(ts: seq<Token>, i: nat, s: seq<Token>) {
    i + |s| <= |ts| && ts[i..i + |s|] == s
  }

  lemma HoldsCut(ts: seq<Token>, i: nat, a: seq<Token>, b: seq<Token>)
    requires Holds(ts, i, a + b)
    ensures Holds(ts, i, a) && Holds(ts, i + |a|, b)
  {
    assert ts[i..i + |a|] == ts[i..i + |a + b|][..|a|];
    assert ts[i + |a|..i + |a| + |b|] == ts[i..i + |a + b|][|a|..];
  }

  lemma HoldsOne(ts: seq<Token>, i: nat, t: Token)
    requires Holds(ts, i, [t])
    ensures i < |ts| && ts[i] == t
  {
    assert ts[i..i + 1][0] == t;
  }

  lemma HoldsAround(ts: seq<Token>, i: nat, a: seq<Token>, t: Token, b: seq<Token>)
    requires Holds(ts, i, a + [t] + b)
    ensures Holds(ts, i, a) && i + |a| < |ts| && ts[i + |a|] == t && Holds(ts, i + |a| + 1, b)
  {
    HoldsCut(ts, i, a + [t], b);
    HoldsCut(ts, i, a, [t]);
    HoldsOne(ts, i + |a|, t);
  }

  lemma HoldsTwo(ts: seq<Token>, i: nat, t: Token, u: Token)
    requires Holds(ts, i, [t, u])
    ensures i + 1 < |ts| && ts[i] == t && ts[i + 1] == u
  {
    assert ts[i..i + 2][0] == t && ts[i..i + 2][1] == u;
  }

  lemma HoldsThree(ts: seq<Token>, i: nat, t: Token, u: Token, v: Token)
    requires Holds(ts, i, [t, u, v])
    ensures i + 2 < |ts| && ts[i] == t && ts[i + 1] == u && ts[i + 2] == v
  {
    assert ts[i..i + 3][0] == t && ts[i..i + 3][1] == u && ts[i..i + 3][2] == v;
  }

  lemma PrintedSelector(ts: seq<Token>, r: Reference, i: nat)
    requires Selected(r) && r.selectorAfter == Some(|r.members|) && Holds(ts, i, PrintReference(r))
    ensures var less := WithoutSelector(r);
            var j := i + |PrintReference(less)|;
            && Selected(less) && r == WithSelector(less, r.selector.value)
            && less.members != [] && less.selector.None? && less.selectorAfter.None? && r.selector.Some?
            && Holds(ts, i, PrintReference(less)) && |PrintReference(r)| == |PrintReference(less)| + 2
            && j + 2 <= |ts| && ts[j] == Symbol(AtSign) && ts[j + 1] == Period(r.selector.value)
  {
    var less := WithoutSelector(r);
    assert PrintReference(r) == PrintReference(less) + [Symbol(AtSign), Period(r.selector.value)];
    hide Holds, PrintReference;
    HoldsCut(ts, i, PrintReference(less), [Symbol(AtSign), Period(r.selector.value)]);
    HoldsTwo(ts, i + |PrintReference(less)|, Symbol(AtSign), Period(r.selector.value));
  }

  lemma LastMember(r: Reference)
    requires Selected(r) && r.selectorAfter != Some(|r.members|) && r.members != []
    ensures var less := WithoutLast(r);
            && Selected(less) && r == WithMember(less, r.members[|r.members| - 1])
            && less.selectorAfter != Some(|less.members| + 1)
  {
    var last := |r.members| - 1;
    assert r.members[..last] + [r.members[last]] == r.members;
  }

  lemma MemberTokens(r: Reference)
    requires Selected(r) && r.selectorAfter != Some(|r.members|) && r.members != []
    ensures PrintReference(r) == PrintReference(WithoutLast(r))
                                 + [Symbol(OpenBracket), Quoted(r.members[|r.members| - 1]), Symbol(CloseBracket)]
  {
  }

  lemma PrintedMember(ts: seq<Token>, r: Reference, i: nat)
    requires Selected(r) && r.selectorAfter != Some(|r.members|) && r.members != []
    requires Holds(ts, i, PrintReference(r))
    ensures var less := WithoutLast(r);
            var j := i + |PrintReference(less)|;
            && Holds(ts, i, PrintReference(less)) && |PrintReference(r)| == |PrintReference(less)| + 3
            && j + 3 <= |ts| && ts[j] == Symbol(OpenBracket) && ts[j + 1] == Quoted(r.members[|r.members| - 1])
            && ts[j + 2] == Symbol(CloseBracket)
  {
    hide *;
    var less := WithoutLast(r);
    MemberTokens(r);
    HoldsCut(ts, i, PrintReference(less),
        [Symbol(OpenBracket), Quoted(r.members[|r.members| - 1]), Symbol(CloseBracket)]);
    HoldsThree(ts, i + |PrintReference(less)|, Symbol(OpenBracket), Quoted(r.members[|r.members| - 1]),
        Symbol(CloseBracket));
  }

  lemma PrintedHead(ts: seq<Token>, r: Reference, i: nat)
    requires Selected(r) && r.members == [] && Holds(ts, i, PrintReference(r))
    ensures |PrintReference(r)| == 1 && i < |ts| && Path(ts, r, i, i + 1)
  {
    HoldsOne(ts, i, Identifier(r.head));
    PathStarts(ts, r.head, i);
  }

  lemma {:induction false} PrintedReference(ts: seq<Token>, r: Reference, i: nat)
    requires Selected(r) && Holds(ts, i, PrintReference(r))
    ensures i < i + |PrintReference(r)| <= |ts| && Path(ts, r, i, i + |PrintReference(r)|)
    decreases |PrintReference(r)|
  {
    hide *;
    if r.members == [] {
      PrintedHead(ts, r, i);
    } else if r.selectorAfter == Some(|r.members|) {
      var less := WithoutSelector(r);
      PrintedSelector(ts, r, i);
      PrintedReference(ts, less, i);
      PathWithSelector(ts, less, r.selector.value, i, i + |PrintReference(less)|);
    } else {
      var last := |r.members| - 1;
      var less := WithoutLast(r);
      LastMember(r);
      PrintedMember(ts, r, i);
      PrintedReference(ts, less, i);
      PathWithMember(ts, less, r.members[last], i, i + |PrintReference(less)|);
    }
  }

  /** A place of the grammar: an expression, a phrase of a level, or a primary. */
  ghost predicate Fits(ts: seq<Token>, place: nat, t: Tree, i: nat, j: nat, depth: nat)
    requires i <= j <= |ts| && place <= PRIMARY
  {
    if place == EXPRESSION then Expression(ts, t, i, j, depth)
    else if place == PRIMARY then Primary(ts, t, i, j, depth)
    else Phrase(ts, place - 1, t, i, j, depth)
  }

  /** A tighter phrase is also a looser one. */
  lemma {:induction false} Looser(ts: seq<Token>, place: nat, tighter: nat, t: Tree, i: nat, j: nat, depth: nat)
    requires i <= j <= |ts| && 0 < place <= tighter <= PRIMARY && Fits(ts, tighter, t, i, j, depth)
    ensures Fits(ts, place, t, i, j, depth)
    decreases tighter
  {
    hide Primary, Operands;
    if place < tighter {
      assert Fits(ts, tighter - 1, t, i, j, depth);
      Looser(ts, place, tighter - 1, t, i, j, depth);
    }
  }

  lemma InParentheses(ts: seq<Token>, t: Tree, i: nat, j: nat, depth: nat)
    requires i + 1 < j <= |ts| && i + 1 < j - 1 && ts[i] == Symbol(Open) && ts[j - 1] == Symbol(Close)
    requires Expression(ts, t, i + 1, j - 1, depth)
    ensures Primary(ts, t, i, j, depth)
  {
    hide Expression;
  }

  lemma {:induction false} PrintNonempty(t: Tree)
    ensures |Print(t)| > 0
  {
    if t.Ref? {
      ReferenceNonempty(t.reference);
    }
  }

  lemma {:induction false} ReferenceNonempty(r: Reference)
    ensures |PrintReference(r)| > 0
    decreases |r.members|, r.selector.Some?
  {
    if r.selector.Some? && r.selectorAfter == Some(|r.members|) {
      ReferenceNonempty(WithoutSelector(r));
    } else if r.members != [] {
      ReferenceNonempty(WithoutLast(r));
    }
  }

  /** The depth of the phrases in a place. */
  function Inside(place: nat, depth: nat): nat {
    if place == EXPRESSION then depth + 1 else depth
  }

  /** A printed tree fits its own place. */
  lemma {:induction false} PrintedFits(ts: seq<Token>, t: Tree, i: nat, depth: nat)
    requires Grammatical(t) && Holds(ts, i, Print(t)) && Inside(Rank(t), depth) + Nesting(t) <= MAX_DEPTH
    ensures Fits(ts, Rank(t), t, i, i + |Print(t)|, depth)
    decreases t, 0
  {
    match t
    case Ref(r) =>
      PrintedReference(ts, r, i);
      hide Path, Expression, Arguments;
    case Call(_, _) =>
      PrintedCall(ts, t, i, depth);
    case Unary(op, x) =>
      PrintedUnary(ts, t, i, depth);
    case Binary(op, l, r) =>
      PrintedBinary(ts, t, i, depth);
    case Conditional(c, y, n) =>
      PrintedConditional(ts, t, i, depth);
    case _ =>
      HoldsOne(ts, i, Print(t)[0]);
  }

  lemma {:induction false} PrintedUnary(ts: seq<Token>, t: Tree, i: nat, depth: nat)
    requires t.Unary? && Grammatical(t) && Holds(ts, i, Print(t)) && depth + Nesting(t) <= MAX_DEPTH
    ensures Fits(ts, Rank(t), t, i, i + |Print(t)|, depth)
    decreases t, 0, 0
  {
    hide Primary, Holds, PrintAt, NestingAt;
    HoldsCut(ts, i, [Symbol(t.operator)], PrintAt(t.operand, PRIMARY));
    HoldsOne(ts, i, Symbol(t.operator));
    PrintedAt(ts, t.operand, PRIMARY, i + 1, depth);
  }

  lemma {:induction false} PrintedBinary(ts: seq<Token>, t: Tree, i: nat, depth: nat)
    requires t.Binary? && Grammatical(t) && Holds(ts, i, Print(t)) && depth + Nesting(t) <= MAX_DEPTH
    ensures Fits(ts, Rank(t), t, i, i + |Print(t)|, depth)
    decreases t, 0, 0
  {
    hide Primary, Holds, PrintAt, NestingAt, Phrase, OperatorAt, LevelOf;
    var op := t.operator;
    OperatorLevel(op);
    var a, b := PrintAt(t.left, LeftRank(op)), PrintAt(t.right, LevelOf(op) + 2);
    HoldsAround(ts, i, a, Symbol(op), b);
    var m := i + |a|;
    PrintedAt(ts, t.left, LeftRank(op), i, depth);
    PrintedAt(ts, t.right, LevelOf(op) + 2, m + 1, depth);
    BinaryPhrase(ts, LevelOf(op), t.left, t.right, i, m, m + 1 + |b|, depth);
  }

  lemma OperatorLevel(op: Mark)
    ensures LevelOf(op) < LEVELS
  {
  }

  lemma {:induction false} PrintedConditional(ts: seq<Token>, t: Tree, i: nat, depth: nat)
    requires t.Conditional? && Grammatical(t) && Holds(ts, i, Print(t)) && depth + 1 + Nesting(t) <= MAX_DEPTH
    ensures Fits(ts, Rank(t), t, i, i + |Print(t)|, depth)
    decreases t, 0, 0
  {
    hide Primary, Holds, PrintAt, NestingAt, Phrase;
    var c, y, n := PrintAt(t.condition, 1), PrintAt(t.yes, EXPRESSION), PrintAt(t.no, EXPRESSION);
    HoldsAround(ts, i, c + [Symbol(Question)] + y, Symbol(Colon), n);
    HoldsAround(ts, i, c, Symbol(Question), y);
    var m := i + |c|;
    var k := m + 1 + |y|;
    PrintedAt(ts, t.condition, 1, i, depth + 1);
    PrintedAt(ts, t.yes, EXPRESSION, m + 1, depth + 1);
    PrintedAt(ts, t.no, EXPRESSION, k + 1, depth + 1);
    hide Expression;
    ChoiceIsExpression(ts, t.condition, t.yes, t.no, i, m, k, k + 1 + |n|, depth);
  }

  lemma {:induction false} PrintedCall(ts: seq<Token>, t: Tree, i: nat, depth: nat)
    requires t.Call? && Grammatical(t) && Holds(ts, i, Print(t)) && depth + Nesting(t) <= MAX_DEPTH
    ensures Fits(ts, Rank(t), t, i, i + |Print(t)|, depth)
    decreases t, 0, |t.arguments| + 1
  {
    var n := |t.arguments|;
    hide Holds, PrintArguments, NestingOf, Arguments, Expression, Path;
    if n == 0 {
      HoldsThree(ts, i, Identifier(t.name), Symbol(Open), Symbol(Close));
    } else {
      var middle := PrintArguments(t, n);
      HoldsCut(ts, i, [Identifier(t.name), Symbol(Open)] + middle, [Symbol(Close)]);
      HoldsCut(ts, i, [Identifier(t.name), Symbol(Open)], middle);
      HoldsTwo(ts, i, Identifier(t.name), Symbol(Open));
      HoldsOne(ts, i + 2 + |middle|, Symbol(Close));
      PrintedArguments(ts, t, n, i + 2, depth);
      assert t.arguments[..n] == t.arguments;
    }
  }

  lemma ArgumentsCut(ts: seq<Token>, t: Tree, n: nat, i: nat)
    requires t.Call? && 1 < n <= |t.arguments| && Holds(ts, i, PrintArguments(t, n))
    ensures var before := PrintArguments(t, n - 1);
            var m := i + |before|;
            && Holds(ts, i, before) && m < |ts| && ts[m] == Symbol(Comma) && Holds(ts, m + 1, Print(t.arguments[n - 1]))
            && |PrintArguments(t, n)| == |before| + 1 + |Print(t.arguments[n - 1])|
  {
    hide Holds, Print;
    HoldsAround(ts, i, PrintArguments(t, n - 1), Symbol(Comma), Print(t.arguments[n - 1]));
  }

  lemma OneArgument(ts: seq<Token>, argument: Tree, i: nat, j: nat, depth: nat)
    requires i <= j <= |ts| && Expression(ts, argument, i, j, depth)
    ensures Arguments(ts, [argument], i, j, depth)
  {
    hide Expression;
  }

  lemma FirstArgument(t: Tree)
    requires t.Call? && t.arguments != []
    ensures PrintArguments(t, 1) == Print(t.arguments[0]) && t.arguments[..1] == [t.arguments[0]]
  {
    hide Print;
  }

  lemma ArgumentOf(t: Tree, k: nat)
    requires t.Call? && k < |t.arguments| && Grammatical(t)
    ensures Grammatical(t.arguments[k]) && t.arguments[k] < t
  {
  }

  lemma {:induction false} PrintedArguments(ts: seq<Token>, t: Tree, n: nat, i: nat, depth: nat)
    requires t.Call? && 0 < n <= |t.arguments| && Grammatical(t)
    requires Holds(ts, i, PrintArguments(t, n)) && depth + NestingOf(t, n) <= MAX_DEPTH
    ensures i < i + |PrintArguments(t, n)| <= |ts|
    ensures Arguments(ts, t.arguments[..n], i, i + |PrintArguments(t, n)|, depth)
    decreases t, 0, n
  {
    hide *;
    var last := t.arguments[n - 1];
    ArgumentOf(t, n - 1);
    NestingArguments(t, n);
    if n == 1 {
      FirstArgument(t);
      PrintedArgument(ts, last, i, depth);
      OneArgument(ts, last, i, i + |Print(last)|, depth);
    } else {
      var before := PrintArguments(t, n - 1);
      ArgumentsCut(ts, t, n, i);
      PrintedArguments(ts, t, n - 1, i, depth);
      PrintedArgument(ts, last, i + |before| + 1, depth);
      MoreArguments(ts, t.arguments[..n - 1], last, i, i + |before|, i + |before| + 1 + |Print(last)|, depth);
      assert t.arguments[..n - 1] + [last] == t.arguments[..n];
    }
  }

  lemma NestingArguments(t: Tree, n: nat)
    requires t.Call? && 0 < n <= |t.arguments|
    ensures Nesting(t.arguments[n - 1]) + 1 <= NestingOf(t, n)
    ensures n > 1 ==> NestingOf(t, n - 1) <= NestingOf(t, n)
  {
    hide Nesting;
  }

  lemma MoreArguments(ts: seq<Token>, before: seq<Tree>, last: Tree, i: nat, m: nat, j: nat, depth: nat)
    requires i <= m < j <= |ts| && before != [] && ts[m] == Symbol(Comma)
    requires Arguments(ts, before, i, m, depth) && Expression(ts, last, m + 1, j, depth)
    ensures Arguments(ts, before + [last], i, j, depth)
  {
    hide Expression;
    var arguments := before + [last];
    assert arguments[..|arguments| - 1] == before;
  }

  lemma {:induction false} PrintedArgument(ts: seq<Token>, t: Tree, i: nat, depth: nat)
    requires Grammatical(t) && Holds(ts, i, Print(t)) && depth + 1 + Nesting(t) <= MAX_DEPTH
    ensures |Print(t)| > 0 && i + |Print(t)| <= |ts| && Expression(ts, t, i, i + |Print(t)|, depth)
    decreases t, 2
  {
    hide *;
    PrintNonempty(t);
    AtExpression(ts, t, i, depth);
    PrintedAt(ts, t, EXPRESSION, i, depth);
    FitsExpression(ts, t, i, i + |Print(t)|, depth);
  }

  lemma AtExpression(ts: seq<Token>, t: Tree, i: nat, depth: nat)
    requires depth + 1 + Nesting(t) <= MAX_DEPTH
    ensures EXPRESSION <= PRIMARY && PrintAt(t, EXPRESSION) == Print(t)
    ensures Inside(EXPRESSION, depth) + NestingAt(t, EXPRESSION) <= MAX_DEPTH
  {
    RankBound(t);
    hide Print, Nesting, Rank;
  }

  lemma FitsExpression(ts: seq<Token>, t: Tree, i: nat, j: nat, depth: nat)
    requires i <= j <= |ts| && EXPRESSION <= PRIMARY && Fits(ts, EXPRESSION, t, i, j, depth)
    ensures Expression(ts, t, i, j, depth)
  {
    hide Expression, Primary, Phrase;
  }

  /** A tree printed for a place fits that place. */
  lemma {:induction false} PrintedAt(ts: seq<Token>, t: Tree, place: nat, i: nat, depth: nat)
    requires place <= PRIMARY && Grammatical(t) && Holds(ts, i, PrintAt(t, place))
    requires Inside(place, depth) + NestingAt(t, place) <= MAX_DEPTH
    ensures i + |PrintAt(t, place)| <= |ts| && Fits(ts, place, t, i, i + |PrintAt(t, place)|, depth)
    decreases t, 1, place
  {
    RankBound(t);
    hide Print, Nesting, Grammatical, Expression, Primary, Phrase, Rank;
    if Rank(t) < place {
      PrintedInParentheses(ts, t, i, depth);
      hide Holds;
      Looser(ts, place, PRIMARY, t, i, i + |Print(t)| + 2, depth);
    } else if place == EXPRESSION && Rank(t) > EXPRESSION {
      PrintedFits(ts, t, i, depth + 1);
      Looser(ts, 1, Rank(t), t, i, i + |Print(t)|, depth + 1);
      AsExpression(ts, t, i, i + |Print(t)|, depth);
    } else {
      PrintedFits(ts, t, i, depth);
      if place > EXPRESSION {
        Looser(ts, place, Rank(t), t, i, i + |Print(t)|, depth);
      }
    }
  }

  lemma RankBound(t: Tree)
    ensures Rank(t) <= PRIMARY
  {
  }

  lemma {:induction false} PrintedInParentheses(ts: seq<Token>, t: Tree, i: nat, depth: nat)
    requires Grammatical(t) && Holds(ts, i, [Symbol(Open)] + Print(t) + [Symbol(Close)])
    requires depth + 1 + Nesting(t) <= MAX_DEPTH
    ensures i + |Print(t)| + 2 <= |ts| && Fits(ts, PRIMARY, t, i, i + |Print(t)| + 2, depth)
    decreases t, 1, 1, 0
  {
    PrintNonempty(t);
    hide Print, Nesting, Grammatical, Expression;
    HoldsCut(ts, i, [Symbol(Open)] + Print(t), [Symbol(Close)]);
    HoldsCut(ts, i, [Symbol(Open)], Print(t));
    HoldsOne(ts, i, Symbol(Open));
    HoldsOne(ts, i + 1 + |Print(t)|, Symbol(Close));
    PrintedAt(ts, t, EXPRESSION, i + 1, depth);
    hide Holds;
    InParentheses(ts, t, i, i + |Print(t)| + 2, depth);
  }

  // No printed token is the end mark.
  lemma {:induction false} PrintedTokens(t: Tree)
    ensures End !in Print(t)
    decreases t, 0
  {
    match t
    case Ref(r) =>
      ReferenceTokens(r);
    case Call(_, arguments) =>
      if arguments != [] {
        ArgumentTokens(t, |arguments|);
      }
    case Unary(_, x) =>
      PrintedTokens(x);
    case Binary(_, l, r) =>
      PrintedTokens(l);
      PrintedTokens(r);
    case Conditional(c, y, n) =>
      PrintedTokens(c);
      PrintedTokens(y);
      PrintedTokens(n);
    case _ =>
  }

  lemma {:induction false} ArgumentTokens(t: Tree, n: nat)
    requires t.Call? && 0 < n <= |t.arguments|
    ensures End !in PrintArguments(t, n)
    decreases t, 0, n
  {
    PrintedTokens(t.arguments[n - 1]);
    if n > 1 {
      ArgumentTokens(t, n - 1);
    }
  }

  lemma {:induction false} ReferenceTokens(r: Reference)
    ensures End !in PrintReference(r)
    decreases |r.members|, r.selector.Some?
  {
    if r.selector.Some? && r.selectorAfter == Some(|r.members|) {
      ReferenceTokens(r.(selector := None, selectorAfter := None));
    } else if r.members != [] {
      ReferenceTokens(r.(members := r.members[..|r.members| - 1]));
    }
  }

  lemma PrintedText(t: Tree)
    ensures Sealed(Print(t) + [End]) && Holds(Print(t) + [End], 0, Print(t))
  {
    PrintedTokens(t);
    hide Print;
    var ts := Print(t) + [End];
    forall k | 0 <= k < |ts| - 1
      ensures ts[k] != End
    {
      assert ts[k] in Print(t);
    }
  }

  /**
   Parsing what the precedence-aware printer prints gives the tree back: left-associative levels,
   a single comparison, one unary operator and right-nested conditionals.
   */
  lemma PrintRoundTrip(t: Tree)
    requires Grammatical(t) && Nesting(t) + 1 <= MAX_DEPTH
    ensures Sealed(Print(t) + [End]) && Parse(Print(t) + [End]) == Success(t)
  {
    hide Print, Nesting, Grammatical, Expression, Parse;
    var ts := Print(t) + [End];
    PrintedText(t);
    PrintedAt(ts, t, EXPRESSION, 0, 0);
    ParseIffSpelled(ts, t);
  }

  // ----- The printed form is the least nested one -----

  lemma {:induction false} PathSelected(ts: seq<Token>, r: Reference, i: nat, j: nat)
    requires j <= |ts| && Path(ts, r, i, j)
    ensures Selected(r)
    decreases j
  {
    if !(j == i + 1 && r == Reference(r.head, [], None, None)) {
      if r.selectorAfter == Some(|r.members|) {
      } else if i + 2 < j && ts[j - 2] == Symbol(Dot) && Path(ts, WithoutLast(r), i, j - 2) {
        PathSelected(ts, WithoutLast(r), i, j - 2);
      } else {
        PathSelected(ts, WithoutLast(r), i, j - 3);
      }
    }
  }

  /** Grammatical, and printed for the place it nests no deeper than allowed there. */
  predicate Admissible(t: Tree, place: nat, depth: nat) {
    Grammatical(t) && Inside(place, depth) + NestingAt(t, place) <= MAX_DEPTH
  }

  lemma {:induction false} SpelledAdmissible(ts: seq<Token>, t: Tree, i: nat, j: nat, depth: nat)
    requires i <= j <= |ts| && Expression(ts, t, i, j, depth)
    ensures Admissible(t, EXPRESSION, depth)
    decreases j - i, 8
  {
    hide Phrase, NestingAt;
    if Phrase(ts, 0, t, i, j, depth + 1) {
      PhraseAdmissible(ts, 0, t, i, j, depth + 1);
      PlaceMatters(t, EXPRESSION, 1);
    } else {
      var m: nat, n: nat :| i <= m < n < j && Choice(ts, t, i, m, n, j, depth);
      PhraseAdmissible(ts, 0, t.condition, i, m, depth + 1);
      SpelledAdmissible(ts, t.yes, m + 1, n, depth + 1);
      SpelledAdmissible(ts, t.no, n + 1, j, depth + 1);
      RankAdmits(t, EXPRESSION);
    }
  }

  lemma PlaceMatters(t: Tree, place: nat, tighter: nat)
    requires place <= tighter
    ensures NestingAt(t, place) <= NestingAt(t, tighter)
  {
    hide Nesting;
  }

  lemma RankAdmits(t: Tree, place: nat)
    requires place <= Rank(t)
    ensures NestingAt(t, place) == Nesting(t)
  {
    hide Nesting, Rank;
  }

  lemma OneLevel(level: nat, op: Mark)
    requires OperatorAt(level, op)
    ensures LevelOf(op) == level && level < LEVELS
  {
  }

  lemma BinaryAdmissible(t: Tree, level: nat, depth: nat)
    requires t.Binary? && OperatorAt(level, t.operator) && LevelOf(t.operator) == level
    requires Admissible(t.left, LeftRank(t.operator), depth) && Admissible(t.right, level + 2, depth)
    ensures Admissible(t, level + 1, depth)
  {
    hide OperatorAt, LevelOf, NestingAt;
    RankAdmits(t, level + 1);
  }

  lemma {:induction false} PhraseAdmissible(ts: seq<Token>, level: nat, t: Tree, i: nat, j: nat, depth: nat)
    requires i <= j <= |ts| && level <= LEVELS && depth <= MAX_DEPTH && Phrase(ts, level, t, i, j, depth)
    ensures Admissible(t, level + 1, depth)
    decreases j - i, 7 - level
  {
    hide Admissible, Operands, Primary;
    if level == LEVELS {
      OperandAdmissible(ts, t, i, j, depth);
    } else if Phrase(ts, level + 1, t, i, j, depth) {
      hide Phrase;
      PhraseAdmissible(ts, level + 1, t, i, j, depth);
      LooserAdmissible(t, level + 1, level + 2, depth);
    } else {
      var m: nat :| i <= m < j && ts[m] == Symbol(t.operator) && Operands(ts, level, t.left, t.right, i, m, j, depth);
      OperandsAdmissible(ts, level, t, i, m, j, depth);
    }
  }

  lemma LooserAdmissible(t: Tree, place: nat, tighter: nat, depth: nat)
    requires 0 < place <= tighter && Admissible(t, tighter, depth)
    ensures Admissible(t, place, depth)
  {
    hide NestingAt, Grammatical;
    PlaceMatters(t, place, tighter);
  }

  lemma {:induction false} OperandAdmissible(ts: seq<Token>, t: Tree, i: nat, j: nat, depth: nat)
    requires i <= j <= |ts| && depth <= MAX_DEPTH && Phrase(ts, LEVELS, t, i, j, depth)
    ensures Admissible(t, OPERAND, depth)
    decreases j - i, 1
  {
    hide Primary, NestingAt;
    if Primary(ts, t, i, j, depth) {
      PrimaryAdmissible(ts, t, i, j, depth);
      LooserAdmissible(t, OPERAND, PRIMARY, depth);
    } else {
      PrimaryAdmissible(ts, t.operand, i + 1, j, depth);
      RankAdmits(t, OPERAND);
    }
  }

  lemma {:induction false} OperandsAdmissible(ts: seq<Token>, level: nat, t: Tree, i: nat, m: nat, j: nat, depth: nat)
    requires i <= m < j <= |ts| && level < LEVELS && depth <= MAX_DEPTH && t.Binary? && OperatorAt(level, t.operator)
    requires Operands(ts, level, t.left, t.right, i, m, j, depth)
    ensures Admissible(t, level + 1, depth)
    decreases j - i, 6 - level, 1
  {
    OneLevel(level, t.operator);
    hide Phrase, Admissible, OperatorAt, LevelOf;
    PhraseAdmissible(ts, if level == COMPARISON then level + 1 else level, t.left, i, m, depth);
    PhraseAdmissible(ts, level + 1, t.right, m + 1, j, depth);
    BinaryAdmissible(t, level, depth);
  }

  lemma CallAdmissible(t: Tree, depth: nat)
    requires t.Call? && t.arguments != [] && !Reserved(t.name) && depth + NestingOf(t, |t.arguments|) <= MAX_DEPTH
    requires forall k :: 0 <= k < |t.arguments| ==> Grammatical(t.arguments[k])
    ensures Admissible(t, PRIMARY, depth)
  {
    assert Nesting(t) == NestingOf(t, |t.arguments|);
    assert NestingAt(t, PRIMARY) == Nesting(t);
  }

  lemma LeafAdmissible(t: Tree, depth: nat)
    requires depth <= MAX_DEPTH
    requires (t.Num? || t.Str? || t.Boolean? || t.Null? || t.Ref? || (t.Call? && t.arguments == []))
    requires t.Ref? ==> !Reserved(t.reference.head) && Selected(t.reference)
    requires t.Call? ==> !Reserved(t.name)
    ensures Admissible(t, PRIMARY, depth)
  {
    assert Nesting(t) == 0;
    assert NestingAt(t, PRIMARY) == 0;
  }

  lemma {:induction false} PrimaryAdmissible(ts: seq<Token>, t: Tree, i: nat, j: nat, depth: nat)
    requires i <= j <= |ts| && depth <= MAX_DEPTH && Primary(ts, t, i, j, depth)
    ensures Admissible(t, PRIMARY, depth)
    decreases j - i, 0
  {
    hide Expression, Arguments, Path;
    if i + 2 < j && ts[i] == Symbol(Open) && ts[j - 1] == Symbol(Close) && Expression(ts, t, i + 1, j - 1, depth) {
      SpelledAdmissible(ts, t, i + 1, j - 1, depth);
    } else if t.Ref? {
      PathSelected(ts, t.reference, i, j);
      LeafAdmissible(t, depth);
    } else if t.Call? && t.arguments != [] {
      assert t.arguments[..|t.arguments|] == t.arguments;
      ArgumentsAdmissible(ts, t, |t.arguments|, i + 2, j - 1, depth);
      CallAdmissible(t, depth);
    } else {
      LeafAdmissible(t, depth);
    }
  }

  lemma {:induction false} ArgumentsAdmissible(ts: seq<Token>, t: Tree, n: nat, i: nat, j: nat, depth: nat)
    requires i <= j <= |ts| && t.Call? && 0 < n <= |t.arguments| && Arguments(ts, t.arguments[..n], i, j, depth)
    ensures depth + NestingOf(t, n) <= MAX_DEPTH && forall k :: 0 <= k < n ==> Grammatical(t.arguments[k])
    decreases j - i, 9
  {
    hide Expression, Nesting;
    var arguments := t.arguments[..n];
    if n == 1 {
      SpelledAdmissible(ts, arguments[0], i, j, depth);
    } else {
      var m: nat :| i <= m < j && ts[m] == Symbol(Comma)
                    && Arguments(ts, arguments[..n - 1], i, m, depth)
                        && Expression(ts, arguments[n - 1], m + 1, j, depth);
      assert arguments[..n - 1] == t.arguments[..n - 1];
      hide Arguments;
      ArgumentsAdmissible(ts, t, n - 1, i, m, depth);
      SpelledAdmissible(ts, arguments[n - 1], m + 1, j, depth);
    }
  }

  /** Printing is parsed back exactly for the grammatical trees that nest within the limit. */
  lemma PrintRoundTripIff(t: Tree)
    ensures Sealed(Print(t) + [End])
    ensures Parse(Print(t) + [End]) == Success(t) <==> Grammatical(t) && Nesting(t) + 1 <= MAX_DEPTH
  {
    hide Print, Nesting, Grammatical, Expression, Parse;
    var ts := Print(t) + [End];
    PrintedText(t);
    ParseIffSpelled(ts, t);
    if Parse(ts) == Success(t) {
      SpelledAdmissible(ts, t, 0, |ts| - 1, 0);
    } else if Grammatical(t) && Nesting(t) + 1 <= MAX_DEPTH {
      PrintRoundTrip(t);
    }
  }

  /** Whatever was parsed prints to a text that parses to the same tree. */
  lemma ReprintParses(ts: seq<Token>, t: Tree)
    requires Sealed(ts) && Parse(ts) == Success(t)
    ensures Sealed(Print(t) + [End]) && Parse(Print(t) + [End]) == Success(t)
  {
    hide Print, Nesting, Grammatical, Expression, Parse;
    ParseIffSpelled(ts, t);
    SpelledAdmissible(ts, t, 0, |ts| - 1, 0);
    PrintRoundTripIff(t);
  }

  // ----- The parser as it runs -----

  /** A run of the parser did what the grammar function says: the value and where it stopped. */
  predicate Agrees<T(==)>(r: Result<T, ParseError>, index: nat, expected: Result<(T, nat), ParseError>) {
    match expected
    case Success(pair) => r == Success(pair.0) && index == pair.1
    case Failure(error) => r == Failure(error)
  }

  class Parser {
    const tokens: seq<Token>
    var index: nat
    var depth: nat

    ghost predicate Valid()
      reads this
    {
      Ended(tokens) && index < |tokens|
    }

    constructor (tokens: seq<Token>)
      requires Ended(tokens)
      ensures Valid() && this.tokens == tokens && index == 0 && depth == 0
    {
      this.tokens, index, depth := tokens, 0, 0;
    }

    method Accept(mark: Mark) returns (accepted: bool)
      requires Valid()
      modifies `index
      ensures Valid() && accepted == At(tokens, old(index), mark)
      ensures index == if accepted then old(index) + 1 else old(index)
    {
      accepted := tokens[index] == Symbol(mark);
      if accepted {
        index := index + 1;
      }
    }

    method ParseWhole() returns (r: Result<Tree, ParseError>)
      requires Valid()
      modifies this
      ensures depth == old(depth)
      ensures Agrees(r, index, ParseExpression(tokens, old(index), old(depth)))
      decreases |tokens| - index, 8
    {
      hide ParseLevel;
      depth := depth + 1;
      if depth > MAX_DEPTH {
        depth := depth - 1;
        return Failure(Limit);
      }
      r := BinaryAt(0);
      if r.Success? {
        var value := r.value;
        var asked := Accept(Question);
        if asked {
          r := ParseWhole();
          if r.Success? {
            var yes := r.value;
            var parted := Accept(Colon);
            if parted {
              r := ParseWhole();
              if r.Success? {
                r := Success(Conditional(value, yes, r.value));
              }
            } else {
              r := Failure(Malformed);
            }
          }
        }
      }
      depth := depth - 1;
    }

    method BinaryAt(level: nat) returns (r: Result<Tree, ParseError>)
      requires Valid() && level <= LEVELS
      modifies this
      ensures depth == old(depth)
      ensures Agrees(r, index, ParseLevel(tokens, level, old(index), old(depth)))
      decreases |tokens| - index, 7 - level
    {
      hide ParsePrimary, ParseRest;
      if level == LEVELS {
        if tokens[index].Symbol? && UnaryOperator(tokens[index].mark) {
          var op := tokens[index].mark;
          index := index + 1;
          r := PrimaryHere();
          if r.Success? {
            r := Success(Unary(op, r.value));
          }
        } else {
          r := PrimaryHere();
        }
      } else {
        r := BinaryAt(level + 1);
        if r.Success? {
          r := Operators(level, r.value);
        }
      }
    }

    /** The loop of a binary level. */
    method Operators(level: nat, first: Tree) returns (r: Result<Tree, ParseError>)
      requires Valid() && level < LEVELS
      modifies this
      ensures depth == old(depth)
      ensures Agrees(r, index, ParseRest(tokens, level, first, old(index), old(depth)))
      decreases |tokens| - index, 7 - level
    {
      hide ParseLevel;
      var value := first;
      while IsOperator(tokens[index], level)
        invariant Valid() && index >= old(index) && depth == old(depth)
        invariant ParseRest(tokens, level, first, old(index), depth) == ParseRest(tokens, level, value, index, depth)
        decreases |tokens| - index
      {
        var op := tokens[index].mark;
        index := index + 1;
        var right := BinaryAt(level + 1);
        if right.Failure? {
          return right;
        }
        value := Binary(op, value, right.value);
        if level == COMPARISON {
          return Success(value);
        }
      }
      return Success(value);
    }

    method PrimaryHere() returns (r: Result<Tree, ParseError>)
      requires Valid()
      modifies this
      ensures depth == old(depth)
      ensures Agrees(r, index, ParsePrimary(tokens, old(index), old(depth)))
      decreases |tokens| - index, 0
    {
      hide ParseExpression, ParseNamed;
      var entered := Accept(Open);
      if entered {
        r := ParseWhole();
        if r.Success? {
          var closed := Accept(Close);
          r := if closed then r else Failure(Malformed);
        }
        return;
      }
      match tokens[index]
      case Numeral(text) =>
        index := index + 1;
        r := Success(Num(text));
      case Quoted(text) =>
        index := index + 1;
        r := Success(Str(text));
      case Identifier(name) =>
        index := index + 1;
        r := Named(name);
      case _ =>
        r := Failure(Malformed);
    }

    method Named(name: string) returns (r: Result<Tree, ParseError>)
      requires Valid()
      modifies this
      ensures depth == old(depth)
      ensures Agrees(r, index, ParseNamed(tokens, name, old(index), old(depth)))
      decreases |tokens| - index, 10
    {
      hide ParseArguments, ParsePath;
      if name == "true" || name == "false" {
        return Success(Boolean(name == "true"));
      }
      if name == "null" {
        return Success(Null);
      }
      var called := Accept(Open);
      if called {
        var none := Accept(Close);
        if none {
          return Success(Call(name, []));
        }
        var arguments := ArgumentList();
        r := if arguments.Success? then Success(Call(name, arguments.value)) else Failure(arguments.error);
      } else {
        var reference := PathAfter(name);
        r := if reference.Success? then Success(Ref(reference.value)) else Failure(reference.error);
      }
    }

    method ArgumentList() returns (r: Result<seq<Tree>, ParseError>)
      requires Valid()
      modifies this
      ensures depth == old(depth)
      ensures Agrees(r, index, ParseArguments(tokens, old(index), [], old(depth)))
      decreases |tokens| - index, 9
    {
      hide ParseExpression;
      var arguments := [];
      while true
        invariant Valid() && index >= old(index) && depth == old(depth)
        invariant ParseArguments(tokens, old(index), [], depth) == ParseArguments(tokens, index, arguments, depth)
        decreases |tokens| - index
      {
        var argument := ParseWhole();
        if argument.Failure? {
          return Failure(argument.error);
        }
        arguments := arguments + [argument.value];
        var closed := Accept(Close);
        if closed {
          return Success(arguments);
        }
        var more := Accept(Comma);
        if !more {
          return Failure(Malformed);
        }
      }
    }

    method PathAfter(head: string) returns (r: Result<Reference, ParseError>)
      requires Valid()
      modifies this
      ensures depth == old(depth)
      ensures Agrees(r, index, ParsePath(tokens, Reference(head, [], None, None), old(index)))
    {
      var members, selector, selectorAfter: Option<nat> := [], None, None;
      while tokens[index] == Symbol(Dot) || tokens[index] == Symbol(OpenBracket) || tokens[index] == Symbol(AtSign)
        invariant Valid() && depth == old(depth)
        invariant ParsePath(tokens, Reference(head, [], None, None), old(index))
                  == ParsePath(tokens, Reference(head, members, selector, selectorAfter), index)
        decreases |tokens| - index
      {
        var dotted := Accept(Dot);
        if dotted {
          if !tokens[index].Identifier? {
            return Failure(Malformed);
          }
          members := members + [tokens[index].text];
          index := index + 1;
        } else {
          var bracketed := Accept(OpenBracket);
          if bracketed {
            if !tokens[index].Quoted? {
              return Failure(Malformed);
            }
            members := members + [tokens[index].text];
            index := index + 1;
            var closed := Accept(CloseBracket);
            if !closed {
              return Failure(Malformed);
            }
          } else {
            index := index + 1;
            if members == [] || selector.Some? || !tokens[index].Period? {
              return Failure(Malformed);
            }
            selector, selectorAfter := Some(tokens[index].text), Some(|members|);
            index := index + 1;
          }
        }
      }
      return Success(Reference(head, members, selector, selectorAfter));
    }
  }

  /** Parsing a lexed text: accepted exactly when it spells an expression. */
  method ParseText(tokens: seq<Token>) returns (r: Result<Tree, ParseError>)
    requires Sealed(tokens)
    ensures r == Parse(tokens)
  {
    hide ParseExpression;
    var parser := new Parser(tokens);
    r := parser.ParseWhole();
    if r.Success? && parser.tokens[parser.index] != End {
      r := Failure(Malformed);
    }
  }

  // ----- The reference inventory -----

  /** All references of a tree, left to right. */
  function References(t: Tree): seq<Reference>
    decreases t, 0
  {
    match t
    case Ref(r) => [r]
    case Unary(_, x) => References(x)
    case Binary(_, l, r) => References(l) + References(r)
    case Conditional(c, y, n) => References(c) + References(y) + References(n)
    case Call(_, arguments) => ArgumentReferences(t, |arguments|)
    case _ => []
  }

  function ArgumentReferences(t: Tree, n: nat): seq<Reference>
    requires t.Call? && n <= |t.arguments|
    decreases t, 0, n
  {
    if n == 0 then [] else ArgumentReferences(t, n - 1) + References(t.arguments[n - 1])
  }

  /** The references of a stack, top (last) first. */
  function Pending(stack: seq<Tree>): seq<Reference> {
    if stack == [] then [] else References(stack[|stack| - 1]) + Pending(stack[..|stack| - 1])
  }

  function Size(t: Tree): nat
    decreases t, 0
  {
    match t
    case Unary(_, x) => Size(x) + 1
    case Binary(_, l, r) => Size(l) + Size(r) + 1
    case Conditional(c, y, n) => Size(c) + Size(y) + Size(n) + 1
    case Call(_, arguments) => ArgumentSize(t, |arguments|) + 1
    case _ => 1
  }

  function ArgumentSize(t: Tree, n: nat): nat
    requires t.Call? && n <= |t.arguments|
    decreases t, 0, n
  {
    if n == 0 then 0 else ArgumentSize(t, n - 1) + Size(t.arguments[n - 1])
  }

  function StackSize(stack: seq<Tree>): nat {
    if stack == [] then 0 else Size(stack[|stack| - 1]) + StackSize(stack[..|stack| - 1])
  }

  function Reversed(s: seq<Tree>): (r: seq<Tree>)
    ensures |r| == |s|
  {
    if s == [] then [] else [s[|s| - 1]] + Reversed(s[..|s| - 1])
  }

  lemma PushOne(stack: seq<Tree>, t: Tree)
    ensures Pending(stack + [t]) == References(t) + Pending(stack)
    ensures StackSize(stack + [t]) == Size(t) + StackSize(stack)
  {
    assert (stack + [t])[..|stack|] == stack;
  }

  /** Arguments pushed last first come off the stack in order. */
  lemma {:induction false} PushArguments(stack: seq<Tree>, t: Tree, n: nat)
    requires t.Call? && n <= |t.arguments|
    ensures Pending(stack + Reversed(t.arguments[..n])) == ArgumentReferences(t, n) + Pending(stack)
    ensures StackSize(stack + Reversed(t.arguments[..n])) == ArgumentSize(t, n) + StackSize(stack)
    decreases n
  {
    if n == 0 {
      assert stack + Reversed(t.arguments[..0]) == stack;
    } else {
      var last := t.arguments[n - 1];
      assert t.arguments[..n][..n - 1] == t.arguments[..n - 1];
      assert stack + Reversed(t.arguments[..n]) == (stack + [last]) + Reversed(t.arguments[..n - 1]);
      PushOne(stack, last);
      PushArguments(stack + [last], t, n - 1);
    }
  }

  /** What a node leaves on the stack below it, in pushing order. */
  function Pushed(t: Tree): seq<Tree> {
    match t
    case Unary(_, x) => [x]
    case Binary(_, l, r) => [r, l]
    case Conditional(c, y, n) => [n, y, c]
    case Call(_, arguments) => Reversed(arguments)
    case _ => []
  }

  lemma PushTwo(stack: seq<Tree>, t: Tree, u: Tree)
    ensures Pending(stack + [t, u]) == References(u) + (References(t) + Pending(stack))
    ensures StackSize(stack + [t, u]) == Size(u) + Size(t) + StackSize(stack)
  {
    hide *;
    assert stack + [t, u] == (stack + [t]) + [u];
    PushOne(stack, t);
    PushOne(stack + [t], u);
  }

  lemma PushThree(stack: seq<Tree>, t: Tree, u: Tree, v: Tree)
    ensures Pending(stack + [t, u, v]) == References(v) + (References(u) + (References(t) + Pending(stack)))
    ensures StackSize(stack + [t, u, v]) == Size(v) + Size(u) + Size(t) + StackSize(stack)
  {
    hide *;
    assert stack + [t, u, v] == (stack + [t]) + [u, v];
    PushOne(stack, t);
    PushTwo(stack + [t], u, v);
  }

  /** Taking a node and pushing its parts keeps what is listed and shrinks the stack. */
  lemma Expanded(rest: seq<Tree>, node: Tree)
    ensures (if node.Ref? then [node.reference] else []) + Pending(rest + Pushed(node))
            == References(node) + Pending(rest)
    ensures StackSize(rest + Pushed(node)) < Size(node) + StackSize(rest)
  {
    hide Pending, StackSize, Reversed;
    match node
    case Unary(_, x) =>
      PushOne(rest, x);
    case Binary(_, l, r) =>
      PushTwo(rest, r, l);
    case Conditional(c, y, n) =>
      PushThree(rest, n, y, c);
    case Call(_, arguments) =>
      assert arguments[..|arguments|] == arguments;
      PushArguments(rest, node, |arguments|);
    case _ =>
      assert rest + [] == rest;
  }

  /** The explicit stack lists the references in reading order, duplicates kept. */
  method ExpressionReferences(tree: Tree) returns (references: seq<Reference>)
    ensures references == References(tree)
  {
    hide Pending, StackSize, References, Size, Reversed;
    references := [];
    var pending := [tree];
    EmptyStack();
    PushOne([], tree);
    assert [] + [tree] == pending;
    while pending != []
      invariant references + Pending(pending) == References(tree)
      decreases StackSize(pending)
    {
      var node := pending[|pending| - 1];
      ghost var before := references;
      var rest := pending[..|pending| - 1];
      assert pending == rest + [node];
      PushOne(rest, node);
      Expanded(rest, node);
      match node {
        case Ref(r) =>
          references := references + [r];
          pending := rest;
        case Unary(_, x) =>
          pending := rest + [x];
        case Binary(_, l, r) =>
          pending := rest + [r, l];
        case Conditional(c, y, n) =>
          pending := rest + [n, y, c];
        case Call(_, arguments) =>
          pending := rest + Reversed(arguments);
        case _ =>
          pending := rest;
      }
      assert pending == rest + Pushed(node);
    }
  }

  lemma EmptyStack()
    ensures Pending([]) == []
  {
  }
}
