/**
 What the expression parser does with concrete spellings: the binding strength of every operator,
 written out as a table of its own, associativity, unary operators, conditionals, the reserved
 words, and the nesting limit.
 */
module Precedence {
  import opened Common
  import opened Expressions

  /** From the weakest operators to the strongest; marks that are no binary operator have none. */
  function Strength(op: Mark): nat {
    match op
    case OrOr => 1
    case AndAnd => 2
    case Equal => 3
    case NotEqual => 3
    case AtMost => 3
    case AtLeast => 3
    case Below => 3
    case Above => 3
    case Plus => 4
    case Minus => 4
    case Star => 5
    case Slash => 5
    case Percent => 5
    case _ => 0
  }

  lemma StrengthIsLevel(op: Mark, level: nat)
    ensures OperatorAt(level, op) <==> Strength(op) == level + 1
  {
  }

  /** A plain reference. */
  function Named(name: string): Tree {
    Ref(Reference(name, [], None, None))
  }

  // ----- An operand at every level -----

  /** The token ends an operand for all levels from this one on. */
  predicate Ends(t: Token, level: nat) {
    !Postfix(t) && (t.Symbol? ==> Strength(t.mark) <= level)
  }

  lemma {:induction false} OperandAtLevel(ts: seq<Token>, level: nat, i: nat, depth: nat, v: Tree, j: nat)
    requires Ended(ts) && i < |ts| && level <= LEVELS
    requires ParseLevel(ts, LEVELS, i, depth) == Success((v, j)) && j < |ts| && Ends(ts[j], level)
    ensures ParseLevel(ts, level, i, depth) == Success((v, j))
    decreases LEVELS - level
  {
    hide ParsePrimary;
    if level < LEVELS {
      OperandAtLevel(ts, level + 1, i, depth, v, j);
      NotOperator(ts[j], level);
    }
  }

  lemma PrimaryAtLevel(ts: seq<Token>, level: nat, i: nat, depth: nat, v: Tree, j: nat)
    requires Ended(ts) && i < |ts| && level <= LEVELS && !(ts[i].Symbol? && UnaryOperator(ts[i].mark))
    requires ParsePrimary(ts, i, depth) == Success((v, j)) && j < |ts| && Ends(ts[j], level)
    ensures ParseLevel(ts, level, i, depth) == Success((v, j))
  {
    PrimaryIsOperand(ts, i, depth);
    hide ParsePrimary, ParseLevel;
    OperandAtLevel(ts, level, i, depth, v, j);
  }

  lemma PrimaryIsOperand(ts: seq<Token>, i: nat, depth: nat)
    requires Ended(ts) && i < |ts| && !(ts[i].Symbol? && UnaryOperator(ts[i].mark))
    ensures ParseLevel(ts, LEVELS, i, depth) == ParsePrimary(ts, i, depth)
  {
    hide ParsePrimary;
  }

  lemma NotOperator(t: Token, level: nat)
    requires t.Symbol? ==> Strength(t.mark) <= level
    ensures !IsOperator(t, level)
  {
    if t.Symbol? {
      StrengthIsLevel(t.mark, level);
    }
  }

  lemma NameIsPrimary(ts: seq<Token>, i: nat, depth: nat, name: string)
    requires Ended(ts) && i + 1 < |ts| && ts[i] == Identifier(name) && !Reserved(name) && !Postfix(ts[i + 1])
    ensures ParsePrimary(ts, i, depth) == Success((Named(name), i + 1))
  {
  }

  lemma NameAtLevel(ts: seq<Token>, level: nat, i: nat, depth: nat, name: string)
    requires Ended(ts) && i + 1 < |ts| && ts[i] == Identifier(name) && !Reserved(name) && level <= LEVELS
    requires Ends(ts[i + 1], level)
    ensures ParseLevel(ts, level, i, depth) == Success((Named(name), i + 1))
  {
    NameIsPrimary(ts, i, depth, name);
    hide ParsePrimary, ParseLevel;
    PrimaryAtLevel(ts, level, i, depth, Named(name), i + 1);
  }

  // ----- Two operators -----

  /** a p b q c. */
  function TwoTokens(a: string, p: Mark, b: string, q: Mark, c: string): seq<Token> {
    [Identifier(a), Symbol(p), Identifier(b), Symbol(q), Identifier(c), End]
  }

  predicate Infix(op: Mark) {
    Strength(op) > 0
  }

  lemma InfixEnds(op: Mark, level: nat)
    requires Infix(op) && Strength(op) <= level
    ensures Ends(Symbol(op), level) && op != Question && op != Colon
  {
  }

  /** The operand b, or b q c, that starts at 2, as seen from a level. */
  lemma {:induction false} RightPart(a: string, p: Mark, b: string, q: Mark, c: string, level: nat, depth: nat)
    requires Infix(q) && level <= LEVELS && !Reserved(b) && !Reserved(c)
    ensures ParseLevel(TwoTokens(a, p, b, q, c), level, 2, depth)
         == if level < Strength(q) then Success((Binary(q, Named(b), Named(c)), 5)) else Success((Named(b), 3))
    decreases LEVELS - level
  {
    var ts := TwoTokens(a, p, b, q, c);
    hide Reserved, ParsePrimary;
    if level >= Strength(q) {
      InfixEnds(q, level);
      NameAtLevel(ts, level, 2, depth, b);
    } else {
      RightPart(a, p, b, q, c, level + 1, depth);
      StrengthIsLevel(q, level);
      LevelBelow(q, level);
      if Strength(q) == level + 1 {
        NameAtLevel(ts, level + 1, 4, depth, c);
        RestOne(ts, level, Named(b), 3, depth, Named(c), 5);
      } else {
        RestStops(ts, level, Binary(q, Named(b), Named(c)), 5, depth);
      }
    }
  }

  lemma LevelBelow(op: Mark, level: nat)
    requires level < Strength(op)
    ensures level < LEVELS
  {
  }

  lemma RestStops(ts: seq<Token>, level: nat, v: Tree, i: nat, depth: nat)
    requires Ended(ts) && i < |ts| && level < LEVELS && !IsOperator(ts[i], level)
    ensures ParseRest(ts, level, v, i, depth) == Success((v, i))
  {
  }

  /** One operator and one operand, and then no operator of the level. */
  lemma RestOne(ts: seq<Token>, level: nat, v: Tree, i: nat, depth: nat, right: Tree, j: nat)
    requires Ended(ts) && i + 1 < |ts| && level < LEVELS && IsOperator(ts[i], level)
    requires ParseLevel(ts, level + 1, i + 1, depth) == Success((right, j)) && i + 1 < j < |ts|
    requires level == COMPARISON || !IsOperator(ts[j], level)
    ensures ParseRest(ts, level, v, i, depth) == Success((Binary(ts[i].mark, v, right), j))
  {
    hide ParseLevel;
    if level != COMPARISON {
      RestStops(ts, level, Binary(ts[i].mark, v, right), j, depth);
    }
  }

  /** One operator and one operand of a level that goes on with another operator. */
  lemma RestTwo(ts: seq<Token>, level: nat, v: Tree, i: nat, depth: nat, right: Tree, j: nat)
    requires Ended(ts) && i + 1 < |ts| && level < LEVELS && IsOperator(ts[i], level) && level != COMPARISON
    requires ParseLevel(ts, level + 1, i + 1, depth) == Success((right, j)) && i + 1 < j < |ts|
    ensures ParseRest(ts, level, v, i, depth) == ParseRest(ts, level, Binary(ts[i].mark, v, right), j, depth)
  {
    hide ParseLevel, IsOperator;
  }

  /** What a level makes of a p b q c. */
  function Shape(a: string, p: Mark, b: string, q: Mark, c: string, level: nat): (Tree, nat) {
    if level >= Strength(p) && (level >= Strength(q) || Strength(q) >= Strength(p)) then (Named(a), 1)
    else if Strength(q) > Strength(p) then (Binary(p, Named(a), Binary(q, Named(b), Named(c))), 5)
    else if level < Strength(q) && !(Strength(p) == Strength(q) == 3) then
      (Binary(q, Binary(p, Named(a), Named(b)), Named(c)), 5)
    else (Binary(p, Named(a), Named(b)), 3)
  }

  lemma {:induction false} WholePart(a: string, p: Mark, b: string, q: Mark, c: string, level: nat, depth: nat)
    requires Infix(p) && Infix(q) && level <= LEVELS && !Reserved(a) && !Reserved(b) && !Reserved(c)
    ensures ParseLevel(TwoTokens(a, p, b, q, c), level, 0, depth) == Success(Shape(a, p, b, q, c, level))
    decreases LEVELS - level
  {
    var ts := TwoTokens(a, p, b, q, c);
    hide Reserved, ParsePrimary;
    if level >= Strength(p) {
      InfixEnds(p, level);
      NameAtLevel(ts, level, 0, depth, a);
    } else {
      LevelBelow(p, level);
      WholePart(a, p, b, q, c, level + 1, depth);
      LevelUp(ts, level, 0, depth, Shape(a, p, b, q, c, level + 1));
      StepUp(a, p, b, q, c, level, depth);
    }
  }

  lemma LevelUp(ts: seq<Token>, level: nat, i: nat, depth: nat, v: (Tree, nat))
    requires Ended(ts) && i < |ts| && level < LEVELS
    requires ParseLevel(ts, level + 1, i, depth) == Success(v)
    ensures v.1 < |ts| && ParseLevel(ts, level, i, depth) == ParseRest(ts, level, v.0, v.1, depth)
  {
    hide ParseRest;
  }

  lemma StepUp(a: string, p: Mark, b: string, q: Mark, c: string, level: nat, depth: nat)
    requires Infix(p) && Infix(q) && level < Strength(p) && level < LEVELS
    requires !Reserved(a) && !Reserved(b) && !Reserved(c)
    ensures var v := Shape(a, p, b, q, c, level + 1);
            && v.1 < 6
            && ParseRest(TwoTokens(a, p, b, q, c), level, v.0, v.1, depth) == Success(Shape(a, p, b, q, c, level))
  {
    hide *;
    if Strength(p) == level + 1 {
      if Strength(q) == level + 1 {
        BothHere(a, p, b, q, c, level, depth);
      } else {
        FirstHere(a, p, b, q, c, level, depth);
      }
    } else if Strength(q) == level + 1 {
      SecondHere(a, p, b, q, c, level, depth);
    } else {
      NeitherHere(a, p, b, q, c, level, depth);
    }
  }

  lemma BothHere(a: string, p: Mark, b: string, q: Mark, c: string, level: nat, depth: nat)
    requires Strength(p) == Strength(q) == level + 1 && level < LEVELS && !Reserved(b) && !Reserved(c)
    ensures Shape(a, p, b, q, c, level + 1) == (Named(a), 1)
    ensures ParseRest(TwoTokens(a, p, b, q, c), level, Named(a), 1, depth) == Success(Shape(a, p, b, q, c, level))
  {
    var ts := TwoTokens(a, p, b, q, c);
    StrengthIsLevel(p, level);
    StrengthIsLevel(q, level);
    hide Reserved, ParsePrimary, ParseLevel, ParseRest, Strength, OperatorAt;
    RightPart(a, p, b, q, c, level + 1, depth);
    if level == COMPARISON {
      RestOne(ts, level, Named(a), 1, depth, Named(b), 3);
    } else {
      RestTwo(ts, level, Named(a), 1, depth, Named(b), 3);
      NameAtLevel(ts, level + 1, 4, depth, c);
      RestOne(ts, level, Binary(p, Named(a), Named(b)), 3, depth, Named(c), 5);
    }
  }

  lemma FirstHere(a: string, p: Mark, b: string, q: Mark, c: string, level: nat, depth: nat)
    requires Strength(p) == level + 1 != Strength(q) && Infix(q) && level < LEVELS && !Reserved(b) && !Reserved(c)
    ensures Shape(a, p, b, q, c, level + 1) == (Named(a), 1)
    ensures ParseRest(TwoTokens(a, p, b, q, c), level, Named(a), 1, depth) == Success(Shape(a, p, b, q, c, level))
  {
    var ts := TwoTokens(a, p, b, q, c);
    StrengthIsLevel(p, level);
    StrengthIsLevel(q, level);
    hide Reserved, ParsePrimary, ParseLevel, ParseRest, Strength, OperatorAt;
    RightPart(a, p, b, q, c, level + 1, depth);
    if Strength(q) > level + 1 {
      RestOne(ts, level, Named(a), 1, depth, Binary(q, Named(b), Named(c)), 5);
    } else {
      RestOne(ts, level, Named(a), 1, depth, Named(b), 3);
    }
  }

  lemma SecondHere(a: string, p: Mark, b: string, q: Mark, c: string, level: nat, depth: nat)
    requires Strength(q) == level + 1 < Strength(p) && level < LEVELS && !Reserved(c)
    ensures Shape(a, p, b, q, c, level + 1) == (Binary(p, Named(a), Named(b)), 3)
    ensures ParseRest(TwoTokens(a, p, b, q, c), level, Binary(p, Named(a), Named(b)), 3, depth)
         == Success(Shape(a, p, b, q, c, level))
  {
    var ts := TwoTokens(a, p, b, q, c);
    StrengthIsLevel(q, level);
    hide Reserved, ParsePrimary, ParseLevel, ParseRest, Strength, OperatorAt;
    NameAtLevel(ts, level + 1, 4, depth, c);
    RestOne(ts, level, Binary(p, Named(a), Named(b)), 3, depth, Named(c), 5);
  }

  lemma NeitherHere(a: string, p: Mark, b: string, q: Mark, c: string, level: nat, depth: nat)
    requires Infix(q) && level + 1 < Strength(p) && level + 1 != Strength(q) && level < LEVELS
    ensures var v := Shape(a, p, b, q, c, level + 1);
            && v == Shape(a, p, b, q, c, level) && v.1 < 6
            && ParseRest(TwoTokens(a, p, b, q, c), level, v.0, v.1, depth) == Success(v)
  {
    var v := Shape(a, p, b, q, c, level + 1);
    StrengthIsLevel(q, level);
    hide Reserved, ParsePrimary, ParseLevel, ParseRest, Strength, OperatorAt;
    RestStops(TwoTokens(a, p, b, q, c), level, v.0, v.1, depth);
  }

  /**
   The stronger operator binds first, operators of one strength bind to the left, and comparisons
   do not chain.
   */
  lemma TwoOperators(a: string, p: Mark, b: string, q: Mark, c: string)
    requires Infix(p) && Infix(q) && !Reserved(a) && !Reserved(b) && !Reserved(c)
    ensures Sealed(TwoTokens(a, p, b, q, c))
    ensures Parse(TwoTokens(a, p, b, q, c))
         == if Strength(p) == Strength(q) == 3 then Failure(Malformed)
            else if Strength(p) < Strength(q) then Success(Binary(p, Named(a), Binary(q, Named(b), Named(c))))
            else Success(Binary(q, Binary(p, Named(a), Named(b)), Named(c)))
  {
    var ts := TwoTokens(a, p, b, q, c);
    WholePart(a, p, b, q, c, 0, 1);
    InfixEnds(p, 5);
    InfixEnds(q, 5);
    var v := Shape(a, p, b, q, c, 0);
    hide Reserved, ParseLevel, Strength;
    WholeExpression(ts, v);
  }

  lemma WholeExpression(ts: seq<Token>, v: (Tree, nat))
    requires Sealed(ts) && ParseLevel(ts, 0, 0, 1) == Success(v) && v.1 < |ts| && ts[v.1] != Symbol(Question)
    ensures Parse(ts) == if v.1 == |ts| - 1 then Success(v.0) else Failure(Malformed)
  {
    hide ParseLevel;
  }

  // ----- Unary operators -----

  /** One operand, an operator and what it takes to its right, and then no operator. */
  lemma {:induction false} OneBinary(ts: seq<Token>, level: nat, i: nat, depth: nat, v: Tree, j: nat, op: Mark, w: Tree,
      k: nat)
    requires Ended(ts) && i < |ts| && Infix(op) && level < Strength(op)
    requires ParseLevel(ts, LEVELS, i, depth) == Success((v, j)) && j + 1 < |ts| && ts[j] == Symbol(op)
    requires ParseLevel(ts, Strength(op), j + 1, depth) == Success((w, k)) && j + 1 < k < |ts| && Ends(ts[k], 0)
    ensures ParseLevel(ts, level, i, depth) == Success((Binary(op, v, w), k))
    decreases LEVELS - level
  {
    LevelBelow(op, level);
    StrengthIsLevel(op, level);
    NotOperator(ts[k], level);
    hide ParsePrimary, ParseLevel, Strength;
    if level + 1 == Strength(op) {
      AtItsLevel(op, level + 1);
      OperandAtLevel(ts, level + 1, i, depth, v, j);
      LevelUp(ts, level, i, depth, (v, j));
      RestOne(ts, level, v, j, depth, w, k);
    } else {
      OneBinary(ts, level + 1, i, depth, v, j, op, w, k);
      LevelUp(ts, level, i, depth, (Binary(op, v, w), k));
      RestStops(ts, level, Binary(op, v, w), k, depth);
    }
  }

  lemma AtItsLevel(op: Mark, level: nat)
    requires Strength(op) == level > 0
    ensures level <= LEVELS && Ends(Symbol(op), level)
  {
  }

  lemma SignedName(ts: seq<Token>, i: nat, depth: nat, op: Mark, name: string)
    requires Ended(ts) && i + 2 < |ts| && UnaryOperator(op) && !Reserved(name) && !Postfix(ts[i + 2])
    requires ts[i] == Symbol(op) && ts[i + 1] == Identifier(name)
    ensures ParseLevel(ts, LEVELS, i, depth) == Success((Unary(op, Named(name)), i + 2))
  {
    NameIsPrimary(ts, i + 1, depth, name);
    hide ParsePrimary, Reserved;
  }

  /** A unary operator takes the operand beside it, before any binary operator does. */
  lemma UnaryFirst(op: Mark, a: string, q: Mark, b: string)
    requires op in {Minus, Bang} && Infix(q) && !Reserved(a) && !Reserved(b)
    ensures var ts := [Symbol(op), Identifier(a), Symbol(q), Identifier(b), End];
            Sealed(ts) && Parse(ts) == Success(Binary(q, Unary(op, Named(a)), Named(b)))
  {
    var ts := [Symbol(op), Identifier(a), Symbol(q), Identifier(b), End];
    InfixEnds(q, Strength(q));
    AtItsLevel(q, Strength(q));
    SignedName(ts, 0, 1, op, a);
    NameAtLevel(ts, Strength(q), 3, 1, b);
    OneBinary(ts, 0, 0, 1, Unary(op, Named(a)), 2, q, Named(b), 4);
    hide Reserved, ParseLevel, Strength;
    WholeExpression(ts, (Binary(q, Unary(op, Named(a)), Named(b)), 4));
  }

  /** A second unary operator in a row is refused. */
  lemma OneUnary(op: Mark, again: Mark, a: string)
    requires op in {Minus, Bang} && again in {Minus, Bang}
    ensures var ts := [Symbol(op), Symbol(again), Identifier(a), End];
            Sealed(ts) && Parse(ts) == Failure(Malformed)
  {
    var ts := [Symbol(op), Symbol(again), Identifier(a), End];
    assert ParsePrimary(ts, 1, 1) == Failure(Malformed);
    assert ParseLevel(ts, LEVELS, 0, 1) == Failure(Malformed);
    hide ParsePrimary, ParseLevel;
    LevelFails(ts, 0, 0, 1, Malformed);
    ExpressionFails(ts, 0, 0, Malformed);
  }

  lemma {:induction false} LevelFails(ts: seq<Token>, level: nat, i: nat, depth: nat, e: ParseError)
    requires Ended(ts) && i < |ts| && level <= LEVELS && ParseLevel(ts, LEVELS, i, depth) == Failure(e)
    ensures ParseLevel(ts, level, i, depth) == Failure(e)
    decreases LEVELS - level
  {
    hide ParsePrimary;
    if level < LEVELS {
      LevelFails(ts, level + 1, i, depth, e);
    }
  }

  lemma ExpressionFails(ts: seq<Token>, i: nat, depth: nat, e: ParseError)
    requires Ended(ts) && i < |ts| && depth < MAX_DEPTH && ParseLevel(ts, 0, i, depth + 1) == Failure(e)
    ensures ParseExpression(ts, i, depth) == Failure(e)
  {
    hide ParseLevel;
  }

  // ----- Conditionals -----

  lemma NameExpression(ts: seq<Token>, i: nat, depth: nat, name: string)
    requires Ended(ts) && i + 1 < |ts| && ts[i] == Identifier(name) && !Reserved(name) && depth < MAX_DEPTH
    requires Ends(ts[i + 1], 0) && ts[i + 1] != Symbol(Question)
    ensures ParseExpression(ts, i, depth) == Success((Named(name), i + 1))
  {
    NameAtLevel(ts, 0, i, depth + 1, name);
    hide ParseLevel, Reserved, Strength;
  }

  lemma ConditionalOf(ts: seq<Token>, i: nat, depth: nat, c: Tree, j: nat, y: Tree, k: nat, n: Tree, l: nat)
    requires Ended(ts) && i < |ts| && depth < MAX_DEPTH && ParseLevel(ts, 0, i, depth + 1) == Success((c, j))
    requires i < j && j + 1 < |ts| && ts[j] == Symbol(Question)
    requires ParseExpression(ts, j + 1, depth + 1) == Success((y, k))
    requires j + 1 < k && k + 1 < |ts| && ts[k] == Symbol(Colon)
    requires ParseExpression(ts, k + 1, depth + 1) == Success((n, l))
    ensures ParseExpression(ts, i, depth) == Success((Conditional(c, y, n), l))
  {
    hide ParseLevel;
  }

  lemma Signs(level: nat)
    ensures Ends(Symbol(Question), level) && Ends(Symbol(Colon), level) && Ends(End, level)
    ensures Symbol(Colon) != Symbol(Question)
  {
  }

  /** a q b ? y : d ? z : n. */
  function ChainTokens(a: string, q: Mark, b: string, y: string, d: string, z: string, n: string): seq<Token> {
    [Identifier(a), Symbol(q), Identifier(b), Symbol(Question), Identifier(y), Symbol(Colon),
     Identifier(d), Symbol(Question), Identifier(z), Symbol(Colon), Identifier(n), End]
  }

  lemma ChainFirst(a: string, q: Mark, b: string, y: string, d: string, z: string, n: string)
    ensures var ts := ChainTokens(a, q, b, y, d, z, n);
            && |ts| == 12 && Sealed(ts) && Ended(ts)
            && ts[0] == Identifier(a) && ts[1] == Symbol(q) && ts[2] == Identifier(b) && ts[3] == Symbol(Question)
            && ts[4] == Identifier(y) && ts[5] == Symbol(Colon)
            && ts[6..] == [Identifier(d), Symbol(Question), Identifier(z), Symbol(Colon), Identifier(n), End]
  {
  }

  /** A conditional is weaker than every operator, and another one in its last branch needs no parentheses. */
  lemma ConditionalsNest(a: string, q: Mark, b: string, y: string, d: string, z: string, n: string)
    requires Infix(q) && !Reserved(a) && !Reserved(b) && !Reserved(y) && !Reserved(d) && !Reserved(z) && !Reserved(n)
    ensures Sealed(ChainTokens(a, q, b, y, d, z, n))
    ensures Parse(ChainTokens(a, q, b, y, d, z, n))
         == Success(Conditional(Binary(q, Named(a), Named(b)), Named(y), Conditional(Named(d), Named(z), Named(n))))
  {
    hide *;
    var ts := ChainTokens(a, q, b, y, d, z, n);
    var inner := Conditional(Named(d), Named(z), Named(n));
    ChainFirst(a, q, b, y, d, z, n);
    Signs(0);
    InnerConditional(ts, d, z, n);
    Signs(Strength(q));
    InfixStrength(q);
    AtItsLevel(q, Strength(q));
    QuestionMark();
    NameNotPostfix(ts, 0, 1, a, q);
    NameAtLevel(ts, Strength(q), 2, 1, b);
    NameExpression(ts, 4, 1, y);
    FirstCondition(ts, a, q, b);
    ConditionalOf(ts, 0, 0, Binary(q, Named(a), Named(b)), 3, Named(y), 5, inner, 11);
    ParseOf(ts, Conditional(Binary(q, Named(a), Named(b)), Named(y), inner), 11);
  }

  lemma InfixStrength(q: Mark)
    requires Infix(q)
    ensures 0 < Strength(q) <= LEVELS
  {
  }

  lemma QuestionMark()
    ensures 1 < MAX_DEPTH && 0 < MAX_DEPTH
  {
  }

  lemma NameNotPostfix(ts: seq<Token>, i: nat, depth: nat, name: string, q: Mark)
    requires Ended(ts) && i + 1 < |ts| && ts[i] == Identifier(name) && !Reserved(name) && ts[i + 1] == Symbol(q)
    requires Infix(q)
    ensures ParseLevel(ts, LEVELS, i, depth) == Success((Named(name), i + 1))
  {
    NameIsPrimary(ts, i, depth, name);
    PrimaryIsOperand(ts, i, depth);
    hide ParsePrimary, ParseLevel;
  }

  lemma FirstCondition(ts: seq<Token>, a: string, q: Mark, b: string)
    requires Ended(ts) && |ts| == 12 && Infix(q) && ts[1] == Symbol(q) && ts[3] == Symbol(Question)
    requires ParseLevel(ts, LEVELS, 0, 1) == Success((Named(a), 1))
    requires Strength(q) <= LEVELS && ParseLevel(ts, Strength(q), 2, 1) == Success((Named(b), 3))
    ensures ParseLevel(ts, 0, 0, 1) == Success((Binary(q, Named(a), Named(b)), 3))
  {
    Signs(0);
    hide ParseLevel;
    OneBinary(ts, 0, 0, 1, Named(a), 1, q, Named(b), 3);
  }

  lemma InnerConditional(ts: seq<Token>, d: string, z: string, n: string)
    requires Ended(ts) && |ts| == 12 && !Reserved(d) && !Reserved(z) && !Reserved(n)
    requires ts[6..] == [Identifier(d), Symbol(Question), Identifier(z), Symbol(Colon), Identifier(n), End]
    ensures ParseExpression(ts, 6, 1) == Success((Conditional(Named(d), Named(z), Named(n)), 11))
  {
    assert ts[6] == ts[6..][0] && ts[7] == ts[6..][1] && ts[8] == ts[6..][2];
    assert ts[9] == ts[6..][3] && ts[10] == ts[6..][4] && ts[11] == ts[6..][5];
    Signs(0);
    NameAtLevel(ts, 0, 6, 2, d);
    NameExpression(ts, 8, 2, z);
    NameExpression(ts, 10, 2, n);
    hide ParseExpression, ParseLevel, Reserved, Ends;
    ConditionalOf(ts, 6, 1, Named(d), 7, Named(z), 9, Named(n), 11);
  }

  lemma ParseOf(ts: seq<Token>, t: Tree, j: nat)
    requires Sealed(ts) && j + 1 == |ts| && ParseExpression(ts, 0, 0) == Success((t, j))
    ensures Parse(ts) == Success(t)
  {
    hide ParseExpression;
  }

  // ----- Words -----

  /** Three words are literals, and every other name is a reference. */
  lemma Words(name: string)
    ensures Parse([Identifier("true"), End]) == Success(Boolean(true))
    ensures Parse([Identifier("false"), End]) == Success(Boolean(false))
    ensures Parse([Identifier("null"), End]) == Success(Null)
    ensures name !in {"true", "false", "null"} ==> Parse([Identifier(name), End]) == Success(Named(name))
  {
    WordOf("true", Boolean(true));
    WordOf("false", Boolean(false));
    WordOf("null", Null);
    if name !in {"true", "false", "null"} {
      WordOf(name, Named(name));
    }
  }

  lemma WordOf(name: string, t: Tree)
    requires ParsePrimary([Identifier(name), End], 0, 1) == Success((t, 1))
    ensures Parse([Identifier(name), End]) == Success(t)
  {
    var ts := [Identifier(name), End];
    Signs(0);
    hide ParsePrimary, ParseLevel;
    PrimaryAtLevel(ts, 0, 0, 1, t, 1);
    WholeExpression(ts, (t, 1));
  }

  // ----- The nesting limit -----

  /** A name inside n pairs of parentheses. */
  function Parenthesized(n: nat, name: string): (ts: seq<Token>)
    ensures |ts| == 2 * n + 2 && Sealed(ts)
    ensures forall k :: 0 <= k < n ==> ts[k] == Symbol(Open)
    ensures ts[n] == Identifier(name)
    ensures forall k :: n < k <= 2 * n ==> ts[k] == Symbol(Close)
  {
    seq(n, _ => Symbol(Open)) + [Identifier(name)] + seq(n, _ => Symbol(Close)) + [End]
  }

  lemma {:induction false} Inner(n: nat, name: string, i: nat)
    requires i <= n && i <= 64 && !Reserved(name)
    ensures ParseExpression(Parenthesized(n, name), i, i)
         == if n < 64 then Success((Named(name), 2 * n + 1 - i)) else Failure(Limit)
    decreases n - i
  {
    var ts := Parenthesized(n, name);
    hide Reserved, Parenthesized, Ends;
    if i == 64 {
      TooDeep(ts, i);
    } else if i == n {
      Signs(0);
      CloseEnds();
      NameExpression(ts, i, i, name);
    } else {
      Inner(n, name, i + 1);
      if n < 64 {
        ParenthesizedOne(ts, i, i, Named(name), 2 * n - i);
      } else {
        ParenthesizedFails(ts, i, i);
      }
    }
  }

  lemma TooDeep(ts: seq<Token>, i: nat)
    requires Ended(ts) && i < |ts|
    ensures ParseExpression(ts, i, 64) == Failure(Limit)
  {
  }

  lemma CloseEnds()
    ensures Ends(Symbol(Close), 0)
  {
  }

  lemma ParenthesizedOne(ts: seq<Token>, i: nat, depth: nat, v: Tree, j: nat)
    requires Ended(ts) && i + 1 < |ts| && ts[i] == Symbol(Open) && depth < MAX_DEPTH
    requires ParseExpression(ts, i + 1, depth + 1) == Success((v, j)) && j + 1 < |ts| && ts[j] == Symbol(Close)
    requires ts[j + 1] == Symbol(Close) || ts[j + 1] == End
    ensures ParseExpression(ts, i, depth) == Success((v, j + 1))
  {
    hide *;
    Signs(0);
    CloseEnds();
    OpenPrimary(ts, i, depth + 1);
    OpenNotUnary();
    PrimaryAtLevel(ts, 0, i, depth + 1, v, j + 1);
    NoQuestion(ts, i, depth, v, j + 1);
  }

  lemma OpenPrimary(ts: seq<Token>, i: nat, depth: nat)
    requires Ended(ts) && i + 1 < |ts| && ts[i] == Symbol(Open)
    ensures var r := ParseExpression(ts, i + 1, depth);
            && (r.Success? && r.value.1 < |ts| && ts[r.value.1] == Symbol(Close) ==>
                  ParsePrimary(ts, i, depth) == Success((r.value.0, r.value.1 + 1)))
            && (r.Failure? ==> ParsePrimary(ts, i, depth) == Failure(r.error))
  {
    hide ParseExpression;
  }

  lemma OpenNotUnary()
    ensures !UnaryOperator(Open)
  {
  }

  lemma NoQuestion(ts: seq<Token>, i: nat, depth: nat, v: Tree, j: nat)
    requires Ended(ts) && i < |ts| && depth < MAX_DEPTH && ParseLevel(ts, 0, i, depth + 1) == Success((v, j))
    requires j < |ts| && ts[j] != Symbol(Question)
    ensures ParseExpression(ts, i, depth) == Success((v, j))
  {
    hide ParseLevel;
  }

  lemma ParenthesizedFails(ts: seq<Token>, i: nat, depth: nat)
    requires Ended(ts) && i + 1 < |ts| && ts[i] == Symbol(Open) && depth < MAX_DEPTH
    requires ParseExpression(ts, i + 1, depth + 1) == Failure(Limit)
    ensures ParseExpression(ts, i, depth) == Failure(Limit)
  {
    OpenPrimary(ts, i, depth + 1);
    PrimaryIsOperand(ts, i, depth + 1);
    hide ParsePrimary, ParseLevel;
    LevelFails(ts, 0, i, depth + 1, Limit);
    ExpressionFails(ts, i, depth, Limit);
  }

  /** Fewer than 64 pairs of parentheses are read through, and 64 or more reach the limit. */
  lemma NestingLimit(n: nat, name: string)
    requires !Reserved(name)
    ensures Parse(Parenthesized(n, name)) == if n < 64 then Success(Named(name)) else Failure(Limit)
  {
    Inner(n, name, 0);
    hide ParseExpression, Reserved, Parenthesized;
  }
}
