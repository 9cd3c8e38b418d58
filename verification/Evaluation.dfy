/**
 Evaluation of a parsed expression: one recursive run with a node counter, short circuits and
 null propagation. Values, numeric literals, the resolver and the builtins belong to the host.
 */
module Evaluation {
  import opened Common
  import opened Expressions

  datatype CalcError = NodeLimit | ForbiddenProperty | UnknownFunction | TypeMismatch | FromHost(code: string)

  /** Null and booleans steer the evaluation; every other value is the host's. */
  datatype Value<V> = Nothing | Truth(holds: bool) | Plain(payload: V)

  type Answer<V> = Result<Value<V>, CalcError>

  /** What the host supplies. */
  datatype Host<!V> = Host(
    number: string -> V,
    text: string -> V,
    resolve: Reference -> Answer<V>,
    known: string -> bool,
    builtin: (string, seq<Value<V>>) -> Answer<V>,
    negate: Value<V> -> Answer<V>,
    equal: (Value<V>, Value<V>) -> bool,
    apply: (Mark, Value<V>, Value<V>) -> Answer<V>)

  const MAX_NODES: nat := 1024

  /** The outcome of a run: the answer, the nodes counted, and the references resolved, in order. */
  datatype Outcome<V> = Outcome(answer: Answer<V>, visited: nat, resolved: seq<Reference>)

  datatype Arguments<V> = Arguments(values: Result<seq<Value<V>>, CalcError>, visited: nat, resolved: seq<Reference>)

  predicate Blocked(name: string) {
    name == "constructor" || name == "prototype" || name == "__proto__"
  }

  function ApplyBinary<V>(host: Host<V>, op: Mark, l: Value<V>, r: Value<V>): Answer<V> {
    if op == Equal then Success(Truth(host.equal(l, r)))
    else if op == NotEqual then Success(Truth(!host.equal(l, r)))
    else if l.Nothing? || r.Nothing? then Success(Nothing)
    else host.apply(op, l, r)
  }

  function ApplyUnary<V>(host: Host<V>, op: Mark, x: Value<V>): Answer<V> {
    if x.Nothing? then Success(Nothing)
    else if op == Minus then host.negate(x)
    else if x.Truth? then Success(Truth(!x.holds))
    else Failure(TypeMismatch)
  }

  /** The operands are evaluated left to right; the rest of a run only adds to what came before. */
  function Run<V>(host: Host<V>, t: Tree, visited: nat): Outcome<V>
    decreases t, 1
  {
    if visited + 1 > MAX_NODES then Outcome(Failure(NodeLimit), visited + 1, [])
    else Step(host, t, visited + 1)
  }

  function Step<V>(host: Host<V>, t: Tree, visited: nat): Outcome<V>
    decreases t, 0
  {
    match t
    case Num(text) => Outcome(Success(Plain(host.number(text))), visited, [])
    case Str(text) => Outcome(Success(Plain(host.text(text))), visited, [])
    case Boolean(value) => Outcome(Success(Truth(value)), visited, [])
    case Null => Outcome(Success(Nothing), visited, [])
    case Ref(r) => Outcome(host.resolve(r), visited, [r])
    case Call(name, arguments) =>
      if Blocked(name) then Outcome(Failure(ForbiddenProperty), visited, [])
      else if !host.known(name) then Outcome(Failure(UnknownFunction), visited, [])
      else
        var a := RunArguments(host, t, |arguments|, visited);
        (match a.values
         case Success(values) => Outcome(host.builtin(name, values), a.visited, a.resolved)
         case Failure(error) => Outcome(Failure(error), a.visited, a.resolved))
    case Unary(op, x) =>
      var o := Run(host, x, visited);
      if o.answer.Failure? then o else o.(answer := ApplyUnary(host, op, o.answer.value))
    case Conditional(c, y, n) =>
      var o := Run(host, c, visited);
      if o.answer.Failure? || o.answer.value.Nothing? then o
      else if !o.answer.value.Truth? then o.(answer := Failure(TypeMismatch))
      else After(o, Run(host, if o.answer.value.holds then y else n, o.visited))
    case Binary(op, l, r) =>
      var o := Run(host, l, visited);
      if o.answer.Failure? then o
      else if op == AndAnd || op == OrOr then
        if o.answer.value.Nothing? then o
        else if !o.answer.value.Truth? then o.(answer := Failure(TypeMismatch))
        else if o.answer.value.holds == (op == OrOr) then o
        else
          var p := After(o, Run(host, r, o.visited));
          if p.answer.Success? && p.answer.value.Plain? then p.(answer := Failure(TypeMismatch)) else p
      else
        var p := After(o, Run(host, r, o.visited));
        if p.answer.Failure? then p else p.(answer := ApplyBinary(host, op, o.answer.value, p.answer.value))
  }

  /** The second run after the first: its answer, and the references of both. */
  function After<V>(first: Outcome<V>, second: Outcome<V>): Outcome<V> {
    second.(resolved := first.resolved + second.resolved)
  }

  /** The first n arguments of a call. */
  function RunArguments<V>(host: Host<V>, t: Tree, n: nat, visited: nat): Arguments<V>
    requires t.Call? && n <= |t.arguments|
    decreases t, 0, n
  {
    if n == 0 then Arguments(Success([]), visited, [])
    else
      var a := RunArguments(host, t, n - 1, visited);
      if a.values.Failure? then a
      else
        var o := Run(host, t.arguments[n - 1], a.visited);
        Arguments(if o.answer.Success? then Success(a.values.value + [o.answer.value]) else Failure(o.answer.error),
                  o.visited, a.resolved + o.resolved)
  }

  // ----- The inventory covers the evaluation -----

  /** The first sequence is the second with some elements left out. */
  predicate Subsequence<T(==)>(a: seq<T>, b: seq<T>) {
    a == [] || (b != [] && ((a[|a| - 1] == b[|b| - 1] && Subsequence(a[..|a| - 1], b[..|b| - 1]))
        || Subsequence(a, b[..|b| - 1])))
  }

  lemma {:induction false} LeaveOut<T>(a: seq<T>, b: seq<T>, c: seq<T>)
    requires Subsequence(a, b)
    ensures Subsequence(a, b + c)
    decreases |c|
  {
    if c == [] {
      assert b + c == b;
    } else {
      assert (b + c)[..|b + c| - 1] == b + c[..|c| - 1];
      LeaveOut(a, b, c[..|c| - 1]);
    }
  }

  lemma {:induction false} JoinSubsequences<T>(a: seq<T>, b: seq<T>, c: seq<T>, d: seq<T>)
    requires Subsequence(a, b) && Subsequence(c, d)
    ensures Subsequence(a + c, b + d)
    decreases |d|
  {
    if c == [] {
      assert a + c == a;
      LeaveOut(a, b, d);
    } else {
      assert (b + d)[..|b + d| - 1] == b + d[..|d| - 1];
      assert (a + c)[..|a + c| - 1] == a + c[..|c| - 1];
      if c[|c| - 1] == d[|d| - 1] && Subsequence(c[..|c| - 1], d[..|d| - 1]) {
        JoinSubsequences(a, b, c[..|c| - 1], d[..|d| - 1]);
      } else {
        JoinSubsequences(a, b, c, d[..|d| - 1]);
      }
    }
  }

  lemma {:induction false} Reflexive<T>(a: seq<T>)
    ensures Subsequence(a, a)
  {
    if a != [] {
      Reflexive(a[..|a| - 1]);
    }
  }

  lemma {:induction false} LeaveOutFront<T>(a: seq<T>, b: seq<T>, c: seq<T>)
    requires Subsequence(a, c)
    ensures Subsequence(a, b + c)
  {
    JoinSubsequences([], b, a, c);
    assert [] + a == a;
  }

  lemma EmptySubsequence<T>(b: seq<T>)
    ensures Subsequence([], b)
  {
  }

  /** The references a run resolves are a subsequence of the inventory: in order, some left out. */
  lemma {:induction false} ResolvedAreListed<V>(host: Host<V>, t: Tree, visited: nat)
    ensures Subsequence(Run(host, t, visited).resolved, References(t))
    decreases t, 1
  {
    hide Subsequence, References, Step;
    EmptySubsequence(References(t));
    if visited + 1 <= MAX_NODES {
      StepListed(host, t, visited + 1);
    }
  }

  lemma {:induction false} StepListed<V>(host: Host<V>, t: Tree, visited: nat)
    ensures Subsequence(Step(host, t, visited).resolved, References(t))
    decreases t, 0
  {
    hide Subsequence, Run, RunArguments, ArgumentReferences;
    EmptySubsequence(References(t));
    match t
    case Ref(r) =>
      Reflexive([r]);
    case Unary(_, x) =>
      ResolvedAreListed(host, x, visited);
    case Binary(_, l, r) =>
      var o := Run(host, l, visited);
      ResolvedAreListed(host, l, visited);
      ResolvedAreListed(host, r, o.visited);
      LeaveOut(o.resolved, References(l), References(r));
      JoinSubsequences(o.resolved, References(l), Run(host, r, o.visited).resolved, References(r));
    case Conditional(_, _, _) =>
      ConditionalListed(host, t, visited);
    case Call(_, arguments) =>
      ArgumentsListed(host, t, |arguments|, visited);
    case _ =>
  }

  lemma {:induction false} ConditionalListed<V>(host: Host<V>, t: Tree, visited: nat)
    requires t.Conditional?
    ensures Subsequence(Step(host, t, visited).resolved, References(t))
    decreases t, 0, 0
  {
    hide Subsequence, Run;
    var c, y, n := References(t.condition), References(t.yes), References(t.no);
    var o := Run(host, t.condition, visited);
    ResolvedAreListed(host, t.condition, visited);
    ResolvedAreListed(host, t.yes, o.visited);
    ResolvedAreListed(host, t.no, o.visited);
    LeaveOut(o.resolved, c, y + n);
    LeaveOut(Run(host, t.yes, o.visited).resolved, y, n);
    LeaveOutFront(Run(host, t.no, o.visited).resolved, y, n);
    JoinSubsequences(o.resolved, c, Run(host, t.yes, o.visited).resolved, y + n);
    JoinSubsequences(o.resolved, c, Run(host, t.no, o.visited).resolved, y + n);
    assert c + (y + n) == References(t);
  }

  lemma {:induction false} ArgumentsListed<V>(host: Host<V>, t: Tree, n: nat, visited: nat)
    requires t.Call? && n <= |t.arguments|
    ensures Subsequence(RunArguments(host, t, n, visited).resolved, ArgumentReferences(t, n))
    decreases t, 0, n
  {
    hide Subsequence, Run, References;
    if n == 0 {
      EmptySubsequence<Reference>([]);
    } else {
      var a := RunArguments(host, t, n - 1, visited);
      var last := t.arguments[n - 1];
      ArgumentsListed(host, t, n - 1, visited);
      ResolvedAreListed(host, last, a.visited);
      LeaveOut(a.resolved, ArgumentReferences(t, n - 1), References(last));
      JoinSubsequences(a.resolved, ArgumentReferences(t, n - 1), Run(host, last, a.visited).resolved, References(last));
    }
  }

  // ----- The value depends on nothing but what was resolved -----

  /** The host with another resolver. */
  function Resolving<V>(host: Host<V>, resolve: Reference -> Answer<V>): Host<V> {
    host.(resolve := resolve)
  }

  predicate AgreeOn<V(==)>(f: Reference -> Answer<V>, g: Reference -> Answer<V>, references: seq<Reference>) {
    forall r :: r in references ==> f(r) == g(r)
  }

  /**
   Non-interference: a resolver that agrees on the references a run resolved gives the same run.
   So an expression reads nothing that its inventory does not list.
   */
  lemma {:induction false} SameRun<V>(host: Host<V>, resolve: Reference -> Answer<V>, t: Tree, visited: nat)
    requires AgreeOn(host.resolve, resolve, Run(host, t, visited).resolved)
    ensures Run(Resolving(host, resolve), t, visited) == Run(host, t, visited)
    decreases t, 1
  {
    hide Step;
    if visited + 1 <= MAX_NODES {
      SameStep(host, resolve, t, visited + 1);
    }
  }

  lemma {:induction false} SameStep<V>(host: Host<V>, resolve: Reference -> Answer<V>, t: Tree, visited: nat)
    requires AgreeOn(host.resolve, resolve, Step(host, t, visited).resolved)
    ensures Step(Resolving(host, resolve), t, visited) == Step(host, t, visited)
    decreases t, 0
  {
    hide Run, RunArguments;
    match t
    case Ref(r) =>
      assert r in Step(host, t, visited).resolved;
    case Unary(_, x) =>
      SameRun(host, resolve, x, visited);
    case Binary(_, _, _) =>
      SameBinary(host, resolve, t, visited);
    case Conditional(_, _, _) =>
      SameConditional(host, resolve, t, visited);
    case Call(name, arguments) =>
      if !Blocked(name) && host.known(name) {
        SameArguments(host, resolve, t, |arguments|, visited);
      }
    case _ =>
  }

  lemma AgreeOnParts<V>(f: Reference -> Answer<V>, g: Reference -> Answer<V>, a: seq<Reference>, b: seq<Reference>)
    requires AgreeOn(f, g, a + b)
    ensures AgreeOn(f, g, a) && AgreeOn(f, g, b)
  {
    assert forall r :: r in a || r in b ==> r in a + b;
  }

  lemma {:induction false} SameConditional<V>(host: Host<V>, resolve: Reference -> Answer<V>, t: Tree, visited: nat)
    requires t.Conditional? && AgreeOn(host.resolve, resolve, Step(host, t, visited).resolved)
    ensures Step(Resolving(host, resolve), t, visited) == Step(host, t, visited)
    decreases t, 0, 0
  {
    hide Run, AgreeOn, Resolving;
    var o := Run(host, t.condition, visited);
    if o.answer.Success? && o.answer.value.Truth? {
      var chosen := if o.answer.value.holds then t.yes else t.no;
      AgreeOnParts(host.resolve, resolve, o.resolved, Run(host, chosen, o.visited).resolved);
      SameRun(host, resolve, chosen, o.visited);
    }
    SameRun(host, resolve, t.condition, visited);
  }

  /** Whether the right operand is evaluated. */
  predicate GoesRight<V>(op: Mark, left: Answer<V>) {
    left.Success? && (op == AndAnd || op == OrOr ==> left.value.Truth? && left.value.holds != (op == OrOr))
  }

  lemma {:induction false} SameBinary<V>(host: Host<V>, resolve: Reference -> Answer<V>, t: Tree, visited: nat)
    requires t.Binary? && AgreeOn(host.resolve, resolve, Step(host, t, visited).resolved)
    ensures Step(Resolving(host, resolve), t, visited) == Step(host, t, visited)
    decreases t, 0, 0
  {
    hide Run, AgreeOn;
    var o := Run(host, t.left, visited);
    if GoesRight(t.operator, o.answer) {
      AgreeOnParts(host.resolve, resolve, o.resolved, Run(host, t.right, o.visited).resolved);
      SameRun(host, resolve, t.right, o.visited);
    }
    SameRun(host, resolve, t.left, visited);
  }

  lemma {:induction false} SameArguments<V>(host: Host<V>, resolve: Reference -> Answer<V>, t: Tree, n: nat,
      visited: nat)
    requires t.Call? && n <= |t.arguments| && AgreeOn(host.resolve, resolve, RunArguments(host, t, n, visited).resolved)
    ensures RunArguments(Resolving(host, resolve), t, n, visited) == RunArguments(host, t, n, visited)
    decreases t, 0, n
  {
    hide Run, AgreeOn, Resolving;
    if n > 0 {
      var a := RunArguments(host, t, n - 1, visited);
      if a.values.Success? {
        AgreeOnParts(host.resolve, resolve, a.resolved, Run(host, t.arguments[n - 1], a.visited).resolved);
        SameRun(host, resolve, t.arguments[n - 1], a.visited);
      }
      SameArguments(host, resolve, t, n - 1, visited);
    }
  }

  // ----- Every reference, unless short-circuited -----

  /** No operator of the tree can skip an operand. */
  predicate Strict(t: Tree) {
    match t
    case Unary(_, x) => Strict(x)
    case Binary(op, l, r) => op != AndAnd && op != OrOr && Strict(l) && Strict(r)
    case Conditional(_, _, _) => false
    case Call(_, arguments) => forall k :: 0 <= k < |arguments| ==> Strict(arguments[k])
    case _ => true
  }

  /** A strict expression that has a value resolved its whole inventory and visited every node. */
  lemma {:induction false} StrictResolvesAll<V>(host: Host<V>, t: Tree, visited: nat)
    requires Strict(t) && Run(host, t, visited).answer.Success?
    ensures Run(host, t, visited).resolved == References(t)
    ensures Run(host, t, visited).visited == visited + Size(t)
    decreases t, 1
  {
    RunSteps(host, t, visited);
    hide Run;
    match t
    case Unary(_, x) =>
      StrictResolvesAll(host, x, visited + 1);
    case Binary(_, l, r) =>
      StrictBinary(host, t, visited + 1);
      hide Step;
      StrictResolvesAll(host, l, visited + 1);
      StrictResolvesAll(host, r, Run(host, l, visited + 1).visited);
    case Call(_, arguments) =>
      StrictArguments(host, t, |arguments|, visited + 1);
    case _ =>
  }

  lemma RunSteps<V>(host: Host<V>, t: Tree, visited: nat)
    requires Run(host, t, visited).answer.Success?
    ensures Run(host, t, visited) == Step(host, t, visited + 1)
  {
    hide Step;
  }

  /** A strict operator that has a value ran both its operands. */
  lemma StrictBinary<V>(host: Host<V>, t: Tree, visited: nat)
    requires t.Binary? && Strict(t) && Step(host, t, visited).answer.Success?
    ensures var a := Run(host, t.left, visited);
            var b := Run(host, t.right, a.visited);
            && a.answer.Success? && b.answer.Success? && Strict(t.left) && Strict(t.right)
            && Step(host, t, visited).resolved == a.resolved + b.resolved && Step(host, t, visited).visited == b.visited
  {
    hide Run, ApplyBinary;
  }

  lemma {:induction false} StrictArguments<V>(host: Host<V>, t: Tree, n: nat, visited: nat)
    requires t.Call? && n <= |t.arguments| && Strict(t) && RunArguments(host, t, n, visited).values.Success?
    ensures RunArguments(host, t, n, visited).resolved == ArgumentReferences(t, n)
    ensures RunArguments(host, t, n, visited).visited == visited + ArgumentSize(t, n)
    decreases t, 0, n
  {
    if n > 0 {
      var a := RunArguments(host, t, n - 1, visited);
      StrictArguments(host, t, n - 1, visited);
      StrictResolvesAll(host, t.arguments[n - 1], a.visited);
    }
  }

  // ----- The meaning of a tree -----

  /** The branch a condition selects; null selects nothing. */
  function Choose<V>(condition: Answer<V>, yes: Answer<V>, no: Answer<V>): Answer<V> {
    match condition
    case Failure(_) => condition
    case Success(Nothing) => condition
    case Success(Truth(holds)) => if holds then yes else no
    case Success(Plain(_)) => Failure(TypeMismatch)
  }

  /** A boolean or null, for a logical operator. */
  function Logical<V>(answer: Answer<V>): Answer<V> {
    if answer.Success? && answer.value.Plain? then Failure(TypeMismatch) else answer
  }

  /** Both answers, the first failure deciding. */
  function Combine<V>(host: Host<V>, op: Mark, l: Answer<V>, r: Answer<V>): Answer<V> {
    if l.Failure? then l else if r.Failure? then r else ApplyBinary(host, op, l.value, r.value)
  }

  /** What a tree answers, with no counter and no order of evaluation. */
  function Meaning<V>(host: Host<V>, t: Tree): Answer<V>
    decreases t, 0
  {
    match t
    case Num(text) => Success(Plain(host.number(text)))
    case Str(text) => Success(Plain(host.text(text)))
    case Boolean(value) => Success(Truth(value))
    case Null => Success(Nothing)
    case Ref(r) => host.resolve(r)
    case Unary(op, x) =>
      var a := Meaning(host, x);
      if a.Failure? then a else ApplyUnary(host, op, a.value)
    case Conditional(c, y, n) => Choose(Meaning(host, c), Meaning(host, y), Meaning(host, n))
    case Binary(op, l, r) =>
      var a, b := Meaning(host, l), Meaning(host, r);
      if op == AndAnd then Choose(a, Logical(b), a)
      else if op == OrOr then Choose(a, a, Logical(b))
      else Combine(host, op, a, b)
    case Call(name, arguments) =>
      if Blocked(name) then Failure(ForbiddenProperty)
      else if !host.known(name) then Failure(UnknownFunction)
      else
        match Meanings(host, t, |arguments|)
        case Success(values) => host.builtin(name, values)
        case Failure(error) => Failure(error)
  }

  /** The values of the first n arguments, or the first failure. */
  function Meanings<V>(host: Host<V>, t: Tree, n: nat): Result<seq<Value<V>>, CalcError>
    requires t.Call? && n <= |t.arguments|
    decreases t, 0, n
  {
    if n == 0 then Success([])
    else
      match Meanings(host, t, n - 1)
      case Failure(error) => Failure(error)
      case Success(values) =>
        match Meaning(host, t.arguments[n - 1])
        case Success(value) => Success(values + [value])
        case Failure(error) => Failure(error)
  }

  /** A run within the node limit answers the meaning; a run beyond it answers the limit. */
  ghost predicate Answers<V>(host: Host<V>, t: Tree, visited: nat, o: Outcome<V>) {
    && visited <= o.visited <= visited + Size(t)
    && o.answer == if o.visited <= MAX_NODES then Meaning(host, t) else Failure(NodeLimit)
  }

  lemma {:induction false} RunAnswers<V>(host: Host<V>, t: Tree, visited: nat)
    requires visited <= MAX_NODES
    ensures Answers(host, t, visited, Run(host, t, visited))
    decreases t, 1
  {
    hide Step, Meaning, Size;
    SizePositive(t);
    if visited + 1 <= MAX_NODES {
      StepAnswers(host, t, visited + 1);
    }
  }

  lemma SizePositive(t: Tree)
    ensures Size(t) >= 1
  {
    hide ArgumentSize;
  }

  /** A step, of which the node itself has been counted. */
  ghost predicate Stepped<V>(host: Host<V>, t: Tree, visited: nat, o: Outcome<V>) {
    && visited <= o.visited <= visited + Size(t) - 1
    && o.answer == if o.visited <= MAX_NODES then Meaning(host, t) else Failure(NodeLimit)
  }

  lemma {:induction false} StepAnswers<V>(host: Host<V>, t: Tree, visited: nat)
    requires visited <= MAX_NODES
    ensures Stepped(host, t, visited, Step(host, t, visited))
    decreases t, 0
  {
    hide Run, RunArguments, ApplyUnary;
    match t
    case Unary(_, x) =>
      RunAnswers(host, x, visited);
    case Binary(_, _, _) =>
      BinaryAnswers(host, t, visited);
    case Conditional(_, _, _) =>
      ConditionalAnswers(host, t, visited);
    case Call(_, arguments) =>
      ArgumentsAnswer(host, t, |arguments|, visited);
    case _ =>
  }

  lemma {:induction false} ConditionalAnswers<V>(host: Host<V>, t: Tree, visited: nat)
    requires t.Conditional? && visited <= MAX_NODES
    ensures Stepped(host, t, visited, Step(host, t, visited))
    decreases t, 0, 0
  {
    hide Run;
    var o := Run(host, t.condition, visited);
    RunAnswers(host, t.condition, visited);
    if o.visited <= MAX_NODES {
      RunAnswers(host, t.yes, o.visited);
      RunAnswers(host, t.no, o.visited);
    }
  }

  lemma {:induction false} BinaryAnswers<V>(host: Host<V>, t: Tree, visited: nat)
    requires t.Binary? && visited <= MAX_NODES
    ensures Stepped(host, t, visited, Step(host, t, visited))
    decreases t, 0, 0
  {
    hide Run, ApplyBinary;
    var o := Run(host, t.left, visited);
    RunAnswers(host, t.left, visited);
    if o.visited <= MAX_NODES {
      RunAnswers(host, t.right, o.visited);
    }
  }

  lemma {:induction false} ArgumentsAnswer<V>(host: Host<V>, t: Tree, n: nat, visited: nat)
    requires t.Call? && n <= |t.arguments| && visited <= MAX_NODES
    ensures var a := RunArguments(host, t, n, visited);
            && visited <= a.visited <= visited + ArgumentSize(t, n)
            && a.values == if a.visited <= MAX_NODES then Meanings(host, t, n) else Failure(NodeLimit)
    decreases t, 0, n
  {
    hide Run, Meaning, Size;
    if n > 0 {
      var a := RunArguments(host, t, n - 1, visited);
      ArgumentsAnswer(host, t, n - 1, visited);
      if a.visited <= MAX_NODES {
        RunAnswers(host, t.arguments[n - 1], a.visited);
        SizePositive(t.arguments[n - 1]);
      }
    }
  }

  /** Trees of at most 1024 nodes always answer their meaning. */
  lemma SmallTreesAnswer<V>(host: Host<V>, t: Tree)
    requires Size(t) <= MAX_NODES
    ensures Run(host, t, 0).answer == Meaning(host, t)
  {
    RunAnswers(host, t, 0);
    hide Run, Meaning, Size;
  }

  // ----- Laws of the meaning -----

  /** A true condition selects the first branch, a false one the second, null neither. */
  lemma Conditionals<V>(host: Host<V>, c: Tree, a: Tree, b: Tree)
    ensures Meaning(host, c) == Success(Truth(true)) ==> Meaning(host, Conditional(c, a, b)) == Meaning(host, a)
    ensures Meaning(host, c) == Success(Truth(false)) ==> Meaning(host, Conditional(c, a, b)) == Meaning(host, b)
    ensures Meaning(host, c) == Success(Nothing) ==> Meaning(host, Conditional(c, a, b)) == Success(Nothing)
  {
  }

  /** The other operand of a settled logical operator does not matter, even when it fails. */
  lemma ShortCircuits<V>(host: Host<V>, a: Tree, b: Tree)
    ensures Meaning(host, a) == Success(Truth(false)) ==> Meaning(host, Binary(AndAnd, a, b)) == Success(Truth(false))
    ensures Meaning(host, a) == Success(Truth(true)) ==> Meaning(host, Binary(OrOr, a, b)) == Success(Truth(true))
    ensures Meaning(host, a) == Success(Nothing) ==>
              Meaning(host, Binary(AndAnd, a, b)) == Success(Nothing) == Meaning(host, Binary(OrOr, a, b))
    ensures Meaning(host, a) == Success(Truth(true))
            && !(Meaning(host, b).Success? && Meaning(host, b).value.Plain?) ==>
              Meaning(host, Binary(AndAnd, a, b)) == Meaning(host, b)
    ensures Meaning(host, a) == Success(Truth(false))
            && !(Meaning(host, b).Success? && Meaning(host, b).value.Plain?) ==>
              Meaning(host, Binary(OrOr, a, b)) == Meaning(host, b)
  {
  }

  /** De Morgan: negation exchanges the logical operators, with nulls, failures and type errors. */
  lemma DeMorgan<V>(host: Host<V>, a: Tree, b: Tree)
    ensures Meaning(host, Unary(Bang, Binary(AndAnd, a, b)))
            == Meaning(host, Binary(OrOr, Unary(Bang, a), Unary(Bang, b)))
    ensures Meaning(host, Unary(Bang, Binary(OrOr, a, b)))
            == Meaning(host, Binary(AndAnd, Unary(Bang, a), Unary(Bang, b)))
  {
    var x, y := Meaning(host, a), Meaning(host, b);
    assert Meaning(host, Unary(Bang, a)) == if x.Failure? then x else ApplyUnary(host, Bang, x.value);
    assert Meaning(host, Unary(Bang, b)) == if y.Failure? then y else ApplyUnary(host, Bang, y.value);
  }

  /** Null passes through every strict operator but equality. */
  lemma NullPropagates<V>(host: Host<V>, op: Mark, a: Tree, b: Tree)
    requires op != AndAnd && op != OrOr && op != Equal && op != NotEqual
    requires Meaning(host, a).Success? && Meaning(host, b).Success?
    requires Meaning(host, a).value.Nothing? || Meaning(host, b).value.Nothing?
    ensures Meaning(host, Binary(op, a, b)) == Success(Nothing)
  {
  }

  /** `!=` is the negation of `==`, and both answer a boolean even for null operands. */
  lemma Equalities<V>(host: Host<V>, a: Tree, b: Tree)
    ensures Meaning(host, Binary(NotEqual, a, b)) == Meaning(host, Unary(Bang, Binary(Equal, a, b)))
    ensures Meaning(host, a).Success? && Meaning(host, b).Success? ==>
              Meaning(host, Binary(Equal, a, b))
              == Success(Truth(host.equal(Meaning(host, a).value, Meaning(host, b).value)))
  {
    StrictMeaning(host, Equal, a, b);
    StrictMeaning(host, NotEqual, a, b);
    NegatedMeaning(host, Binary(Equal, a, b));
    hide Meaning;
  }

  lemma StrictMeaning<V>(host: Host<V>, op: Mark, a: Tree, b: Tree)
    requires op != AndAnd && op != OrOr
    ensures Meaning(host, Binary(op, a, b)) == Combine(host, op, Meaning(host, a), Meaning(host, b))
  {
    hide Combine;
  }

  lemma NegatedMeaning<V>(host: Host<V>, a: Tree)
    ensures Meaning(host, a).Success? && Meaning(host, a).value.Truth? ==>
              Meaning(host, Unary(Bang, a)) == Success(Truth(!Meaning(host, a).value.holds))
    ensures Meaning(host, a).Failure? ==> Meaning(host, Unary(Bang, a)) == Meaning(host, a)
  {
  }

  /** Any other operator is the host's, on the left and the right value in this order; the left failure comes first. */
  lemma StrictOperators<V>(host: Host<V>, op: Mark, a: Tree, b: Tree)
    requires op !in {AndAnd, OrOr, Equal, NotEqual}
    ensures Meaning(host, a).Failure? ==> Meaning(host, Binary(op, a, b)) == Meaning(host, a)
    ensures Meaning(host, a).Success? && Meaning(host, b).Failure? ==>
              Meaning(host, Binary(op, a, b)) == Meaning(host, b)
    ensures Meaning(host, a).Success? && Meaning(host, b).Success?
            && !Meaning(host, a).value.Nothing? && !Meaning(host, b).value.Nothing? ==>
              Meaning(host, Binary(op, a, b)) == host.apply(op, Meaning(host, a).value, Meaning(host, b).value)
  {
  }

  /** Minus is the host's, and a double negation of a boolean is the boolean; null passes through both. */
  lemma UnaryOperators<V>(host: Host<V>, a: Tree)
    requires Meaning(host, a).Success?
    ensures Meaning(host, a).value.Nothing? ==>
              Meaning(host, Unary(Minus, a)) == Success(Nothing) == Meaning(host, Unary(Bang, a))
    ensures !Meaning(host, a).value.Nothing? ==> Meaning(host, Unary(Minus, a)) == host.negate(Meaning(host, a).value)
    ensures Meaning(host, a).value.Truth? ==>
              Meaning(host, Unary(Bang, a)) == Success(Truth(!Meaning(host, a).value.holds))
    ensures !Meaning(host, a).value.Plain? ==> Meaning(host, Unary(Bang, Unary(Bang, a))) == Meaning(host, a)
    ensures Meaning(host, a).value.Plain? ==> Meaning(host, Unary(Bang, a)) == Failure(TypeMismatch)
  {
    assert Meaning(host, Unary(Bang, a)) == ApplyUnary(host, Bang, Meaning(host, a).value);
  }

  lemma {:induction false} AllSucceed<V>(host: Host<V>, t: Tree, n: nat, values: seq<Value<V>>)
    requires t.Call? && n <= |t.arguments| && n <= |values|
    requires forall k :: 0 <= k < n ==> Meaning(host, t.arguments[k]) == Success(values[k])
    ensures Meanings(host, t, n) == Success(values[..n])
    decreases n
  {
    hide Meaning;
    if n > 0 {
      AllSucceed(host, t, n - 1, values);
      assert values[..n] == values[..n - 1] + [values[n - 1]];
    }
  }

  lemma {:induction false} FirstFailure<V>(host: Host<V>, t: Tree, n: nat, k: nat, e: CalcError)
    requires t.Call? && k < n <= |t.arguments| && Meaning(host, t.arguments[k]) == Failure(e)
    requires forall j :: 0 <= j < k ==> Meaning(host, t.arguments[j]).Success?
    ensures Meanings(host, t, n) == Failure(e)
    decreases n
  {
    hide Meaning;
    if n == k + 1 {
      var values := seq(k, j requires 0 <= j < k => Meaning(host, t.arguments[j]).value);
      AllSucceed(host, t, k, values);
    } else {
      FirstFailure(host, t, n - 1, k, e);
    }
  }

  lemma CallMeaning<V>(host: Host<V>, t: Tree)
    requires t.Call?
    ensures Meaning(host, t)
            == if Blocked(t.name) then Failure(ForbiddenProperty)
               else if !host.known(t.name) then Failure(UnknownFunction)
               else match Meanings(host, t, |t.arguments|)
                    case Success(values) => host.builtin(t.name, values)
                    case Failure(error) => Failure(error)
  {
    hide Meanings;
  }

  /** A call of a known, permitted name is the builtin on all the values in order, or the first failure. */
  lemma Calls<V>(host: Host<V>, t: Tree)
    requires t.Call?
    ensures Blocked(t.name) ==> Meaning(host, t) == Failure(ForbiddenProperty)
    ensures !Blocked(t.name) && !host.known(t.name) ==> Meaning(host, t) == Failure(UnknownFunction)
    ensures !Blocked(t.name) && host.known(t.name) ==>
              forall values: seq<Value<V>> | |values| == |t.arguments|
                  && (forall k :: 0 <= k < |values| ==> Meaning(host, t.arguments[k]) == Success(values[k])) ::
                Meaning(host, t) == host.builtin(t.name, values)
    ensures !Blocked(t.name) && host.known(t.name) ==>
              forall k | 0 <= k < |t.arguments| && Meaning(host, t.arguments[k]).Failure?
                         && (forall j :: 0 <= j < k ==> Meaning(host, t.arguments[j]).Success?) ::
                Meaning(host, t) == Failure(Meaning(host, t.arguments[k]).error)
  {
    CallMeaning(host, t);
    hide Meaning, Meanings, Blocked;
    if !Blocked(t.name) && host.known(t.name) {
      forall values: seq<Value<V>> | |values| == |t.arguments|
        && (forall k :: 0 <= k < |values| ==> Meaning(host, t.arguments[k]) == Success(values[k]))
        ensures Meaning(host, t) == host.builtin(t.name, values)
      {
        AllSucceed(host, t, |values|, values);
        assert values[..|values|] == values;
      }
      forall k | 0 <= k < |t.arguments| && Meaning(host, t.arguments[k]).Failure?
        && (forall j :: 0 <= j < k ==> Meaning(host, t.arguments[j]).Success?)
        ensures Meaning(host, t) == Failure(Meaning(host, t.arguments[k]).error)
      {
        FirstFailure(host, t, |t.arguments|, k, Meaning(host, t.arguments[k]).error);
      }
    }
  }

  // ----- The evaluator as it runs -----

  class Execution<V(==)> {
    const host: Host<V>
    var visited: nat
    ghost var resolved: seq<Reference>

    constructor (host: Host<V>)
      ensures this.host == host && visited == 0 && resolved == []
    {
      this.host, visited, resolved := host, 0, [];
    }

    method Evaluate(t: Tree) returns (answer: Answer<V>)
      modifies this
      ensures var o := Run(host, t, old(visited));
              answer == o.answer && visited == o.visited && resolved == old(resolved) + o.resolved
      decreases t, 1
    {
      hide Step;
      visited := visited + 1;
      if visited > MAX_NODES {
        return Failure(NodeLimit);
      }
      answer := EvaluateNode(t);
    }

    method EvaluateNode(t: Tree) returns (answer: Answer<V>)
      modifies this
      ensures var o := Step(host, t, old(visited));
              answer == o.answer && visited == o.visited && resolved == old(resolved) + o.resolved
      decreases t, 0
    {
      hide Run, RunArguments, ApplyBinary, ApplyUnary;
      match t
      case Num(text) =>
        answer := Success(Plain(host.number(text)));
      case Str(text) =>
        answer := Success(Plain(host.text(text)));
      case Boolean(value) =>
        answer := Success(Truth(value));
      case Null =>
        answer := Success(Nothing);
      case Ref(r) =>
        resolved := resolved + [r];
        answer := host.resolve(r);
      case Call(name, arguments) =>
        if Blocked(name) {
          return Failure(ForbiddenProperty);
        }
        if !host.known(name) {
          return Failure(UnknownFunction);
        }
        var values := EvaluateArguments(t);
        answer := if values.Success? then host.builtin(name, values.value) else Failure(values.error);
      case Unary(op, x) =>
        answer := Evaluate(x);
        if answer.Success? {
          answer := ApplyUnary(host, op, answer.value);
        }
      case Conditional(c, y, n) =>
        answer := Evaluate(c);
        if answer.Failure? || answer.value.Nothing? {
          return;
        }
        if !answer.value.Truth? {
          return Failure(TypeMismatch);
        }
        if answer.value.holds {
          answer := Evaluate(y);
        } else {
          answer := Evaluate(n);
        }
      case Binary(op, l, r) =>
        answer := Evaluate(l);
        if answer.Failure? {
          return;
        }
        var left := answer.value;
        if op == AndAnd || op == OrOr {
          if left.Nothing? {
            return;
          }
          if !left.Truth? {
            return Failure(TypeMismatch);
          }
          if left.holds == (op == OrOr) {
            return;
          }
          answer := Evaluate(r);
          if answer.Success? && answer.value.Plain? {
            answer := Failure(TypeMismatch);
          }
        } else {
          answer := Evaluate(r);
          if answer.Success? {
            answer := ApplyBinary(host, op, left, answer.value);
          }
        }
    }

    method EvaluateArguments(t: Tree) returns (values: Result<seq<Value<V>>, CalcError>)
      requires t.Call?
      modifies this
      ensures var a := RunArguments(host, t, |t.arguments|, old(visited));
              values == a.values && visited == a.visited && resolved == old(resolved) + a.resolved
      decreases t, 0, 0
    {
      hide Run;
      var results := [];
      for k := 0 to |t.arguments|
        invariant var a := RunArguments(host, t, k, old(visited));
                  a.values == Success(results) && visited == a.visited && resolved == old(resolved) + a.resolved
      {
        var answer := Evaluate(t.arguments[k]);
        if answer.Failure? {
          FailedArguments(host, t, k + 1, |t.arguments|, old(visited));
          return Failure(answer.error);
        }
        results := results + [answer.value];
      }
      return Success(results);
    }
  }

  lemma {:induction false} FailedArguments<V>(host: Host<V>, t: Tree, k: nat, n: nat, visited: nat)
    requires t.Call? && k <= n <= |t.arguments| && RunArguments(host, t, k, visited).values.Failure?
    ensures RunArguments(host, t, n, visited) == RunArguments(host, t, k, visited)
    decreases n
  {
    if k < n {
      FailedArguments(host, t, k, n - 1, visited);
    }
  }
}
