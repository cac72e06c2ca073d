/** The tree-walking evaluator (simplf/Interpreter.java) and user functions
    (simplf/SimplfFunction.java).

    The first half states the meaning of the language as functions on values:
    the operators, and a reference semantics for programs that neither declare
    nor call functions, over a snapshot of the bindings. The second half is the
    Java object structure itself: an `Interpreter` with a mutable `environment`
    field over shared heap cells, and `SimplfFunction` objects whose closure is
    set after the function's own binding exists. Every visitor method is proved
    to agree with the reference semantics wherever that semantics applies. */
module Evaluation {
  import opened Tokens
  import opened Outcomes
  import opened Syntax
  import opened Environments

  /** A bare `java.lang.Object` made by `new Object()`: identity and nothing else. */
  class Placeholder {
    constructor () {}
  }

  /** The runtime values: Java's null, Boolean, Double (here a real), String,
      a user function, or a bare object. */
  datatype Value =
    | Nil
    | Boolean(b: bool)
    | Number(n: real)
    | Str(s: string)
    | Fn(f: SimplfFunction)
    | Obj(o: Placeholder)

  /** The two renderings the JVM supplies and this model takes as given:
      `Double.toString` and `Object.toString` (class name and hash code). */
  datatype Renderer = Renderer(showNumber: real -> string, showObject: Placeholder -> string)

  /** `visitLiteral`: the value the parser stored in the node. */
  function LiteralValue(lit: Lit): Value {
    match lit
    case LString(s) => Str(s)
    case LNumber(n) => Number(n)
    case LBool(b) => Boolean(b)
    case LNil => Nil
  }

  /** `isTruthy`: null and false are falsy, every other value is truthy. */
  predicate IsTruthy(v: Value) {
    match v
    case Nil => false
    case Boolean(b) => b
    case _ => true
  }

  /** `isEqual`: null equals only null, otherwise `equals`, which compares
      booleans, doubles and strings by value and functions and objects by
      identity; together that is exactly equality of values. */
  predicate IsEqual(a: Value, b: Value)
    ensures IsEqual(a, b) <==> a == b
  {
    if a.Nil? then b.Nil? else a == b
  }

  /** Drops one trailing ".0", as `stringify` does to a rendered double. */
  function StripPointZero(s: string): (t: string)
    ensures |s| >= 2 && s[|s| - 2..] == ".0" ==> t + ".0" == s
    ensures !(|s| >= 2 && s[|s| - 2..] == ".0") ==> t == s
  {
    if |s| >= 2 && s[|s| - 2..] == ".0" then s[..|s| - 2] else s
  }

  /** `stringify`: "nil" for null; a double as Java renders it without a
      trailing ".0"; anything else by its `toString`. */
  function Stringify(v: Value, render: Renderer): string {
    match v
    case Nil => "nil"
    case Boolean(b) => if b then "true" else "false"
    case Number(n) => StripPointZero(render.showNumber(n))
    case Str(s) => s
    case Fn(f) => f.ToString()
    case Obj(o) => render.showObject(o)
  }

  /** `checkNumbers`: both operands must be doubles. */
  function CheckNumbers(op: Token, a: Value, b: Value): (r: Result<(real, real)>)
    ensures r.Ok? <==> a.Number? && b.Number?
    ensures r.Ok? ==> r.value == (a.n, b.n)
    ensures r.Err? ==> r.failure == RuntimeError(op, "Operand must be numbers")
  {
    if a.Number? && b.Number? then Ok((a.n, b.n)) else Err(RuntimeError(op, "Operand must be numbers"))
  }

  /** `visitBinary` once both operands are evaluated. The result is a function
      value only when COMMA passes its right operand through. */
  function ApplyBinary(op: Token, left: Value, right: Value, render: Renderer): (r: Result<Value>)
    ensures r.Ok? && r.value.Fn? ==> op.kind == Comma && r.value == right
  {
    match op.kind
    case Plus =>
      if left.Str? || right.Str? then Ok(Str(Stringify(left, render) + Stringify(right, render)))
      else if left.Number? && right.Number? then Ok(Number(left.n + right.n))
      else Err(RuntimeError(op, "Addition operation not supported for operands."))
    case Minus =>
      var (a, b) :- CheckNumbers(op, left, right); Ok(Number(a - b))
    case Star =>
      var (a, b) :- CheckNumbers(op, left, right); Ok(Number(a * b))
    case Slash =>
      var (a, b) :- CheckNumbers(op, left, right);
      if b == 0.0 then Err(RuntimeError(op, "Cannot divide by zero.")) else Ok(Number(a / b))
    case Greater =>
      var (a, b) :- CheckNumbers(op, left, right); Ok(Boolean(a > b))
    case GreaterEqual =>
      var (a, b) :- CheckNumbers(op, left, right); Ok(Boolean(a >= b))
    case Less =>
      var (a, b) :- CheckNumbers(op, left, right); Ok(Boolean(a < b))
    case LessEqual =>
      var (a, b) :- CheckNumbers(op, left, right); Ok(Boolean(a <= b))
    case EqualEqual => Ok(Boolean(IsEqual(left, right)))
    case BangEqual => Ok(Boolean(!IsEqual(left, right)))
    case Comma => Ok(right)
    case _ => Ok(Nil)
  }

  /** `visitUnary` once the operand is evaluated: never a function value. */
  function ApplyUnary(op: Token, operand: Value): (r: Result<Value>)
    ensures r.Ok? ==> !r.value.Fn?
    ensures op.kind == Minus ==> (r.Ok? <==> operand.Number?)
    ensures op.kind == Bang ==> r == Ok(Boolean(!IsTruthy(operand)))
    ensures op.kind == Minus && operand.Number? ==> r == Ok(Number(-operand.n))
    ensures op.kind == Minus && !operand.Number? ==> r == Err(RuntimeError(op, "Operand must be a number"))
    ensures op.kind != Minus && op.kind != Bang ==> r == Ok(Nil)
  {
    match op.kind
    case Minus =>
      if operand.Number? then Ok(Number(-operand.n)) else Err(RuntimeError(op, "Operand must be a number"))
    case Bang => Ok(Boolean(!IsTruthy(operand)))
    case _ => Ok(Nil)
  }

  /** `+` with a string on either side yields the text of the two renderings. */
  lemma ConcatenationRendersBoth(op: Token, left: Value, right: Value, render: Renderer)
    requires op.kind == Plus && (left.Str? || right.Str?)
    ensures ApplyBinary(op, left, right, render).Ok?
    ensures Stringify(ApplyBinary(op, left, right, render).value, render) == Stringify(left, render) + Stringify(right, render)
  {
  }

  /** Subtraction is addition of the negation, and `a < b` is `b > a`: the
      operator table agrees with ordinary arithmetic on numbers. */
  lemma ArithmeticAgrees(plus: Token, minus: Token, less: Token, greater: Token, a: real, b: real, render: Renderer)
    requires plus.kind == Plus && minus.kind == Minus && less.kind == Less && greater.kind == Greater
    ensures ApplyBinary(minus, Number(a), Number(b), render)
            == ApplyBinary(plus, Number(a), ApplyUnary(minus, Number(b)).value, render)
    ensures ApplyBinary(less, Number(a), Number(b), render) == ApplyBinary(greater, Number(b), Number(a), render)
  {
  }

  /** `==` and `!=` are complementary, and `!!v` is the truthiness of v. */
  lemma EqualityAndNegation(eq: Token, ne: Token, bang: Token, a: Value, b: Value, render: Renderer)
    requires eq.kind == EqualEqual && ne.kind == BangEqual && bang.kind == Bang
    ensures ApplyBinary(eq, a, b, render) == Ok(Boolean(a == b))
    ensures ApplyBinary(ne, a, b, render) == Ok(Boolean(a != b))
    ensures ApplyUnary(bang, ApplyUnary(bang, a).value) == Ok(Boolean(IsTruthy(a)))
  {
  }

  /** The operand checks of `visitBinary`: arithmetic other than `+` and the
      comparisons need two numbers and otherwise fail with "Operand must be
      numbers"; division by zero fails with "Cannot divide by zero."; nothing
      else makes these operators fail. */
  lemma BinaryNeedsNumbers(op: Token, left: Value, right: Value, render: Renderer)
    requires IsArithmeticOrComparison(op.kind)
    ensures ApplyBinary(op, left, right, render).Err? <==>
              !(left.Number? && right.Number?) || (op.kind == Slash && right.n == 0.0)
    ensures !(left.Number? && right.Number?) ==>
              ApplyBinary(op, left, right, render) == Err(RuntimeError(op, "Operand must be numbers"))
    ensures op.kind == Slash && left.Number? && right.Number? ==>
              ApplyBinary(op, left, right, render)
              == if right.n == 0.0 then Err(RuntimeError(op, "Cannot divide by zero.")) else Ok(Number(left.n / right.n))
  {
  }

  /** On two numbers, `-`, `*` and the comparisons compute what real
      arithmetic says. */
  lemma BinaryOnNumbers(op: Token, a: real, b: real, render: Renderer)
    ensures op.kind == Minus ==> ApplyBinary(op, Number(a), Number(b), render) == Ok(Number(a - b))
    ensures op.kind == Star ==> ApplyBinary(op, Number(a), Number(b), render) == Ok(Number(a * b))
    ensures op.kind == Greater ==> ApplyBinary(op, Number(a), Number(b), render) == Ok(Boolean(a > b))
    ensures op.kind == GreaterEqual ==> ApplyBinary(op, Number(a), Number(b), render) == Ok(Boolean(a >= b))
    ensures op.kind == Less ==> ApplyBinary(op, Number(a), Number(b), render) == Ok(Boolean(a < b))
    ensures op.kind == LessEqual ==> ApplyBinary(op, Number(a), Number(b), render) == Ok(Boolean(a <= b))
  {
    if op.kind == Star {
      var r := ApplyBinary(op, Number(a), Number(b), render);
      assert r.Ok? && r.value.Number? && r.value.n == a * b;
    }
  }

  /** `+`: concatenation of both renderings as soon as one side is a string,
      the sum of two numbers, and otherwise "Addition operation not supported
      for operands.". */
  lemma BinaryPlus(op: Token, left: Value, right: Value, render: Renderer)
    requires op.kind == Plus
    ensures left.Str? || right.Str? ==>
              ApplyBinary(op, left, right, render) == Ok(Str(Stringify(left, render) + Stringify(right, render)))
    ensures !left.Str? && !right.Str? && left.Number? && right.Number? ==>
              ApplyBinary(op, left, right, render) == Ok(Number(left.n + right.n))
    ensures !left.Str? && !right.Str? && !(left.Number? && right.Number?) ==>
              ApplyBinary(op, left, right, render) == Err(RuntimeError(op, "Addition operation not supported for operands."))
  {
    if left.Str? || right.Str? {
      var text := Stringify(left, render) + Stringify(right, render);
      assert ApplyBinary(op, left, right, render) == Ok(Str(text));
    }
  }

  /** COMMA yields its right operand; an operator the switch does not list
      yields null. */
  lemma BinaryOthers(op: Token, left: Value, right: Value, render: Renderer)
    ensures op.kind == Comma ==> ApplyBinary(op, left, right, render) == Ok(right)
    ensures op.kind !in {Plus, Minus, Star, Slash, Greater, GreaterEqual, Less, LessEqual, EqualEqual, BangEqual, Comma} ==>
              ApplyBinary(op, left, right, render) == Ok(Nil)
  {
  }

  /** `or` and `and` decide on the left operand's truthiness: when it decides,
      the left value is the result and the right operand is never evaluated. */
  lemma LogicalShortCircuits(l: Expr, op: Token, r1: Expr, r2: Expr, bs: seq<Binding<Value>>, render: Renderer)
    requires FirstOrder(l) && FirstOrder(r1) && FirstOrder(r2)
    ensures var (lv, bs1) := Eval(l, bs, render);
            lv.Ok? && (if op.kind == Or then IsTruthy(lv.value) else !IsTruthy(lv.value)) ==>
              Eval(Logical(l, op, r1), bs, render) == (lv, bs1)
              && Eval(Logical(l, op, r1), bs, render) == Eval(Logical(l, op, r2), bs, render)
  {
  }

  /** When the left operand of `or`/`and` does not decide, the result is the
      right operand's, evaluated in the scope the left one left; a failing
      left operand fails the whole expression. */
  lemma LogicalFallsThrough(l: Expr, op: Token, r1: Expr, bs: seq<Binding<Value>>, render: Renderer)
    requires FirstOrder(l) && FirstOrder(r1)
    ensures var (lv, bs1) := Eval(l, bs, render);
            lv.Ok? && !(if op.kind == Or then IsTruthy(lv.value) else !IsTruthy(lv.value)) ==>
              Eval(Logical(l, op, r1), bs, render) == Eval(r1, bs1, render)
    ensures Eval(l, bs, render).0.Err? ==> Eval(Logical(l, op, r1), bs, render) == Eval(l, bs, render)
  {
  }

  // ---------------------------------------------------------------------
  // Reference semantics of programs that declare and call no functions.
  // ---------------------------------------------------------------------

  /** The number of calls in an expression. */
  function CallCount(e: Expr): nat
    decreases e
  {
    match e
    case Literal(_) => 0
    case Variable(_) => 0
    case Grouping(x) => CallCount(x)
    case Unary(_, x) => CallCount(x)
    case Binary(l, _, r) => CallCount(l) + CallCount(r)
    case Logical(l, _, r) => CallCount(l) + CallCount(r)
    case Assign(_, x) => CallCount(x)
    case Conditional(c, t, f) => CallCount(c) + CallCount(t) + CallCount(f)
    case Call(_, _, _) => 1
  }

  /** An expression with no call in it. */
  predicate FirstOrder(e: Expr) {
    CallCount(e) == 0
  }

  predicate AllFirstOrder(es: seq<Expr>) {
    forall i :: 0 <= i < |es| ==> FirstOrder(es[i])
  }

  /** The number of calls and function declarations in a statement. */
  function StmtCallCount(s: Stmt): nat
    decreases s, 1
  {
    match s
    case Expression(e) => CallCount(e)
    case Print(e) => CallCount(e)
    case Var(_, init, _) => if init.None? then 0 else CallCount(init.value)
    case Block(ss) => StmtsCallCount(ss)
    case If(c, t, f) => CallCount(c) + StmtCallCount(t) + (if f.None? then 0 else StmtCallCount(f.value))
    case While(c, b) => CallCount(c) + StmtCallCount(b)
    case For(i, c, n, b) => CallCount(i) + CallCount(c) + CallCount(n) + StmtCallCount(b)
    case Function(_) => 1
  }

  function StmtsCallCount(ss: seq<Stmt>): nat
    decreases ss, 0
  {
    if ss == [] then 0 else StmtCallCount(ss[0]) + StmtsCallCount(ss[1..])
  }

  /** A statement with no function declaration and no call in it. */
  predicate FirstOrderStmt(s: Stmt) {
    StmtCallCount(s) == 0
  }

  predicate AllFirstOrderStmts(ss: seq<Stmt>) {
    StmtsCallCount(ss) == 0
  }

  /** The value of an expression and the bindings afterwards; only assignment
      changes a binding, and only its value. */
  function Eval(e: Expr, bs: seq<Binding<Value>>, render: Renderer): (Result<Value>, seq<Binding<Value>>)
    requires FirstOrder(e)
    decreases e
  {
    match e
    case Literal(lit) => (Ok(LiteralValue(lit)), bs)
    case Grouping(x) => Eval(x, bs, render)
    case Variable(name) => (Lookup(bs, name), bs)
    case Unary(op, x) =>
      var (v, bs1) := Eval(x, bs, render);
      if v.Err? then (v, bs1) else (ApplyUnary(op, v.value), bs1)
    case Binary(l, op, r) =>
      var (lv, bs1) := Eval(l, bs, render);
      if lv.Err? then (lv, bs1)
      else
        var (rv, bs2) := Eval(r, bs1, render);
        if rv.Err? then (rv, bs2) else (ApplyBinary(op, lv.value, rv.value, render), bs2)
    case Logical(l, op, r) =>
      var (lv, bs1) := Eval(l, bs, render);
      if lv.Err? then (lv, bs1)
      else if op.kind == Or && IsTruthy(lv.value) then (lv, bs1)
      else if op.kind != Or && !IsTruthy(lv.value) then (lv, bs1)
      else Eval(r, bs1, render)
    case Assign(name, x) =>
      var (v, bs1) := Eval(x, bs, render);
      if v.Err? then (v, bs1)
      else
        var a := AssignIn(bs1, name, v.value);
        if a.Err? then (Err(a.failure), bs1) else (v, a.value)
    case Conditional(c, t, f) =>
      var (cv, bs1) := Eval(c, bs, render);
      if cv.Err? then (cv, bs1)
      else if IsTruthy(cv.value) then Eval(t, bs1, render) else Eval(f, bs1, render)
  }

  /** Arguments, left to right, threading the bindings. */
  function EvalArgs(args: seq<Expr>, bs: seq<Binding<Value>>, render: Renderer): (Result<seq<Value>>, seq<Binding<Value>>)
    requires AllFirstOrder(args)
    decreases |args|
  {
    if args == [] then (Ok([]), bs)
    else
      var (vs, bs1) := EvalArgs(args[..|args| - 1], bs, render);
      if vs.Err? then (vs, bs1)
      else
        var (v, bs2) := Eval(args[|args| - 1], bs1, render);
        if v.Err? then (Err(v.failure), bs2) else (Ok(vs.value + [v.value]), bs2)
  }

  /** Once an argument fails, the later ones are not evaluated. */
  lemma {:induction false} EvalArgsStops(args: seq<Expr>, bs: seq<Binding<Value>>, render: Renderer, i: nat)
    requires AllFirstOrder(args) && 1 <= i <= |args|
    requires EvalArgs(args[..i], bs, render).0.Err?
    ensures EvalArgs(args, bs, render) == EvalArgs(args[..i], bs, render)
    decreases |args|
  {
    if i == |args| {
      assert args[..i] == args;
    } else {
      var front := args[..|args| - 1];
      assert front[..i] == args[..i];
      EvalArgsStops(front, bs, render, i);
    }
  }

  /** Expressions never add or remove bindings: assignment overwrites a value
      and keeps every name in its place. */
  lemma {:induction false} EvalKeepsNames(e: Expr, bs: seq<Binding<Value>>, render: Renderer)
    requires FirstOrder(e)
    ensures BindingNames(Eval(e, bs, render).1) == BindingNames(bs)
    decreases e
  {
    match e
    case Literal(_) =>
    case Variable(_) =>
    case Grouping(x) => EvalKeepsNames(x, bs, render);
    case Unary(_, x) => EvalKeepsNames(x, bs, render);
    case Binary(l, _, r) =>
      EvalKeepsNames(l, bs, render);
      EvalKeepsNames(r, Eval(l, bs, render).1, render);
    case Logical(l, _, r) =>
      EvalKeepsNames(l, bs, render);
      EvalKeepsNames(r, Eval(l, bs, render).1, render);
    case Assign(_, x) => EvalKeepsNames(x, bs, render);
    case Conditional(c, t, f) =>
      var bs1 := Eval(c, bs, render).1;
      EvalKeepsNames(c, bs, render);
      EvalKeepsNames(t, bs1, render);
      EvalKeepsNames(f, bs1, render);
  }

  /** What a statement yields: a value, or the new bare object of a block or of
      a function body with no statements. */
  datatype Yield = Plain(v: Value) | FreshObject

  /** A statement's outcome, the bindings afterwards and the lines printed. */
  datatype Run = Run(result: Result<Yield>, scope: seq<Binding<Value>>, printed: seq<string>)

  function Lift(r: Result<Value>): Result<Yield> {
    if r.Ok? then Ok(Plain(r.value)) else Err(r.failure)
  }

  /** The yield as a Java value: a fresh object is some object. */
  predicate Matches(r: Result<Value>, y: Result<Yield>) {
    match y
    case Err(f) => r == Err(f)
    case Ok(Plain(v)) => r == Ok(v)
    case Ok(FreshObject) => r.Ok? && r.value.Obj?
  }

  /** `execute` on a statement with no function in it. `fuel` bounds the
      iterations of each loop; a loop that wants more ends with OutOfFuel. */
  function Exec(s: Stmt, bs: seq<Binding<Value>>, fuel: nat, render: Renderer): Run
    requires FirstOrderStmt(s)
    decreases s, 1
  {
    match s
    case Expression(e) =>
      var (v, bs1) := Eval(e, bs, render);
      Run(Lift(v), bs1, [])
    case Print(e) => ExecPrint(e, bs, render)
    case Var(name, init, _) => ExecVar(name, init, bs, render)
    case Block(ss) => ExecBlock(ss, bs, fuel, render)
    case If(c, t, f) => ExecIf(c, t, f, bs, fuel, render)
    case While(c, b) => Loop(c, None, b, bs, fuel, fuel, render)
    case For(i, c, n, b) => ExecFor(i, c, n, b, bs, fuel, render)
  }

  /** `visitPrintStmt`: one line, the rendering of the value; yields null. */
  function ExecPrint(e: Expr, bs: seq<Binding<Value>>, render: Renderer): Run
    requires FirstOrder(e)
  {
    var (v, bs1) := Eval(e, bs, render);
    if v.Err? then Run(Err(v.failure), bs1, [])
    else Run(Ok(Plain(Nil)), bs1, [Stringify(v.value, render)])
  }

  /** `visitVarStmt`: a missing initializer is evaluated as a null node and
      throws; otherwise a new binding in front. Yields null. */
  function ExecVar(name: Token, init: Option<Expr>, bs: seq<Binding<Value>>, render: Renderer): Run
    requires init.None? || FirstOrder(init.value)
  {
    if init.None? then Run(Err(NullPointer), bs, [])
    else
      var (v, bs1) := Eval(init.value, bs, render);
      if v.Err? then Run(Err(v.failure), bs1, [])
      else Run(Ok(Plain(Nil)), [Binding(name.lexeme, v.value)] + bs1, [])
  }

  /** `visitBlockStmt`: the statements run in the same environment (a block
      opens no scope, so its bindings outlive it); yields a new object. */
  function ExecBlock(ss: seq<Stmt>, bs: seq<Binding<Value>>, fuel: nat, render: Renderer): Run
    requires AllFirstOrderStmts(ss)
    decreases ss, 1
  {
    var run := ExecSeq(ss, bs, FreshObject, fuel, render);
    if run.result.Err? then run else Run(Ok(FreshObject), run.scope, run.printed)
  }

  /** A statement list in order, stopping at the first failure; yields what
      the last statement yielded (`last` if there is none). */
  function ExecSeq(ss: seq<Stmt>, bs: seq<Binding<Value>>, last: Yield, fuel: nat, render: Renderer): Run
    requires AllFirstOrderStmts(ss)
    decreases ss, 0
  {
    if ss == [] then Run(Ok(last), bs, [])
    else
      var first := Exec(ss[0], bs, fuel, render);
      if first.result.Err? then first
      else
        var rest := ExecSeq(ss[1..], first.scope, first.result.value, fuel, render);
        Run(rest.result, rest.scope, first.printed + rest.printed)
  }

  /** `visitIfStmt`: the condition must be exactly true to take the then
      branch; null throws, and so does a missing else branch when it is taken.
      Yields the condition's value. */
  function ExecIf(c: Expr, t: Stmt, f: Option<Stmt>, bs: seq<Binding<Value>>, fuel: nat, render: Renderer): Run
    requires FirstOrder(c) && FirstOrderStmt(t) && (f.None? || FirstOrderStmt(f.value))
    decreases If(c, t, f), 0
  {
    var (cv, bs1) := Eval(c, bs, render);
    if cv.Err? then Run(Err(cv.failure), bs1, [])
    else if cv.value.Nil? then Run(Err(NullPointer), bs1, [])
    else if cv.value != Boolean(true) && f.None? then Run(Err(NullPointer), bs1, [])
    else
      var branch := if cv.value == Boolean(true) then Exec(t, bs1, fuel, render) else Exec(f.value, bs1, fuel, render);
      if branch.result.Err? then branch else Run(Ok(Plain(cv.value)), branch.scope, branch.printed)
  }

  /** `visitForStmt`: the initializer once, then the loop. */
  function ExecFor(i: Expr, c: Expr, n: Expr, b: Stmt, bs: seq<Binding<Value>>, fuel: nat, render: Renderer): Run
    requires FirstOrder(i) && FirstOrder(c) && FirstOrder(n) && FirstOrderStmt(b)
    decreases For(i, c, n, b), 0
  {
    var (iv, bs1) := Eval(i, bs, render);
    if iv.Err? then Run(Err(iv.failure), bs1, [])
    else Loop(c, Some(n), b, bs1, fuel, fuel, render)
  }

  /** The loops of `visitWhileStmt` and `visitForStmt` (the latter with an
      increment): test, body, increment, again, with at most `count` more
      iterations. The test must be exactly true to go on and null throws.
      Yields null. */
  function Loop(c: Expr, incr: Option<Expr>, b: Stmt, bs: seq<Binding<Value>>, fuel: nat, count: nat, render: Renderer): Run
    requires FirstOrder(c) && (incr.None? || FirstOrder(incr.value)) && FirstOrderStmt(b)
    decreases b, 2, count
  {
    var (cv, bs1) := Eval(c, bs, render);
    if cv.Err? then Run(Err(cv.failure), bs1, [])
    else if cv.value.Nil? then Run(Err(NullPointer), bs1, [])
    else if cv.value != Boolean(true) then Run(Ok(Plain(Nil)), bs1, [])
    else if count == 0 then Run(Err(OutOfFuel), bs1, [])
    else
      var body := Exec(b, bs1, fuel, render);
      if body.result.Err? then body
      else
        var (iv, bs2) := if incr.None? then (Ok(Nil), body.scope) else Eval(incr.value, body.scope, render);
        if iv.Err? then Run(Err(iv.failure), bs2, body.printed)
        else
          var rest := Loop(c, incr, b, bs2, fuel, count - 1, render);
          Run(rest.result, rest.scope, body.printed + rest.printed)
  }

  /** A while or for statement whose test, increment and body contain no
      function and no call. */
  predicate LoopReady(s: Stmt)
    requires s.While? || s.For?
  {
    FirstOrder(s.cond) && (s.For? ==> FirstOrder(s.incr)) && FirstOrderStmt(s.body)
  }

  /** The loop of a while or for statement, with `count` iterations left. */
  function LoopRun(s: Stmt, bs: seq<Binding<Value>>, fuel: nat, count: nat, render: Renderer): Run
    requires (s.While? || s.For?) && LoopReady(s)
  {
    Loop(s.cond, if s.For? then Some(s.incr) else None, s.body, bs, fuel, count, render)
  }

  /** `if` tests with `.equals(true)`: the then branch runs only when the
      condition is exactly `true`, so the else branch cannot matter then, and
      the then branch cannot matter for any other value, truthy or not. */
  lemma IfTakesThenOnlyOnTrue(c: Expr, t1: Stmt, t2: Stmt, f1: Option<Stmt>, f2: Option<Stmt>,
                              bs: seq<Binding<Value>>, fuel: nat, render: Renderer)
    requires FirstOrder(c) && FirstOrderStmt(t1) && FirstOrderStmt(t2)
    requires (f1.None? || FirstOrderStmt(f1.value)) && (f2.None? || FirstOrderStmt(f2.value))
    ensures var cv := Eval(c, bs, render).0;
            cv == Ok(Boolean(true)) ==> ExecIf(c, t1, f1, bs, fuel, render) == ExecIf(c, t1, f2, bs, fuel, render)
    ensures var cv := Eval(c, bs, render).0;
            cv.Ok? && cv.value != Boolean(true) ==> ExecIf(c, t1, f1, bs, fuel, render) == ExecIf(c, t2, f1, bs, fuel, render)
  {
  }

  /** A null `if` condition throws, and so does a missing else branch that is
      taken; a completed `if` yields the condition's value. */
  lemma IfOutcome(c: Expr, t: Stmt, f: Option<Stmt>, bs: seq<Binding<Value>>, fuel: nat, render: Renderer)
    requires FirstOrder(c) && FirstOrderStmt(t) && (f.None? || FirstOrderStmt(f.value))
    ensures var cv := Eval(c, bs, render).0;
            cv == Ok(Nil) || (cv.Ok? && cv.value != Boolean(true) && f.None?) ==>
              ExecIf(c, t, f, bs, fuel, render).result == Err(NullPointer)
    ensures var cv := Eval(c, bs, render).0;
            ExecIf(c, t, f, bs, fuel, render).result.Ok? ==> cv.Ok? && ExecIf(c, t, f, bs, fuel, render).result == Ok(Plain(cv.value))
  {
  }

  /** The loop test is `.equals(true)` as well: a null test throws, any value
      other than `true` ends the loop before the body runs, with nothing
      printed; a loop that completes yields null. */
  lemma {:induction false} LoopRunsBodyOnlyOnTrue(c: Expr, incr: Option<Expr>, b: Stmt, bs: seq<Binding<Value>>,
                                                  fuel: nat, count: nat, render: Renderer)
    requires FirstOrder(c) && (incr.None? || FirstOrder(incr.value)) && FirstOrderStmt(b)
    ensures var (cv, bs1) := Eval(c, bs, render);
            cv == Ok(Nil) ==> Loop(c, incr, b, bs, fuel, count, render) == Run(Err(NullPointer), bs1, [])
    ensures var (cv, bs1) := Eval(c, bs, render);
            cv.Ok? && !cv.value.Nil? && cv.value != Boolean(true) ==>
              Loop(c, incr, b, bs, fuel, count, render) == Run(Ok(Plain(Nil)), bs1, [])
    ensures Loop(c, incr, b, bs, fuel, count, render).result.Ok? ==>
              Loop(c, incr, b, bs, fuel, count, render).result == Ok(Plain(Nil))
    decreases count
  {
    var (cv, bs1) := Eval(c, bs, render);
    if cv.Ok? && cv.value == Boolean(true) && count > 0 {
      var body := Exec(b, bs1, fuel, render);
      if body.result.Ok? {
        var (iv, bs2) := if incr.None? then (Ok(Nil), body.scope) else Eval(incr.value, body.scope, render);
        if iv.Ok? {
          LoopRunsBodyOnlyOnTrue(c, incr, b, bs2, fuel, count - 1, render);
        }
      }
    }
  }

  /** `var` adds exactly one binding, in front, holding the initializer's
      value; every older name stays where it was. */
  lemma VarAddsOneBinding(name: Token, init: Expr, bs: seq<Binding<Value>>, render: Renderer)
    requires FirstOrder(init)
    ensures var run := ExecVar(name, Some(init), bs, render);
            run.result.Ok? ==>
              |run.scope| == |bs| + 1 && run.scope[0] == Binding(name.lexeme, Eval(init, bs, render).0.value)
              && BindingNames(run.scope[1..]) == BindingNames(bs)
    ensures var run := ExecVar(name, Some(init), bs, render);
            run.result.Err? ==> BindingNames(run.scope) == BindingNames(bs)
  {
    EvalKeepsNames(init, bs, render);
    var run := ExecVar(name, Some(init), bs, render);
    if run.result.Ok? {
      assert run.scope[1..] == Eval(init, bs, render).1;
    }
  }

  /** Statements only ever add bindings in front: the names bound before a
      statement are, in order, the tail of the names bound after it. */
  lemma {:induction false} ExecNamesGrow(s: Stmt, bs: seq<Binding<Value>>, fuel: nat, render: Renderer)
    requires FirstOrderStmt(s)
    ensures IsSuffix(BindingNames(bs), BindingNames(Exec(s, bs, fuel, render).scope))
    decreases s, 1
  {
    match s
    case Expression(e) => EvalKeepsNames(e, bs, render);
    case Print(e) => EvalKeepsNames(e, bs, render);
    case Var(name, init, _) =>
      if init.Some? {
        VarAddsOneBinding(name, init.value, bs, render);
        var run := Exec(s, bs, fuel, render);
        if run.result.Ok? {
          NamesTail(run.scope);
        }
      }
    case Block(ss) => ExecSeqNamesGrow(ss, bs, FreshObject, fuel, render);
    case If(c, t, f) =>
      EvalKeepsNames(c, bs, render);
      var bs1 := Eval(c, bs, render).1;
      ExecNamesGrow(t, bs1, fuel, render);
      if f.Some? {
        ExecNamesGrow(f.value, bs1, fuel, render);
      }
    case While(c, b) => LoopNamesGrow(c, None, b, bs, fuel, fuel, render);
    case For(i, c, n, b) =>
      EvalKeepsNames(i, bs, render);
      LoopNamesGrow(c, Some(n), b, Eval(i, bs, render).1, fuel, fuel, render);
  }

  lemma {:induction false} ExecSeqNamesGrow(ss: seq<Stmt>, bs: seq<Binding<Value>>, last: Yield, fuel: nat, render: Renderer)
    requires AllFirstOrderStmts(ss)
    ensures IsSuffix(BindingNames(bs), BindingNames(ExecSeq(ss, bs, last, fuel, render).scope))
    decreases ss, 0
  {
    if ss != [] {
      ExecSeqFirst(ss, bs, last, fuel, render);
      var first := Exec(ss[0], bs, fuel, render);
      ExecNamesGrow(ss[0], bs, fuel, render);
      if first.result.Ok? {
        ExecSeqNamesGrow(ss[1..], first.scope, first.result.value, fuel, render);
        SuffixTransitive(BindingNames(bs), BindingNames(first.scope),
                         BindingNames(ExecSeq(ss[1..], first.scope, first.result.value, fuel, render).scope));
      }
    }
  }

  lemma {:induction false} LoopNamesGrow(c: Expr, incr: Option<Expr>, b: Stmt, bs: seq<Binding<Value>>, fuel: nat,
                                         count: nat, render: Renderer)
    requires FirstOrder(c) && (incr.None? || FirstOrder(incr.value)) && FirstOrderStmt(b)
    ensures IsSuffix(BindingNames(bs), BindingNames(Loop(c, incr, b, bs, fuel, count, render).scope))
    decreases b, 2, count
  {
    var test := Eval(c, bs, render);
    EvalKeepsNames(c, bs, render);
    ExecNamesGrow(b, test.1, fuel, render);
    var body := Exec(b, test.1, fuel, render);
    var step := if incr.None? then (Ok(Nil), body.scope) else Eval(incr.value, body.scope, render);
    IncrKeepsNames(incr, body.scope, render);
    var names := BindingNames(bs);
    assert IsSuffix(names, BindingNames(body.scope));
    assert IsSuffix(names, BindingNames(step.1));
    LoopScopeStep(c, incr, b, bs, fuel, count, render);
    var scope := Loop(c, incr, b, bs, fuel, count, render).scope;
    if scope == test.1 {
      assert BindingNames(scope) == names;
    } else if scope == body.scope || scope == step.1 {
    } else {
      var rest := Loop(c, incr, b, step.1, fuel, count - 1, render).scope;
      LoopNamesGrow(c, incr, b, step.1, fuel, count - 1, render);
      SuffixTransitive(names, BindingNames(step.1), BindingNames(rest));
    }
  }

  /** One unrolling of a loop: it ends in the scope the test left, the scope
      the body left, the scope the increment left, or the scope the rest of
      the loop ends in. */
  lemma LoopScopeStep(c: Expr, incr: Option<Expr>, b: Stmt, bs: seq<Binding<Value>>, fuel: nat,
                      count: nat, render: Renderer)
    requires FirstOrder(c) && (incr.None? || FirstOrder(incr.value)) && FirstOrderStmt(b)
    ensures var test := Eval(c, bs, render);
            var body := Exec(b, test.1, fuel, render);
            var step := if incr.None? then (Ok(Nil), body.scope) else Eval(incr.value, body.scope, render);
            var scope := Loop(c, incr, b, bs, fuel, count, render).scope;
            scope == test.1 || scope == body.scope || scope == step.1
            || (count > 0 && scope == Loop(c, incr, b, step.1, fuel, count - 1, render).scope)
  {
  }

  /** A loop's increment, if any, keeps every name in its place. */
  lemma IncrKeepsNames(incr: Option<Expr>, bs: seq<Binding<Value>>, render: Renderer)
    requires incr.None? || FirstOrder(incr.value)
    ensures BindingNames((if incr.None? then (Ok(Nil), bs) else Eval(incr.value, bs, render)).1) == BindingNames(bs)
  {
    if incr.Some? {
      EvalKeepsNames(incr.value, bs, render);
    }
  }

  /** The names of a non-empty snapshot are its first name followed by the
      names of the rest. */
  lemma NamesTail(bs: seq<Binding<Value>>)
    requires bs != []
    ensures BindingNames(bs) == [bs[0].name] + BindingNames(bs[1..])
  {
  }

  /** Lines appended in two steps are the lines appended at once. */
  lemma AppendTwice(out: seq<string>, a: seq<string>, b: seq<string>)
    ensures (out + a) + b == out + (a + b)
  {
  }

  /** A run text with earlier lines in front. */
  function Prefixed(printed: seq<string>, run: Run): Run {
    Run(run.result, run.scope, printed + run.printed)
  }

  /** One step of a statement sequence: the first statement, then (unless it
      failed) the rest after its lines. */
  lemma ExecSeqFirst(ss: seq<Stmt>, bs: seq<Binding<Value>>, last: Yield, fuel: nat, render: Renderer)
    requires ss != [] && AllFirstOrderStmts(ss)
    ensures FirstOrderStmt(ss[0]) && AllFirstOrderStmts(ss[1..])
    ensures var first := Exec(ss[0], bs, fuel, render);
            ExecSeq(ss, bs, last, fuel, render)
              == if first.result.Err? then first
                 else Prefixed(first.printed, ExecSeq(ss[1..], first.scope, first.result.value, fuel, render))
  {
  }

  /** The bindings after defining `params[0..n)` to `vals[0..n)` one at a
      time in order: the last one defined is the nearest. */
  function Bound(params: seq<Token>, vals: seq<Value>, n: nat, bs: seq<Binding<Value>>): seq<Binding<Value>>
    requires n <= |params| && n <= |vals|
  {
    if n == 0 then bs else [Binding(params[n - 1].lexeme, vals[n - 1])] + Bound(params, vals, n - 1, bs)
  }

  function Nils(n: nat): (vs: seq<Value>)
    ensures |vs| == n && forall i :: 0 <= i < n ==> vs[i] == Nil
  {
    if n == 0 then [] else [Nil] + Nils(n - 1)
  }

  // ---------------------------------------------------------------------
  // The object structure.
  // ---------------------------------------------------------------------

  /** What all interpreters of one run share: standard output, the JVM's
      renderings, and ghost registries of the cells and functions created so
      far, which bound what evaluation may touch. */
  class Host {
    ghost var cells: set<Cell<Value>>
    ghost var funs: set<SimplfFunction>
    /** The lines printed so far, oldest first. */
    var output: seq<string>
    const render: Renderer

    constructor (render: Renderer)
      ensures this.render == render && cells == {} && funs == {} && output == [] && Valid()
    {
      this.render := render;
      cells := {};
      funs := {};
      output := [];
    }

    /** Membership in the registries, as the terms the invariant below
        triggers on. */
    ghost predicate CellRegistered(c: Cell<Value>)
      reads this`cells
    {
      c in cells
    }

    ghost predicate FunRegistered(f: SimplfFunction)
      reads this`funs
    {
      f in funs
    }

    /** A function value refers to a registered function. */
    ghost predicate ValueOk(v: Value)
      reads this`funs
    {
      v.Fn? ==> FunRegistered(v.f)
    }

    /** A well-formed environment all of whose cells are registered. */
    ghost predicate Registered(env: Environment<Value>)
      reads this`cells
    {
      env.Valid() && forall c :: c in env.Cells() ==> c in cells
    }

    /** Registered cells hold only registered functions; registered functions
        close over registered environments. */
    ghost predicate Valid()
      reads this`cells, this`funs, cells, funs
    {
      (forall c {:trigger CellRegistered(c)} :: c in cells ==> ValueOk(c.value))
      && (forall f {:trigger FunRegistered(f)} :: f in funs ==> Registered(f.closure))
    }

    /** Registers a new cell. */
    method AddCell(c: Cell<Value>)
      requires Valid() && c !in cells && ValueOk(c.value)
      modifies this`cells
      ensures cells == old(cells) + {c} && Valid()
    {
      cells := cells + {c};
      forall d | d in cells
        ensures ValueOk(d.value)
      {
        if d != c {
          assert old(CellRegistered(d));
        }
      }
      forall g | g in funs
        ensures Registered(g.closure)
      {
        assert old(FunRegistered(g));
      }
    }

    /** Registers a new function together with the new cell that binds it,
        the only cell of its closure not registered yet. */
    method AddFunction(f: SimplfFunction, c: Cell<Value>)
      requires Valid() && c !in cells && f !in funs && c.value == Fn(f)
      requires f.closure.Valid() && forall d :: d in f.closure.Cells() ==> d == c || d in cells
      modifies this`cells, this`funs
      ensures cells == old(cells) + {c} && funs == old(funs) + {f} && Valid()
    {
      cells := cells + {c};
      funs := funs + {f};
      forall d | d in cells
        ensures ValueOk(d.value)
      {
        if d != c {
          assert old(CellRegistered(d));
        }
      }
      forall g | g in funs
        ensures Registered(g.closure)
      {
        if g != f {
          assert old(FunRegistered(g)) && old(Registered(g.closure));
        }
        assert forall e :: e in g.closure.Cells() ==> e in cells;
      }
    }

    /** The cell a registered environment resolves a name to is registered,
        so it holds a value that refers only to registered functions. */
    lemma ResolvedValueOk(env: Environment<Value>, name: Token)
      requires Valid() && Registered(env)
      ensures env.Resolve(name).Ok? ==> env.Resolve(name).value in cells && ValueOk(env.Resolve(name).value.value)
    {
      if env.Resolve(name).Ok? {
        assert env.Resolve(name).value in env.Cells();
        assert CellRegistered(env.Resolve(name).value);
      }
    }

    /** Between two states of a run: the registries only grow, and the cells
        that are new were allocated in between. */
    twostate predicate Grows()
      reads this`cells, this`funs
    {
      old(cells) <= cells && fresh(cells - old(cells)) && old(funs) <= funs
    }
  }

  /** A user function (`SimplfFunction`): its declaration and the environment
      it closes over. */
  class SimplfFunction {
    const decl: FunDecl
    var closure: Environment<Value>

    constructor (decl: FunDecl, closure: Environment<Value>)
      ensures this.decl == decl && this.closure == closure
    {
      this.decl := decl;
      this.closure := closure;
    }

    /** `setClosure`. */
    method SetClosure(env: Environment<Value>)
      modifies this
      ensures closure == env
    {
      closure := env;
    }

    /** `toString`. */
    function ToString(): string {
      "<fn >"
    }

    /** `call`: defines each argument under the parameter at its position in
        the given interpreter, one after the other (a surplus argument finds no
        parameter: IndexOutOfBounds, after the others are bound); then runs the
        body there and yields what its last statement yielded, or a new object
        for an empty body. Missing arguments leave their parameters unbound. */
    method Call(interp: Interpreter, args: seq<Value>, fuel: nat) returns (r: Result<Value>)
      requires interp.Valid()
      requires forall i :: 0 <= i < |args| ==> interp.host.ValueOk(args[i])
      modifies interp, interp.host, interp.host.cells
      ensures interp.Valid() && interp.host.Grows()
      ensures r.Ok? ==> interp.host.ValueOk(r.value)
      ensures |args| > |decl.params| ==>
                r == Err(IndexOutOfBounds) && interp.host.output == old(interp.host.output)
                && interp.Scope() == Bound(decl.params, args, |decl.params|, old(interp.Scope()))
      ensures |args| <= |decl.params| && AllFirstOrderStmts(decl.body) ==>
                var run := ExecSeq(decl.body, Bound(decl.params, args, |args|, old(interp.Scope())), FreshObject, fuel,
                                   interp.host.render);
                Matches(r, run.result) && interp.Scope() == run.scope
                && interp.host.output == old(interp.host.output) + run.printed
      decreases fuel, 2
    {
      var bound := interp.BindArgs(decl.params, args);
      if bound.Err? {
        return Err(bound.failure);
      }
      r := interp.ExecuteAll(decl.body, fuel);
    }
  }

  /** The interpreter object: a host and the current environment, replaced
      each time a declaration defines a name. `fuel` parameters bound each
      loop's iterations and the nesting of calls. */
  class Interpreter {
    const host: Host
    var environment: Environment<Value>

    /** `new Interpreter(closing)`. */
    constructor (host: Host, closing: Environment<Value>)
      requires host.Valid() && host.Registered(closing)
      ensures this.host == host && environment == closing && Valid()
    {
      this.host := host;
      environment := closing;
    }

    /** `new Interpreter()`: starts in the empty global environment. */
    constructor Global(host: Host)
      requires host.Valid()
      ensures this.host == host && Valid() && Scope() == []
    {
      this.host := host;
      environment := new Environment<Value>.Empty();
    }

    ghost predicate Valid()
      reads this, host`cells, host`funs, host.cells, host.funs
    {
      host.Valid() && host.Registered(environment)
    }

    /** The bindings the current environment shows, nearest first. */
    ghost function Scope(): seq<Binding<Value>>
      reads this, environment.Cells()
    {
      Bindings(environment.Cells())
    }

    /** The define step of `visitVarStmt`: one fresh binding in front. */
    method Bind(name: Token, v: Value)
      requires Valid() && host.ValueOk(v)
      modifies this, host`cells
      ensures Valid() && host.Grows()
      ensures Scope() == [Binding(name.lexeme, v)] + old(Scope())
    {
      ghost var before := Scope();
      var env := environment.Define(name.lexeme, v);
      assert Bindings(environment.Cells()) == before;
      BindingsCons(env.data, environment.Cells());
      ghost var bs := Bindings(env.Cells());
      host.AddCell(env.data);
      assert Bindings(env.Cells()) == bs;
      environment := env;
      assert Scope() == bs;
    }

    /** The argument loop of `call`: defines `args[i]` under `params[i]`, in
        order; an argument past the last parameter fails with IndexOutOfBounds
        once every parameter is bound. */
    method BindArgs(params: seq<Token>, args: seq<Value>) returns (r: Result<()>)
      requires Valid() && forall i :: 0 <= i < |args| ==> host.ValueOk(args[i])
      modifies this, host`cells
      ensures Valid() && host.Grows()
      ensures r.Ok? <==> |args| <= |params|
      ensures r.Err? ==> r.failure == IndexOutOfBounds
      ensures Scope() == Bound(params, args, if |args| <= |params| then |args| else |params|, old(Scope()))
    {
      ghost var bs := Scope();
      var i := 0;
      while i < |args|
        invariant 0 <= i <= |args| && i <= |params|
        invariant Valid() && old(host.cells) <= host.cells && fresh(host.cells - old(host.cells)) && old(host.funs) <= host.funs
        invariant Scope() == Bound(params, args, i, bs)
      {
        if i == |params| {
          return Err(IndexOutOfBounds);
        }
        Bind(params[i], args[i]);
        i := i + 1;
      }
      return Ok(());
    }

    /** `evaluate`: dispatches to the expression visitors. Evaluation never
        replaces this interpreter's environment; in a call-free expression the
        value and the bindings afterwards are exactly what Eval says, and
        nothing is printed. */
    method Evaluate(e: Expr, fuel: nat) returns (r: Result<Value>)
      requires Valid()
      modifies host, host.cells
      ensures Valid() && host.Grows()
      ensures r.Ok? ==> host.ValueOk(r.value)
      ensures FirstOrder(e) ==> (r, Scope()) == old(Eval(e, Scope(), host.render)) && host.output == old(host.output)
      decreases fuel, 1, e, 2
    {
      match e
      case Literal(lit) =>
        r := Ok(LiteralValue(lit));
      case Grouping(x) =>
        r := Evaluate(x, fuel);
      case Variable(name) =>
        r := VisitVariable(name);
      case Unary(op, x) =>
        r := VisitUnary(op, x, fuel);
      case Binary(left, op, right) =>
        r := VisitBinary(left, op, right, fuel);
      case Logical(left, op, right) =>
        r := VisitLogical(left, op, right, fuel);
      case Assign(name, x) =>
        r := VisitAssign(name, x, fuel);
      case Conditional(_, _, _) =>
        r := VisitConditional(e, fuel);
      case Call(callee, paren, args) =>
        r := VisitCall(callee, paren, args, fuel);
    }

    /** `visitVarExpr`: the value of the first cell named by the token. */
    method VisitVariable(name: Token) returns (r: Result<Value>)
      requires Valid()
      ensures r == Lookup(Scope(), name)
      ensures r.Ok? ==> host.ValueOk(r.value)
    {
      environment.ResolveMatchesLookup(name);
      host.ResolvedValueOk(environment, name);
      var found := environment.Get(name);
      if found.Err? {
        return Err(found.failure);
      }
      r := Ok(found.value.value);
    }

    method VisitUnary(op: Token, x: Expr, fuel: nat) returns (r: Result<Value>)
      requires Valid()
      modifies host, host.cells
      ensures Valid() && host.Grows()
      ensures r.Ok? ==> host.ValueOk(r.value)
      ensures FirstOrder(Unary(op, x)) ==>
                (r, Scope()) == old(Eval(Unary(op, x), Scope(), host.render)) && host.output == old(host.output)
      decreases fuel, 1, Unary(op, x), 1
    {
      var v :- Evaluate(x, fuel);
      r := ApplyUnary(op, v);
    }

    /** `visitBinary`: left operand, then right operand, then the operator. */
    method VisitBinary(left: Expr, op: Token, right: Expr, fuel: nat) returns (r: Result<Value>)
      requires Valid()
      modifies host, host.cells
      ensures Valid() && host.Grows()
      ensures r.Ok? ==> host.ValueOk(r.value)
      ensures FirstOrder(Binary(left, op, right)) ==>
                (r, Scope()) == old(Eval(Binary(left, op, right), Scope(), host.render)) && host.output == old(host.output)
      decreases fuel, 1, Binary(left, op, right), 1
    {
      var lv :- Evaluate(left, fuel);
      var rv :- Evaluate(right, fuel);
      r := ApplyBinary(op, lv, rv, host.render);
    }

    /** `visitLogicalExpr`: OR stops at a truthy left operand, any other
        operator at a falsy one; otherwise the right operand's value. */
    method VisitLogical(left: Expr, op: Token, right: Expr, fuel: nat) returns (r: Result<Value>)
      requires Valid()
      modifies host, host.cells
      ensures Valid() && host.Grows()
      ensures r.Ok? ==> host.ValueOk(r.value)
      ensures FirstOrder(Logical(left, op, right)) ==>
                (r, Scope()) == old(Eval(Logical(left, op, right), Scope(), host.render)) && host.output == old(host.output)
      decreases fuel, 1, Logical(left, op, right), 1
    {
      var lv :- Evaluate(left, fuel);
      if op.kind == Or {
        if IsTruthy(lv) {
          return Ok(lv);
        }
      } else {
        if !IsTruthy(lv) {
          return Ok(lv);
        }
      }
      r := Evaluate(right, fuel);
    }

    /** The `environment.assign` call of `visitAssignExpr`. */
    method Store(name: Token, v: Value) returns (r: Result<()>)
      requires Valid() && host.ValueOk(v)
      modifies host.cells
      ensures Valid()
      ensures var a := old(AssignIn(Scope(), name, v));
              r == (if a.Ok? then Ok(()) else Err(a.failure)) && Scope() == if a.Ok? then a.value else old(Scope())
    {
      environment.ResolveMatchesLookup(name);
      host.ResolvedValueOk(environment, name);
      ghost var target := environment.Resolve(name);
      r := environment.Assign(name, v);
      forall c | c in host.cells
        ensures host.ValueOk(c.value)
      {
        if target.Err? || c != target.value {
          assert old(host.CellRegistered(c)) && c.value == old(c.value);
        }
      }
      forall f | f in host.funs
        ensures host.Registered(f.closure)
      {
        assert old(host.FunRegistered(f));
      }
    }

    /** `visitAssignExpr`: overwrites the cell `get` finds, in place, so every
        environment sharing that cell sees the new value. */
    method VisitAssign(name: Token, x: Expr, fuel: nat) returns (r: Result<Value>)
      requires Valid()
      modifies host, host.cells
      ensures Valid() && host.Grows()
      ensures r.Ok? ==> host.ValueOk(r.value)
      ensures FirstOrder(Assign(name, x)) ==>
                (r, Scope()) == old(Eval(Assign(name, x), Scope(), host.render)) && host.output == old(host.output)
      decreases fuel, 1, Assign(name, x), 1
    {
      ghost var bs0 := Scope();
      var v :- Evaluate(x, fuel);
      ghost var bs1 := Scope();
      ghost var a := AssignIn(bs1, name, v);
      assert FirstOrder(Assign(name, x)) ==>
               Eval(Assign(name, x), bs0, host.render) == if a.Err? then (Err(a.failure), bs1) else (Ok(v), a.value);
      var done := Store(name, v);
      if done.Err? {
        return Err(done.failure);
      }
      r := Ok(v);
    }

    /** `visitConditionalExpr`: the branch chosen by the condition's truthiness. */
    method VisitConditional(e: Expr, fuel: nat) returns (r: Result<Value>)
      requires e.Conditional?
      requires Valid()
      modifies host, host.cells
      ensures Valid() && host.Grows()
      ensures r.Ok? ==> host.ValueOk(r.value)
      ensures FirstOrder(e) ==> (r, Scope()) == old(Eval(e, Scope(), host.render)) && host.output == old(host.output)
      decreases fuel, 1, e, 1
    {
      var cv :- Evaluate(e.cond, fuel);
      var branch := if IsTruthy(cv) then e.thenBranch else e.elseBranch;
      r := Evaluate(branch, fuel);
    }

    /** `visitCallExpr`: the callee is cast to a function before any argument
        is evaluated (anything else but null fails the cast); the arguments are
        evaluated left to right; a null callee then fails when its closure is
        read; the function is called in a new interpreter over its closure. */
    method VisitCall(callee: Expr, paren: Token, args: seq<Expr>, fuel: nat) returns (r: Result<Value>)
      requires Valid()
      modifies host, host.cells
      ensures Valid() && host.Grows()
      ensures r.Ok? ==> host.ValueOk(r.value)
      ensures FirstOrder(callee) ==>
                var cv := old(Eval(callee, Scope(), host.render)).0;
                cv.Ok? && !cv.value.Fn? && !cv.value.Nil? ==> r == Err(ClassCast)
      ensures FirstOrder(callee) && AllFirstOrder(args) ==>
                var (cv, bs1) := old(Eval(callee, Scope(), host.render));
                var a := EvalArgs(args, bs1, host.render).0;
                cv == Ok(Nil) ==> r == Err(if a.Err? then a.failure else NullPointer)
      decreases fuel, 1, Call(callee, paren, args), 1
    {
      var cv :- Evaluate(callee, fuel);
      if !cv.Fn? && !cv.Nil? {
        return Err(ClassCast);
      }
      var vals :- EvaluateArgs(args, fuel);
      if cv.Nil? {
        return Err(NullPointer);
      }
      r := Invoke(cv.f, vals, fuel);
    }

    /** The call proper of `visitCallExpr`: a new interpreter over the
        function's closure runs the call. Without fuel left for one more
        nested call the call fails with OutOfFuel. */
    method Invoke(f: SimplfFunction, vals: seq<Value>, fuel: nat) returns (r: Result<Value>)
      requires Valid() && host.FunRegistered(f)
      requires forall i :: 0 <= i < |vals| ==> host.ValueOk(vals[i])
      modifies host, host.cells
      ensures Valid() && host.Grows()
      ensures r.Ok? ==> host.ValueOk(r.value)
      ensures fuel == 0 ==> r == Err(OutOfFuel)
      ensures fuel > 0 && |vals| > |f.decl.params| ==> r == Err(IndexOutOfBounds)
      ensures fuel > 0 && |vals| <= |f.decl.params| && AllFirstOrderStmts(f.decl.body) ==>
                var run := old(ExecSeq(f.decl.body, Bound(f.decl.params, vals, |vals|, Bindings(f.closure.Cells())),
                                       FreshObject, fuel - 1, host.render));
                Matches(r, run.result) && host.output == old(host.output) + run.printed
      decreases fuel, 0
    {
      if fuel == 0 {
        return Err(OutOfFuel);
      }
      var frame := new Interpreter(host, f.closure);
      r := f.Call(frame, vals, fuel - 1);
    }

    /** The argument loop of `visitCallExpr`: each argument in order, stopping
        at the first failure. */
    method EvaluateArgs(args: seq<Expr>, fuel: nat) returns (r: Result<seq<Value>>)
      requires Valid()
      modifies host, host.cells
      ensures Valid() && host.Grows()
      ensures r.Ok? ==> |r.value| == |args| && forall j :: 0 <= j < |args| ==> host.ValueOk(r.value[j])
      ensures AllFirstOrder(args) ==> (r, Scope()) == old(EvalArgs(args, Scope(), host.render)) && host.output == old(host.output)
      decreases fuel, 1, args, 0
    {
      ghost var bs := Scope();
      ghost var fo := AllFirstOrder(args);
      var vals: seq<Value> := [];
      var i := 0;
      while i < |args|
        invariant 0 <= i <= |args| && |vals| == i
        invariant Valid() && old(host.cells) <= host.cells && fresh(host.cells - old(host.cells)) && old(host.funs) <= host.funs
        invariant forall j :: 0 <= j < i ==> host.ValueOk(vals[j])
        invariant fo ==> (Ok(vals), Scope()) == EvalArgs(args[..i], bs, host.render) && host.output == old(host.output)
      {
        var a := Evaluate(args[i], fuel);
        if fo {
          assert args[..i + 1][..i] == args[..i];
        }
        if a.Err? {
          if fo {
            EvalArgsStops(args, bs, host.render, i + 1);
          }
          return Err(a.failure);
        }
        vals := vals + [a.value];
        i := i + 1;
      }
      if fo {
        assert args[..|args|] == args;
      }
      return Ok(vals);
    }

    /** `execute`: dispatches to the statement visitors. On a statement with
        no function in it, the outcome, the bindings afterwards and the lines
        printed are exactly what Exec says. */
    method Execute(s: Stmt, fuel: nat) returns (r: Result<Value>)
      requires Valid()
      modifies this, host, host.cells
      ensures Valid() && host.Grows()
      ensures r.Ok? ==> host.ValueOk(r.value)
      ensures FirstOrderStmt(s) ==>
                var run := old(Exec(s, Scope(), fuel, host.render));
                Matches(r, run.result) && Scope() == run.scope && host.output == old(host.output) + run.printed
      decreases fuel, 1, s, 2
    {
      ghost var bs := Scope();
      match s
      case Expression(e) =>
        r := Evaluate(e, fuel);
      case Print(e) =>
        r := VisitPrint(e, fuel);
        assert FirstOrderStmt(s) ==> Exec(s, bs, fuel, host.render) == ExecPrint(e, bs, host.render);
      case Var(name, init, _) =>
        r := VisitVar(name, init, fuel);
        assert FirstOrderStmt(s) ==> Exec(s, bs, fuel, host.render) == ExecVar(name, init, bs, host.render);
      case Block(ss) =>
        r := VisitBlock(ss, fuel);
        assert FirstOrderStmt(s) ==> Exec(s, bs, fuel, host.render) == ExecBlock(ss, bs, fuel, host.render);
      case If(c, t, f) =>
        r := VisitIf(c, t, f, fuel);
        assert FirstOrderStmt(s) ==> Exec(s, bs, fuel, host.render) == ExecIf(c, t, f, bs, fuel, host.render);
      case While(c, b) =>
        assert FirstOrderStmt(s) ==> LoopReady(s);
        r := RunLoop(s, fuel);
        assert FirstOrderStmt(s) ==> Exec(s, bs, fuel, host.render) == Loop(c, None, b, bs, fuel, fuel, host.render);
      case For(init, c, incr, b) =>
        r := VisitFor(s, fuel);
        assert FirstOrderStmt(s) ==> Exec(s, bs, fuel, host.render) == ExecFor(init, c, incr, b, bs, fuel, host.render);
      case Function(decl) =>
        r := VisitFunction(decl);
    }

    /** `visitPrintStmt`: prints one line, the rendering of the value. */
    method VisitPrint(e: Expr, fuel: nat) returns (r: Result<Value>)
      requires Valid()
      modifies host, host.cells
      ensures Valid() && host.Grows()
      ensures r.Ok? ==> r.value == Nil
      ensures FirstOrder(e) ==>
                var run := old(ExecPrint(e, Scope(), host.render));
                Matches(r, run.result) && Scope() == run.scope && host.output == old(host.output) + run.printed
      decreases fuel, 1, Print(e), 1
    {
      var v :- Evaluate(e, fuel);
      host.output := host.output + [Stringify(v, host.render)];
      r := Ok(Nil);
    }

    /** `visitVarStmt`: evaluates the initializer and defines the name in
        front of the current environment. */
    method VisitVar(name: Token, init: Option<Expr>, fuel: nat) returns (r: Result<Value>)
      requires Valid()
      modifies this, host, host.cells
      ensures Valid() && host.Grows()
      ensures r.Ok? ==> r.value == Nil
      ensures init.None? || FirstOrder(init.value) ==>
                var run := old(ExecVar(name, init, Scope(), host.render));
                Matches(r, run.result) && Scope() == run.scope && host.output == old(host.output) + run.printed
      decreases fuel, 1, init, 3
    {
      if init.None? {
        return Err(NullPointer);
      }
      var v :- Evaluate(init.value, fuel);
      Bind(name, v);
      r := Ok(Nil);
    }

    /** `visitBlockStmt`: runs the statements in the current environment and
        yields a new object. */
    method VisitBlock(ss: seq<Stmt>, fuel: nat) returns (r: Result<Value>)
      requires Valid()
      modifies this, host, host.cells
      ensures Valid() && host.Grows()
      ensures r.Ok? ==> r.value.Obj? && fresh(r.value.o)
      ensures AllFirstOrderStmts(ss) ==>
                var run := old(ExecBlock(ss, Scope(), fuel, host.render));
                Matches(r, run.result) && Scope() == run.scope && host.output == old(host.output) + run.printed
      decreases fuel, 1, ss, 1
    {
      var last :- ExecuteAll(ss, fuel);
      var o := new Placeholder();
      r := Ok(Obj(o));
    }

    /** `visitIfStmt`: yields the condition's value. */
    method VisitIf(c: Expr, t: Stmt, f: Option<Stmt>, fuel: nat) returns (r: Result<Value>)
      requires Valid()
      modifies this, host, host.cells
      ensures Valid() && host.Grows()
      ensures r.Ok? ==> host.ValueOk(r.value)
      ensures FirstOrder(c) && FirstOrderStmt(t) && (f.None? || FirstOrderStmt(f.value)) ==>
                var run := old(ExecIf(c, t, f, Scope(), fuel, host.render));
                Matches(r, run.result) && Scope() == run.scope && host.output == old(host.output) + run.printed
      decreases fuel, 1, If(c, t, f), 1
    {
      var b :- Evaluate(c, fuel);
      if b.Nil? {
        return Err(NullPointer);
      }
      if b != Boolean(true) && f.None? {
        return Err(NullPointer);
      }
      var branch := if b == Boolean(true) then t else f.value;
      var done :- Execute(branch, fuel);
      r := Ok(b);
    }

    /** `visitForStmt`: the initializer once, then the loop. */
    method VisitFor(s: Stmt, fuel: nat) returns (r: Result<Value>)
      requires s.For?
      requires Valid()
      modifies this, host, host.cells
      ensures Valid() && host.Grows()
      ensures r.Ok? ==> r.value == Nil
      ensures FirstOrderStmt(s) ==>
                var run := old(ExecFor(s.init, s.cond, s.incr, s.body, Scope(), fuel, host.render));
                Matches(r, run.result) && Scope() == run.scope && host.output == old(host.output) + run.printed
      decreases fuel, 1, s, 1
    {
      var v :- Evaluate(s.init, fuel);
      r := RunLoop(s, fuel);
    }

    /** The loop of `visitWhileStmt` and of `visitForStmt`: while the test is
        exactly true, the body and then (in a for loop) the increment; at most
        `fuel` iterations. Yields null. */
    method RunLoop(s: Stmt, fuel: nat) returns (r: Result<Value>)
      requires s.While? || s.For?
      requires Valid()
      modifies this, host, host.cells
      ensures Valid() && host.Grows()
      ensures r.Ok? ==> r.value == Nil
      ensures LoopReady(s) ==>
                var run := old(LoopRun(s, Scope(), fuel, fuel, host.render));
                Matches(r, run.result) && Scope() == run.scope && host.output == old(host.output) + run.printed
      decreases fuel, 1, s, 0, 1
    {
      ghost var fo := LoopReady(s);
      ghost var bs0 := Scope();
      ghost var done: seq<string> := [];
      var left: nat := fuel;
      while true
        invariant left <= fuel
        invariant Valid() && old(host.cells) <= host.cells && fresh(host.cells - old(host.cells)) && old(host.funs) <= host.funs
        invariant fo ==> host.output == old(host.output) + done
        invariant fo ==> LoopRun(s, bs0, fuel, fuel, host.render) == Prefixed(done, LoopRun(s, Scope(), fuel, left, host.render))
        decreases left
      {
        ghost var here := Scope();
        var more;
        ghost var printed;
        r, more, printed := LoopStep(s, fuel, left);
        if !more {
          if fo {
            AppendTwice(old(host.output), done, LoopRun(s, here, fuel, left, host.render).printed);
          }
          return;
        }
        if fo {
          AppendTwice(old(host.output), done, printed);
          AppendTwice(done, printed, LoopRun(s, Scope(), fuel, left - 1, host.render).printed);
          done := done + printed;
        }
        left := left - 1;
      }
    }

    /** One iteration of the loop with `left` iterations to go: the test, then
        the body and the increment. `more` says the loop goes on; then the
        rest of the loop is what is left of Loop after the lines printed. */
    method LoopStep(s: Stmt, fuel: nat, left: nat) returns (r: Result<Value>, more: bool, ghost printed: seq<string>)
      requires s.While? || s.For?
      requires Valid()
      modifies this, host, host.cells
      ensures Valid() && host.Grows()
      ensures r.Ok? ==> r.value == Nil
      ensures more ==> left > 0
      ensures LoopReady(s) ==>
                var run := old(LoopRun(s, Scope(), fuel, left, host.render));
                if more then
                  host.output == old(host.output) + printed
                  && run == Prefixed(printed, LoopRun(s, Scope(), fuel, left - 1, host.render))
                else
                  Matches(r, run.result) && Scope() == run.scope && host.output == old(host.output) + run.printed
      decreases fuel, 1, s, 0, 0
    {
      ghost var fo := LoopReady(s);
      more := false;
      printed := [];
      var c :- Evaluate(s.cond, fuel);
      if c.Nil? {
        return Err(NullPointer), false, [];
      }
      if c != Boolean(true) {
        return Ok(Nil), false, [];
      }
      if left == 0 {
        return Err(OutOfFuel), false, [];
      }
      ghost var bs1 := Scope();
      ghost var out1 := host.output;
      var b := Execute(s.body, fuel);
      ghost var body := if fo then Exec(s.body, bs1, fuel, host.render) else Run(Ok(Plain(Nil)), [], []);
      if b.Err? {
        return Err(b.failure), false, [];
      }
      if s.For? {
        var v := Evaluate(s.incr, fuel);
        if v.Err? {
          return Err(v.failure), false, [];
        }
      }
      return Ok(Nil), true, body.printed;
    }

    /** The statement loop of `visitBlockStmt`, `interpret` and `call`: the
        statements in order on the one environment field, stopping at the first
        failure; yields the last statement's value (a new object if none). */
    method ExecuteAll(ss: seq<Stmt>, fuel: nat) returns (r: Result<Value>)
      requires Valid()
      modifies this, host, host.cells
      ensures Valid() && host.Grows()
      ensures r.Ok? ==> host.ValueOk(r.value)
      ensures AllFirstOrderStmts(ss) ==>
                var run := old(ExecSeq(ss, Scope(), FreshObject, fuel, host.render));
                Matches(r, run.result) && Scope() == run.scope && host.output == old(host.output) + run.printed
      decreases fuel, 1, ss, 0, 1
    {
      ghost var last := FreshObject;
      ghost var fo := AllFirstOrderStmts(ss);
      ghost var target := if fo then ExecSeq(ss, Scope(), FreshObject, fuel, host.render) else Run(Ok(FreshObject), [], []);
      ghost var done: seq<string> := [];
      var o := new Placeholder();
      var ret := Obj(o);
      assert ss[0..] == ss;
      var i := 0;
      while i < |ss|
        invariant 0 <= i <= |ss|
        invariant Valid() && old(host.cells) <= host.cells && fresh(host.cells - old(host.cells)) && old(host.funs) <= host.funs && host.ValueOk(ret)
        invariant fo ==> AllFirstOrderStmts(ss[i..]) && Matches(Ok(ret), Ok(last))
        invariant fo ==> host.output == old(host.output) + done
        invariant fo ==> target == Prefixed(done, ExecSeq(ss[i..], Scope(), last, fuel, host.render))
      {
        var v;
        ghost var y, printed;
        v, y, printed := ExecuteNext(ss, i, last, fuel);
        if fo {
          AppendTwice(old(host.output), done, printed);
        }
        if v.Err? {
          return Err(v.failure);
        }
        if fo {
          AppendTwice(done, printed, ExecSeq(ss[i + 1..], Scope(), y, fuel, host.render).printed);
          done := done + printed;
        }
        last := y;
        ret := v.value;
        i := i + 1;
      }
      if fo {
        assert ss[i..] == [] && done + [] == done;
      }
      r := Ok(ret);
    }

    /** One statement of a statement list, `ss[i]`, run after `last` was
        yielded: if it fails, that is the outcome of the rest of the list;
        otherwise it yields `y` and the rest of the list is what is left after
        the lines it printed. */
    method ExecuteNext(ss: seq<Stmt>, i: nat, ghost last: Yield, fuel: nat) returns (v: Result<Value>, ghost y: Yield, ghost printed: seq<string>)
      requires i < |ss| && Valid()
      modifies this, host, host.cells
      ensures Valid() && host.Grows()
      ensures v.Ok? ==> host.ValueOk(v.value)
      ensures AllFirstOrderStmts(ss[i..]) ==>
                var run := old(ExecSeq(ss[i..], Scope(), last, fuel, host.render));
                host.output == old(host.output) + printed
                && if v.Err? then Matches(v, run.result) && Scope() == run.scope && printed == run.printed
                   else Matches(v, Ok(y)) && AllFirstOrderStmts(ss[i + 1..])
                        && run == Prefixed(printed, ExecSeq(ss[i + 1..], Scope(), y, fuel, host.render))
      decreases fuel, 1, ss, 0, 0
    {
      ghost var here := Scope();
      ghost var fo := AllFirstOrderStmts(ss[i..]);
      if fo {
        ExecSeqFirst(ss[i..], here, last, fuel, host.render);
        assert ss[i..][0] == ss[i] && ss[i..][1..] == ss[i + 1..];
      }
      v := Execute(ss[i], fuel);
      ghost var step := if fo then Exec(ss[i], here, fuel, host.render) else Run(Ok(FreshObject), [], []);
      printed := step.printed;
      y := if step.result.Ok? then step.result.value else FreshObject;
    }

    /** `interpret`: runs the program's statements in order; a RuntimeError
        stops the run and is reported once, any other exception escapes. */
    method Interpret(stmts: seq<Stmt>, fuel: nat) returns (end: Ending)
      requires Valid()
      modifies this, host, host.cells
      ensures Valid() && host.Grows()
      ensures AllFirstOrderStmts(stmts) ==>
                var run := old(ExecSeq(stmts, Scope(), FreshObject, fuel, host.render));
                end == EndingOf(run.result) && Scope() == run.scope && host.output == old(host.output) + run.printed
    {
      var r := ExecuteAll(stmts, fuel);
      end := EndingOf(r);
    }

    /** A new function for the declaration whose closure is a new
        environment: its name bound to the function in front of the current
        environment. Only new objects are written. */
    method MakeClosure(decl: FunDecl) returns (f: SimplfFunction, env: Environment<Value>)
      requires environment.Valid()
      ensures fresh(f) && fresh(env) && fresh(env.data) && env.Valid()
      ensures f.decl == decl && f.closure == env
      ensures env.data != null && env.data.value == Fn(f) && env.Cells() == [env.data] + environment.Cells()
      ensures Bindings(env.Cells()) == [Binding(decl.name.lexeme, Fn(f))] + Scope()
    {
      var unset := new Environment<Value>.Empty();
      f := new SimplfFunction(decl, unset);
      env := environment.Define(decl.name.lexeme, Fn(f));
      BindingsCons(env.data, environment.Cells());
      f.closure := env;
    }

    /** The first steps of `visitFunctionStmt`: a new function named by the
        declaration, bound in front of the current environment, which then
        becomes its closure. */
    method DefineFunction(decl: FunDecl) returns (f: SimplfFunction)
      requires Valid()
      modifies this, host`cells, host`funs
      ensures Valid() && host.Grows()
      ensures fresh(f) && f.decl == decl && f.closure == environment && f in host.funs
      ensures Scope() == [Binding(decl.name.lexeme, Fn(f))] + old(Scope())
    {
      ghost var before := Scope();
      var env;
      f, env := MakeClosure(decl);
      assert Scope() == before;
      ghost var bs := Bindings(env.Cells());
      host.AddFunction(f, env.data);
      assert Bindings(env.Cells()) == bs;
      environment := env;
      assert Scope() == bs;
    }

    /** The parameter loop of `visitFunctionStmt`: defines each parameter to
        null, in order, in front of the current environment, whose own
        bindings stay as they were. */
    method DefineNils(params: seq<Token>)
      requires Valid()
      modifies this, host`cells
      ensures Valid() && host.Grows()
      ensures Scope() == Bound(params, Nils(|params|), |params|, old(Scope()))
      ensures Bindings(old(environment).Cells()) == old(Scope())
    {
      ghost var bs := Scope();
      ghost var start := environment.Cells();
      ghost var nils := Nils(|params|);
      var i := 0;
      while i < |params|
        invariant 0 <= i <= |params|
        invariant Valid() && old(host.cells) <= host.cells && fresh(host.cells - old(host.cells)) && old(host.funs) <= host.funs
        invariant Scope() == Bound(params, nils, i, bs)
        invariant Bindings(start) == bs
      {
        assert nils[i] == Nil;
        Bind(params[i], Nil);
        i := i + 1;
      }
    }

    /** `visitFunctionStmt`: defines the name to a new function, makes the
        environment with that binding its closure (so it can call itself), then
        defines every parameter to null in the declaring environment, where
        they stay visible after the declaration. Yields the function. */
    method VisitFunction(decl: FunDecl) returns (r: Result<Value>)
      requires Valid()
      modifies this, host`cells, host`funs
      ensures Valid() && host.Grows()
      ensures r.Ok? && r.value.Fn? && fresh(r.value.f) && r.value.f.decl == decl && host.ValueOk(r.value)
      ensures Bindings(r.value.f.closure.Cells()) == [Binding(decl.name.lexeme, r.value)] + old(Scope())
      ensures Scope() == Bound(decl.params, Nils(|decl.params|), |decl.params|, Bindings(r.value.f.closure.Cells()))
    {
      var f := DefineFunction(decl);
      DefineNils(decl.params);
      r := Ok(Fn(f));
    }
  }
}
