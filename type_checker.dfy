/** The static pass (simplf/TypeChecker.java): a second walk over the same
    syntax tree that computes a static type per node and threads its own type
    environment with the same binding discipline as the interpreter.

    The rules are first stated as functions over a snapshot of the type
    bindings (TypeOf, CheckStmt); the TypeChecker class walks the tree with a
    mutable `environment` field, as the Java class does, and is proved to
    compute exactly what those functions say. */
module TypeChecking {
  import opened Tokens
  import opened Outcomes
  import opened Syntax
  import opened Environments
  import opened TypeEnvironments

  /** `isTruthy` of the static pass: any non-null type is truthy. */
  predicate IsTruthy(t: Ty) {
    t != None
  }

  /** `checkNumbers`: both operand types must be the same non-STRING type
      (two nulls also pass, and yield null). Building the mismatch message calls
      `toString` on both types, which throws NullPointerException on a null. */
  function CheckNumbers(op: Token, a: Ty, b: Ty): (r: Result<Ty>)
    ensures r.Ok? <==> a == b && a != Some(String)
    ensures r.Ok? ==> r.value == a
    ensures r.Err? && a.Some? && b.Some? ==>
              r.failure == RuntimeError(op, "Type mismatch. Expected " + a.value.Name() + " found " + b.value.Name())
    ensures r.Err? && (a.None? || b.None?) ==> r.failure == NullPointer
  {
    if a == b && a != Some(String) && b != Some(String) then Ok(a)
    else if a.None? || b.None? then Err(NullPointer)
    else Err(RuntimeError(op, "Type mismatch. Expected " + a.value.Name() + " found " + b.value.Name()))
  }

  /** The operator table of `visitBinary`. The equality case's Java assertion
      is disabled, so it is not a check. */
  function BinaryType(op: Token, left: Ty, right: Ty): Result<Ty> {
    match op.kind
    case Plus =>
      if left == Some(String) || right == Some(String) then Ok(Some(String)) else CheckNumbers(op, left, right)
    case Minus => CheckNumbers(op, left, right)
    case Star => CheckNumbers(op, left, right)
    case Slash => CheckNumbers(op, left, right)
    case Greater => CheckNumbers(op, left, right)
    case GreaterEqual => CheckNumbers(op, left, right)
    case Less => CheckNumbers(op, left, right)
    case LessEqual => CheckNumbers(op, left, right)
    case EqualEqual => Ok(Some(Bool))
    case BangEqual => Ok(Some(Bool))
    case Comma => Ok(right)
    case _ => Ok(None)
  }

  /** The binary rules as a table: `+` is STRING as soon as one side is, and
      otherwise behaves like arithmetic; arithmetic and comparison give back the
      common operand type (so a comparison of FLOATs is FLOAT, not BOOL); the
      equality operators are always BOOL; COMMA gives the right operand's type. */
  lemma BinaryTypeTable(op: Token, left: Ty, right: Ty)
    ensures op.kind == Plus && (left == Some(String) || right == Some(String)) ==>
              BinaryType(op, left, right) == Ok(Some(String))
    ensures op.kind == Plus && left != Some(String) && right != Some(String) ==>
              BinaryType(op, left, right) == CheckNumbers(op, left, right)
    ensures IsArithmeticOrComparison(op.kind) ==>
              (BinaryType(op, left, right).Ok? <==> left == right && left != Some(String))
    ensures IsArithmeticOrComparison(op.kind) && BinaryType(op, left, right).Ok? ==>
              BinaryType(op, left, right).value == left
    ensures op.kind in {EqualEqual, BangEqual} ==> BinaryType(op, left, right) == Ok(Some(Bool))
    ensures op.kind == Comma ==> BinaryType(op, left, right) == Ok(right)
  {
  }

  /** `visitUnary`: `-` needs FLOAT and returns it; `!` returns the operand
      type unchanged (its BOOL check is a disabled assertion). */
  function UnaryType(op: Token, operand: Ty): (r: Result<Ty>)
    ensures op.kind == Minus ==> (r.Ok? <==> operand == Some(Float))
    ensures op.kind == Minus && r.Err? ==> r.failure == RuntimeError(op, "Operand must be a number")
    ensures op.kind == Bang ==> r == Ok(operand)
    ensures op.kind !in {Minus, Bang} ==> r == Ok(None)
  {
    match op.kind
    case Minus => if operand == Some(Float) then Ok(operand) else Err(RuntimeError(op, "Operand must be a number"))
    case Bang => Ok(operand)
    case _ => Ok(None)
  }

  /** The static type of a literal. `visitLiteral` as written never produces
      one (see LiteralVisitAsWritten); this is the evident intent: the type
      named after the literal's Java class. */
  function LiteralType(lit: Lit): (t: DataType)
    ensures lit.LString? <==> t == String
    ensures lit.LNumber? <==> t == Float
    ensures lit.LBool? <==> t == Bool
    ensures lit.LNil? <==> t == Null
  {
    match lit
    case LString(_) => String
    case LNumber(_) => Float
    case LBool(_) => Bool
    case LNil => Null
  }

  /** `visitLiteral` as written: it evaluates the very same node again, so each
      visit pushes one more frame; with `depth` frames of stack left it ends in
      a stack overflow. */
  function LiteralVisitAsWritten(lit: Lit, depth: nat): Result<Ty>
    decreases depth
  {
    if depth == 0 then Err(StackOverflow) else LiteralVisitAsWritten(lit, depth - 1)
  }

  /** Whatever the stack size, visiting a literal as written never returns. */
  lemma {:induction false} LiteralVisitNeverReturns(lit: Lit, depth: nat)
    ensures LiteralVisitAsWritten(lit, depth) == Err(StackOverflow)
    decreases depth
  {
    if depth > 0 {
      LiteralVisitNeverReturns(lit, depth - 1);
    }
  }

  /** The literal case of TypeOf is the corrected visit: it yields the
      literal's type, which the visit as written never yields at any stack
      size. */
  lemma LiteralVisitCorrected(lit: Lit, scope: seq<Binding<Ty>>, depth: nat)
    ensures TypeOf(Literal(lit), scope) == Ok(Some(LiteralType(lit)))
    ensures LiteralVisitAsWritten(lit, depth) != TypeOf(Literal(lit), scope)
  {
    LiteralVisitNeverReturns(lit, depth);
  }

  /** The type the static pass computes for an expression under a snapshot of
      type bindings, mirroring the expression visitors case by case. */
  function TypeOf(e: Expr, scope: seq<Binding<Ty>>): Result<Ty>
    decreases e
  {
    match e
    case Literal(lit) => Ok(Some(LiteralType(lit)))
    case Grouping(inner) => TypeOf(inner, scope)
    case Variable(name) => LookupType(scope, name)
    case Unary(op, right) =>
      var t :- TypeOf(right, scope);
      UnaryType(op, t)
    case Binary(left, op, right) =>
      var lt :- TypeOf(left, scope);
      var rt :- TypeOf(right, scope);
      BinaryType(op, lt, rt)
    case Logical(left, op, right) =>
      var lt :- TypeOf(left, scope);
      if op.kind == Or && IsTruthy(lt) then Ok(lt)
      else if op.kind != Or && !IsTruthy(lt) then Ok(lt)
      else TypeOf(right, scope)
    case Assign(name, value) =>
      var t :- TypeOf(value, scope);
      var _ :- LookupType(scope, name);
      Ok(t)
    case Conditional(cond, thenBranch, elseBranch) =>
      var ct :- TypeOf(cond, scope);
      if IsTruthy(ct) then TypeOf(thenBranch, scope) else TypeOf(elseBranch, scope)
    case Call(callee, _, _) =>
      // The callee's type is cast to a function value: a type is never one, and
      // a null callee fails when its return type is read.
      var ct :- TypeOf(callee, scope);
      if ct.Some? then Err(ClassCast) else Err(NullPointer)
  }

  /** Logical operators short-circuit on non-null types: `or` returns a
      non-null left type and `and` a null one without looking at the right. */
  lemma LogicalShortCircuits(left: Expr, op: Token, right: Expr, scope: seq<Binding<Ty>>)
    ensures op.kind == Or && TypeOf(left, scope).Ok? && TypeOf(left, scope).value != None ==>
              TypeOf(Logical(left, op, right), scope) == TypeOf(left, scope)
    ensures op.kind != Or && TypeOf(left, scope) == Ok(None) ==>
              TypeOf(Logical(left, op, right), scope) == Ok(None)
  {
  }

  /** Assignment yields the right-hand side's type, provided the target is bound;
      it compares nothing with the target's recorded type. */
  lemma AssignTakesValueType(name: Token, value: Expr, scope: seq<Binding<Ty>>)
    requires LookupType(scope, name).Ok?
    ensures TypeOf(Assign(name, value), scope) == TypeOf(value, scope)
  {
  }

  /** `stringify` of a type, as `print` shows it in this pass. */
  function TypeText(t: Ty): string {
    match t
    case None => "nil"
    case Some(d) => d.Name()
  }

  /** The outcome of checking statements: the last visitor's result, the type
      bindings afterwards, and the lines printed on the way. On a failure the
      bindings are those made before it. */
  datatype Checked = Checked(result: Result<Ty>, scope: seq<Binding<Ty>>, printed: seq<string>)

  /** The bindings a function declaration adds for parameters `from` onwards,
      each with its declared type by position, newest first, and whether every
      parameter had a type (the Java list access fails otherwise). */
  function BindParams(params: seq<Token>, types: seq<DataType>, from: nat, scope: seq<Binding<Ty>>)
    : (r: (bool, seq<Binding<Ty>>))
    requires from <= |params|
    decreases |params| - from
  {
    if from == |params| then (true, scope)
    else if from >= |types| then (false, scope)
    else BindParams(params, types, from + 1, [Binding(params[from].lexeme, Some(types[from]))] + scope)
  }

  /** The static pass over one statement, mirroring the statement visitors. */
  function CheckStmt(s: Stmt, scope: seq<Binding<Ty>>): Checked
    decreases s, 1
  {
    match s
    case Expression(e) => Checked(TypeOf(e, scope), scope, [])
    case Print(e) => CheckPrint(e, scope)
    case Var(name, init, _) => CheckVar(name, init, scope)
    case Block(ss) => CheckBlock(ss, scope)
    case If(cond, _, elseBranch) => CheckIf(cond, elseBranch, scope)
    case While(cond, _) => CheckWhile(cond, scope)
    case For(init, cond, _, _) => CheckFor(init, cond, scope)
    case Function(decl) => CheckFunction(decl, scope)
  }

  /** `visitPrintStmt`: prints the operand's type and yields null. */
  function CheckPrint(e: Expr, scope: seq<Binding<Ty>>): Checked {
    var t := TypeOf(e, scope);
    if t.Err? then Checked(t, scope, []) else Checked(Ok(None), scope, [TypeText(t.value)])
  }

  /** `visitVarStmt`: binds the name to the initializer's type (a missing
      initializer is evaluated as null and fails) and yields NULL. */
  function CheckVar(name: Token, init: Option<Expr>, scope: seq<Binding<Ty>>): Checked {
    if init.None? then Checked(Err(NullPointer), scope, [])
    else
      var t := TypeOf(init.value, scope);
      if t.Err? then Checked(t, scope, [])
      else Checked(Ok(Some(Null)), [Binding(name.lexeme, t.value)] + scope, [])
  }

  /** `visitIfStmt`: a type is never equal to Boolean true, so only the else
      branch is checked; a null condition type or a missing else branch fails. */
  function CheckIf(cond: Expr, elseBranch: Option<Stmt>, scope: seq<Binding<Ty>>): Checked
    decreases elseBranch, 0
  {
    var ct := TypeOf(cond, scope);
    if ct.Err? then Checked(ct, scope, [])
    else if ct.value.None? || elseBranch.None? then Checked(Err(NullPointer), scope, [])
    else
      var c := CheckStmt(elseBranch.value, scope);
      if c.result.Err? then c else Checked(Ok(ct.value), c.scope, c.printed)
  }

  /** `visitWhileStmt`: the condition's type is never equal to true, so the
      body is never checked. */
  function CheckWhile(cond: Expr, scope: seq<Binding<Ty>>): Checked {
    var ct := TypeOf(cond, scope);
    if ct.Err? then Checked(ct, scope, [])
    else if ct.value.None? then Checked(Err(NullPointer), scope, [])
    else Checked(Ok(None), scope, [])
  }

  /** `visitForStmt`: the initializer and the condition once; body and
      increment never. */
  function CheckFor(init: Expr, cond: Expr, scope: seq<Binding<Ty>>): Checked {
    var it := TypeOf(init, scope);
    if it.Err? then Checked(it, scope, []) else CheckWhile(cond, scope)
  }

  /** `visitFunctionStmt`: the name is bound to the return type, then each
      parameter to its declared type; the result is the return type. */
  function CheckFunction(decl: FunDecl, scope: seq<Binding<Ty>>): Checked {
    var withName := [Binding(decl.name.lexeme, Some(decl.returnType))] + scope;
    var bound := BindParams(decl.params, decl.paramTypes, 0, withName);
    Checked(if bound.0 then Ok(Some(decl.returnType)) else Err(IndexOutOfBounds), bound.1, [])
  }

  /** A statement sequence, in order, stopping at the first failure. */
  function CheckBlock(ss: seq<Stmt>, scope: seq<Binding<Ty>>): Checked
    decreases ss, 0
  {
    if ss == [] then Checked(Ok(Some(Null)), scope, [])
    else
      var first := CheckStmt(ss[0], scope);
      if first.result.Err? then first
      else
        var rest := CheckBlock(ss[1..], first.scope);
        Checked(rest.result, rest.scope, first.printed + rest.printed)
  }

  lemma CheckBlockStep(ss: seq<Stmt>, scope: seq<Binding<Ty>>)
    requires ss != []
    ensures var first := CheckStmt(ss[0], scope);
            CheckBlock(ss, scope)
            == if first.result.Err? then first
               else var rest := CheckBlock(ss[1..], first.scope);
                    Checked(rest.result, rest.scope, first.printed + rest.printed)
  {
  }

  /** A block that checks without failure yields NULL, whatever its last
      statement yielded. */
  lemma {:induction false} BlockYieldsNull(ss: seq<Stmt>, scope: seq<Binding<Ty>>)
    ensures CheckBlock(ss, scope).result.Ok? ==> CheckBlock(ss, scope).result == Ok(Some(Null))
    decreases ss
  {
    if ss != [] {
      var first := CheckStmt(ss[0], scope);
      if first.result.Ok? {
        BlockYieldsNull(ss[1..], first.scope);
      }
    }
  }

  lemma ConcatAssoc<T>(a: seq<T>, b: seq<T>, c: seq<T>)
    ensures a + (b + c) == (a + b) + c
  {
  }

  /** `if` never looks at its then-branch. This holds by construction: the
      `If` case of CheckStmt never reads the then-branch, so the lemma only
      records that the model keeps this trait of the source. */
  lemma IfIgnoresThenBranch(cond: Expr, then1: Stmt, then2: Stmt, elseBranch: Option<Stmt>, scope: seq<Binding<Ty>>)
    ensures CheckStmt(If(cond, then1, elseBranch), scope) == CheckStmt(If(cond, then2, elseBranch), scope)
  {
  }

  /** `while` and `for` test their condition once and never look at the body
      or the increment: a non-null condition type ends the loop at once. The
      first two clauses hold by construction, since the loop cases of
      CheckStmt never read the body or the increment. */
  lemma LoopsIgnoreBody(cond: Expr, init: Expr, incr1: Expr, incr2: Expr, body1: Stmt, body2: Stmt, scope: seq<Binding<Ty>>)
    ensures CheckStmt(While(cond, body1), scope) == CheckStmt(While(cond, body2), scope)
    ensures CheckStmt(For(init, cond, incr1, body1), scope) == CheckStmt(For(init, cond, incr2, body2), scope)
    ensures TypeOf(cond, scope).Ok? && TypeOf(cond, scope).value != None ==>
              CheckStmt(While(cond, body1), scope) == Checked(Ok(None), scope, [])
  {
  }

  /** A variable declaration binds the name to the initializer's type whatever
      type was declared, and yields NULL. */
  lemma VarBindsInitializerType(name: Token, init: Expr, declared1: DataType, declared2: DataType,
                                scope: seq<Binding<Ty>>)
    requires TypeOf(init, scope).Ok?
    ensures CheckStmt(Var(name, Some(init), declared1), scope) == CheckStmt(Var(name, Some(init), declared2), scope)
    ensures CheckStmt(Var(name, Some(init), declared1), scope)
            == Checked(Ok(Some(Null)), [Binding(name.lexeme, TypeOf(init, scope).value)] + scope, [])
  {
  }

  /** With one declared type per parameter, a function declaration binds the
      name to its return type and then every parameter to its declared type,
      so the newest binding is the last parameter's. */
  lemma {:induction false} BindParamsSpec(params: seq<Token>, types: seq<DataType>, from: nat,
                                          scope: seq<Binding<Ty>>)
    requires from <= |params| <= |types|
    ensures BindParams(params, types, from, scope).0
    ensures var added := BindParams(params, types, from, scope).1;
            |added| == |params| - from + |scope| && added[|params| - from..] == scope &&
            forall i :: from <= i < |params| ==>
              added[|params| - 1 - i] == Binding(params[i].lexeme, Some(types[i]))
    decreases |params| - from
  {
    if from < |params| {
      var b := Binding(params[from].lexeme, Some(types[from]));
      BindParamsSpec(params, types, from + 1, [b] + scope);
      var added := BindParams(params, types, from, scope).1;
      assert added[|params| - from..] == added[|params| - (from + 1)..][1..];
    }
  }

  /** Too few declared types: the declaration fails with IndexOutOfBounds. */
  lemma {:induction false} BindParamsShortTypes(params: seq<Token>, types: seq<DataType>, from: nat,
                                                scope: seq<Binding<Ty>>)
    requires from <= |types| < |params|
    ensures !BindParams(params, types, from, scope).0
    decreases |params| - from
  {
    if from < |types| {
      BindParamsShortTypes(params, types, from + 1, [Binding(params[from].lexeme, Some(types[from]))] + scope);
    }
  }

  /** Checking only ever adds bindings in front of the current ones. */
  lemma {:induction false} ScopeOnlyGrows(s: Stmt, scope: seq<Binding<Ty>>)
    ensures IsSuffix(scope, CheckStmt(s, scope).scope)
    decreases s, 1
  {
    match s
    case Block(ss) => BlockScopeOnlyGrows(ss, scope);
    case If(cond, _, elseBranch) =>
      var ct := TypeOf(cond, scope);
      if ct.Ok? && ct.value.Some? && elseBranch.Some? {
        ScopeOnlyGrows(elseBranch.value, scope);
      } else {
        assert CheckStmt(s, scope).scope == scope;
      }
    case Var(name, init, _) =>
      if init.Some? && TypeOf(init.value, scope).Ok? {
        SuffixOfCons(Binding(name.lexeme, TypeOf(init.value, scope).value), scope);
      } else {
        assert CheckStmt(s, scope).scope == scope;
      }
    case Function(decl) =>
      var b := Binding(decl.name.lexeme, Some(decl.returnType));
      SuffixOfCons(b, scope);
      ParamsOnlyGrow(decl.params, decl.paramTypes, 0, [b] + scope);
      SuffixTransitive(scope, [b] + scope, CheckStmt(s, scope).scope);
    case _ =>
      assert CheckStmt(s, scope).scope == scope;
  }

  lemma {:induction false} BlockScopeOnlyGrows(ss: seq<Stmt>, scope: seq<Binding<Ty>>)
    ensures IsSuffix(scope, CheckBlock(ss, scope).scope)
    decreases ss, 0
  {
    if ss != [] {
      ScopeOnlyGrows(ss[0], scope);
      var first := CheckStmt(ss[0], scope);
      if first.result.Ok? {
        BlockScopeOnlyGrows(ss[1..], first.scope);
        SuffixTransitive(scope, first.scope, CheckBlock(ss[1..], first.scope).scope);
      }
    } else {
      assert CheckBlock(ss, scope).scope == scope;
    }
  }

  lemma {:induction false} ParamsOnlyGrow(params: seq<Token>, types: seq<DataType>, from: nat,
                                          scope: seq<Binding<Ty>>)
    requires from <= |params|
    ensures IsSuffix(scope, BindParams(params, types, from, scope).1)
    decreases |params| - from
  {
    if from < |params| && from < |types| {
      var b := Binding(params[from].lexeme, Some(types[from]));
      SuffixOfCons(b, scope);
      ParamsOnlyGrow(params, types, from + 1, [b] + scope);
      SuffixTransitive(scope, [b] + scope, BindParams(params, types, from, scope).1);
    } else {
      assert BindParams(params, types, from, scope).1 == scope;
    }
  }

  lemma SuffixOfCons<U>(b: U, s: seq<U>)
    ensures IsSuffix(s, [b] + s)
  {
    assert ([b] + s)[1..] == s;
  }

  /** The parameter loop of `visitFunctionStmt`: defines each parameter with
      the declared type at its position, advancing the environment, and stops
      with `complete` false when the types run out. */
  method DefineParams(env0: TypeEnvironment, params: seq<Token>, types: seq<DataType>)
    returns (env: TypeEnvironment, complete: bool)
    requires env0.Valid()
    ensures env.Valid()
    ensures complete == BindParams(params, types, 0, env0.Scope()).0
    ensures env.Scope() == BindParams(params, types, 0, env0.Scope()).1
  {
    env := env0;
    ghost var scope := env.Scope();
    ghost var target := BindParams(params, types, 0, scope);
    var i := 0;
    while i < |params| && i < |types|
      invariant 0 <= i <= |params| && i <= |types|
      invariant env.Valid()
      invariant env.Scope() == scope
      invariant BindParams(params, types, i, scope) == target
    {
      var t := params[i];
      ghost var before := env;
      env := env.Define(t.lexeme, Some(types[i]));
      assert before.Scope() == scope;
      scope := [Binding(t.lexeme, Some(types[i]))] + scope;
      i := i + 1;
    }
    complete := i == |params|;
  }

  /** The bindings of `visitFunctionStmt`, from a given environment. */
  method BindFunction(env0: TypeEnvironment, decl: FunDecl) returns (env: TypeEnvironment, complete: bool)
    requires env0.Valid()
    ensures env.Valid()
    ensures complete == CheckFunction(decl, env0.Scope()).result.Ok?
    ensures env.Scope() == CheckFunction(decl, env0.Scope()).scope
  {
    var named := env0.Define(decl.name.lexeme, Some(decl.returnType));
    env, complete := DefineParams(named, decl.params, decl.paramTypes);
  }

  class TypeChecker {
    var environment: TypeEnvironment
    /** The lines `print` statements have written, oldest first. */
    var output: seq<string>

    /** `new TypeChecker()`: starts from a fresh, empty environment. */
    constructor ()
      ensures environment.Valid() && environment.Cells() == [] && output == []
    {
      environment := new TypeEnvironment.Empty();
      output := [];
    }

    /** `new TypeChecker(closing)`: starts from the given environment. */
    constructor Closing(closing: TypeEnvironment)
      requires closing.Valid()
      ensures environment == closing && output == []
    {
      environment := closing;
      output := [];
    }

    /** Every expression visitor: the computed type is exactly TypeOf under the
        current bindings, and nothing is changed. */
    method Evaluate(e: Expr) returns (r: Result<Ty>)
      requires environment.Valid()
      ensures r == TypeOf(e, environment.Scope())
      decreases e
    {
      match e
      case Literal(lit) =>
        r := Ok(Some(LiteralType(lit)));
      case Grouping(inner) =>
        r := Evaluate(inner);
      case Variable(name) =>
        var found := environment.Get(name);
        environment.ResolveMatchesScope(name);
        if found.Err? {
          return Err(found.failure);
        }
        r := Ok(found.value.value);
      case Unary(op, right) =>
        var t :- Evaluate(right);
        r := UnaryType(op, t);
      case Binary(left, op, right) =>
        var lt :- Evaluate(left);
        var rt :- Evaluate(right);
        r := BinaryType(op, lt, rt);
      case Logical(left, op, right) =>
        var lt :- Evaluate(left);
        if op.kind == Or {
          if IsTruthy(lt) {
            return Ok(lt);
          }
        } else {
          if !IsTruthy(lt) {
            return Ok(lt);
          }
        }
        r := Evaluate(right);
      case Assign(name, value) =>
        var t :- Evaluate(value);
        var checked := environment.Assign(name, t);
        environment.ResolveMatchesScope(name);
        if checked.Err? {
          return Err(checked.failure);
        }
        r := Ok(t);
      case Conditional(cond, thenBranch, elseBranch) =>
        var ct :- Evaluate(cond);
        if IsTruthy(ct) {
          r := Evaluate(thenBranch);
        } else {
          r := Evaluate(elseBranch);
        }
      case Call(callee, _, _) =>
        var ct :- Evaluate(callee);
        if ct.Some? {
          return Err(ClassCast);
        }
        r := Err(NullPointer);
    }

    /** `execute`: dispatches to the statement visitors. The result, the
        bindings afterwards and the printed lines are exactly those CheckStmt
        gives for the bindings before (so, by ScopeOnlyGrows, bindings are only
        ever added in front). */
    method Execute(s: Stmt) returns (r: Result<Ty>)
      requires environment.Valid()
      modifies this
      ensures environment.Valid()
      ensures var c := old(CheckStmt(s, environment.Scope()));
              r == c.result && environment.Scope() == c.scope && output == old(output) + c.printed
      decreases s, 2
    {
      ghost var scope := environment.Scope();
      match s
      case Expression(e) =>
        r := Evaluate(e);
      case Print(e) =>
        r := VisitPrintStmt(e);
        assert environment.Scope() == scope;
        assert CheckStmt(s, scope) == CheckPrint(e, scope);
      case Var(name, init, _) =>
        r := VisitVarStmt(name, init);
        assert CheckStmt(s, scope) == CheckVar(name, init, scope);
      case Block(ss) =>
        r := VisitBlockStmt(ss);
        assert CheckStmt(s, scope) == CheckBlock(ss, scope);
      case If(cond, _, elseBranch) =>
        r := VisitIfStmt(cond, elseBranch);
        assert CheckStmt(s, scope) == CheckIf(cond, elseBranch, scope);
      case While(cond, _) =>
        r := VisitWhileStmt(cond);
        assert CheckStmt(s, scope) == CheckWhile(cond, scope) && CheckWhile(cond, scope).printed == [];
      case For(init, cond, _, _) =>
        r := VisitForStmt(init, cond);
        assert CheckStmt(s, scope) == CheckFor(init, cond, scope) && CheckFor(init, cond, scope).printed == [];
      case Function(decl) =>
        r := DeclareFunction(decl);
        assert CheckStmt(s, scope) == CheckFunction(decl, scope);
    }

    method VisitPrintStmt(e: Expr) returns (r: Result<Ty>)
      requires environment.Valid()
      modifies this
      ensures environment == old(environment)
      ensures var c := CheckPrint(e, environment.Scope());
              r == c.result && output == old(output) + c.printed
    {
      var t :- Evaluate(e);
      output := output + [TypeText(t)];
      r := Ok(None);
    }

    method VisitVarStmt(name: Token, init: Option<Expr>) returns (r: Result<Ty>)
      requires environment.Valid()
      modifies this
      ensures environment.Valid() && output == old(output)
      ensures var c := old(CheckVar(name, init, environment.Scope()));
              r == c.result && environment.Scope() == c.scope
    {
      if init.None? {
        return Err(NullPointer);
      }
      var t :- Evaluate(init.value);
      var env := environment;
      environment := env.Define(name.lexeme, t);
      assert old(environment.Scope()) == env.Scope();
      r := Ok(Some(Null));
    }

    method VisitBlockStmt(ss: seq<Stmt>) returns (r: Result<Ty>)
      requires environment.Valid()
      modifies this
      ensures environment.Valid()
      ensures var c := old(CheckBlock(ss, environment.Scope()));
              r == c.result && environment.Scope() == c.scope && output == old(output) + c.printed
      decreases ss, 1
    {
      BlockYieldsNull(ss, environment.Scope());
      r := ExecuteAll(ss);
      if r.Ok? {
        r := Ok(Some(Null));
      }
    }

    method VisitIfStmt(cond: Expr, elseBranch: Option<Stmt>) returns (r: Result<Ty>)
      requires environment.Valid()
      modifies this
      ensures environment.Valid()
      ensures var c := old(CheckIf(cond, elseBranch, environment.Scope()));
              r == c.result && environment.Scope() == c.scope && output == old(output) + c.printed
      decreases elseBranch, 1
    {
      ghost var scope := environment.Scope();
      var ct :- Evaluate(cond);
      if ct.None? || elseBranch.None? {
        return Err(NullPointer);
      }
      ghost var c := CheckStmt(elseBranch.value, scope);
      assert CheckIf(cond, elseBranch, scope) == if c.result.Err? then c else Checked(Ok(ct), c.scope, c.printed);
      var er := Execute(elseBranch.value);
      if er.Err? {
        return er;
      }
      r := Ok(ct);
    }

    /** `visitWhileStmt`: its loop test fails at once (or throws on a null
        type), so the loop never runs. */
    method VisitWhileStmt(cond: Expr) returns (r: Result<Ty>)
      requires environment.Valid()
      ensures r == CheckWhile(cond, environment.Scope()).result
    {
      var ct :- Evaluate(cond);
      if ct.None? {
        return Err(NullPointer);
      }
      r := Ok(None);
    }

    method VisitForStmt(init: Expr, cond: Expr) returns (r: Result<Ty>)
      requires environment.Valid()
      ensures r == CheckFor(init, cond, environment.Scope()).result
    {
      var it :- Evaluate(init);
      var ct :- Evaluate(cond);
      if ct.None? {
        return Err(NullPointer);
      }
      r := Ok(None);
    }

    /** `visitFunctionStmt`: binds the name to the return type, then each
        parameter to its declared type, advancing the environment each time. */
    method DeclareFunction(decl: FunDecl) returns (r: Result<Ty>)
      requires environment.Valid()
      modifies this
      ensures environment.Valid() && output == old(output)
      ensures var c := old(CheckFunction(decl, environment.Scope()));
              r == c.result && environment.Scope() == c.scope
    {
      var env, complete := BindFunction(environment, decl);
      environment := env;
      if !complete {
        return Err(IndexOutOfBounds);
      }
      r := Ok(Some(decl.returnType));
    }

    /** The statement loop shared by `visitBlockStmt` and `interpret`: runs the
        statements in order on the same environment field, with no save or
        restore, and stops at the first failure. */
    method ExecuteAll(ss: seq<Stmt>) returns (r: Result<Ty>)
      requires environment.Valid()
      modifies this
      ensures environment.Valid()
      ensures var c := old(CheckBlock(ss, environment.Scope()));
              r == c.result && environment.Scope() == c.scope && output == old(output) + c.printed
      decreases ss, 0
    {
      ghost var scope := environment.Scope();
      ghost var target := CheckBlock(ss, scope);
      ghost var done: seq<string> := [];
      assert ss[0..] == ss;
      var i := 0;
      while i < |ss|
        invariant 0 <= i <= |ss|
        invariant environment.Valid() && environment.Scope() == scope
        invariant output == old(output) + done
        invariant var rest := CheckBlock(ss[i..], scope);
                  target == Checked(rest.result, rest.scope, done + rest.printed)
      {
        ghost var step := CheckStmt(ss[i], scope);
        CheckBlockStep(ss[i..], scope);
        assert ss[i..][0] == ss[i] && ss[i..][1..] == ss[i + 1..];
        var r1 := Execute(ss[i]);
        if r1.Err? {
          assert CheckBlock(ss[i..], scope) == step;
          ConcatAssoc(old(output), done, step.printed);
          return r1;
        }
        ghost var rest := CheckBlock(ss[i + 1..], step.scope);
        assert CheckBlock(ss[i..], scope) == Checked(rest.result, rest.scope, step.printed + rest.printed);
        ConcatAssoc(done, step.printed, rest.printed);
        ConcatAssoc(old(output), done, step.printed);
        done := done + step.printed;
        scope := step.scope;
        i := i + 1;
      }
      r := Ok(Some(Null));
    }

    /** `interpret`: runs the program's statements in order; a RuntimeError
        stops the run and is reported once, any other exception escapes. */
    method Interpret(stmts: seq<Stmt>) returns (end: Ending)
      requires environment.Valid()
      modifies this
      ensures environment.Valid()
      ensures var c := old(CheckBlock(stmts, environment.Scope()));
              end == EndingOf(c.result) && environment.Scope() == c.scope && output == old(output) + c.printed
    {
      var r := ExecuteAll(stmts);
      end := EndingOf(r);
    }
  }
}
