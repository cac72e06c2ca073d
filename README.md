# simplf core in Dafny

simplf is a small interpreted language. Its parser builds a syntax tree that
two tree-walkers visit:

- the `Interpreter`, which evaluates the program;
- the `TypeChecker`, which computes a static `DataType` for each node.

Each walker keeps its environment in a persistent association list. Defining a
name prepends a fresh cell and yields a new environment. Assigning to a name
overwrites the value of an existing cell in place. Every environment whose
chain holds that cell sees the change.

This project models that core in Dafny:

- `tokens.dfy` (module `Tokens`): tokens, token kinds and static types as values.
- `outcomes.dfy` (module `Outcomes`): the exceptions the core raises, as a
  `Result`, and how `interpret` ends.
- `syntax.dfy` (module `Syntax`): the syntax tree the walkers visit.
- `environment.dfy` (module `Environments`): association cells as heap
  objects, and `Environment` as a class with `Define`, `Get` and `Assign`.
  - `Bindings` reads a chain as a snapshot.
  - `Lookup` and `AssignIn` state what `get` and `assign` mean on that snapshot.
  - Scenario methods show shadowing and aliasing through the real methods.
- `type_environment.dfy` (module `TypeEnvironments`): the type environment.
  Its lookup loop is slightly different, its diagnostic names the lexeme, and
  its `assign` changes nothing.
- `type_checker.dfy` (module `TypeChecking`):
  - reference functions (`TypeOf`, `CheckStmt`, `CheckBlock`) that state the
    static rules;
  - a `TypeChecker` class whose visitor methods update a mutable `environment`
    field and are proved equal to those functions;
  - lemmas about the rules.
- `interpreter.dfy` (module `Evaluation`):
  - runtime values and the operator rules (`ApplyBinary`, `ApplyUnary`);
  - a reference semantics (`Eval`, `Exec`, `ExecSeq`, `Loop`) for programs
    that neither declare nor call functions;
  - the `Interpreter` class, whose visitors run over the shared heap cells;
  - `SimplfFunction` objects, whose closure is the environment holding their
    own binding.

  Each visitor is proved to agree with the reference semantics wherever that
  semantics applies. A ghost `Host` records the cells and functions created so
  far; this is what lets the proofs bound what a call may touch.

Java's `null`, `ClassCastException`, `NullPointerException`,
`IndexOutOfBoundsException` and `StackOverflowError` are failures in the
model. They appear exactly where the code as written raises them. Examples:
- `if` on a null condition;
- `var x;` with no initializer, which evaluates a null node;
- calling a value that is not a function;
- `get` on an environment that has no cells.

Java assertions are disabled by default, so `assert` statements in the source
check nothing and the model does not check them either.

## Model

| member | source | states |
|---|---|---|
| Tokens.NewToken | simplf/Token.java:10-16 | The five-argument constructor keeps kind, lexeme, literal, line and column, and leaves the static type unset. |
| Tokens.NewTypedToken | simplf/Token.java:18-25 | The six-argument constructor keeps every field, including the static type it is given. |
| Tokens.IntText | simplf/Token.java:27-29 | The decimal text of a line or column is non-empty, begins with '-' exactly when the number is negative, and reads back (`SignedValue`) as the number itself. |
| Tokens.NatText | simplf/Token.java:27-29 | The decimal text of a non-negative number is a non-empty string of digits that reads back (`DigitsValue`) as the number itself. |
| Tokens.ToString | simplf/Token.java:27-29 | The rendering is the six field renderings (kind, lexeme, data type, literal, line, column) joined with ", " and enclosed in angle brackets. |
| Tokens.JoinSix | simplf/Token.java:28 | Joining six parts with a separator puts the separator between each neighbouring pair and nowhere else. |
| Outcomes.UndefinedSymbolError | simplf/Environment.java:55-58 | A failed lookup names the token and its message is "Undefined Symbol: " followed by the shown text. |
| Outcomes.EndingOf | simplf/Interpreter.java:17-25 | A run completes exactly when nothing failed. It is reported exactly when a RuntimeError stopped it, and then carries that error; any other failure escapes the handler, carried as it was raised. |
| Environments.Cell.constructor | simplf/Environment.java:36 | A new cell holds the name and value, and links to the previous chain unchanged. |
| Environments.ChainDistinct | simplf/Environment.java:35-40 | A chain built by repeated `define` never holds the same cell twice. |
| Environments.FirstMatch | simplf/Environment.java:48-61 | The search position is the first cell whose name equals the token's literal, or the chain's length when no cell has that name. |
| Environments.StoreAt | simplf/Environment.java:42-46 | Writing one cell's value changes that binding of the snapshot and no other. |
| Environments.Lookup | simplf/Environment.java:48-61 | Lookup succeeds exactly when some binding has the token's literal as its name. An empty list fails with a null dereference. Otherwise a miss fails with "Undefined Symbol: " and the literal. |
| Environments.AssignIn | simplf/Environment.java:42-46 | Assignment fails exactly when lookup fails, with the same failure. Afterwards the name reads as the new value and every other name reads as before. The names and their order are unchanged. |
| Environments.Environment.Empty | simplf/Environment.java:8-10 | A fresh environment has no cells. |
| Environments.Environment.FromList | simplf/Environment.java:16-19 | An environment over a given chain shows exactly that chain. |
| Environments.Environment.ResolveMatchesLookup | simplf/Environment.java:48-61 | The cell `get` resolves holds what `Lookup` reads from the snapshot, and both fail alike. |
| Environments.Environment.Define | simplf/Environment.java:35-40 | `define` returns a new environment whose chain is one fresh cell (name, value) in front of the receiver's chain. The receiver is untouched. |
| Environments.Environment.Get | simplf/Environment.java:48-61 | The loop over the cells returns exactly the resolved cell or the resolved failure, including the null dereference on an empty list. |
| Environments.Environment.Assign | simplf/Environment.java:42-46 | The new snapshot is what `AssignIn` prescribes for the old one, and the failure is the one lookup reports. The resolved cell holds the new value. |
| Environments.DefineShadows | simplf/Environment.java:35-40 | After `define`, the new cell is what the defined name resolves to. |
| Environments.DefineKeepsOthers | simplf/Environment.java:35-40 | After `define`, every other name resolves as in the older environment: to the same cell when the older one resolves it, and to an undefined-symbol error otherwise. |
| Environments.ShadowingScenario | simplf/Environment.java:35-61 | After x is defined twice, the newer environment reads the second value and the middle one still reads the first. |
| Environments.AliasingScenario | simplf/Environment.java:35-61 | An assignment through an extended environment is visible through the older one that shares the cell. The environment from before the definition of x, which holds only y, still cannot see x and still sees y's value. |
| TypeEnvironments.LookupType | simplf/TypeEnvironment.java:48-61 | Type lookup succeeds exactly when some binding has the token's literal as its name. A miss, including an empty list, fails with "Undefined Symbol: " and the lexeme. |
| TypeEnvironments.LookupAfterBind | simplf/TypeEnvironment.java:35-40 | The newest binding of a name wins, and bindings of other names are looked up past it. |
| TypeEnvironments.TypeEnvironment.Empty | simplf/TypeEnvironment.java:8-10 | A fresh type environment has no cells. |
| TypeEnvironments.TypeEnvironment.FromList | simplf/TypeEnvironment.java:16-19 | A type environment over a chain shows exactly that chain. |
| TypeEnvironments.TypeEnvironment.ResolveMatchesScope | simplf/TypeEnvironment.java:48-61 | The cell `get` resolves holds what `LookupType` reads from the snapshot, and both fail alike. |
| TypeEnvironments.TypeEnvironment.Define | simplf/TypeEnvironment.java:35-40 | `define` returns a new type environment with one fresh binding in front. The receiver's bindings are unchanged. |
| TypeEnvironments.TypeEnvironment.Get | simplf/TypeEnvironment.java:48-61 | The null-guarded loop returns exactly the resolved cell or the Undefined Symbol failure. |
| TypeEnvironments.TypeEnvironment.Assign | simplf/TypeEnvironment.java:42-46 | `assign` fails exactly when the name is unbound, with that failure, and changes nothing. |
| TypeEnvironments.RedefineScenario | simplf/TypeEnvironment.java:35-61 | After a redefinition the newer type environment gives the new type and the older one still gives the old type. |
| TypeChecking.CheckNumbers | simplf/TypeChecker.java:231-235 | Two types pass exactly when they are equal and not STRING, and the common type is the result. A mismatch of two types is a RuntimeError that names both. A mismatch involving null is a NullPointerException. |
| TypeChecking.BinaryTypeTable | simplf/TypeChecker.java:115-143 | `+` is STRING when either side is, and otherwise acts as arithmetic. Arithmetic and comparisons yield the common operand type. `==` and `!=` are BOOL. COMMA yields the right type. |
| TypeChecking.UnaryType | simplf/TypeChecker.java:146-159 | `-` accepts exactly FLOAT and otherwise fails with "Operand must be a number". `!` returns the operand type. Other operators give null. |
| TypeChecking.LiteralType | simplf/TypeChecker.java:161-164 | Each kind of literal has its own type: STRING, FLOAT, BOOL or NULL. This is the corrected rule; see Findings. |
| TypeChecking.LiteralVisitNeverReturns | simplf/TypeChecker.java:161-164 | `visitLiteral` as written ends in a stack overflow whatever the stack depth. |
| TypeChecking.LiteralVisitCorrected | simplf/TypeChecker.java:161-164 | The literal case of `TypeOf` yields the literal's type, which the visit as written never yields. |
| TypeChecking.LogicalShortCircuits | simplf/TypeChecker.java:101-112 | `or` returns a non-null left type, and `and` a null left type, without checking the right operand. |
| TypeChecking.AssignTakesValueType | simplf/TypeChecker.java:191-197 | Assigning to a bound name yields the value's type, without comparing it to the recorded type. |
| TypeChecking.BlockYieldsNull | simplf/TypeChecker.java:51-58 | A statement list that checks without failure yields NULL. |
| TypeChecking.IfIgnoresThenBranch | simplf/TypeChecker.java:60-70 | The outcome of checking an `if` does not depend on its then branch, because a type never equals `true`. This holds by construction of `CheckStmt`. |
| TypeChecking.LoopsIgnoreBody | simplf/TypeChecker.java:72-88 | Checking `while` and `for` never depends on the body or the increment (by construction of `CheckStmt`), and a non-null condition type ends the loop at once. |
| TypeChecking.VarBindsInitializerType | simplf/TypeChecker.java:40-49 | A declaration binds the name to the initializer's type, whatever type was declared, and yields NULL. |
| TypeChecking.BindParamsSpec | simplf/TypeChecker.java:90-99 | With a type for every parameter, each parameter is bound to its declared type by position, with the last one nearest, on top of the outer bindings. |
| TypeChecking.BindParamsShortTypes | simplf/TypeChecker.java:94-97 | With fewer declared types than parameters, binding fails with an index out of bounds. |
| TypeChecking.ScopeOnlyGrows | simplf/TypeChecker.java:40-99 | Checking a statement only adds bindings in front, so the old bindings are a suffix of the new ones. |
| TypeChecking.BlockScopeOnlyGrows | simplf/TypeChecker.java:51-58 | Checking a statement list only adds bindings in front. |
| TypeChecking.ParamsOnlyGrow | simplf/TypeChecker.java:94-97 | Binding parameters only adds bindings in front. |
| TypeChecking.DefineParams | simplf/TypeChecker.java:94-97 | The loop over the parameters leaves the bindings `BindParams` prescribes, and reports whether every parameter had a type. |
| TypeChecking.BindFunction | simplf/TypeChecker.java:90-99 | The name followed by the parameters leaves exactly the bindings and the success that `CheckFunction` prescribes. |
| TypeChecking.TypeChecker.constructor | simplf/TypeChecker.java:9-12 | A new checker starts with an empty type environment. |
| TypeChecking.TypeChecker.Closing | simplf/TypeChecker.java:13-15 | A checker over a closing environment starts in it. |
| TypeChecking.TypeChecker.Evaluate | simplf/TypeChecker.java:101-206 | Each expression visitor computes the static type `TypeOf` assigns under the current bindings, including its failures. This covers the cast failures of `visitCallExpr`. |
| TypeChecking.TypeChecker.Execute | simplf/TypeChecker.java:27-99 | Each statement visitor yields, binds and prints what `CheckStmt` prescribes. |
| TypeChecking.TypeChecker.VisitPrintStmt | simplf/TypeChecker.java:33-38 | `print` prints the operand's type once, yields null and binds nothing. |
| TypeChecking.TypeChecker.VisitVarStmt | simplf/TypeChecker.java:40-49 | `var` binds the name to the initializer's type and yields NULL. A missing initializer fails. |
| TypeChecking.TypeChecker.VisitBlockStmt | simplf/TypeChecker.java:51-58 | A block checks its statements in order in the same environment and yields what `CheckBlock` prescribes. |
| TypeChecking.TypeChecker.VisitIfStmt | simplf/TypeChecker.java:60-70 | An `if` checks only the else branch. It fails on a null condition type or a missing else branch, and otherwise yields the condition's type. |
| TypeChecking.TypeChecker.VisitWhileStmt | simplf/TypeChecker.java:72-78 | A `while` checks its condition once and never its body. |
| TypeChecking.TypeChecker.VisitForStmt | simplf/TypeChecker.java:80-88 | A `for` checks its initializer and condition once, and never its body or increment. |
| TypeChecking.TypeChecker.DeclareFunction | simplf/TypeChecker.java:90-99 | A function declaration leaves the bindings and yields the result that `CheckFunction` prescribes. |
| TypeChecking.TypeChecker.ExecuteAll | simplf/TypeChecker.java:17-25 | The loop over the statements yields, binds and prints what `CheckBlock` prescribes, stopping at the first failure. |
| TypeChecking.TypeChecker.Interpret | simplf/TypeChecker.java:17-25 | `interpret` ends as the checked program's outcome says: completed, a RuntimeError reported, or another failure escaped. |
| Evaluation.IsEqual | simplf/Interpreter.java:241-245 | `isEqual` holds exactly when the two values are equal. |
| Evaluation.StripPointZero | simplf/Interpreter.java:259-270 | Exactly one trailing ".0" is removed, and only when there is one. |
| Evaluation.CheckNumbers | simplf/Interpreter.java:253-257 | Two operands pass exactly when both are numbers. Otherwise the failure is "Operand must be numbers" at the operator. |
| Evaluation.ApplyBinary | simplf/Interpreter.java:115-162 | A binary operator yields a function value only when COMMA passes its right operand through. |
| Evaluation.BinaryNeedsNumbers | simplf/Interpreter.java:128-151 | `-`, `*`, `/` and the comparisons fail exactly when an operand is not a number ("Operand must be numbers") or when dividing by zero ("Cannot divide by zero."); a division otherwise yields the quotient. |
| Evaluation.BinaryOnNumbers | simplf/Interpreter.java:128-151 | On two numbers, `-` and `*` yield the difference and the product, and the comparisons yield the real-number comparison. |
| Evaluation.BinaryPlus | simplf/Interpreter.java:120-127 | `+` concatenates both renderings when either side is a string, adds two numbers, and otherwise fails with "Addition operation not supported for operands.". |
| Evaluation.BinaryOthers | simplf/Interpreter.java:156-161 | COMMA yields its right operand, and an operator the switch does not list yields null. |
| Evaluation.ApplyUnary | simplf/Interpreter.java:164-177 | `-` yields the negation of a number and otherwise fails with "Operand must be a number"; `!` is the negated truthiness; any other operator yields null. A unary operator never yields a function. |
| Evaluation.ConcatenationRendersBoth | simplf/Interpreter.java:120-123 | `+` with a string on either side yields the concatenation of both renderings. |
| Evaluation.ArithmeticAgrees | simplf/Interpreter.java:128-151 | Subtraction is addition of the negation, and `a < b` equals `b > a`. |
| Evaluation.EqualityAndNegation | simplf/Interpreter.java:152-155 | `==` is value equality and `!=` its complement. `!!v` is the truthiness of v. |
| Evaluation.EvalArgsStops | simplf/Interpreter.java:197-200 | Once an argument fails, no later argument is evaluated and the failure is the call's. |
| Evaluation.LogicalShortCircuits | simplf/Interpreter.java:102-110 | When the left operand of `or` is truthy, or that of `and` is falsy, it is the result, and the right operand cannot affect the outcome. |
| Evaluation.LogicalFallsThrough | simplf/Interpreter.java:102-111 | Otherwise the result is the right operand evaluated after the left one; a failing left operand fails the whole expression. |
| Evaluation.IfTakesThenOnlyOnTrue | simplf/Interpreter.java:61-68 | When the condition is exactly `true`, the else branch cannot affect the outcome; for any other value, truthy or not, the then branch cannot. |
| Evaluation.IfOutcome | simplf/Interpreter.java:61-69 | A null condition, or a taken missing else branch, throws a null dereference; a completed `if` yields the condition's value. |
| Evaluation.LoopRunsBodyOnlyOnTrue | simplf/Interpreter.java:72-88 | A null loop test throws, any other value that is not `true` ends the loop with nothing run or printed, and a completed loop yields null. |
| Evaluation.VarAddsOneBinding | simplf/Interpreter.java:41-48 | `var` adds exactly one binding, in front, holding the initializer's value, with every older name in place; a failing initializer adds none. |
| Evaluation.ExecNamesGrow | simplf/Interpreter.java:40-88 | A statement only adds bindings in front: the names bound before it are the tail of the names bound after it. |
| Evaluation.ExecSeqNamesGrow | simplf/Interpreter.java:51-58 | A sequence of statements, as in a block, only adds bindings in front. |
| Evaluation.LoopNamesGrow | simplf/Interpreter.java:72-88 | A loop only adds bindings in front, however many iterations run. |
| Evaluation.LoopScopeStep | simplf/Interpreter.java:74-76 | One iteration of a loop ends in the bindings left by the test, the body, the increment, or the rest of the loop. |
| Evaluation.EvalKeepsNames | simplf/Interpreter.java:101-225 | Evaluating an expression never adds, removes or reorders bindings; assignment only changes values. |
| Evaluation.Nils | simplf/Interpreter.java:95-97 | The parameter placeholders are one null per parameter. |
| Evaluation.SimplfFunction.constructor | simplf/SimplfFunction.java:9-12 | A function holds its declaration and closure. |
| Evaluation.SimplfFunction.SetClosure | simplf/SimplfFunction.java:14-16 | `setClosure` replaces the closure. |
| Evaluation.SimplfFunction.Call | simplf/SimplfFunction.java:19-36 | Each argument is defined under the parameter at its position. A surplus argument fails with an index out of bounds after the others are bound. Otherwise, for a body without functions, the body runs as `ExecSeq` prescribes and yields the last statement's value, or a new object for an empty body. |
| Evaluation.Interpreter.constructor | simplf/Interpreter.java:13-15 | An interpreter over a closing environment starts in it. |
| Evaluation.Interpreter.Global | simplf/Interpreter.java:9-12 | A new interpreter starts with no bindings. |
| Evaluation.Interpreter.Bind | simplf/Interpreter.java:44-47 | Defining a name puts one binding in front of the current ones. |
| Evaluation.Interpreter.BindArgs | simplf/SimplfFunction.java:20-27 | The argument loop succeeds exactly when there are no more arguments than parameters. It binds arguments by position, stopping at the last parameter. |
| Evaluation.Interpreter.Evaluate | simplf/Interpreter.java:206-208 | For call-free expressions, the value and the bindings afterwards are those `Eval` gives, and nothing is printed. |
| Evaluation.Interpreter.VisitVariable | simplf/Interpreter.java:189-193 | A variable reads what `Lookup` gives on the current bindings. |
| Evaluation.Interpreter.VisitUnary | simplf/Interpreter.java:164-177 | A unary expression evaluates as `Eval` prescribes. |
| Evaluation.Interpreter.VisitBinary | simplf/Interpreter.java:114-162 | A binary expression evaluates both operands left to right, then applies the operator as `Eval` prescribes. |
| Evaluation.Interpreter.VisitLogical | simplf/Interpreter.java:101-112 | `or` and `and` short-circuit on truthiness and yield an operand's value, as `Eval` prescribes. |
| Evaluation.Interpreter.Store | simplf/Interpreter.java:214 | Assignment through the environment changes the bindings exactly as `AssignIn` prescribes, or fails as lookup does. |
| Evaluation.Interpreter.VisitAssign | simplf/Interpreter.java:210-216 | An assignment yields the assigned value and updates the binding in place, as `Eval` prescribes. |
| Evaluation.Interpreter.VisitConditional | simplf/Interpreter.java:218-225 | A conditional expression evaluates exactly one branch, chosen by truthiness. |
| Evaluation.Interpreter.VisitCall | simplf/Interpreter.java:194-204 | A callee that is neither a function nor null fails with a class cast before any argument is evaluated. A null callee fails with the arguments' failure, or else a null dereference. |
| Evaluation.Interpreter.Invoke | simplf/Interpreter.java:201-203 | A call on a fresh interpreter over the closure fails on surplus arguments. Otherwise it prints and yields what running the body on the bound parameters prescribes. |
| Evaluation.Interpreter.EvaluateArgs | simplf/Interpreter.java:197-200 | Arguments are evaluated left to right, threading the bindings, as `EvalArgs` prescribes. |
| Evaluation.Interpreter.Execute | simplf/Interpreter.java:227-229 | For statements without functions, the yield, the bindings and the printed lines are those `Exec` gives. |
| Evaluation.Interpreter.VisitPrint | simplf/Interpreter.java:33-38 | `print` prints the value's rendering as one line and yields null. |
| Evaluation.Interpreter.VisitVar | simplf/Interpreter.java:40-49 | `var` binds the initializer's value in front and yields null. A missing initializer fails. |
| Evaluation.Interpreter.VisitBlock | simplf/Interpreter.java:51-58 | For statements without functions, a block runs its statements in the same environment, so its bindings outlive it, and yields a new object. |
| Evaluation.Interpreter.VisitIf | simplf/Interpreter.java:60-70 | For statements without functions, the then branch runs only on exactly `true`. A null condition, or a taken missing else branch, fails. The result is the condition's value. |
| Evaluation.Interpreter.VisitFor | simplf/Interpreter.java:80-88 | For statements without functions, a `for` evaluates the initializer once and then loops as `Loop` prescribes with the increment. |
| Evaluation.Interpreter.RunLoop | simplf/Interpreter.java:72-88 | For statements without functions, the while loop runs body and increment while the test is exactly `true`, and fails on a null test. The outcome, bindings and lines are those `Loop` gives. |
| Evaluation.Interpreter.LoopStep | simplf/Interpreter.java:74-76 | One iteration either ends the loop with `Loop`'s outcome, or leaves the rest of the loop to run with one iteration fewer. |
| Evaluation.Interpreter.ExecuteAll | simplf/SimplfFunction.java:28-35 | For statements without functions, the statements run in order until the first failure. The result is the last one's value, or a new object when there are none, as `ExecSeq` prescribes. |
| Evaluation.Interpreter.ExecuteNext | simplf/SimplfFunction.java:29-33 | One statement of a sequence either ends the sequence with its failure, or leaves the rest of the sequence to run after its printed lines. |
| Evaluation.Interpreter.Interpret | simplf/Interpreter.java:17-25 | For statements without functions, `interpret` runs the statements in order and ends as the outcome says: completed, a RuntimeError reported, or another failure escaped. |
| Evaluation.Interpreter.MakeClosure | simplf/Interpreter.java:92-94 | The new function's closure is the environment that binds its own name to it, in front of the current bindings. |
| Evaluation.Interpreter.DefineFunction | simplf/Interpreter.java:91-94 | The function is bound under its name in the current environment and closes over that binding. |
| Evaluation.Interpreter.DefineNils | simplf/Interpreter.java:95-97 | Every parameter is defined as null in order, on top of the current bindings. |
| Evaluation.Interpreter.VisitFunction | simplf/Interpreter.java:90-99 | A declaration yields a new function whose closure holds its own name. The parameters are bound to null beyond it in the caller's environment. |

## Left out

- The parser, the scanner and the `Stmt`/`Expr` class files are not part of this model. The syntax tree is a datatype holding what the walkers read.
- Standard output is a sequence of lines (`Host.output`, `TypeChecker.output`). `Simplf.runtimeError`'s printing is not part of this model; `interpret` returns how it ended instead.
- Java's `Double` is a mathematical real. Rounding, infinities, NaN and negative zero are not modelled. `Double.toString` and `Object.toString` are parameters (`Renderer`), because the JVM supplies them.
- Loops and nested calls carry a fuel bound. A loop that wants more iterations, or a call nested deeper, ends with `OutOfFuel` where the Java program would go on.
- The reference semantics (`Eval`, `Exec`) covers programs without function declarations and calls. For a statement or expression that declares or calls a function, a visitor's contract states only that the interpreter's invariants are kept. The exceptions are the call failure cases in `VisitCall` and `Invoke`, and a body without calls run by `Invoke`.
- Evaluation.Interpreter.VisitCall: states only the failure cases decided before the call proper. What a call yields is stated by `Invoke` and `SimplfFunction.Call`.
- Evaluation.Interpreter.Invoke: does not state the caller's bindings after a call. They change only through cells the callee may assign, and this is not stated.
- Evaluation.SimplfFunction.Call: binds arguments directly rather than through a `Var` node wrapping a `Literal`. The effect is the same.
- The `globals` field of both walkers is not modelled: it only holds the initial environment.
- The `enclosing` and `token` fields of `Environment` and `TypeEnvironment` are not modelled: no operation reads them.
- `visitFunctionStmt` in simplf/Interpreter.java calls a three-argument `SimplfFunction` constructor, and simplf/TypeChecker.java calls a two-argument one taking a return type. Neither exists in simplf/SimplfFunction.java. The model uses the declaration and the closure, and takes the return type from the declaration.
- `Token.literal` is modelled as an optional string: the literal text of identifiers. Numeric and other literal objects in tokens are not compared with names anywhere in the core.
- simplf/TypeError.java is not part of this model: no core operation raises it.

## Findings

| source | as written | input that shows it | evidently intended | confidence | as-written member | corrected member |
|---|---|---|---|---|---|---|
| simplf/TypeChecker.java:161-164 | `visitLiteral` returns `evaluate(expr)` on the same literal node, which calls `visitLiteral` again | any literal, e.g. the program `print 1;` | the static type of the literal (FLOAT for a number, STRING for a string, BOOL, NULL) | not executed | TypeChecking.LiteralVisitNeverReturns | TypeChecking.LiteralType |
