/** The abstract syntax tree that the parser builds and both tree-walkers
    visit. Every node keeps the tokens needed for diagnostics. */
module Syntax {
  import opened Tokens

  /** Literal payloads the parser produces: a string (quotes removed), a
      number (a Java Double, here a real), `true`, `false` or `nil`. */
  datatype Lit = LString(s: string) | LNumber(n: real) | LBool(b: bool) | LNil

  datatype Expr =
    | Literal(val: Lit)
    | Grouping(expression: Expr)
    | Variable(name: Token)
    | Unary(op: Token, right: Expr)
    | Binary(left: Expr, op: Token, right: Expr)
    | Logical(left: Expr, op: Token, right: Expr)
    | Assign(name: Token, value: Expr)
    | Conditional(cond: Expr, thenBranch: Expr, elseBranch: Expr)
    | Call(callee: Expr, paren: Token, args: seq<Expr>)

  /** A function declaration: its name, parameter names and declared types,
      body and declared return type. */
  datatype FunDecl = FunDecl(name: Token, params: seq<Token>, body: seq<Stmt>, returnType: DataType,
                             paramTypes: seq<DataType>)

  /** Statements. A variable declaration without an initializer and an `if`
      without an `else` carry None where the Java node holds null. */
  datatype Stmt =
    | Expression(expr: Expr)
    | Print(expr: Expr)
    | Var(name: Token, initializer: Option<Expr>, declared: DataType)
    | Block(statements: seq<Stmt>)
    | If(cond: Expr, thenBranch: Stmt, elseBranch: Option<Stmt>)
    | While(cond: Expr, body: Stmt)
    | For(init: Expr, cond: Expr, incr: Expr, body: Stmt)
    | Function(decl: FunDecl)
}
