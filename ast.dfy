/**
 * Syntax trees. expr.py is not part of this model and the stmt.py that exists
 * defines only three statement kinds, so the node shapes are those of the
 * grammar table the AST generator is driven by (pylox/tool/generate_ast.py:3-22).
 * Visitor double dispatch becomes `match`.
 */
module Ast {
  import opened Wrappers
  import opened Tokens

  datatype Expr =
    | Assign(name: Token, value: Expr)
    | Binary(left: Expr, operator: Token, right: Expr)
    | Call(callee: Expr, paren: Token, arguments: seq<Expr>)
    | Grouping(expression: Expr)
    | Literal(literal: Lit)
    | Logical(left: Expr, operator: Token, right: Expr)
    | Unary(operator: Token, right: Expr)
    | Variable(name: Token)

  /**
   * Statements. The field `condittion` of `If` keeps the table's spelling;
   * the optional else branch and initializer are `None` in the source.
   * Dafny needs distinct names for destructors of different types, so the
   * literal's `value` is `literal` and the loop's `body` is `loopBody`.
   */
  datatype Stmt =
    | Block(statements: seq<Stmt>)
    | Expression(expression: Expr)
    | Function(name: Token, params: seq<Token>, body: seq<Stmt>)
    | If(condittion: Expr, thenBranch: Stmt, elseBranch: Option<Stmt>)
    | Print(expression: Expr)
    | Var(name: Token, initializer: Option<Expr>)
    | While(condition: Expr, loopBody: Stmt)

  /** The statements a function value is made from. */
  type FunctionDecl = s: Stmt | s.Function? witness Function(Token(Eof, "", NoLit, 1), [], [])

  /**
   * Whether executing the statement can bind a name in the scope current
   * when it starts: a declaration, or one nested directly (not inside a
   * block) in a branch or loop body.
   */
  predicate Declares(s: Stmt) {
    match s
    case Var(_, _) => true
    case Function(_, _, _) => true
    case If(_, thenBranch, elseBranch) =>
      Declares(thenBranch) || (elseBranch.Some? && Declares(elseBranch.value))
    case While(_, loopBody) => Declares(loopBody)
    case _ => false
  }
}
