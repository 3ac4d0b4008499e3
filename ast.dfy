/**
  The syntax tree of runtime/include/breezy/frontend/ast.hpp. The C++ variants
  are closed sums, so each becomes a datatype with one constructor per
  alternative; `unique_ptr` and `vector` ownership becomes plain values, which
  makes every tree finite and acyclic.
 */
module Ast {
  import opened Common

  /** A literal's payload: a number (stood for by the natural number its digits denote) or a string. */
  datatype LiteralValue = NumberValue(number: nat) | StringValue(text: string)

  datatype Expr =
    | Literal(value: LiteralValue)
    | Variable(name: string)
    | Call(callee: string, arguments: seq<Expr>)

  datatype Stmt =
    | VarDecl(name: string, initializer: Option<Expr>)
    | ExprStmt(expression: Expr)
}
