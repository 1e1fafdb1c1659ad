/**
 * The abstract syntax tree built by the parser: expressions
 * (src/Culebra/Parsing/Expr.cs), statements (Stmt.cs) and declared types
 * (Type.cs), one constructor per node class and named after it. Every node
 * keeps the tokens the parser stored in it (operator, literal and name
 * tokens, with their lines); a reference the source may leave null is an
 * `Option`.
 */
module Ast {
  import opened Tokens
  import opened Diagnostics

  /** A declared type: a named value type, or a pointer to a type (`T*`). */
  datatype Type =
    | ValueType(name: Token)
    | PointerType(pointedType: Type)

  /** One function parameter, `name: type` (the source's `ParameterT`). */
  datatype Parameter = Parameter(ptype: Type, name: Token)

  datatype Expr =
    | LiteralExpr(literal: Token)
    | IdentifierExpr(ident: Token)
    | UnaryExpr(expr: Expr, op: Token)
    | BinaryExpr(left: Expr, right: Expr, op: Token)
    | MemberAccessExpr(parent: Expr, name: Token)
    | CallExpr(callee: Expr, args: seq<Expr>)
    | ParenthesizedExpr(expr: Expr)
    | AssignExpr(name: Token, value: Expr)

  datatype Stmt =
    | BlockStmt(statements: seq<Stmt>)
    | ExprStmt(expr: Expr)
    | FuncDeclarationStmt(rtype: Type, name: Token, parameters: seq<Parameter>, body: Stmt)
    | VarDeclarationStmt(vtype: Type, name: Token, value: Option<Expr>)
    | ReturnStmt(value: Option<Expr>)
    | IfStmt(condition: Expr, ifBody: Stmt, elseBody: Option<Stmt>)
    | WhileStmt(condition: Expr, body: Stmt, isForLoop: bool)
    | BreakStmt
    | ContinueStmt

  /** The literal `true` the parser puts in a `for` loop without a condition. */
  const TrueLiteral: Expr := LiteralExpr(Default.(kind := BoolLit, boolValue := true))
}
