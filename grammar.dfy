/**
 * The concrete grammar the recursive-descent parser accepts, stated as
 * renderings. `Unparse` renders an expression tree back into the token
 * pattern it was parsed from; `WellFormed` and `Prec` capture the
 * precedence ladder and the associativity of each level; `Syntax` is the
 * statement-level parse tree before `for` loops are rewritten, `Render`
 * its token pattern and `Lower` the rewrite into the `Ast` the parser
 * returns.
 */
module Grammar {
  import opened Tokens
  import opened Diagnostics
  import opened Ast

  /** At most this many parameters; a call may collect one argument more. */
  const MAX_ARGUMENTS := 16

  /** One element of a rendering: a token stored in the tree, or any token of a kind. */
  datatype Piece = Exact(token: Token) | Kind(kind: TokenType)

  predicate Fits(t: Token, p: Piece) {
    match p
    case Exact(u) => t == u
    case Kind(k) => t.kind == k
  }

  /** The tokens from `lo` on are rendered by `ps`, token for piece. */
  predicate Covers(ts: seq<Token>, lo: nat, ps: seq<Piece>)
    decreases |ps|
  {
    |ps| == 0 || (lo < |ts| && Fits(ts[lo], ps[0]) && Covers(ts, lo + 1, ps[1..]))
  }

  /** `ts[lo..hi]` is rendered by `ps`, token for piece. */
  predicate Spans(ts: seq<Token>, lo: nat, hi: nat, ps: seq<Piece>) {
    lo <= hi <= |ts| && hi - lo == |ps| && Covers(ts, lo, ps)
  }

  lemma {:induction false} CoversConcat(ts: seq<Token>, a: nat, p: seq<Piece>, q: seq<Piece>)
    requires Covers(ts, a, p) && Covers(ts, a + |p|, q)
    ensures Covers(ts, a, p + q)
    decreases |p|
  {
    if |p| == 0 {
      assert p + q == q;
    } else {
      assert (p + q)[1..] == p[1..] + q;
      CoversConcat(ts, a + 1, p[1..], q);
    }
  }

  lemma SpansConcat(ts: seq<Token>, a: nat, b: nat, c: nat, p: seq<Piece>, q: seq<Piece>)
    requires Spans(ts, a, b, p) && Spans(ts, b, c, q)
    ensures Spans(ts, a, c, p + q)
  {
    CoversConcat(ts, a, p, q);
  }

  lemma SpansToken(ts: seq<Token>, a: nat)
    requires a < |ts|
    ensures Spans(ts, a, a + 1, [Exact(ts[a])])
    ensures Spans(ts, a, a + 1, [Kind(ts[a].kind)])
  {
    assert [Exact(ts[a])][1..] == [] && [Kind(ts[a].kind)][1..] == [];
  }

  /** Two tokens of the given kinds in a row. */
  lemma SpansKinds(ts: seq<Token>, lo: nat, k1: TokenType, k2: TokenType)
    requires lo + 1 < |ts| && ts[lo].kind == k1 && ts[lo + 1].kind == k2
    ensures Spans(ts, lo, lo + 2, [Kind(k1), Kind(k2)])
  {
    SpansToken(ts, lo);
    SpansSnoc(ts, lo, lo + 1, [Kind(k1)], Kind(k2));
    assert [Kind(k1)] + [Kind(k2)] == [Kind(k1), Kind(k2)];
  }

  lemma SpansCons(ts: seq<Token>, lo: nat, hi: nat, p: Piece, ps: seq<Piece>)
    requires lo < |ts| && Fits(ts[lo], p) && Spans(ts, lo + 1, hi, ps)
    ensures Spans(ts, lo, hi, [p] + ps)
  {
    assert ([p] + ps)[0] == p && ([p] + ps)[1..] == ps;
  }

  lemma SpansSnoc(ts: seq<Token>, lo: nat, hi: nat, ps: seq<Piece>, p: Piece)
    requires Spans(ts, lo, hi, ps) && hi < |ts| && Fits(ts[hi], p)
    ensures Spans(ts, lo, hi + 1, ps + [p])
  {
    SpansToken(ts, hi);
    assert Spans(ts, hi, hi + 1, [p]);
    SpansConcat(ts, lo, hi, hi + 1, ps, [p]);
  }

  /** What a rendering says about each token it covers. */
  lemma {:induction false} CoversAt(ts: seq<Token>, lo: nat, ps: seq<Piece>, i: nat)
    requires Covers(ts, lo, ps) && i < |ps|
    ensures lo + i < |ts| && Fits(ts[lo + i], ps[i])
    decreases i
  {
    if i > 0 {
      CoversAt(ts, lo + 1, ps[1..], i - 1);
    }
  }

  // ---------------------------------------------------------------------
  // Expressions

  /** Binding levels, loosest first. */
  const ASSIGNMENT := 0
  const OR_LEVEL := 1
  const AND_LEVEL := 2
  const EQUALITY := 3
  const COMPARISON := 4
  const ADDITION := 5
  const MULTIPLICATION := 6
  const UNARY := 7
  const POSTFIX := 8
  const PRIMARY := 9

  /** The level at which a token continues an expression already parsed (-1: it does not). */
  function OpLevel(k: TokenType): int {
    if k == Assign then ASSIGNMENT
    else if k == Or then OR_LEVEL
    else if k == And then AND_LEVEL
    else if k == Eq || k == NotEq then EQUALITY
    else if k == Gt || k == Geq || k == Lt || k == Leq then COMPARISON
    else if k == Plus || k == Minus then ADDITION
    else if k == Star || k == Slash || k == Mod then MULTIPLICATION
    else if k == LeftParen || k == Dot then POSTFIX
    else -1
  }

  /** The operator kinds each binary level's loop matches, in the source's order. */
  function BinaryOps(level: int): seq<TokenType>
    requires OR_LEVEL <= level <= MULTIPLICATION
  {
    if level == OR_LEVEL then [Or]
    else if level == AND_LEVEL then [And]
    else if level == EQUALITY then [Eq, NotEq]
    else if level == COMPARISON then [Gt, Geq, Lt, Leq]
    else if level == ADDITION then [Plus, Minus]
    else [Star, Slash, Mod]
  }

  lemma BinaryOpsLevel(level: int, k: TokenType)
    requires OR_LEVEL <= level <= MULTIPLICATION
    ensures k in BinaryOps(level) <==> OpLevel(k) == level
  {
  }

  predicate IsLiteralKind(k: TokenType) {
    k == BoolLit || k == IntLit || k == DoubleLit || k == StringLit
  }

  /** The loosest level at which an expression may stand without parentheses. */
  function Prec(e: Expr): int {
    match e
    case AssignExpr(_, _) => ASSIGNMENT
    case BinaryExpr(_, _, op) => OpLevel(op.kind)
    case UnaryExpr(_, _) => UNARY
    case MemberAccessExpr(_, _) | CallExpr(_, _) => POSTFIX
    case _ => PRIMARY
  }

  /**
   * The shape the parser produces: every binary node has a binary operator,
   * a left operand at its own level or tighter (left associativity) and a
   * right operand strictly tighter; prefix operators apply to unary-level
   * operands, postfix ones to postfix-level operands; an assignment target
   * is a single identifier and its value any expression (right
   * associativity); a call has at most MAX_ARGUMENTS + 1 arguments.
   */
  predicate WellFormed(e: Expr) {
    match e
    case LiteralExpr(t) => IsLiteralKind(t.kind)
    case IdentifierExpr(t) => t.kind == Identifier
    case UnaryExpr(x, op) =>
      (op.kind == Not || op.kind == Minus) && WellFormed(x) && Prec(x) >= UNARY
    case BinaryExpr(l, r, op) =>
      OR_LEVEL <= OpLevel(op.kind) <= MULTIPLICATION &&
      WellFormed(l) && Prec(l) >= OpLevel(op.kind) &&
      WellFormed(r) && Prec(r) > OpLevel(op.kind)
    case MemberAccessExpr(p, name) =>
      name.kind == Identifier && WellFormed(p) && Prec(p) >= POSTFIX
    case CallExpr(c, args) =>
      WellFormed(c) && Prec(c) >= POSTFIX && |args| <= MAX_ARGUMENTS + 1 &&
      forall a :: a in args ==> WellFormed(a)
    case ParenthesizedExpr(x) => WellFormed(x)
    case AssignExpr(name, v) => name.kind == Identifier && WellFormed(v)
  }

  /** The token pattern an expression is parsed from. */
  function Unparse(e: Expr): (ps: seq<Piece>)
    ensures |ps| > 0
    decreases e, 1
  {
    match e
    case LiteralExpr(t) => [Exact(t)]
    case IdentifierExpr(t) => [Exact(t)]
    case UnaryExpr(x, op) => [Exact(op)] + Unparse(x)
    case BinaryExpr(l, r, op) => Unparse(l) + [Exact(op)] + Unparse(r)
    case MemberAccessExpr(p, name) => Unparse(p) + [Kind(Dot), Exact(name)]
    case CallExpr(c, args) => Unparse(c) + [Kind(LeftParen)] + ArgsRender(args) + [Kind(RightParen)]
    case ParenthesizedExpr(x) => [Kind(LeftParen)] + Unparse(x) + [Kind(RightParen)]
    case AssignExpr(name, v) => [Exact(name), Kind(Assign)] + Unparse(v)
  }

  /** Arguments separated by commas. */
  function ArgsRender(args: seq<Expr>): seq<Piece>
    decreases args, 0
  {
    if |args| == 0 then []
    else if |args| == 1 then Unparse(args[0])
    else ArgsRender(args[..|args| - 1]) + [Kind(Comma)] + Unparse(args[|args| - 1])
  }

  /** `ts[lo..hi]` renders the well-formed expression `e`. */
  predicate ExprAt(ts: seq<Token>, lo: nat, hi: nat, e: Expr) {
    lo < hi && Spans(ts, lo, hi, Unparse(e)) && WellFormed(e)
  }

  /**
   * An expression parsed at `level`: `ts[lo..hi]` renders `e`, `e` stands
   * at `level` or tighter, and the token after it continues no expression
   * at `level` or tighter.
   */
  predicate Parsed(ts: seq<Token>, lo: nat, hi: nat, e: Expr, level: int) {
    ExprAt(ts, lo, hi, e) && Prec(e) >= level && hi < |ts| && OpLevel(ts[hi].kind) < level
  }

  /** `ts[lo..hi]` renders the well-formed arguments `args`, comma-separated. */
  predicate ArgsAt(ts: seq<Token>, lo: nat, hi: nat, args: seq<Expr>) {
    Spans(ts, lo, hi, ArgsRender(args)) && |args| <= MAX_ARGUMENTS + 1 &&
    forall a :: a in args ==> WellFormed(a)
  }

  // One lemma per production: the rendering of a node is assembled from
  // the renderings of its parts.

  lemma LiteralStep(ts: seq<Token>, lo: nat)
    requires lo < |ts| && IsLiteralKind(ts[lo].kind)
    ensures ExprAt(ts, lo, lo + 1, LiteralExpr(ts[lo]))
  {
    SpansToken(ts, lo);
  }

  lemma IdentifierStep(ts: seq<Token>, lo: nat)
    requires lo < |ts| && ts[lo].kind == Identifier
    ensures ExprAt(ts, lo, lo + 1, IdentifierExpr(ts[lo]))
  {
    SpansToken(ts, lo);
  }

  lemma ParenthesizedStep(ts: seq<Token>, lo: nat, hi: nat, e: Expr)
    requires lo < hi < |ts| && ts[lo].kind == LeftParen && ts[hi].kind == RightParen
    requires ExprAt(ts, lo + 1, hi, e)
    ensures ExprAt(ts, lo, hi + 1, ParenthesizedExpr(e))
  {
    SpansToken(ts, lo);
    SpansToken(ts, hi);
    SpansConcat(ts, lo, lo + 1, hi, [Kind(LeftParen)], Unparse(e));
    SpansConcat(ts, lo, hi, hi + 1, [Kind(LeftParen)] + Unparse(e), [Kind(RightParen)]);
  }

  lemma UnaryStep(ts: seq<Token>, lo: nat, hi: nat, x: Expr)
    requires lo < |ts| && (ts[lo].kind == Not || ts[lo].kind == Minus)
    requires ExprAt(ts, lo + 1, hi, x) && Prec(x) >= UNARY
    ensures ExprAt(ts, lo, hi, UnaryExpr(x, ts[lo]))
  {
    SpansToken(ts, lo);
    SpansConcat(ts, lo, lo + 1, hi, [Exact(ts[lo])], Unparse(x));
  }

  lemma BinaryStep(ts: seq<Token>, lo: nat, mid: nat, hi: nat, l: Expr, r: Expr)
    requires mid < |ts| && OR_LEVEL <= OpLevel(ts[mid].kind) <= MULTIPLICATION
    requires ExprAt(ts, lo, mid, l) && Prec(l) >= OpLevel(ts[mid].kind)
    requires ExprAt(ts, mid + 1, hi, r) && Prec(r) > OpLevel(ts[mid].kind)
    ensures ExprAt(ts, lo, hi, BinaryExpr(l, r, ts[mid]))
  {
    SpansToken(ts, mid);
    SpansConcat(ts, lo, mid, mid + 1, Unparse(l), [Exact(ts[mid])]);
    SpansConcat(ts, lo, mid + 1, hi, Unparse(l) + [Exact(ts[mid])], Unparse(r));
  }

  lemma MemberStep(ts: seq<Token>, lo: nat, mid: nat, p: Expr)
    requires mid + 1 < |ts| && ts[mid].kind == Dot && ts[mid + 1].kind == Identifier
    requires ExprAt(ts, lo, mid, p) && Prec(p) >= POSTFIX
    ensures ExprAt(ts, lo, mid + 2, MemberAccessExpr(p, ts[mid + 1]))
  {
    SpansToken(ts, mid);
    SpansToken(ts, mid + 1);
    SpansConcat(ts, mid, mid + 1, mid + 2, [Kind(Dot)], [Exact(ts[mid + 1])]);
    SpansConcat(ts, lo, mid, mid + 2, Unparse(p), [Kind(Dot), Exact(ts[mid + 1])]);
  }

  lemma CallStep(ts: seq<Token>, lo: nat, mid: nat, hi: nat, c: Expr, args: seq<Expr>)
    requires ExprAt(ts, lo, mid, c) && Prec(c) >= POSTFIX
    requires mid < |ts| && ts[mid].kind == LeftParen
    requires ArgsAt(ts, mid + 1, hi, args) && hi < |ts| && ts[hi].kind == RightParen
    ensures ExprAt(ts, lo, hi + 1, CallExpr(c, args))
  {
    SpansToken(ts, mid);
    SpansToken(ts, hi);
    SpansConcat(ts, lo, mid, mid + 1, Unparse(c), [Kind(LeftParen)]);
    SpansConcat(ts, lo, mid + 1, hi, Unparse(c) + [Kind(LeftParen)], ArgsRender(args));
    SpansConcat(ts, lo, hi, hi + 1, Unparse(c) + [Kind(LeftParen)] + ArgsRender(args), [Kind(RightParen)]);
  }

  lemma AssignStep(ts: seq<Token>, lo: nat, mid: nat, hi: nat, target: Expr, v: Expr)
    requires target.IdentifierExpr? && ExprAt(ts, lo, mid, target)
    requires mid < |ts| && ts[mid].kind == Assign && ExprAt(ts, mid + 1, hi, v)
    ensures ExprAt(ts, lo, hi, AssignExpr(target.ident, v))
  {
    CoversAt(ts, lo, Unparse(target), 0);
    SpansToken(ts, lo);
    SpansToken(ts, lo + 1);
    SpansConcat(ts, lo, lo + 1, lo + 2, [Exact(ts[lo])], [Kind(Assign)]);
    SpansConcat(ts, lo, lo + 2, hi, [Exact(ts[lo]), Kind(Assign)], Unparse(v));
  }

  lemma NoArgs(ts: seq<Token>, lo: nat)
    requires lo <= |ts|
    ensures ArgsAt(ts, lo, lo, [])
  {
  }

  lemma FirstArgStep(ts: seq<Token>, lo: nat, hi: nat, a: Expr)
    requires ExprAt(ts, lo, hi, a)
    ensures ArgsAt(ts, lo, hi, [a])
  {
  }

  lemma NextArgStep(ts: seq<Token>, lo: nat, mid: nat, hi: nat, args: seq<Expr>, a: Expr)
    requires ArgsAt(ts, lo, mid, args) && 0 < |args| <= MAX_ARGUMENTS
    requires mid < |ts| && ts[mid].kind == Comma && ExprAt(ts, mid + 1, hi, a)
    ensures ArgsAt(ts, lo, hi, args + [a])
  {
    assert (args + [a])[..|args|] == args;
    SpansToken(ts, mid);
    SpansConcat(ts, lo, mid, mid + 1, ArgsRender(args), [Kind(Comma)]);
    SpansConcat(ts, lo, mid + 1, hi, ArgsRender(args) + [Kind(Comma)], Unparse(a));
  }

  // ---------------------------------------------------------------------
  // Types and parameters

  predicate TypeWellFormed(t: Type) {
    match t
    case ValueType(name) => name.kind == Identifier
    case PointerType(p) => TypeWellFormed(p)
  }

  /** A type name followed by one `*` per pointer level. */
  function RenderType(t: Type): (ps: seq<Piece>)
    ensures |ps| > 0
  {
    match t
    case ValueType(name) => [Exact(name)]
    case PointerType(p) => RenderType(p) + [Kind(Star)]
  }

  /** `name: type` */
  function RenderParameter(p: Parameter): seq<Piece> {
    [Exact(p.name), Kind(Colon)] + RenderType(p.ptype)
  }

  /** Parameters separated by commas. */
  function RenderParameters(ps: seq<Parameter>): seq<Piece> {
    if |ps| == 0 then []
    else if |ps| == 1 then RenderParameter(ps[0])
    else RenderParameters(ps[..|ps| - 1]) + [Kind(Comma)] + RenderParameter(ps[|ps| - 1])
  }

  predicate ParameterWellFormed(p: Parameter) {
    p.name.kind == Identifier && TypeWellFormed(p.ptype)
  }

  predicate TypeAt(ts: seq<Token>, lo: nat, hi: nat, t: Type) {
    lo < hi && Spans(ts, lo, hi, RenderType(t)) && TypeWellFormed(t)
  }

  predicate ParamAt(ts: seq<Token>, lo: nat, hi: nat, p: Parameter) {
    Spans(ts, lo, hi, RenderParameter(p)) && ParameterWellFormed(p)
  }

  /** `ts[lo..hi]` renders at most MAX_ARGUMENTS well-formed parameters. */
  predicate ParamsAt(ts: seq<Token>, lo: nat, hi: nat, ps: seq<Parameter>) {
    Spans(ts, lo, hi, RenderParameters(ps)) && |ps| <= MAX_ARGUMENTS &&
    forall p :: p in ps ==> ParameterWellFormed(p)
  }

  lemma TypeStep(ts: seq<Token>, lo: nat)
    requires lo < |ts| && ts[lo].kind == Identifier
    ensures TypeAt(ts, lo, lo + 1, ValueType(ts[lo]))
  {
    SpansToken(ts, lo);
  }

  lemma PointerStep(ts: seq<Token>, lo: nat, hi: nat, t: Type)
    requires TypeAt(ts, lo, hi, t) && hi < |ts| && ts[hi].kind == Star
    ensures TypeAt(ts, lo, hi + 1, PointerType(t))
  {
    SpansSnoc(ts, lo, hi, RenderType(t), Kind(Star));
  }

  lemma ParamStep(ts: seq<Token>, lo: nat, hi: nat, t: Type)
    requires lo + 1 < |ts| && ts[lo].kind == Identifier && ts[lo + 1].kind == Colon
    requires TypeAt(ts, lo + 2, hi, t)
    ensures ParamAt(ts, lo, hi, Parameter(t, ts[lo]))
  {
    SpansCons(ts, lo + 1, hi, Kind(Colon), RenderType(t));
    SpansCons(ts, lo, hi, Exact(ts[lo]), [Kind(Colon)] + RenderType(t));
    assert [Exact(ts[lo])] + ([Kind(Colon)] + RenderType(t)) == RenderParameter(Parameter(t, ts[lo]));
  }

  lemma NoParams(ts: seq<Token>, lo: nat)
    requires lo <= |ts|
    ensures ParamsAt(ts, lo, lo, [])
  {
  }

  lemma FirstParamStep(ts: seq<Token>, lo: nat, hi: nat, p: Parameter)
    requires ParamAt(ts, lo, hi, p)
    ensures ParamsAt(ts, lo, hi, [p])
  {
  }

  lemma NextParamStep(ts: seq<Token>, lo: nat, mid: nat, hi: nat, ps: seq<Parameter>, p: Parameter)
    requires ParamsAt(ts, lo, mid, ps) && 0 < |ps| < MAX_ARGUMENTS
    requires mid < |ts| && ts[mid].kind == Comma && ParamAt(ts, mid + 1, hi, p)
    ensures ParamsAt(ts, lo, hi, ps + [p])
  {
    assert (ps + [p])[..|ps|] == ps;
    SpansSnoc(ts, lo, mid, RenderParameters(ps), Kind(Comma));
    SpansConcat(ts, lo, mid + 1, hi, RenderParameters(ps) + [Kind(Comma)], RenderParameter(p));
  }

  // ---------------------------------------------------------------------
  // Statements

  datatype ForInit =
    | NoInit
    | InitDecl(name: Token, vtype: Type, value: Expr)
    | InitExpr(expr: Expr)

  /** A statement as written, before `for` loops are rewritten. */
  datatype Syntax =
    | SynBlock(items: seq<Syntax>)
    | SynExpr(expr: Expr)
    | SynFunc(name: Token, parameters: seq<Parameter>, rtype: Type, statements: seq<Syntax>)
    | SynVar(name: Token, vtype: Type, value: Option<Expr>)
    | SynReturn(value: Option<Expr>)
    | SynIf(condition: Expr, ifBody: Syntax, elseBody: Option<Syntax>)
    | SynWhile(condition: Expr, body: Syntax)
    | SynFor(init: ForInit, test: Option<Expr>, increment: Option<Expr>, body: Syntax)
    | SynBreak
    | SynContinue

  function OptExpr(e: Option<Expr>): seq<Piece> {
    if e.Some? then Unparse(e.value) else []
  }

  /** The initializer of a variable declaration, `= value`, when there is one. */
  function OptAssign(e: Option<Expr>): seq<Piece> {
    if e.Some? then [Kind(Assign)] + Unparse(e.value) else []
  }

  /** A parenthesized condition after `if` or `while`. */
  function Condition(c: Expr): seq<Piece> {
    [Kind(LeftParen)] + Unparse(c) + [Kind(RightParen)]
  }

  /** `name(parameters): type` after `func`. */
  function Signature(name: Token, ps: seq<Parameter>, rt: Type): seq<Piece> {
    [Exact(name), Kind(LeftParen)] + RenderParameters(ps) + [Kind(RightParen), Kind(Colon)] + RenderType(rt)
  }

  function RenderInit(init: ForInit): (ps: seq<Piece>)
    ensures |ps| > 0
  {
    match init
    case NoInit => [Kind(Semicolon)]
    case InitDecl(name, t, v) =>
      [Exact(name), Kind(Colon)] + RenderType(t) + [Kind(Assign)] + Unparse(v) + [Kind(Semicolon)]
    case InitExpr(e) => Unparse(e) + [Kind(Semicolon)]
  }

  /** `cond; increment)`: the rest of a `for` header after its initializer. */
  function ForClauses(c: Option<Expr>, inc: Option<Expr>): seq<Piece> {
    OptExpr(c) + [Kind(Semicolon)] + OptExpr(inc) + [Kind(RightParen)]
  }

  /** The token pattern a statement is parsed from. */
  function Render(s: Syntax): (ps: seq<Piece>)
    ensures |ps| > 0
    decreases s, 2
  {
    match s
    case SynBlock(items) => RenderBlock(items)
    case SynExpr(e) => Unparse(e) + [Kind(Semicolon)]
    case SynFunc(name, ps, rt, body) => [Kind(Func)] + Signature(name, ps, rt) + RenderBlock(body)
    case SynVar(name, t, v) =>
      [Exact(name), Kind(Colon)] + RenderType(t) + OptAssign(v) + [Kind(Semicolon)]
    case SynReturn(v) => [Kind(Return)] + OptExpr(v) + [Kind(Semicolon)]
    case SynIf(c, t, e) =>
      [Kind(If)] + Condition(c) + Render(t) + (if e.Some? then [Kind(Else)] + Render(e.value) else [])
    case SynWhile(c, b) => [Kind(While)] + Condition(c) + Render(b)
    case SynFor(init, c, inc, b) =>
      [Kind(For), Kind(LeftParen)] + RenderInit(init) + ForClauses(c, inc) + Render(b)
    case SynBreak => [Kind(Break), Kind(Semicolon)]
    case SynContinue => [Kind(Continue), Kind(Semicolon)]
  }

  /** `{ items }` */
  function RenderBlock(items: seq<Syntax>): (ps: seq<Piece>)
    ensures |ps| > 0
    decreases items, 1
  {
    [Kind(LeftCur)] + RenderAll(items) + [Kind(RightCur)]
  }

  /** Statements one after another. */
  function RenderAll(items: seq<Syntax>): seq<Piece>
    decreases items, 0
  {
    if |items| == 0 then [] else RenderAll(items[..|items| - 1]) + Render(items[|items| - 1])
  }

  /** Declarations (`func`, `name: type`) stand only in blocks and at file level. */
  predicate IsDeclaration(s: Syntax) {
    s.SynFunc? || s.SynVar?
  }

  predicate OptWellFormed(e: Option<Expr>) {
    e.Some? ==> WellFormed(e.value)
  }

  predicate InitWellFormed(init: ForInit) {
    match init
    case NoInit => true
    case InitDecl(name, t, v) => name.kind == Identifier && TypeWellFormed(t) && WellFormed(v)
    case InitExpr(e) => WellFormed(e)
  }

  /**
   * Every expression in the statement is well formed, every name is an
   * identifier token, no function has more than MAX_ARGUMENTS parameters,
   * and the body of an `if`, `while` or `for` is not a declaration.
   */
  predicate SyntaxWellFormed(s: Syntax) {
    match s
    case SynBlock(items) => forall x :: x in items ==> SyntaxWellFormed(x)
    case SynExpr(e) => WellFormed(e)
    case SynFunc(name, ps, rt, body) =>
      name.kind == Identifier && |ps| <= MAX_ARGUMENTS &&
      (forall p :: p in ps ==> ParameterWellFormed(p)) &&
      TypeWellFormed(rt) && forall x :: x in body ==> SyntaxWellFormed(x)
    case SynVar(name, t, v) => name.kind == Identifier && TypeWellFormed(t) && OptWellFormed(v)
    case SynReturn(v) => OptWellFormed(v)
    case SynIf(c, t, e) =>
      WellFormed(c) && SyntaxWellFormed(t) && !IsDeclaration(t) &&
      (e.Some? ==> SyntaxWellFormed(e.value) && !IsDeclaration(e.value))
    case SynWhile(c, b) => WellFormed(c) && SyntaxWellFormed(b) && !IsDeclaration(b)
    case SynFor(init, c, inc, b) =>
      InitWellFormed(init) && OptWellFormed(c) && OptWellFormed(inc) &&
      SyntaxWellFormed(b) && !IsDeclaration(b)
    case SynBreak | SynContinue => true
  }

  /**
   * `for(init; cond; incr) body` as the parser rewrites it: the body is
   * followed by the increment in a new block only when there is one, a
   * missing condition is the literal `true`, and the loop is put in a block
   * after the initializer only when there is one.
   */
  function DesugarFor(init: Option<Stmt>, cond: Option<Expr>, incr: Option<Expr>, body: Stmt): Stmt {
    var b := if incr.Some? then BlockStmt([body, ExprStmt(incr.value)]) else body;
    var c := if cond.Some? then cond.value else TrueLiteral;
    var loop := WhileStmt(c, b, true);
    if init.Some? then BlockStmt([init.value, loop]) else loop
  }

  function LowerInit(init: ForInit): Option<Stmt> {
    match init
    case NoInit => None
    case InitDecl(name, t, v) => Some(VarDeclarationStmt(t, name, Some(v)))
    case InitExpr(e) => Some(ExprStmt(e))
  }

  /** The tree the parser returns for a statement as written. */
  function Lower(s: Syntax): Stmt
    decreases s, 1
  {
    match s
    case SynBlock(items) => BlockStmt(LowerAll(items))
    case SynExpr(e) => ExprStmt(e)
    case SynFunc(name, ps, rt, body) => FuncDeclarationStmt(rt, name, ps, BlockStmt(LowerAll(body)))
    case SynVar(name, t, v) => VarDeclarationStmt(t, name, v)
    case SynReturn(v) => ReturnStmt(v)
    case SynIf(c, t, e) => IfStmt(c, Lower(t), if e.Some? then Some(Lower(e.value)) else None)
    case SynWhile(c, b) => WhileStmt(c, Lower(b), false)
    case SynFor(init, c, inc, b) => DesugarFor(LowerInit(init), c, inc, Lower(b))
    case SynBreak => BreakStmt
    case SynContinue => ContinueStmt
  }

  function LowerAll(items: seq<Syntax>): (r: seq<Stmt>)
    ensures |r| == |items|
    decreases items, 0
  {
    if |items| == 0 then [] else LowerAll(items[..|items| - 1]) + [Lower(items[|items| - 1])]
  }

  // One predicate per kind of phrase and one lemma per production, as for
  // expressions.

  predicate StmtAt(ts: seq<Token>, lo: nat, hi: nat, s: Syntax) {
    lo < hi && Spans(ts, lo, hi, Render(s)) && SyntaxWellFormed(s)
  }

  predicate ItemsAt(ts: seq<Token>, lo: nat, hi: nat, items: seq<Syntax>) {
    Spans(ts, lo, hi, RenderAll(items)) && forall x :: x in items ==> SyntaxWellFormed(x)
  }

  predicate OptAt(ts: seq<Token>, lo: nat, hi: nat, e: Option<Expr>) {
    Spans(ts, lo, hi, OptExpr(e)) && OptWellFormed(e)
  }

  predicate InitAt(ts: seq<Token>, lo: nat, hi: nat, init: ForInit) {
    Spans(ts, lo, hi, RenderInit(init)) && InitWellFormed(init)
  }

  predicate CondAt(ts: seq<Token>, lo: nat, hi: nat, c: Expr) {
    Spans(ts, lo, hi, Condition(c)) && WellFormed(c)
  }

  predicate SignatureAt(ts: seq<Token>, lo: nat, hi: nat, name: Token, ps: seq<Parameter>, rt: Type) {
    Spans(ts, lo, hi, Signature(name, ps, rt)) && name.kind == Identifier &&
    |ps| <= MAX_ARGUMENTS && (forall p :: p in ps ==> ParameterWellFormed(p)) && TypeWellFormed(rt)
  }

  lemma NoExpr(ts: seq<Token>, lo: nat)
    requires lo <= |ts|
    ensures OptAt(ts, lo, lo, None)
  {
  }

  lemma SomeExpr(ts: seq<Token>, lo: nat, hi: nat, e: Expr)
    requires ExprAt(ts, lo, hi, e)
    ensures OptAt(ts, lo, hi, Some(e))
  {
  }

  lemma ExprStmtStep(ts: seq<Token>, lo: nat, mid: nat, e: Expr)
    requires ExprAt(ts, lo, mid, e) && mid < |ts| && ts[mid].kind == Semicolon
    ensures StmtAt(ts, lo, mid + 1, SynExpr(e))
  {
    SpansSnoc(ts, lo, mid, Unparse(e), Kind(Semicolon));
  }

  lemma VarStep(ts: seq<Token>, lo: nat, tEnd: nat, vEnd: nat, t: Type, v: Option<Expr>)
    requires lo + 1 < |ts| && ts[lo].kind == Identifier && ts[lo + 1].kind == Colon
    requires TypeAt(ts, lo + 2, tEnd, t)
    requires Spans(ts, tEnd, vEnd, OptAssign(v)) && OptWellFormed(v)
    requires vEnd < |ts| && ts[vEnd].kind == Semicolon
    ensures StmtAt(ts, lo, vEnd + 1, SynVar(ts[lo], t, v))
  {
    var head := [Exact(ts[lo]), Kind(Colon)];
    SpansToken(ts, lo);
    SpansSnoc(ts, lo, lo + 1, [Exact(ts[lo])], Kind(Colon));
    assert [Exact(ts[lo])] + [Kind(Colon)] == head;
    SpansConcat(ts, lo, lo + 2, tEnd, head, RenderType(t));
    SpansConcat(ts, lo, tEnd, vEnd, head + RenderType(t), OptAssign(v));
    SpansSnoc(ts, lo, vEnd, head + RenderType(t) + OptAssign(v), Kind(Semicolon));
  }

  lemma NoAssign(ts: seq<Token>, lo: nat)
    requires lo <= |ts|
    ensures Spans(ts, lo, lo, OptAssign(None)) && OptWellFormed(None)
  {
  }

  lemma AssignInit(ts: seq<Token>, lo: nat, hi: nat, e: Expr)
    requires lo < |ts| && ts[lo].kind == Assign && ExprAt(ts, lo + 1, hi, e)
    ensures Spans(ts, lo, hi, OptAssign(Some(e))) && OptWellFormed(Some(e))
  {
    SpansCons(ts, lo, hi, Kind(Assign), Unparse(e));
  }

  lemma ReturnStep(ts: seq<Token>, lo: nat, mid: nat, v: Option<Expr>)
    requires lo < |ts| && ts[lo].kind == Return && OptAt(ts, lo + 1, mid, v)
    requires mid < |ts| && ts[mid].kind == Semicolon
    ensures StmtAt(ts, lo, mid + 1, SynReturn(v))
  {
    SpansCons(ts, lo, mid, Kind(Return), OptExpr(v));
    SpansSnoc(ts, lo, mid, [Kind(Return)] + OptExpr(v), Kind(Semicolon));
  }

  lemma BreakStep(ts: seq<Token>, lo: nat)
    requires lo + 1 < |ts| && ts[lo].kind == Break && ts[lo + 1].kind == Semicolon
    ensures StmtAt(ts, lo, lo + 2, SynBreak)
  {
    SpansToken(ts, lo);
    SpansSnoc(ts, lo, lo + 1, [Kind(Break)], Kind(Semicolon));
  }

  lemma ContinueStep(ts: seq<Token>, lo: nat)
    requires lo + 1 < |ts| && ts[lo].kind == Continue && ts[lo + 1].kind == Semicolon
    ensures StmtAt(ts, lo, lo + 2, SynContinue)
  {
    SpansToken(ts, lo);
    SpansSnoc(ts, lo, lo + 1, [Kind(Continue)], Kind(Semicolon));
  }

  lemma CondStep(ts: seq<Token>, lo: nat, hi: nat, c: Expr)
    requires lo < hi < |ts| && ts[lo].kind == LeftParen && ts[hi].kind == RightParen
    requires ExprAt(ts, lo + 1, hi, c)
    ensures CondAt(ts, lo, hi + 1, c)
  {
    SpansCons(ts, lo, hi, Kind(LeftParen), Unparse(c));
    SpansSnoc(ts, lo, hi, [Kind(LeftParen)] + Unparse(c), Kind(RightParen));
  }

  lemma WhileStep(ts: seq<Token>, lo: nat, mid: nat, hi: nat, c: Expr, b: Syntax)
    requires lo < |ts| && ts[lo].kind == While && CondAt(ts, lo + 1, mid, c)
    requires StmtAt(ts, mid, hi, b) && !IsDeclaration(b)
    ensures StmtAt(ts, lo, hi, SynWhile(c, b))
  {
    SpansCons(ts, lo, mid, Kind(While), Condition(c));
    SpansConcat(ts, lo, mid, hi, [Kind(While)] + Condition(c), Render(b));
  }

  lemma IfStep(ts: seq<Token>, lo: nat, mid: nat, hi: nat, c: Expr, t: Syntax)
    requires lo < |ts| && ts[lo].kind == If && CondAt(ts, lo + 1, mid, c)
    requires StmtAt(ts, mid, hi, t) && !IsDeclaration(t)
    ensures StmtAt(ts, lo, hi, SynIf(c, t, None))
  {
    SpansCons(ts, lo, mid, Kind(If), Condition(c));
    SpansConcat(ts, lo, mid, hi, [Kind(If)] + Condition(c), Render(t));
    assert [Kind(If)] + Condition(c) + Render(t) + [] == [Kind(If)] + Condition(c) + Render(t);
  }

  lemma IfElseStep(ts: seq<Token>, lo: nat, mid: nat, els: nat, hi: nat, c: Expr, t: Syntax, e: Syntax)
    requires lo < |ts| && ts[lo].kind == If && CondAt(ts, lo + 1, mid, c)
    requires StmtAt(ts, mid, els, t) && !IsDeclaration(t)
    requires els < |ts| && ts[els].kind == Else && StmtAt(ts, els + 1, hi, e) && !IsDeclaration(e)
    ensures StmtAt(ts, lo, hi, SynIf(c, t, Some(e)))
  {
    SpansCons(ts, lo, mid, Kind(If), Condition(c));
    SpansConcat(ts, lo, mid, els, [Kind(If)] + Condition(c), Render(t));
    SpansCons(ts, els, hi, Kind(Else), Render(e));
    SpansConcat(ts, lo, els, hi, [Kind(If)] + Condition(c) + Render(t), [Kind(Else)] + Render(e));
  }

  lemma NoItems(ts: seq<Token>, lo: nat)
    requires lo <= |ts|
    ensures ItemsAt(ts, lo, lo, [])
  {
  }

  lemma NextItem(ts: seq<Token>, lo: nat, mid: nat, hi: nat, items: seq<Syntax>, x: Syntax)
    requires ItemsAt(ts, lo, mid, items) && StmtAt(ts, mid, hi, x)
    ensures ItemsAt(ts, lo, hi, items + [x])
  {
    assert (items + [x])[..|items|] == items;
    SpansConcat(ts, lo, mid, hi, RenderAll(items), Render(x));
  }

  lemma BlockStep(ts: seq<Token>, lo: nat, hi: nat, items: seq<Syntax>)
    requires lo < |ts| && ts[lo].kind == LeftCur && ItemsAt(ts, lo + 1, hi, items)
    requires hi < |ts| && ts[hi].kind == RightCur
    ensures Spans(ts, lo, hi + 1, RenderBlock(items))
    ensures StmtAt(ts, lo, hi + 1, SynBlock(items))
  {
    SpansCons(ts, lo, hi, Kind(LeftCur), RenderAll(items));
    SpansSnoc(ts, lo, hi, [Kind(LeftCur)] + RenderAll(items), Kind(RightCur));
  }

  lemma SignatureStep(ts: seq<Token>, lo: nat, mid: nat, hi: nat, ps: seq<Parameter>, rt: Type)
    requires lo + 1 < |ts| && ts[lo].kind == Identifier && ts[lo + 1].kind == LeftParen
    requires ParamsAt(ts, lo + 2, mid, ps)
    requires mid + 1 < |ts| && ts[mid].kind == RightParen && ts[mid + 1].kind == Colon
    requires TypeAt(ts, mid + 2, hi, rt)
    ensures SignatureAt(ts, lo, hi, ts[lo], ps, rt)
  {
    var head := [Exact(ts[lo]), Kind(LeftParen)];
    var close := [Kind(RightParen), Kind(Colon)];
    SpansToken(ts, lo);
    SpansSnoc(ts, lo, lo + 1, [Exact(ts[lo])], Kind(LeftParen));
    assert [Exact(ts[lo])] + [Kind(LeftParen)] == head;
    SpansConcat(ts, lo, lo + 2, mid, head, RenderParameters(ps));
    SpansToken(ts, mid);
    SpansSnoc(ts, mid, mid + 1, [Kind(RightParen)], Kind(Colon));
    assert [Kind(RightParen)] + [Kind(Colon)] == close;
    SpansConcat(ts, lo, mid, mid + 2, head + RenderParameters(ps), close);
    SpansConcat(ts, lo, mid + 2, hi, head + RenderParameters(ps) + close, RenderType(rt));
  }

  lemma FuncStep(ts: seq<Token>, lo: nat, mid: nat, hi: nat, name: Token, ps: seq<Parameter>, rt: Type, body: seq<Syntax>)
    requires lo < |ts| && ts[lo].kind == Func && SignatureAt(ts, lo + 1, mid, name, ps, rt)
    requires Spans(ts, mid, hi, RenderBlock(body)) && forall x :: x in body ==> SyntaxWellFormed(x)
    ensures StmtAt(ts, lo, hi, SynFunc(name, ps, rt, body))
  {
    SpansCons(ts, lo, mid, Kind(Func), Signature(name, ps, rt));
    SpansConcat(ts, lo, mid, hi, [Kind(Func)] + Signature(name, ps, rt), RenderBlock(body));
  }

  lemma NoInitStep(ts: seq<Token>, lo: nat)
    requires lo < |ts| && ts[lo].kind == Semicolon
    ensures InitAt(ts, lo, lo + 1, NoInit)
  {
    SpansToken(ts, lo);
  }

  lemma InitExprStep(ts: seq<Token>, lo: nat, hi: nat, e: Expr)
    requires StmtAt(ts, lo, hi, SynExpr(e))
    ensures InitAt(ts, lo, hi, InitExpr(e))
  {
  }

  lemma InitDeclStep(ts: seq<Token>, lo: nat, tEnd: nat, vEnd: nat, t: Type, v: Expr)
    requires lo + 1 < |ts| && ts[lo].kind == Identifier && ts[lo + 1].kind == Colon
    requires TypeAt(ts, lo + 2, tEnd, t)
    requires tEnd < |ts| && ts[tEnd].kind == Assign && ExprAt(ts, tEnd + 1, vEnd, v)
    requires vEnd < |ts| && ts[vEnd].kind == Semicolon
    ensures InitAt(ts, lo, vEnd + 1, InitDecl(ts[lo], t, v))
  {
    AssignInit(ts, tEnd, vEnd, v);
    VarStep(ts, lo, tEnd, vEnd, t, Some(v));
    InitDeclRendersVar(ts[lo], t, v);
  }

  /** A `for` declaration is written like the variable declaration it lowers to. */
  lemma InitDeclRendersVar(name: Token, t: Type, v: Expr)
    ensures RenderInit(InitDecl(name, t, v)) == Render(SynVar(name, t, Some(v)))
  {
    assert [Kind(Assign)] + Unparse(v) == OptAssign(Some(v));
    assert [Exact(name), Kind(Colon)] + RenderType(t) + [Kind(Assign)] + Unparse(v) ==
           [Exact(name), Kind(Colon)] + RenderType(t) + ([Kind(Assign)] + Unparse(v));
  }

  /** `cond;` ends at `mid` and `increment)` at `hi`. */
  lemma ClausesStep(ts: seq<Token>, lo: nat, mid: nat, hi: nat, c: Option<Expr>, i: Option<Expr>)
    requires lo < mid && OptAt(ts, lo, mid - 1, c) && mid <= |ts| && ts[mid - 1].kind == Semicolon
    requires mid < hi && OptAt(ts, mid, hi - 1, i) && hi <= |ts| && ts[hi - 1].kind == RightParen
    ensures Spans(ts, lo, hi, ForClauses(c, i))
  {
    SpansSnoc(ts, lo, mid - 1, OptExpr(c), Kind(Semicolon));
    SpansConcat(ts, lo, mid, hi - 1, OptExpr(c) + [Kind(Semicolon)], OptExpr(i));
    SpansSnoc(ts, lo, hi - 1, OptExpr(c) + [Kind(Semicolon)] + OptExpr(i), Kind(RightParen));
  }

  lemma ForStep(ts: seq<Token>, lo: nat, iEnd: nat, cEnd: nat, hi: nat,
                init: ForInit, c: Option<Expr>, i: Option<Expr>, b: Syntax)
    requires lo + 1 < |ts| && ts[lo].kind == For && ts[lo + 1].kind == LeftParen
    requires InitAt(ts, lo + 2, iEnd, init)
    requires Spans(ts, iEnd, cEnd, ForClauses(c, i)) && OptWellFormed(c) && OptWellFormed(i)
    requires StmtAt(ts, cEnd, hi, b) && !IsDeclaration(b)
    ensures StmtAt(ts, lo, hi, SynFor(init, c, i, b))
  {
    ForHeadStep(ts, lo, iEnd, cEnd, init, c, i);
    SpansConcat(ts, lo, cEnd, hi, [Kind(For), Kind(LeftParen)] + RenderInit(init) + ForClauses(c, i), Render(b));
  }

  /** `for (init cond; increment)` spans the tokens up to the body. */
  lemma ForHeadStep(ts: seq<Token>, lo: nat, iEnd: nat, cEnd: nat, init: ForInit, c: Option<Expr>, i: Option<Expr>)
    requires lo + 1 < |ts| && ts[lo].kind == For && ts[lo + 1].kind == LeftParen
    requires InitAt(ts, lo + 2, iEnd, init)
    requires Spans(ts, iEnd, cEnd, ForClauses(c, i))
    ensures Spans(ts, lo, cEnd, [Kind(For), Kind(LeftParen)] + RenderInit(init) + ForClauses(c, i))
  {
    SpansKinds(ts, lo, For, LeftParen);
    SpansConcat(ts, lo, lo + 2, iEnd, [Kind(For), Kind(LeftParen)], RenderInit(init));
    SpansConcat(ts, lo, iEnd, cEnd, [Kind(For), Kind(LeftParen)] + RenderInit(init), ForClauses(c, i));
  }

  // ---------------------------------------------------------------------
  // Files

  /** One `topLevelStatement`: a run of `include "file";` and then a declaration. */
  datatype TopLevelItem = TopLevelItem(includes: seq<Token>, decl: Syntax)

  function RenderIncludes(files: seq<Token>): seq<Piece> {
    if |files| == 0 then []
    else RenderIncludes(files[..|files| - 1]) + [Kind(Include), Exact(files[|files| - 1]), Kind(Semicolon)]
  }

  function RenderItem(item: TopLevelItem): seq<Piece> {
    RenderIncludes(item.includes) + Render(item.decl)
  }

  function RenderFile(items: seq<TopLevelItem>): seq<Piece> {
    if |items| == 0 then [] else RenderFile(items[..|items| - 1]) + RenderItem(items[|items| - 1])
  }

  /** Every include names a string literal and every declaration is well formed. */
  predicate ItemWellFormed(item: TopLevelItem) {
    (forall f :: f in item.includes ==> f.kind == StringLit) && SyntaxWellFormed(item.decl)
  }

  predicate IncludesAt(ts: seq<Token>, lo: nat, hi: nat, files: seq<Token>) {
    Spans(ts, lo, hi, RenderIncludes(files)) && forall f :: f in files ==> f.kind == StringLit
  }

  predicate FileAt(ts: seq<Token>, lo: nat, hi: nat, items: seq<TopLevelItem>) {
    Spans(ts, lo, hi, RenderFile(items)) && forall x :: x in items ==> ItemWellFormed(x)
  }

  lemma NoIncludes(ts: seq<Token>, lo: nat)
    requires lo <= |ts|
    ensures IncludesAt(ts, lo, lo, [])
  {
  }

  lemma IncludeStep(ts: seq<Token>, lo: nat, mid: nat, files: seq<Token>)
    requires IncludesAt(ts, lo, mid, files)
    requires mid + 2 < |ts| && ts[mid].kind == Include && ts[mid + 1].kind == StringLit
    requires ts[mid + 2].kind == Semicolon
    ensures IncludesAt(ts, lo, mid + 3, files + [ts[mid + 1]])
  {
    var fs := files + [ts[mid + 1]];
    assert fs[..|files|] == files && fs[|fs| - 1] == ts[mid + 1];
    SpansSnoc(ts, lo, mid, RenderIncludes(files), Kind(Include));
    SpansSnoc(ts, lo, mid + 1, RenderIncludes(files) + [Kind(Include)], Exact(ts[mid + 1]));
    SpansSnoc(ts, lo, mid + 2, RenderIncludes(files) + [Kind(Include)] + [Exact(ts[mid + 1])], Kind(Semicolon));
    assert RenderIncludes(files) + [Kind(Include)] + [Exact(ts[mid + 1])] + [Kind(Semicolon)] ==
           RenderIncludes(files) + [Kind(Include), Exact(ts[mid + 1]), Kind(Semicolon)];
  }

  lemma ItemStep(ts: seq<Token>, lo: nat, mid: nat, hi: nat, files: seq<Token>, decl: Syntax)
    requires IncludesAt(ts, lo, mid, files) && StmtAt(ts, mid, hi, decl)
    ensures lo < hi && Spans(ts, lo, hi, RenderItem(TopLevelItem(files, decl)))
    ensures ItemWellFormed(TopLevelItem(files, decl))
  {
    SpansConcat(ts, lo, mid, hi, RenderIncludes(files), Render(decl));
  }

  lemma NoFileItems(ts: seq<Token>, lo: nat)
    requires lo <= |ts|
    ensures FileAt(ts, lo, lo, [])
  {
  }

  lemma NextFileItem(ts: seq<Token>, lo: nat, mid: nat, hi: nat, items: seq<TopLevelItem>, item: TopLevelItem)
    requires FileAt(ts, lo, mid, items) && Spans(ts, mid, hi, RenderItem(item)) && ItemWellFormed(item)
    ensures FileAt(ts, lo, hi, items + [item])
  {
    assert (items + [item])[..|items|] == items;
    SpansConcat(ts, lo, mid, hi, RenderFile(items), RenderItem(item));
  }

  /**
   * The statements of a file: each top-level item contributes what its
   * includes brought in (`imported`) followed by its own declaration.
   */
  function Weave(imported: seq<seq<Stmt>>, items: seq<TopLevelItem>): seq<Stmt>
    requires |imported| == |items|
  {
    if |items| == 0 then []
    else Weave(imported[..|items| - 1], items[..|items| - 1]) +
         imported[|items| - 1] + [Lower(items[|items| - 1].decl)]
  }
}
