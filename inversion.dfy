/**
 * Reading renderings backwards. `Grammar` says how a phrase is assembled
 * from the renderings of its parts; the lemmas here take a rendering apart
 * again: where each part starts and ends, which token kinds a phrase can
 * start with or contain, and the chains of left-associative operators and
 * postfix operations a parse climbs. The parser's completeness proofs use
 * them to show that each grammar method finds the parse the tokens have.
 */
module Inversion {
  import opened Tokens
  import opened Ast
  import opened Grammar

  // ---------------------------------------------------------------------
  // Splitting a rendering

  lemma {:induction false} CoversSplit(ts: seq<Token>, a: nat, p: seq<Piece>, q: seq<Piece>)
    requires Covers(ts, a, p + q)
    ensures Covers(ts, a, p) && Covers(ts, a + |p|, q)
    decreases |p|
  {
    if |p| == 0 {
      assert p + q == q;
    } else {
      assert (p + q)[0] == p[0] && (p + q)[1..] == p[1..] + q;
      CoversSplit(ts, a + 1, p[1..], q);
    }
  }

  /** The tokens of a concatenation split where the first part ends. */
  lemma SpansSplit(ts: seq<Token>, a: nat, c: nat, p: seq<Piece>, q: seq<Piece>)
    requires Spans(ts, a, c, p + q)
    ensures Spans(ts, a, a + |p|, p) && Spans(ts, a + |p|, c, q)
  {
    CoversSplit(ts, a, p, q);
  }

  /** The three parts of `p + q + s`. */
  lemma SpansSplit3(ts: seq<Token>, a: nat, c: nat, p: seq<Piece>, q: seq<Piece>, s: seq<Piece>)
    requires Spans(ts, a, c, p + q + s)
    ensures Spans(ts, a, a + |p|, p) && Spans(ts, a + |p|, a + |p| + |q|, q)
    ensures Spans(ts, a + |p| + |q|, c, s)
  {
    SpansSplit(ts, a, c, p + q, s);
    SpansSplit(ts, a, a + |p| + |q|, p, q);
  }

  /** The kind of token a piece fits. */
  function PieceKind(p: Piece): TokenType {
    match p
    case Exact(t) => t.kind
    case Kind(k) => k
  }

  /** The token at offset `i` of a rendering fits piece `i`. */
  lemma SpansAt(ts: seq<Token>, lo: nat, hi: nat, ps: seq<Piece>, i: nat)
    requires Spans(ts, lo, hi, ps) && i < |ps|
    ensures lo + i < hi && Fits(ts[lo + i], ps[i]) && ts[lo + i].kind == PieceKind(ps[i])
  {
    CoversAt(ts, lo, ps, i);
  }

  // ---------------------------------------------------------------------
  // Which kinds an expression starts with and contains

  /** The kinds an expression can start with. */
  predicate StartsExpression(k: TokenType) {
    IsLiteralKind(k) || k == Identifier || k == LeftParen || k == Not || k == Minus
  }

  /** The kinds a postfix-level expression can start with. */
  predicate StartsPrimary(k: TokenType) {
    IsLiteralKind(k) || k == Identifier || k == LeftParen
  }

  /** The kinds an expression's rendering can contain. */
  predicate InExpression(k: TokenType) {
    IsLiteralKind(k) || k == Identifier || k == Not || OpLevel(k) >= 0 || k == RightParen || k == Comma
  }

  lemma PrecRange(e: Expr)
    requires WellFormed(e)
    ensures ASSIGNMENT <= Prec(e) <= PRIMARY
  {
  }

  lemma {:induction false} ExprStart(e: Expr)
    requires WellFormed(e)
    ensures StartsExpression(PieceKind(Unparse(e)[0]))
    ensures Prec(e) >= POSTFIX ==> StartsPrimary(PieceKind(Unparse(e)[0]))
  {
    match e
    case LiteralExpr(_) =>
    case IdentifierExpr(_) =>
    case UnaryExpr(_, _) =>
    case BinaryExpr(l, r, op) =>
      ExprStart(l);
      assert Unparse(e)[0] == Unparse(l)[0];
    case MemberAccessExpr(p, _) =>
      ExprStart(p);
      assert Unparse(e)[0] == Unparse(p)[0];
    case CallExpr(c, args) =>
      ExprStart(c);
      assert Unparse(e)[0] == Unparse(c)[0];
    case ParenthesizedExpr(_) =>
    case AssignExpr(_, _) =>
  }

  lemma {:induction false} ExprKinds(e: Expr)
    requires WellFormed(e)
    ensures forall p :: p in Unparse(e) ==> InExpression(PieceKind(p))
    decreases e, 1
  {
    match e
    case LiteralExpr(_) =>
    case IdentifierExpr(_) =>
    case UnaryExpr(x, _) => ExprKinds(x);
    case BinaryExpr(l, r, _) => ExprKinds(l); ExprKinds(r);
    case MemberAccessExpr(p, _) => ExprKinds(p);
    case CallExpr(c, args) => ExprKinds(c); ArgsKinds(args);
    case ParenthesizedExpr(x) => ExprKinds(x);
    case AssignExpr(_, v) => ExprKinds(v);
  }

  lemma {:induction false} ArgsKinds(args: seq<Expr>)
    requires forall a :: a in args ==> WellFormed(a)
    ensures forall p :: p in ArgsRender(args) ==> InExpression(PieceKind(p))
    decreases args, 0
  {
    if |args| == 1 {
      ExprKinds(args[0]);
    } else if |args| > 1 {
      ArgsKinds(args[..|args| - 1]);
      ExprKinds(args[|args| - 1]);
    }
  }

  /** The first token of an expression. */
  lemma ExprFirst(ts: seq<Token>, lo: nat, hi: nat, e: Expr)
    requires ExprAt(ts, lo, hi, e)
    ensures StartsExpression(ts[lo].kind)
    ensures Prec(e) >= POSTFIX ==> StartsPrimary(ts[lo].kind)
  {
    ExprStart(e);
    SpansAt(ts, lo, hi, Unparse(e), 0);
  }

  // ---------------------------------------------------------------------
  // Left-associative chains

  /** `p` is `e`, or is reached from `e` through left operands of operators at `level`. */
  predicate OnLeftSpine(p: Expr, e: Expr, level: int)
    decreases e
  {
    p == e || (e.BinaryExpr? && OpLevel(e.op.kind) == level && OnLeftSpine(p, e.left, level))
  }

  /** The node of the chain whose left operand is `p`. */
  function SpineParent(p: Expr, e: Expr, level: int): (q: Expr)
    requires OnLeftSpine(p, e, level) && p != e
    ensures q.BinaryExpr? && q.left == p && OpLevel(q.op.kind) == level && OnLeftSpine(q, e, level)
    decreases e
  {
    if e.left == p then e else SpineParent(p, e.left, level)
  }

  /** The first operand of the chain. */
  function SpineBottom(e: Expr, level: int): (b: Expr)
    ensures OnLeftSpine(b, e, level) && !(b.BinaryExpr? && OpLevel(b.op.kind) == level)
    decreases e
  {
    if e.BinaryExpr? && OpLevel(e.op.kind) == level then SpineBottom(e.left, level) else e
  }

  /** The parts of a binary node's rendering. */
  lemma BinaryParts(ts: seq<Token>, lo: nat, hi: nat, e: Expr)
    requires ExprAt(ts, lo, hi, e) && e.BinaryExpr?
    ensures var m := lo + |Unparse(e.left)|;
      m + 1 < hi && ExprAt(ts, lo, m, e.left) && ts[m] == e.op && ExprAt(ts, m + 1, hi, e.right) &&
      OR_LEVEL <= OpLevel(e.op.kind) <= MULTIPLICATION &&
      Prec(e.left) >= OpLevel(e.op.kind) && Prec(e.right) > OpLevel(e.op.kind)
  {
    var m := lo + |Unparse(e.left)|;
    SpansSplit3(ts, lo, hi, Unparse(e.left), [Exact(e.op)], Unparse(e.right));
    SpansAt(ts, m, m + 1, [Exact(e.op)], 0);
  }

  /** Every node of a chain renders a prefix of the tokens and stands at `level` or tighter. */
  lemma {:induction false} SpinePrefix(ts: seq<Token>, lo: nat, hi: nat, e: Expr, level: int, p: Expr)
    requires OR_LEVEL <= level <= MULTIPLICATION
    requires ExprAt(ts, lo, hi, e) && Prec(e) >= level && OnLeftSpine(p, e, level)
    ensures lo + |Unparse(p)| <= hi && ExprAt(ts, lo, lo + |Unparse(p)|, p) && Prec(p) >= level
    decreases e
  {
    if p != e {
      BinaryParts(ts, lo, hi, e);
      SpinePrefix(ts, lo, lo + |Unparse(e.left)|, e.left, level, p);
    }
  }

  /**
   * Climbing a chain: after a node other than the top come the operator of
   * its parent and the parent's right operand, which is parsed at the next
   * tighter level.
   */
  lemma SpineStep(ts: seq<Token>, lo: nat, hi: nat, e: Expr, level: int, p: Expr)
    requires OR_LEVEL <= level <= MULTIPLICATION
    requires ExprAt(ts, lo, hi, e) && Prec(e) >= level && hi < |ts| && OpLevel(ts[hi].kind) <= level
    requires OnLeftSpine(p, e, level) && p != e
    ensures var q := SpineParent(p, e, level);
      var m := lo + |Unparse(p)|;
      m < hi && ts[m] == q.op && Parsed(ts, m + 1, lo + |Unparse(q)|, q.right, level + 1)
  {
    var q := SpineParent(p, e, level);
    SpineNode(ts, lo, hi, e, level, q);
    SpineFollow(ts, lo, hi, e, level, q);
  }

  /** A binary node of the chain: its operator and right operand. */
  lemma SpineNode(ts: seq<Token>, lo: nat, hi: nat, e: Expr, level: int, q: Expr)
    requires OR_LEVEL <= level <= MULTIPLICATION
    requires ExprAt(ts, lo, hi, e) && Prec(e) >= level && OnLeftSpine(q, e, level)
    requires q.BinaryExpr? && OpLevel(q.op.kind) == level
    ensures var m := lo + |Unparse(q.left)|;
      m < lo + |Unparse(q)| <= hi && ts[m] == q.op && ExprAt(ts, m + 1, lo + |Unparse(q)|, q.right) && Prec(q.right) > level
  {
    SpinePrefix(ts, lo, hi, e, level, q);
    BinaryParts(ts, lo, lo + |Unparse(q)|, q);
  }

  /** The token after a node of the chain continues no expression tighter than `level`. */
  lemma SpineFollow(ts: seq<Token>, lo: nat, hi: nat, e: Expr, level: int, q: Expr)
    requires OR_LEVEL <= level <= MULTIPLICATION
    requires ExprAt(ts, lo, hi, e) && Prec(e) >= level && hi < |ts| && OpLevel(ts[hi].kind) <= level
    requires OnLeftSpine(q, e, level)
    ensures var n := lo + |Unparse(q)|; n < |ts| && OpLevel(ts[n].kind) <= level
  {
    if q != e {
      SpineFollowInside(ts, lo, hi, e, level, q);
    }
  }

  /** Inside the chain, the token after a node is the operator of its parent. */
  lemma SpineFollowInside(ts: seq<Token>, lo: nat, hi: nat, e: Expr, level: int, q: Expr)
    requires OR_LEVEL <= level <= MULTIPLICATION
    requires ExprAt(ts, lo, hi, e) && Prec(e) >= level && OnLeftSpine(q, e, level) && q != e
    ensures var n := lo + |Unparse(q)|; n < |ts| && OpLevel(ts[n].kind) == level
  {
    var q2 := SpineParent(q, e, level);
    SpineNode(ts, lo, hi, e, level, q2);
  }

  /** The first operand of a chain is parsed at the next tighter level. */
  lemma SpineBottomParsed(ts: seq<Token>, lo: nat, hi: nat, e: Expr, level: int)
    requires OR_LEVEL <= level <= MULTIPLICATION
    requires ExprAt(ts, lo, hi, e) && Prec(e) >= level && hi < |ts| && OpLevel(ts[hi].kind) <= level
    ensures lo + |Unparse(SpineBottom(e, level))| <= hi
    ensures Parsed(ts, lo, lo + |Unparse(SpineBottom(e, level))|, SpineBottom(e, level), level + 1)
  {
    var b := SpineBottom(e, level);
    SpinePrefix(ts, lo, hi, e, level, b);
    SpineFollow(ts, lo, hi, e, level, b);
  }

  // ---------------------------------------------------------------------
  // Assignments, prefix operators and primaries

  /** An assignment is an identifier, `=` and a value parsed at the loosest level; anything else parses at `or`. */
  lemma AssignCases(ts: seq<Token>, lo: nat, hi: nat, e: Expr)
    requires Parsed(ts, lo, hi, e, ASSIGNMENT)
    ensures e.AssignExpr? ==>
      lo + 2 < hi && ts[lo] == e.name && Parsed(ts, lo, lo + 1, IdentifierExpr(e.name), OR_LEVEL) &&
      ts[lo + 1].kind == Assign && Parsed(ts, lo + 2, hi, e.value, ASSIGNMENT)
    ensures !e.AssignExpr? ==> Parsed(ts, lo, hi, e, OR_LEVEL)
  {
    if e.AssignExpr? {
      SpansSplit(ts, lo, hi, [Exact(e.name), Kind(Assign)], Unparse(e.value));
      SpansAt(ts, lo, hi, Unparse(e), 0);
      SpansAt(ts, lo, hi, Unparse(e), 1);
      SpansToken(ts, lo);
      PrecRange(e.value);
    }
  }

  /** A unary-level parse is a prefix operator applied to a unary-level parse, or a postfix-level parse. */
  lemma UnaryCases(ts: seq<Token>, lo: nat, hi: nat, e: Expr)
    requires Parsed(ts, lo, hi, e, UNARY)
    ensures e.UnaryExpr? ==> ts[lo] == e.op && Parsed(ts, lo + 1, hi, e.expr, UNARY)
    ensures !e.UnaryExpr? ==> Parsed(ts, lo, hi, e, POSTFIX) && StartsPrimary(ts[lo].kind)
  {
    if e.UnaryExpr? {
      SpansSplit(ts, lo, hi, [Exact(e.op)], Unparse(e.expr));
    } else {
      ExprFirst(ts, lo, hi, e);
    }
  }

  /** A primary is a literal, an identifier, or a parenthesized expression. */
  lemma PrimaryCases(ts: seq<Token>, lo: nat, hi: nat, e: Expr)
    requires ExprAt(ts, lo, hi, e) && Prec(e) >= PRIMARY
    ensures e.LiteralExpr? || e.IdentifierExpr? || e.ParenthesizedExpr?
    ensures e.LiteralExpr? ==> hi == lo + 1 && ts[lo] == e.literal && IsLiteralKind(ts[lo].kind)
    ensures e.IdentifierExpr? ==> hi == lo + 1 && ts[lo] == e.ident && ts[lo].kind == Identifier
    ensures e.ParenthesizedExpr? ==>
      ts[lo].kind == LeftParen && ExprAt(ts, lo + 1, hi - 1, e.expr) && ts[hi - 1].kind == RightParen
  {
    if e.ParenthesizedExpr? {
      SpansSplit3(ts, lo, hi, [Kind(LeftParen)], Unparse(e.expr), [Kind(RightParen)]);
    }
  }

  // ---------------------------------------------------------------------
  // Postfix chains

  /** `p` is `e`, or is reached from `e` through the operands of calls and member accesses. */
  predicate OnPostfixSpine(p: Expr, e: Expr)
    decreases e
  {
    p == e ||
    (e.MemberAccessExpr? && OnPostfixSpine(p, e.parent)) ||
    (e.CallExpr? && OnPostfixSpine(p, e.callee))
  }

  /** The call or member access of the chain whose operand is `p`. */
  function PostfixParent(p: Expr, e: Expr): (q: Expr)
    requires OnPostfixSpine(p, e) && p != e
    ensures (q.MemberAccessExpr? && q.parent == p) || (q.CallExpr? && q.callee == p)
    ensures OnPostfixSpine(q, e)
    decreases e
  {
    if e.MemberAccessExpr? then (if e.parent == p then e else PostfixParent(p, e.parent))
    else if e.callee == p then e else PostfixParent(p, e.callee)
  }

  /** The primary the chain starts with. */
  function PostfixBottom(e: Expr): (b: Expr)
    ensures OnPostfixSpine(b, e) && !b.MemberAccessExpr? && !b.CallExpr?
    decreases e
  {
    if e.MemberAccessExpr? then PostfixBottom(e.parent)
    else if e.CallExpr? then PostfixBottom(e.callee)
    else e
  }

  /** The parts of a member access's rendering. */
  lemma MemberParts(ts: seq<Token>, lo: nat, hi: nat, e: Expr)
    requires ExprAt(ts, lo, hi, e) && e.MemberAccessExpr?
    ensures var m := lo + |Unparse(e.parent)|;
      m + 2 == hi && ExprAt(ts, lo, m, e.parent) && Prec(e.parent) >= POSTFIX &&
      ts[m].kind == Dot && ts[m + 1] == e.name && e.name.kind == Identifier
  {
    var m := lo + |Unparse(e.parent)|;
    SpansSplit(ts, lo, hi, Unparse(e.parent), [Kind(Dot), Exact(e.name)]);
    SpansAt(ts, m, hi, [Kind(Dot), Exact(e.name)], 0);
    SpansAt(ts, m, hi, [Kind(Dot), Exact(e.name)], 1);
  }

  /** The parts of a call's rendering. */
  lemma CallParts(ts: seq<Token>, lo: nat, hi: nat, e: Expr)
    requires ExprAt(ts, lo, hi, e) && e.CallExpr?
    ensures var m := lo + |Unparse(e.callee)|;
      m + 1 < hi && ExprAt(ts, lo, m, e.callee) && Prec(e.callee) >= POSTFIX &&
      ts[m].kind == LeftParen && ArgsAt(ts, m + 1, hi - 1, e.args) && ts[hi - 1].kind == RightParen
  {
    var m := lo + |Unparse(e.callee)|;
    SpansSplit3(ts, lo, hi, Unparse(e.callee) + [Kind(LeftParen)], ArgsRender(e.args), [Kind(RightParen)]);
    SpansSplit(ts, lo, m + 1, Unparse(e.callee), [Kind(LeftParen)]);
    SpansAt(ts, m, m + 1, [Kind(LeftParen)], 0);
    SpansAt(ts, hi - 1, hi, [Kind(RightParen)], 0);
  }

  /** Every node of a postfix chain renders a prefix of the tokens. */
  lemma {:induction false} PostfixPrefix(ts: seq<Token>, lo: nat, hi: nat, e: Expr, p: Expr)
    requires ExprAt(ts, lo, hi, e) && Prec(e) >= POSTFIX && OnPostfixSpine(p, e)
    ensures lo + |Unparse(p)| <= hi && ExprAt(ts, lo, lo + |Unparse(p)|, p) && Prec(p) >= POSTFIX
    decreases e
  {
    if p != e {
      if e.MemberAccessExpr? {
        MemberParts(ts, lo, hi, e);
        PostfixPrefix(ts, lo, lo + |Unparse(e.parent)|, e.parent, p);
      } else {
        CallParts(ts, lo, hi, e);
        PostfixPrefix(ts, lo, lo + |Unparse(e.callee)|, e.callee, p);
      }
    }
  }

  /** What follows the operand of the call or member access `q`, from `m` to `n`. */
  predicate PostfixLink(ts: seq<Token>, m: nat, n: nat, q: Expr) {
    m + 1 < n <= |ts| &&
    (q.MemberAccessExpr? ==> ts[m].kind == Dot && ts[m + 1] == q.name && q.name.kind == Identifier && n == m + 2) &&
    (q.CallExpr? ==> ts[m].kind == LeftParen && ArgsAt(ts, m + 1, n - 1, q.args) && ts[n - 1].kind == RightParen)
  }

  /** Climbing a postfix chain: after a node other than the top comes `.name` or an argument list. */
  lemma PostfixStep(ts: seq<Token>, lo: nat, hi: nat, e: Expr, p: Expr)
    requires ExprAt(ts, lo, hi, e) && Prec(e) >= POSTFIX && OnPostfixSpine(p, e) && p != e
    ensures var q := PostfixParent(p, e);
      lo + |Unparse(q)| <= hi && PostfixLink(ts, lo + |Unparse(p)|, lo + |Unparse(q)|, q)
  {
    var q := PostfixParent(p, e);
    PostfixPrefix(ts, lo, hi, e, q);
    PostfixLinkAt(ts, lo, lo + |Unparse(q)|, p, q);
  }

  /** A postfix node rendered at `lo` links the end of its operand `p` to its own end. */
  lemma PostfixLinkAt(ts: seq<Token>, lo: nat, hi: nat, p: Expr, q: Expr)
    requires ExprAt(ts, lo, hi, q) && ((q.MemberAccessExpr? && q.parent == p) || (q.CallExpr? && q.callee == p))
    ensures PostfixLink(ts, lo + |Unparse(p)|, hi, q)
  {
    if q.MemberAccessExpr? {
      MemberParts(ts, lo, hi, q);
    } else {
      CallParts(ts, lo, hi, q);
    }
  }

  /** The start of a postfix chain is a primary. */
  lemma PostfixBottomAt(ts: seq<Token>, lo: nat, hi: nat, e: Expr)
    requires ExprAt(ts, lo, hi, e) && Prec(e) >= POSTFIX
    ensures lo + |Unparse(PostfixBottom(e))| <= hi
    ensures ExprAt(ts, lo, lo + |Unparse(PostfixBottom(e))|, PostfixBottom(e))
    ensures Prec(PostfixBottom(e)) >= PRIMARY
  {
    PostfixPrefix(ts, lo, hi, e, PostfixBottom(e));
  }

  // ---------------------------------------------------------------------
  // Argument lists

  /** An argument list's arguments are each followed by `,` or by the token after the list. */
  predicate ArgsFollowed(ts: seq<Token>, lo: nat, hi: nat, args: seq<Expr>) {
    ArgsAt(ts, lo, hi, args) && hi < |ts| && (ts[hi].kind == RightParen || ts[hi].kind == Comma)
  }

  /** The first `k` arguments render a prefix of the list. */
  lemma {:induction false} ArgsPrefix(ts: seq<Token>, lo: nat, hi: nat, args: seq<Expr>, k: nat)
    requires Spans(ts, lo, hi, ArgsRender(args)) && k <= |args|
    ensures lo + |ArgsRender(args[..k])| <= hi
    ensures Spans(ts, lo, lo + |ArgsRender(args[..k])|, ArgsRender(args[..k]))
    decreases |args|
  {
    var n := |args|;
    if k == n {
      assert args[..k] == args;
    } else if n > 1 {
      var init := args[..n - 1];
      assert init[..k] == args[..k];
      SpansSplit3(ts, lo, hi, ArgsRender(init), [Kind(Comma)], Unparse(args[n - 1]));
      ArgsPrefix(ts, lo, lo + |ArgsRender(init)|, init, k);
    }
  }

  /** The first `k` arguments are an argument list of their own. */
  lemma ArgsPrefixAt(ts: seq<Token>, lo: nat, hi: nat, args: seq<Expr>, k: nat)
    requires ArgsAt(ts, lo, hi, args) && k <= |args|
    ensures lo + |ArgsRender(args[..k])| <= hi && ArgsAt(ts, lo, lo + |ArgsRender(args[..k])|, args[..k])
  {
    ArgsPrefix(ts, lo, hi, args, k);
    assert forall a :: a in args[..k] ==> a in args;
  }

  /** Where argument `k` ends: at the end of the list or at the `,` before the next one. */
  lemma ArgsFollow(ts: seq<Token>, lo: nat, hi: nat, args: seq<Expr>, k: nat)
    requires ArgsFollowed(ts, lo, hi, args) && 0 < k <= |args|
    ensures var n := lo + |ArgsRender(args[..k])|;
      n <= hi && n < |ts| && OpLevel(ts[n].kind) < ASSIGNMENT
  {
    if k < |args| {
      var next := args[..k + 1];
      assert next[..k] == args[..k];
      ArgsPrefix(ts, lo, hi, args, k + 1);
      SpansSplit3(ts, lo, lo + |ArgsRender(next)|, ArgsRender(args[..k]), [Kind(Comma)], Unparse(next[k]));
      SpansAt(ts, lo + |ArgsRender(args[..k])|, lo + |ArgsRender(args[..k])| + 1, [Kind(Comma)], 0);
    } else {
      assert args[..k] == args;
    }
  }

  /** The first argument of a list, parsed at the loosest level. */
  lemma ArgsFirst(ts: seq<Token>, lo: nat, hi: nat, args: seq<Expr>)
    requires ArgsFollowed(ts, lo, hi, args) && 0 < |args|
    ensures Parsed(ts, lo, lo + |Unparse(args[0])|, args[0], ASSIGNMENT)
  {
    assert ArgsRender(args[..1]) == Unparse(args[0]);
    ArgsPrefix(ts, lo, hi, args, 1);
    ArgsFollow(ts, lo, hi, args, 1);
    PrecRange(args[0]);
  }

  /** After the first `k` arguments come a `,` and argument `k`, parsed at the loosest level. */
  lemma ArgsNext(ts: seq<Token>, lo: nat, hi: nat, args: seq<Expr>, k: nat)
    requires ArgsFollowed(ts, lo, hi, args) && 0 < k < |args|
    ensures var m := lo + |ArgsRender(args[..k])|;
      m < hi && ts[m].kind == Comma && Parsed(ts, m + 1, lo + |ArgsRender(args[..k + 1])|, args[k], ASSIGNMENT)
  {
    var next := args[..k + 1];
    var m := lo + |ArgsRender(args[..k])|;
    assert next[..k] == args[..k] && next[k] == args[k];
    ArgsPrefix(ts, lo, hi, args, k + 1);
    SpansSplit3(ts, lo, lo + |ArgsRender(next)|, ArgsRender(args[..k]), [Kind(Comma)], Unparse(args[k]));
    SpansAt(ts, m, m + 1, [Kind(Comma)], 0);
    ArgsFollow(ts, lo, hi, args, k + 1);
    PrecRange(args[k]);
  }
}
