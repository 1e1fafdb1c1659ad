/**
 * The expression grammar of the parser (src/Culebra/Parsing/Parser.cs) as
 * functions over a token list: each production starts at a position and
 * either takes a value and moves on to a later position, or fails at a
 * token with the message the source throws. The methods of `Parser` move a
 * cursor and are proved to compute exactly these functions; here each
 * function states what it takes (`Parsed`, in `Grammar`), and the
 * completeness lemmas state the converse: whatever the tokens render at
 * the right precedence is what the production takes.
 */
module Descent {
  import opened Tokens
  import opened Ast
  import opened Grammar
  import opened Inversion

  /** What one production does from a position. */
  datatype Step<T> = Took(value: T, next: nat) | Failed(token: Token, message: string)

  // -------------------------------------------------------------------
  // The messages of the parse errors

  const IncludeOutsideGlobalScope: string := "Using 'include' statements outside of global scope is illegal."
  const ExpectedTypeName: string := "Expected type name."
  const ExpectedParameterName: string := "Expected parameter name."
  const ExpectedMemberName: string := "Expected member name after '.' token."
  const ExpectedFunctionName: string := "Expected identifier after function declaration."
  const ExpectedIncludeFile: string := "Expected filename after include statement."
  const ExpectedExpression: string := "Expected expression."
  const ExpectedForAssignment: string := "Expected assignment in for-loop initializer"
  const UnendedContinue: string := "Expected ';' after 'continue' token."
  const UnendedBreak: string := "Expected ';' after 'break' token."
  const TooManyParameters: string := "Exceeded max parameter count."
  const TooManyArguments: string := "Exceeded max argument count."
  const InvalidAssignmentTarget: string := "Invalid assignment target."
  const ExpectedParameterList: string := "Expected opening parenthesis after function identifier."
  const UnclosedBlock: string := "Expected '}' after a block statement."
  const ExpectedFunctionBody: string := "Expected '{' after function declaration."
  const UnendedVarDeclaration: string := "Expected ';' after variable declaration."
  const UnendedReturn: string := "Expected ';' after return statement."
  const UnendedForDeclaration: string := "Expected ';' after initializer declaration in for-loop."
  const UnendedInclude: string := "Expected ';' after include statement."
  const UnendedForCondition: string := "Expected ';' after for-loop condition."
  const UnendedExpression: string := "Expected ';' after expression."
  const ExpectedParameterColon: string := "Expected ':' after parameter name."
  const UnclosedWhileCondition: string := "Expected ')' after while-loop condition."
  const UnclosedIfCondition: string := "Expected ')' after if condition."
  const UnclosedParameters: string := "Expected ')' after function parameter list."
  const UnclosedForHeader: string := "Expected ')' after for-loop increment expression."
  const UnclosedGroup: string := "Expected ')' after expression."
  const UnclosedCall: string := "Expected ')' after call expression."
  const ExpectedWhileCondition: string := "Expected '(' after 'while' token."
  const ExpectedIfCondition: string := "Expected '(' after 'if' token."
  const ExpectedForHeader: string := "Expected '(' after 'for' token."

  /** The message for a function declared without `: type`. */
  function MissingReturnType(name: string): string {
    "Function " + name + " is missing a return type."
  }

  // -------------------------------------------------------------------
  // The cursor tests

  /** A scanned token list: it ends with EOF. */
  predicate Ends(ts: seq<Token>) {
    |ts| > 0 && ts[|ts| - 1].kind == Eof
  }

  /** `check(k)` at `pos`: never true at EOF. */
  predicate Sees(ts: seq<Token>, pos: nat, k: TokenType)
    requires pos < |ts|
  {
    ts[pos].kind != Eof && ts[pos].kind == k
  }

  /** `match(kinds)` at `pos`: the token is one of `kinds` and not EOF. */
  predicate SeesAny(ts: seq<Token>, pos: nat, kinds: seq<TokenType>)
    requires pos < |ts|
  {
    ts[pos].kind != Eof && ts[pos].kind in kinds
  }

  // -------------------------------------------------------------------
  // Expressions

  ghost function ParseExpression(ts: seq<Token>, pos: nat): (r: Step<Expr>)
    requires Ends(ts) && pos < |ts|
    ensures r.Took? ==> Parsed(ts, pos, r.next, r.value, ASSIGNMENT)
    decreases |ts| - pos, 20
  {
    ParseAssignment(ts, pos)
  }

  /** An expression starts at `pos` and a `k` follows where it stops. */
  ghost predicate ExprBefore(ts: seq<Token>, pos: nat, k: TokenType)
    requires Ends(ts) && pos < |ts|
  {
    ParseExpression(ts, pos).Took? && Sees(ts, ParseExpression(ts, pos).next, k)
  }

  /**
   * `assignment`: a target at the `or` level, then optionally `=` and a
   * value, which groups to the right; only an identifier can be the target,
   * anything else is reported at the `=` once the value is parsed.
   */
  ghost function ParseAssignment(ts: seq<Token>, pos: nat): (r: Step<Expr>)
    requires Ends(ts) && pos < |ts|
    ensures r.Took? ==> Parsed(ts, pos, r.next, r.value, ASSIGNMENT)
    decreases |ts| - pos, 19
  {
    match ParseBinary(ts, pos, OR_LEVEL)
    case Failed(t, m) => Failed(t, m)
    case Took(target, eq) => ParseAssignValue(ts, pos, eq, target)
  }

  /** After the target of an assignment: `=` and the value, or the target alone. */
  ghost function ParseAssignValue(ts: seq<Token>, lo: nat, eq: nat, target: Expr): (r: Step<Expr>)
    requires Ends(ts) && Parsed(ts, lo, eq, target, OR_LEVEL)
    ensures r.Took? ==> Parsed(ts, lo, r.next, r.value, ASSIGNMENT)
    decreases |ts| - lo, 18
  {
    if !SeesAny(ts, eq, [Assign]) then Took(target, eq)
    else
      match ParseAssignment(ts, eq + 1)
      case Failed(t, m) => Failed(t, m)
      case Took(value, end) =>
        if target.IdentifierExpr? then
          AssignStep(ts, lo, eq, end, target, value);
          Took(AssignExpr(target.ident, value), end)
        else
          Failed(ts[eq], InvalidAssignmentTarget)
  }

  /** The operand of a binary level: the next tighter level, `tighter`. */
  ghost function ParseOperand(ts: seq<Token>, pos: nat, tighter: int): (r: Step<Expr>)
    requires Ends(ts) && pos < |ts| && OR_LEVEL < tighter <= UNARY
    ensures r.Took? ==> Parsed(ts, pos, r.next, r.value, tighter)
    decreases |ts| - pos, 12 + MULTIPLICATION + 2 - tighter, 1
  {
    if tighter == UNARY then ParseUnary(ts, pos) else ParseBinary(ts, pos, tighter)
  }

  /** One binary level (`orExpr` ... `multiplication`): a first operand, then the operators. */
  ghost function ParseBinary(ts: seq<Token>, pos: nat, level: int): (r: Step<Expr>)
    requires Ends(ts) && pos < |ts| && OR_LEVEL <= level <= MULTIPLICATION
    ensures r.Took? ==> Parsed(ts, pos, r.next, r.value, level)
    decreases |ts| - pos, 12 + MULTIPLICATION + 1 - level, 2
  {
    match ParseOperand(ts, pos, level + 1)
    case Failed(t, m) => Failed(t, m)
    case Took(left, next) => ParseOperators(ts, pos, next, level, left)
  }

  /** `left`, the expression so far at a binary level, renders `ts[lo..pos]`. */
  predicate LeftAt(ts: seq<Token>, lo: nat, pos: nat, level: int, left: Expr) {
    pos < |ts| && OR_LEVEL <= level <= MULTIPLICATION &&
    ExprAt(ts, lo, pos, left) && Prec(left) >= level && OpLevel(ts[pos].kind) < level + 1
  }

  /** The loop of a binary level: operators are taken until one fails or none follows. */
  ghost function ParseOperators(ts: seq<Token>, lo: nat, pos: nat, level: int, left: Expr): (r: Step<Expr>)
    requires Ends(ts) && LeftAt(ts, lo, pos, level, left)
    ensures r.Took? ==> Parsed(ts, lo, r.next, r.value, level)
    decreases |ts| - pos, 1
  {
    match ParseOperator(ts, lo, pos, level, left)
    case Failed(t, m) => Failed(t, m)
    case Took(next_left, next) =>
      if next == pos then
        BinaryOpsLevel(level, ts[pos].kind);
        Took(left, pos)
      else ParseOperators(ts, lo, next, level, next_left)
  }

  /**
   * One round of that loop: an operator of the level and the next operand,
   * which joins the expression so far on the left; at any other token the
   * expression stays as it is.
   */
  ghost function ParseOperator(ts: seq<Token>, lo: nat, pos: nat, level: int, left: Expr): (r: Step<Expr>)
    requires Ends(ts) && LeftAt(ts, lo, pos, level, left)
    ensures r.Took? ==> pos <= r.next && LeftAt(ts, lo, r.next, level, r.value)
    ensures r.Took? && r.next == pos ==> r.value == left && !SeesAny(ts, pos, BinaryOps(level))
    decreases |ts| - pos, 0
  {
    BinaryOpsLevel(level, ts[pos].kind);
    if !SeesAny(ts, pos, BinaryOps(level)) then Took(left, pos)
    else
      match ParseOperand(ts, pos + 1, level + 1)
      case Failed(t, m) => Failed(t, m)
      case Took(right, next) =>
        BinaryStep(ts, lo, pos, next, left, right);
        Took(BinaryExpr(left, right, ts[pos]), next)
  }

  /** `unary`: prefix `!` and `-`, which nest. */
  ghost function ParseUnary(ts: seq<Token>, pos: nat): (r: Step<Expr>)
    requires Ends(ts) && pos < |ts|
    ensures r.Took? ==> Parsed(ts, pos, r.next, r.value, UNARY)
    decreases |ts| - pos, 12
  {
    if SeesAny(ts, pos, [Not, Minus]) then
      match ParseUnary(ts, pos + 1)
      case Failed(t, m) => Failed(t, m)
      case Took(right, next) =>
        UnaryStep(ts, pos, next, right);
        Took(UnaryExpr(right, ts[pos]), next)
    else
      ParsePostfix(ts, pos)
  }

  /** `memberOperationExpr`: a primary, then calls and member accesses. */
  ghost function ParsePostfix(ts: seq<Token>, pos: nat): (r: Step<Expr>)
    requires Ends(ts) && pos < |ts|
    ensures r.Took? ==> Parsed(ts, pos, r.next, r.value, POSTFIX)
    decreases |ts| - pos, 11
  {
    match ParsePrimary(ts, pos)
    case Failed(t, m) => Failed(t, m)
    case Took(operand, next) => ParsePostfixOps(ts, pos, next, operand)
  }

  /** The loop of `memberOperationExpr`: operators are taken until one fails or none follows. */
  ghost function ParsePostfixOps(ts: seq<Token>, lo: nat, pos: nat, operand: Expr): (r: Step<Expr>)
    requires Ends(ts) && PostfixAt(ts, lo, pos, operand)
    ensures r.Took? ==> Parsed(ts, lo, r.next, r.value, POSTFIX)
    decreases |ts| - pos, 1
  {
    match ParsePostfixOp(ts, lo, pos, operand)
    case Failed(t, m) => Failed(t, m)
    case Took(next_operand, next) =>
      if next == pos then Took(operand, pos) else ParsePostfixOps(ts, lo, next, next_operand)
  }

  /**
   * One round of that loop: `(` starts a call, `.` a member access whose
   * name must follow; at any other token the operand stays as it is.
   */
  ghost function ParsePostfixOp(ts: seq<Token>, lo: nat, pos: nat, operand: Expr): (r: Step<Expr>)
    requires Ends(ts) && PostfixAt(ts, lo, pos, operand)
    ensures r.Took? ==> pos <= r.next && PostfixAt(ts, lo, r.next, r.value)
    ensures r.Took? && r.next == pos ==> r.value == operand
    decreases |ts| - pos, 0
  {
    if SeesAny(ts, pos, [LeftParen]) then
      ParseCall(ts, lo, pos + 1, operand)
    else if SeesAny(ts, pos, [Dot]) then
      if Sees(ts, pos + 1, Identifier) then
        MemberStep(ts, lo, pos, operand);
        Took(MemberAccessExpr(operand, ts[pos + 1]), pos + 2)
      else
        Failed(ts[pos + 1], ExpectedMemberName)
    else
      Took(operand, pos)
  }

  /** `callExpr(callee)`, from after the `(`: the arguments and the closing `)`. */
  ghost function ParseCall(ts: seq<Token>, lo: nat, pos: nat, callee: Expr): (r: Step<Expr>)
    requires Ends(ts) && CallOpen(ts, lo, pos, callee)
    ensures r.Took? ==>
      pos < r.next < |ts| && r.value.CallExpr? && r.value.callee == callee && ExprAt(ts, lo, r.next, r.value)
    decreases |ts| - pos, 22
  {
    match ParseArguments(ts, pos)
    case Failed(t, m) => Failed(t, m)
    case Took(args, close) =>
      if Sees(ts, close, RightParen) then
        CallStep(ts, lo, pos - 1, close, callee, args);
        Took(CallExpr(callee, args), close + 1)
      else
        Failed(ts[close], UnclosedCall)
  }

  /** The arguments of a call: none when `)` comes next, else expressions separated by commas. */
  ghost function ParseArguments(ts: seq<Token>, pos: nat): (r: Step<seq<Expr>>)
    requires Ends(ts) && pos < |ts|
    ensures r.Took? ==> pos <= r.next < |ts| && ArgsAt(ts, pos, r.next, r.value)
    ensures r.Took? && r.value == [] ==> r.next == pos && Sees(ts, pos, RightParen)
    decreases |ts| - pos, 21
  {
    NoArgs(ts, pos);
    if Sees(ts, pos, RightParen) then Took([], pos)
    else
      match ParseExpression(ts, pos)
      case Failed(t, m) => Failed(t, m)
      case Took(first, next) =>
        FirstArgStep(ts, pos, next, first);
        ParseArgumentList(ts, pos, next, [first])
  }

  /** The arguments collected so far, at least one, render `ts[lo..pos]`. */
  predicate ArgsSoFar(ts: seq<Token>, lo: nat, pos: nat, args: seq<Expr>) {
    lo < pos < |ts| && ArgsAt(ts, lo, pos, args) && 0 < |args|
  }

  /** The `do ... while (match(COMMA))` loop of `callExpr`: arguments are taken until one fails or no comma follows. */
  ghost function ParseArgumentList(ts: seq<Token>, lo: nat, pos: nat, args: seq<Expr>): (r: Step<seq<Expr>>)
    requires Ends(ts) && ArgsSoFar(ts, lo, pos, args)
    ensures r.Took? ==> ArgsSoFar(ts, lo, r.next, r.value) && pos <= r.next
    decreases |ts| - pos, 1
  {
    match ParseNextArgument(ts, lo, pos, args)
    case Failed(t, m) => Failed(t, m)
    case Took(next_args, next) =>
      if next == pos then Took(args, pos) else ParseArgumentList(ts, lo, next, next_args)
  }

  /**
   * One round of that loop: a comma and the next argument; starting an
   * argument when more than MAX_ARGUMENTS are collected is an error,
   * reported at the token after the comma. Without a comma the list stays
   * as it is.
   */
  ghost function ParseNextArgument(ts: seq<Token>, lo: nat, pos: nat, args: seq<Expr>): (r: Step<seq<Expr>>)
    requires Ends(ts) && ArgsSoFar(ts, lo, pos, args)
    ensures r.Took? ==> pos <= r.next && ArgsSoFar(ts, lo, r.next, r.value)
    ensures r.Took? && r.next == pos ==> r.value == args
    decreases |ts| - pos, 0
  {
    if !SeesAny(ts, pos, [Comma]) then Took(args, pos)
    else if |args| > MAX_ARGUMENTS then Failed(ts[pos + 1], TooManyArguments)
    else
      match ParseExpression(ts, pos + 1)
      case Failed(t, m) => Failed(t, m)
      case Took(arg, next) =>
        NextArgStep(ts, lo, pos, next, args, arg);
        Took(args + [arg], next)
  }

  /** `primaryExpr`: a literal, an identifier or a parenthesized expression. */
  ghost function ParsePrimary(ts: seq<Token>, pos: nat): (r: Step<Expr>)
    requires Ends(ts) && pos < |ts|
    ensures r.Took? ==> r.next < |ts| && ExprAt(ts, pos, r.next, r.value) && Prec(r.value) >= PRIMARY
    decreases |ts| - pos, 10
  {
    if SeesAny(ts, pos, [BoolLit, IntLit, DoubleLit, StringLit]) then
      LiteralStep(ts, pos);
      Took(LiteralExpr(ts[pos]), pos + 1)
    else if SeesAny(ts, pos, [Identifier]) then
      IdentifierStep(ts, pos);
      Took(IdentifierExpr(ts[pos]), pos + 1)
    else if SeesAny(ts, pos, [LeftParen]) then
      ParseGrouping(ts, pos + 1)
    else
      Failed(ts[pos], ExpectedExpression)
  }

  /** The rest of a parenthesized expression, from after the `(`. */
  ghost function ParseGrouping(ts: seq<Token>, pos: nat): (r: Step<Expr>)
    requires Ends(ts) && 0 < pos < |ts| && ts[pos - 1].kind == LeftParen
    ensures r.Took? ==>
      r.next < |ts| && r.value.ParenthesizedExpr? && ExprAt(ts, pos - 1, r.next, r.value)
    decreases |ts| - pos, 22
  {
    match ParseExpression(ts, pos)
    case Failed(t, m) => Failed(t, m)
    case Took(inner, close) =>
      if Sees(ts, close, RightParen) then
        ParenthesizedStep(ts, pos - 1, close, inner);
        Took(ParenthesizedExpr(inner), close + 1)
      else
        Failed(ts[close], UnclosedGroup)
  }

  // -------------------------------------------------------------------
  // Completeness: what the tokens render is what the productions take

  lemma CompleteExpression(ts: seq<Token>, lo: nat, hi: nat, e: Expr)
    requires Ends(ts) && Parsed(ts, lo, hi, e, ASSIGNMENT)
    ensures ParseExpression(ts, lo) == Took(e, hi)
    decreases hi - lo, 30
  {
    CompleteAssignment(ts, lo, hi, e);
  }

  /** Any expression rendered in front of a `k` is an expression before `k`. */
  lemma CompleteExprBefore(ts: seq<Token>, lo: nat, hi: nat, e: Expr, k: TokenType)
    requires Ends(ts) && Parsed(ts, lo, hi, e, ASSIGNMENT) && Sees(ts, hi, k)
    ensures lo < |ts| && ExprBefore(ts, lo, k) && ParseExpression(ts, lo) == Took(e, hi)
  {
    CompleteExpression(ts, lo, hi, e);
  }

  lemma CompleteAssignment(ts: seq<Token>, lo: nat, hi: nat, e: Expr)
    requires Ends(ts) && Parsed(ts, lo, hi, e, ASSIGNMENT)
    ensures ParseAssignment(ts, lo) == Took(e, hi)
    decreases hi - lo, 29
  {
    AssignCases(ts, lo, hi, e);
    if e.AssignExpr? {
      CompleteBinary(ts, lo, lo + 1, IdentifierExpr(e.name), OR_LEVEL);
      CompleteAssignment(ts, lo + 2, hi, e.value);
      AssignValueTaken(ts, lo, lo + 1, IdentifierExpr(e.name), e.value, hi);
    } else {
      CompleteBinary(ts, lo, hi, e, OR_LEVEL);
      AssignValueAbsent(ts, lo, hi, e);
    }
  }

  /** An identifier target followed by `=` and a value is that assignment. */
  lemma AssignValueTaken(ts: seq<Token>, lo: nat, eq: nat, target: Expr, value: Expr, end: nat)
    requires Ends(ts) && Parsed(ts, lo, eq, target, OR_LEVEL) && target.IdentifierExpr?
    requires eq < |ts| && ts[eq].kind == Assign && ParseAssignment(ts, eq + 1) == Took(value, end)
    ensures ParseAssignValue(ts, lo, eq, target) == Took(AssignExpr(target.ident, value), end)
  {
  }

  /** A rendering at assignment level that is not an assignment is not followed by `=`. */
  lemma AssignValueAbsent(ts: seq<Token>, lo: nat, hi: nat, e: Expr)
    requires Ends(ts) && Parsed(ts, lo, hi, e, ASSIGNMENT) && Parsed(ts, lo, hi, e, OR_LEVEL) && !e.AssignExpr?
    ensures ParseAssignValue(ts, lo, hi, e) == Took(e, hi)
  {
  }

  lemma CompleteOperand(ts: seq<Token>, lo: nat, hi: nat, e: Expr, tighter: int)
    requires Ends(ts) && OR_LEVEL < tighter <= UNARY && Parsed(ts, lo, hi, e, tighter)
    ensures ParseOperand(ts, lo, tighter) == Took(e, hi)
    decreases hi - lo, 21 - tighter, 1
  {
    if tighter == UNARY {
      CompleteUnary(ts, lo, hi, e);
    } else {
      CompleteBinary(ts, lo, hi, e, tighter);
    }
  }

  /** A binary level takes the bottom of the chain of left operands, then climbs it. */
  lemma CompleteBinary(ts: seq<Token>, lo: nat, hi: nat, e: Expr, level: int)
    requires Ends(ts) && OR_LEVEL <= level <= MULTIPLICATION && Parsed(ts, lo, hi, e, level)
    ensures ParseBinary(ts, lo, level) == Took(e, hi)
    decreases hi - lo, 20 - level, 2
  {
    var b, n := SpineStart(ts, lo, hi, e, level);
    CompleteOperand(ts, lo, n, b, level + 1);
    OperatorsFirst(ts, lo, level, b, n);
    CompleteOperators(ts, lo, hi, e, level, b, n);
  }

  /** A binary level is its loop, started after the first operand. */
  lemma OperatorsFirst(ts: seq<Token>, lo: nat, level: int, b: Expr, n: nat)
    requires Ends(ts) && lo < |ts| && OR_LEVEL <= level <= MULTIPLICATION
    requires ParseOperand(ts, lo, level + 1) == Took(b, n)
    ensures LeftAt(ts, lo, n, level, b)
    ensures ParseBinary(ts, lo, level) == ParseOperators(ts, lo, n, level, b)
  {
  }

  /** `p`, a node of the chain of left operands of `e` at `level`, renders the tokens up to `pos`. */
  predicate OperatorsClimb(ts: seq<Token>, lo: nat, hi: nat, e: Expr, level: int, p: Expr, pos: nat) {
    Ends(ts) && OR_LEVEL <= level <= MULTIPLICATION && Parsed(ts, lo, hi, e, level) &&
    OnLeftSpine(p, e, level) && pos == lo + |Unparse(p)| && pos <= hi &&
    ExprAt(ts, lo, pos, p) && Prec(p) >= level && OpLevel(ts[pos].kind) < level + 1
  }

  /** From any node `p` of the chain of left operands, the loop climbs to the top, `e`. */
  lemma CompleteOperators(ts: seq<Token>, lo: nat, hi: nat, e: Expr, level: int, p: Expr, pos: nat)
    requires OperatorsClimb(ts, lo, hi, e, level, p, pos)
    ensures pos < |ts| && ParseOperators(ts, lo, pos, level, p) == Took(e, hi)
    decreases hi - pos, 0
  {
    if p == e {
      OperatorsStop(ts, lo, pos, level, p);
    } else {
      var q, n := SpineNext(ts, lo, hi, e, level, p, pos);
      CompleteOperand(ts, pos + 1, n, q.right, level + 1);
      OperatorsStep(ts, lo, pos, level, p, q.right, n);
      CompleteOperators(ts, lo, hi, e, level, q, n);
    }
  }

  /** The first operand of the chain of left operands of `e` at `level`, and where it ends. */
  lemma SpineStart(ts: seq<Token>, lo: nat, hi: nat, e: Expr, level: int) returns (b: Expr, n: nat)
    requires Ends(ts) && OR_LEVEL <= level <= MULTIPLICATION && Parsed(ts, lo, hi, e, level)
    ensures OperatorsClimb(ts, lo, hi, e, level, b, n) && Parsed(ts, lo, n, b, level + 1)
  {
    b := SpineBottom(e, level);
    n := lo + |Unparse(b)|;
    SpineBottomParsed(ts, lo, hi, e, level);
  }

  /** The node of the chain above `p`, which ends at `n`: its operator at `pos`, its right operand up to `n`. */
  lemma SpineNext(ts: seq<Token>, lo: nat, hi: nat, e: Expr, level: int, p: Expr, pos: nat) returns (q: Expr, n: nat)
    requires OperatorsClimb(ts, lo, hi, e, level, p, pos) && p != e
    ensures OperatorsClimb(ts, lo, hi, e, level, q, n) && pos < n
    ensures pos + 1 < |ts| && ExprAt(ts, lo, pos, p) && Prec(p) >= level
    ensures q.BinaryExpr? && q == BinaryExpr(p, q.right, ts[pos]) && OpLevel(ts[pos].kind) == level
    ensures Parsed(ts, pos + 1, n, q.right, level + 1)
  {
    q := SpineParent(p, e, level);
    n := lo + |Unparse(q)|;
    SpineStep(ts, lo, hi, e, level, p);
    SpinePrefix(ts, lo, hi, e, level, q);
    SpineFollow(ts, lo, hi, e, level, q);
  }

  /** The loop of a binary level stops at a token that is not one of its operators. */
  lemma OperatorsStop(ts: seq<Token>, lo: nat, pos: nat, level: int, p: Expr)
    requires Ends(ts) && pos < |ts| && OR_LEVEL <= level <= MULTIPLICATION
    requires ExprAt(ts, lo, pos, p) && Prec(p) >= level && OpLevel(ts[pos].kind) < level
    ensures ParseOperators(ts, lo, pos, level, p) == Took(p, pos)
  {
    BinaryOpsLevel(level, ts[pos].kind);
  }

  /** One round of the loop of a binary level: an operator and the operand after it. */
  lemma OperatorsStep(ts: seq<Token>, lo: nat, pos: nat, level: int, p: Expr, right: Expr, n: nat)
    requires Ends(ts) && pos + 1 < |ts| && OR_LEVEL <= level <= MULTIPLICATION
    requires ExprAt(ts, lo, pos, p) && Prec(p) >= level && OpLevel(ts[pos].kind) == level
    requires ParseOperand(ts, pos + 1, level + 1) == Took(right, n)
    ensures n < |ts| && ExprAt(ts, lo, n, BinaryExpr(p, right, ts[pos])) && Prec(BinaryExpr(p, right, ts[pos])) >= level
    ensures OpLevel(ts[n].kind) < level + 1
    ensures ParseOperators(ts, lo, pos, level, p) == ParseOperators(ts, lo, n, level, BinaryExpr(p, right, ts[pos]))
  {
    BinaryOpsLevel(level, ts[pos].kind);
    BinaryStep(ts, lo, pos, n, p, right);
  }

  lemma CompleteUnary(ts: seq<Token>, lo: nat, hi: nat, e: Expr)
    requires Ends(ts) && Parsed(ts, lo, hi, e, UNARY)
    ensures ParseUnary(ts, lo) == Took(e, hi)
    decreases hi - lo, 13
  {
    UnaryCases(ts, lo, hi, e);
    if e.UnaryExpr? {
      CompleteUnary(ts, lo + 1, hi, e.expr);
    } else {
      CompletePostfix(ts, lo, hi, e);
    }
  }

  /** A postfix chain takes its primary, then climbs the calls and member accesses. */
  lemma CompletePostfix(ts: seq<Token>, lo: nat, hi: nat, e: Expr)
    requires Ends(ts) && Parsed(ts, lo, hi, e, POSTFIX)
    ensures ParsePostfix(ts, lo) == Took(e, hi)
    decreases hi - lo, 12
  {
    var b, n := PostfixStart(ts, lo, hi, e);
    CompletePrimary(ts, lo, n, b);
    PostfixFirst(ts, lo, b, n);
    CompletePostfixOps(ts, lo, hi, e, b, n);
  }

  /** `memberOperationExpr` is its loop, started after the primary. */
  lemma PostfixFirst(ts: seq<Token>, lo: nat, b: Expr, n: nat)
    requires Ends(ts) && lo < |ts| && ParsePrimary(ts, lo) == Took(b, n)
    ensures n < |ts| && ExprAt(ts, lo, n, b) && Prec(b) >= POSTFIX
    ensures ParsePostfix(ts, lo) == ParsePostfixOps(ts, lo, n, b)
  {
  }

  /** `p`, a node of the postfix chain of `e`, renders the tokens up to `pos`. */
  predicate PostfixClimb(ts: seq<Token>, lo: nat, hi: nat, e: Expr, p: Expr, pos: nat) {
    Ends(ts) && Parsed(ts, lo, hi, e, POSTFIX) && OnPostfixSpine(p, e) &&
    pos == lo + |Unparse(p)| && pos <= hi && ExprAt(ts, lo, pos, p) && Prec(p) >= POSTFIX
  }

  lemma CompletePostfixOps(ts: seq<Token>, lo: nat, hi: nat, e: Expr, p: Expr, pos: nat)
    requires PostfixClimb(ts, lo, hi, e, p, pos)
    ensures pos < |ts| && ParsePostfixOps(ts, lo, pos, p) == Took(e, hi)
    decreases hi - pos, 1
  {
    if p == e {
      PostfixOpsStop(ts, lo, pos, p);
    } else {
      var q, n := CompletePostfixOp(ts, lo, hi, e, p, pos);
      CompletePostfixOps(ts, lo, hi, e, q, n);
    }
  }

  /** Below the top of the chain, the loop takes the next operator of `e`. */
  lemma CompletePostfixOp(ts: seq<Token>, lo: nat, hi: nat, e: Expr, p: Expr, pos: nat) returns (q: Expr, n: nat)
    requires PostfixClimb(ts, lo, hi, e, p, pos) && p != e
    ensures PostfixClimb(ts, lo, hi, e, q, n) && pos < n
    ensures ParsePostfixOps(ts, lo, pos, p) == ParsePostfixOps(ts, lo, n, q)
    decreases hi - pos, 0
  {
    q, n := PostfixNext(ts, lo, hi, e, p, pos);
    if q.CallExpr? {
      CompleteCall(ts, lo, pos + 1, n - 1, p, q.args);
      PostfixOpsCall(ts, lo, pos, p, q, n);
    } else {
      PostfixOpsMember(ts, lo, pos, p, q, n);
    }
  }

  /** The bottom of the postfix chain of `e`, a primary, and where it ends. */
  lemma PostfixStart(ts: seq<Token>, lo: nat, hi: nat, e: Expr) returns (b: Expr, n: nat)
    requires Ends(ts) && Parsed(ts, lo, hi, e, POSTFIX)
    ensures PostfixClimb(ts, lo, hi, e, b, n) && n < |ts| && ExprAt(ts, lo, n, b) && Prec(b) >= PRIMARY
  {
    b := PostfixBottom(e);
    n := lo + |Unparse(b)|;
    PostfixBottomAt(ts, lo, hi, e);
  }

  /** The call or member access of the chain above `p`, which ends at `n`. */
  lemma PostfixNext(ts: seq<Token>, lo: nat, hi: nat, e: Expr, p: Expr, pos: nat) returns (q: Expr, n: nat)
    requires PostfixClimb(ts, lo, hi, e, p, pos) && p != e
    ensures PostfixClimb(ts, lo, hi, e, q, n) && pos + 1 < n
    ensures pos < |ts| && ExprAt(ts, lo, pos, p) && Prec(p) >= POSTFIX
    ensures q.MemberAccessExpr? || q.CallExpr?
    ensures q.MemberAccessExpr? ==>
      q == MemberAccessExpr(p, ts[pos + 1]) && ts[pos].kind == Dot && ts[pos + 1].kind == Identifier && n == pos + 2
    ensures q.CallExpr? ==>
      q == CallExpr(p, q.args) && ts[pos].kind == LeftParen && ArgsAt(ts, pos + 1, n - 1, q.args) && ts[n - 1].kind == RightParen
  {
    q := PostfixParent(p, e);
    n := lo + |Unparse(q)|;
    PostfixStep(ts, lo, hi, e, p);
    PostfixPrefix(ts, lo, hi, e, q);
  }

  /** The postfix loop stops at a token that is neither `(` nor `.`. */
  lemma PostfixOpsStop(ts: seq<Token>, lo: nat, pos: nat, p: Expr)
    requires Ends(ts) && pos < |ts| && ExprAt(ts, lo, pos, p) && Prec(p) >= POSTFIX && OpLevel(ts[pos].kind) < POSTFIX
    ensures ParsePostfixOps(ts, lo, pos, p) == Took(p, pos)
  {
  }

  /** One round of the postfix loop that takes a call. */
  lemma PostfixOpsCall(ts: seq<Token>, lo: nat, pos: nat, p: Expr, q: Expr, n: nat)
    requires Ends(ts) && pos < |ts| && ts[pos].kind == LeftParen && ExprAt(ts, lo, pos, p) && Prec(p) >= POSTFIX
    requires pos + 1 < |ts| && ParseCall(ts, lo, pos + 1, p) == Took(q, n)
    ensures ExprAt(ts, lo, n, q) && Prec(q) >= POSTFIX
    ensures ParsePostfixOps(ts, lo, pos, p) == ParsePostfixOps(ts, lo, n, q)
  {
  }

  /** One round of the postfix loop that takes a member access. */
  lemma PostfixOpsMember(ts: seq<Token>, lo: nat, pos: nat, p: Expr, q: Expr, n: nat)
    requires Ends(ts) && pos + 1 < |ts| && ts[pos].kind == Dot && ts[pos + 1].kind == Identifier
    requires ExprAt(ts, lo, pos, p) && Prec(p) >= POSTFIX
    requires q == MemberAccessExpr(p, ts[pos + 1]) && n == pos + 2
    ensures n < |ts| && ExprAt(ts, lo, n, q)
    ensures ParsePostfixOps(ts, lo, pos, p) == ParsePostfixOps(ts, lo, n, q)
  {
    MemberStep(ts, lo, pos, p);
  }

  lemma CompleteCall(ts: seq<Token>, lo: nat, pos: nat, close: nat, callee: Expr, args: seq<Expr>)
    requires Ends(ts) && 0 < pos <= close < |ts| && ts[pos - 1].kind == LeftParen
    requires ExprAt(ts, lo, pos - 1, callee) && Prec(callee) >= POSTFIX
    requires ArgsAt(ts, pos, close, args) && ts[close].kind == RightParen
    ensures ParseCall(ts, lo, pos, callee) == Took(CallExpr(callee, args), close + 1)
    decreases close - pos, 33
  {
    CompleteArguments(ts, pos, close, args);
  }

  /** How an argument list can end: at `)`, or at a `,` once it holds one argument too many. */
  predicate ArgsClose(ts: seq<Token>, hi: nat, args: seq<Expr>) {
    hi < |ts| && (ts[hi].kind == RightParen || (ts[hi].kind == Comma && |args| == MAX_ARGUMENTS + 1))
  }

  /** What the argument parser does with such a list: takes it, or reports the start of the next argument. */
  ghost function ArgsOutcome(ts: seq<Token>, hi: nat, args: seq<Expr>): Step<seq<Expr>>
    requires Ends(ts) && ArgsClose(ts, hi, args)
  {
    if ts[hi].kind == RightParen then Took(args, hi) else Failed(ts[hi + 1], TooManyArguments)
  }

  lemma CompleteArguments(ts: seq<Token>, lo: nat, hi: nat, args: seq<Expr>)
    requires Ends(ts) && ArgsAt(ts, lo, hi, args) && ArgsClose(ts, hi, args)
    ensures ParseArguments(ts, lo) == ArgsOutcome(ts, hi, args)
    decreases hi - lo, 32
  {
    if |args| == 0 {
      ArgumentsNone(ts, lo);
    } else {
      var n := ArgsHead(ts, lo, hi, args);
      CompleteExpression(ts, lo, n, args[0]);
      ArgumentsFirst(ts, lo, args[0], n);
      CompleteArgumentList(ts, lo, hi, args, 1, n);
    }
  }

  lemma CompleteArgumentList(ts: seq<Token>, lo: nat, hi: nat, args: seq<Expr>, k: nat, pos: nat)
    requires Ends(ts) && ArgsAt(ts, lo, hi, args) && ArgsClose(ts, hi, args) && 0 < k <= |args|
    requires pos == lo + |ArgsRender(args[..k])| && lo < pos < |ts| && ArgsAt(ts, lo, pos, args[..k])
    ensures ParseArgumentList(ts, lo, pos, args[..k]) == ArgsOutcome(ts, hi, args)
    decreases hi - pos, 31
  {
    if k == |args| {
      assert args[..k] == args;
      ArgumentListEnd(ts, lo, pos, args);
    } else {
      var n := ArgsTail(ts, lo, hi, args, k, pos);
      CompleteExpression(ts, pos + 1, n, args[k]);
      ArgumentListStep(ts, lo, pos, args[..k], args[k], n);
      CompleteArgumentList(ts, lo, hi, args, k + 1, n);
    }
  }

  /** Where the first argument of a non-empty list ends. */
  lemma ArgsHead(ts: seq<Token>, lo: nat, hi: nat, args: seq<Expr>) returns (n: nat)
    requires ArgsAt(ts, lo, hi, args) && ArgsClose(ts, hi, args) && 0 < |args|
    ensures n == lo + |ArgsRender(args[..1])| && lo < n <= hi && args[..1] == [args[0]]
    ensures ArgsAt(ts, lo, n, args[..1]) && Parsed(ts, lo, n, args[0], ASSIGNMENT) && ts[lo].kind != RightParen
  {
    n := lo + |Unparse(args[0])|;
    ArgsFirst(ts, lo, hi, args);
    ArgsPrefixAt(ts, lo, hi, args, 1);
    assert args[..1] == [args[0]];
    assert ArgsRender(args[..1]) == Unparse(args[0]);
    ExprFirst(ts, lo, n, args[0]);
  }

  /** Where argument `k` of a list ends, after the comma at `pos`. */
  lemma ArgsTail(ts: seq<Token>, lo: nat, hi: nat, args: seq<Expr>, k: nat, pos: nat) returns (n: nat)
    requires ArgsAt(ts, lo, hi, args) && ArgsClose(ts, hi, args) && 0 < k < |args|
    requires pos == lo + |ArgsRender(args[..k])|
    ensures n == lo + |ArgsRender(args[..k + 1])| && pos < n <= hi && k <= MAX_ARGUMENTS
    ensures ts[pos].kind == Comma && Parsed(ts, pos + 1, n, args[k], ASSIGNMENT)
    ensures args[..k] + [args[k]] == args[..k + 1] && ArgsAt(ts, lo, n, args[..k + 1])
  {
    n := lo + |ArgsRender(args[..k + 1])|;
    ArgsNext(ts, lo, hi, args, k);
    ArgsPrefixAt(ts, lo, hi, args, k + 1);
    assert args[..k] + [args[k]] == args[..k + 1];
  }

  /** `)` at once: no arguments. */
  lemma ArgumentsNone(ts: seq<Token>, lo: nat)
    requires Ends(ts) && lo < |ts| && ts[lo].kind == RightParen
    ensures ParseArguments(ts, lo) == Took([], lo)
  {
  }

  /** Anything else: the first argument, then the loop. */
  lemma ArgumentsFirst(ts: seq<Token>, lo: nat, a: Expr, n: nat)
    requires Ends(ts) && lo < |ts| && ts[lo].kind != RightParen && ParseExpression(ts, lo) == Took(a, n)
    ensures ArgsSoFar(ts, lo, n, [a])
    ensures ParseArguments(ts, lo) == ParseArgumentList(ts, lo, n, [a])
  {
    FirstArgStep(ts, lo, n, a);
  }

  /** The argument loop at the end of a list: `)` ends it, a comma after one argument too many is refused. */
  lemma ArgumentListEnd(ts: seq<Token>, lo: nat, pos: nat, args: seq<Expr>)
    requires Ends(ts) && lo < pos < |ts| && ArgsAt(ts, lo, pos, args) && 0 < |args| && ArgsClose(ts, pos, args)
    ensures ParseArgumentList(ts, lo, pos, args) == ArgsOutcome(ts, pos, args)
  {
  }

  /** One round of the argument loop: a comma and the next argument. */
  lemma ArgumentListStep(ts: seq<Token>, lo: nat, pos: nat, args: seq<Expr>, a: Expr, n: nat)
    requires Ends(ts) && lo < pos && pos + 1 < |ts| && ArgsAt(ts, lo, pos, args) && 0 < |args| <= MAX_ARGUMENTS
    requires ts[pos].kind == Comma && ParseExpression(ts, pos + 1) == Took(a, n)
    ensures pos < n < |ts| && ArgsAt(ts, lo, n, args + [a])
    ensures ParseArgumentList(ts, lo, pos, args) == ParseArgumentList(ts, lo, n, args + [a])
  {
    NextArgStep(ts, lo, pos, n, args, a);
  }

  lemma CompletePrimary(ts: seq<Token>, lo: nat, hi: nat, e: Expr)
    requires Ends(ts) && ExprAt(ts, lo, hi, e) && Prec(e) >= PRIMARY
    ensures ParsePrimary(ts, lo) == Took(e, hi)
    decreases hi - lo, 11
  {
    PrimaryCases(ts, lo, hi, e);
    if e.ParenthesizedExpr? {
      CompleteGrouping(ts, lo + 1, hi - 1, e.expr);
    }
  }

  lemma CompleteGrouping(ts: seq<Token>, pos: nat, close: nat, inner: Expr)
    requires Ends(ts) && 0 < pos <= close < |ts| && ts[pos - 1].kind == LeftParen
    requires ExprAt(ts, pos, close, inner) && ts[close].kind == RightParen
    ensures ParseGrouping(ts, pos) == Took(ParenthesizedExpr(inner), close + 1)
    decreases close - pos, 31
  {
    PrecRange(inner);
    CompleteExpression(ts, pos, close, inner);
  }

  // -------------------------------------------------------------------
  // The errors the tokens force

  /** A target other than an identifier, `=` and a value: reported at the `=`. */
  lemma AssignmentToNonIdentifier(ts: seq<Token>, lo: nat, eq: nat, target: Expr, hi: nat, value: Expr)
    requires Ends(ts) && Parsed(ts, lo, eq, target, OR_LEVEL) && !target.IdentifierExpr?
    requires ts[eq].kind == Assign && Parsed(ts, eq + 1, hi, value, ASSIGNMENT)
    ensures ParseAssignment(ts, lo) == Failed(ts[eq], InvalidAssignmentTarget)
  {
    CompleteBinary(ts, lo, eq, target, OR_LEVEL);
    CompleteAssignment(ts, eq + 1, hi, value);
  }

  /** Seventeen arguments and a comma: the eighteenth is refused where it starts. */
  lemma ArgumentOverflow(ts: seq<Token>, lo: nat, hi: nat, args: seq<Expr>)
    requires Ends(ts) && ArgsAt(ts, lo, hi, args) && |args| == MAX_ARGUMENTS + 1
    requires hi < |ts| && ts[hi].kind == Comma
    ensures hi + 1 < |ts| && ParseArguments(ts, lo) == Failed(ts[hi + 1], TooManyArguments)
  {
    CompleteArguments(ts, lo, hi, args);
  }

  // -------------------------------------------------------------------
  // One round of each loop, as the methods of `Parser` take it

  /** `p`, which may take postfix operators, renders `ts[lo..pos]`. */
  predicate PostfixAt(ts: seq<Token>, lo: nat, pos: nat, p: Expr) {
    pos < |ts| && ExprAt(ts, lo, pos, p) && Prec(p) >= POSTFIX
  }

  /** `ts[pos - 1]` is the `(` that opens a call of `callee`, which renders `ts[lo..pos - 1]`. */
  predicate CallOpen(ts: seq<Token>, lo: nat, pos: nat, callee: Expr) {
    0 < pos < |ts| && ts[pos - 1].kind == LeftParen && PostfixAt(ts, lo, pos - 1, callee)
  }

  /** The start of an argument list: `)` at once, or a first argument that fails or goes on. */
  lemma ArgumentsStart(ts: seq<Token>, lo: nat)
    requires Ends(ts) && lo < |ts|
    ensures Sees(ts, lo, RightParen) ==> ParseArguments(ts, lo) == Took([], lo)
    ensures !Sees(ts, lo, RightParen) && ParseExpression(ts, lo).Failed? ==>
      ParseArguments(ts, lo) == Failed(ParseExpression(ts, lo).token, ParseExpression(ts, lo).message)
  {
  }
}
