/**
 * The recursive-descent parser (src/Culebra/Parsing/Parser.cs). A `Parser`
 * owns one file's token list and a cursor into it; the grammar methods
 * move the cursor and build the tree bottom-up. Each grammar method is
 * proved against the renderings in `Grammar`: on success the tokens it
 * consumed are exactly the rendering of what it returns, the tree has the
 * shape the precedence ladder dictates, and an expression stops only where
 * no operator of its level or a tighter one follows. Every error the parser
 * reports ends the run, so a grammar method fails with the first error it
 * meets and its callers pass that error on.
 *
 * The set of files already parsed is static in the source; here it lives
 * in a `ParseSession` shared by every parser of one run, together with the
 * host file system and the warnings reported so far.
 */
module Parsing {
  import opened Numerics
  import opened Tokens
  import opened Diagnostics
  import opened Ast
  import opened Grammar
  import opened Inversion
  import opened Descent
  import Scanning

  /**
   * The host file system: file contents by full path, and the two path
   * functions the parser uses (`Path.GetFullPath`, `Path.GetDirectoryName`).
   */
  datatype FileSystem = FileSystem(
    files: map<string, string>,
    fullPath: string -> string,
    directoryName: string -> string)

  /** `reportWarning` calls: a file that includes itself. */
  datatype Warning = SelfInclude(path: string)

  class ParseSession {
    const fs: FileSystem
    const fp: FloatOps
    /** The full paths already parsed in this run (only membership is consulted). */
    var usedFiles: set<string>
    var warnings: seq<Warning>

    constructor (fs: FileSystem, fp: FloatOps)
      ensures this.fs == fs && this.fp == fp
      ensures usedFiles == {} && warnings == []
    {
      this.fs := fs;
      this.fp := fp;
      usedFiles := {};
      warnings := [];
    }

    /** The existing files not parsed yet: includes cannot nest deeper than this. */
    function Pending(): nat
      reads this
    {
      |fs.files.Keys - usedFiles|
    }
  }

  /** Across a parse the used-file set and the warnings only grow. */
  twostate predicate SessionGrows(s: ParseSession)
    reads s
  {
    old(s.usedFiles) <= s.usedFiles && s.Pending() <= old(s.Pending()) &&
    old(s.warnings) <= s.warnings
  }

  lemma PendingDrops(files: set<string>, used: set<string>, full: string)
    requires full in files && full !in used
    ensures |files - (used + {full})| == |files - used| - 1
  {
    assert files - used == (files - (used + {full})) + {full};
  }


  class Parser {
    const tokens: seq<Token>
    const filepath: string
    const session: ParseSession
    var current: nat

    /** The token list ends with EOF and the cursor never moves past it. */
    ghost predicate Valid()
      reads this
    {
      |tokens| > 0 && tokens[|tokens| - 1].kind == Eof && current < |tokens|
    }

    constructor (tokens: seq<Token>, filepath: string, session: ParseSession)
      requires |tokens| > 0 && tokens[|tokens| - 1].kind == Eof
      ensures this.tokens == tokens && this.filepath == filepath && this.session == session
      ensures current == 0 && Valid()
    {
      this.tokens := tokens;
      this.filepath := filepath;
      this.session := session;
      current := 0;
    }

    // -------------------------------------------------------------------
    // Cursor

    function Peek(): Token
      reads this
      requires Valid()
    {
      tokens[current]
    }

    predicate IsAtEnd()
      reads this
      requires Valid()
    {
      Peek().kind == Eof
    }

    /** `check`: never true at EOF. */
    predicate Check(k: TokenType)
      reads this
      requires Valid()
    {
      !IsAtEnd() && Peek().kind == k
    }

    function Previous(): Token
      reads this
      requires Valid() && current > 0
    {
      tokens[current - 1]
    }

    /** The report `error(token, msg)` makes. */
    function Error(token: Token, msg: string): Diagnostic {
      ParseError(filepath, token, msg)
    }

    /** Moves one token on unless at EOF, and returns the token before the cursor. */
    method Advance() returns (t: Token)
      requires Valid() && (current > 0 || !IsAtEnd())
      modifies this
      ensures Valid()
      ensures current == if old(IsAtEnd()) then old(current) else old(current) + 1
      ensures t == tokens[current - 1]
    {
      if !IsAtEnd() {
        current := current + 1;
      }
      t := Previous();
    }

    /** The `advance` after a successful `check(k)`: the cursor moves past a `k` token. */
    method Take(k: TokenType)
      requires Valid() && Check(k)
      modifies this
      ensures Valid() && current == old(current) + 1 && 0 < current && tokens[current - 1].kind == k
    {
      current := current + 1;
    }

    /** `match(types...)`: consumes the next token when it has one of the kinds. */
    method Match(kinds: seq<TokenType>) returns (b: bool)
      requires Valid()
      modifies this
      ensures Valid()
      ensures b == SeesAny(tokens, old(current), kinds)
      ensures current == old(current) + (if b then 1 else 0)
    {
      var i := 0;
      while i < |kinds|
        invariant 0 <= i <= |kinds|
        invariant Valid() && current == old(current)
        invariant forall j :: 0 <= j < i ==> !Check(kinds[j])
      {
        if Check(kinds[i]) {
          var _ := Advance();
          return true;
        }
        i := i + 1;
      }
      return false;
    }

    /** `consume`: the next token when it has kind `k`, else the error `msg` at it. */
    method Consume(k: TokenType, msg: string) returns (r: Result<Token>)
      requires Valid()
      modifies this
      ensures Valid()
      ensures r.Ok? == old(Check(k))
      ensures r.Ok? ==> current == old(current) + 1 && r.value == tokens[old(current)] && r.value.kind == k
      ensures r.Err? ==> current == old(current) && r == Err(Error(tokens[current], msg))
    {
      if Check(k) {
        var t := Advance();
        return Ok(t);
      }
      return Err(Error(Peek(), msg));
    }

    /** The next tokens, none of them EOF, have the given kinds in order. */
    ghost predicate FormAhead(kinds: seq<TokenType>)
      reads this
      requires Valid()
    {
      forall i :: 0 <= i < |kinds| ==>
        current + i < |tokens| && kinds[i] != Eof && tokens[current + i].kind == kinds[i]
    }

    /** `checkForm`: looks ahead for a run of kinds and always restores the cursor. */
    method CheckForm(kinds: seq<TokenType>) returns (b: bool)
      requires Valid()
      modifies this
      ensures Valid() && current == old(current)
      ensures b <==> FormAhead(kinds)
    {
      var prev := current;
      var i := 0;
      while i < |kinds|
        invariant 0 <= i <= |kinds|
        invariant Valid() && current == prev + i
        invariant forall j :: 0 <= j < i ==>
          prev + j < |tokens| && kinds[j] != Eof && tokens[prev + j].kind == kinds[j]
      {
        var matched := Match([kinds[i]]);
        if !matched {
          current := prev;
          return false;
        }
        i := i + 1;
      }
      current := prev;
      return true;
    }

    // -------------------------------------------------------------------
    // Expressions: each method computes exactly the production of the
    // same name in `Descent`, moving the cursor to where the production
    // stops; what the productions take, and that they take every rendering
    // of the right precedence, is proved there.

    /** The result a production's outcome stands for: the value, or the error reported at its token. */
    function Reported<T>(s: Step<T>): Result<T>
    {
      match s
      case Took(v, _) => Ok(v)
      case Failed(t, m) => Err(Error(t, m))
    }

    /** A result and the cursor that stand for the outcome `s`: on success the cursor is where `s` stops. */
    ghost predicate Yields<T>(r: Result<T>, s: Step<T>)
      reads this
    {
      r == Reported(s) && (r.Ok? ==> current == s.next)
    }

    method Expression() returns (r: Result<Expr>)
      requires Valid()
      modifies this
      ensures Valid()
      ensures Yields(r, ParseExpression(tokens, old(current)))
      ensures r.Ok? ==> Parsed(tokens, old(current), current, r.value, ASSIGNMENT)
      ensures forall hi: nat, e :: Parsed(tokens, old(current), hi, e, ASSIGNMENT) ==> r == Ok(e) && current == hi
      decreases |tokens| - current, 20
    {
      ghost var start := current;
      r := Assignment();
      forall hi: nat, e | Parsed(tokens, start, hi, e, ASSIGNMENT)
        ensures r == Ok(e) && current == hi
      {
        CompleteExpression(tokens, start, hi, e);
      }
    }

    /**
     * `a = b = c` groups to the right; only a bare identifier can be
     * assigned, and any other target is reported at the `=` once the value
     * is parsed.
     */
    method Assignment() returns (r: Result<Expr>)
      requires Valid()
      modifies this
      ensures Valid()
      ensures Yields(r, ParseAssignment(tokens, old(current)))
      ensures r.Ok? ==> Parsed(tokens, old(current), current, r.value, ASSIGNMENT)
      decreases |tokens| - current, 19
    {
      ghost var start := current;
      var first := BinaryLevel(OR_LEVEL);
      if first.Err? {
        return Err(first.error);
      }
      r := AssignValue(first.value, start);
    }

    /** The rest of an assignment, after its target. */
    method AssignValue(target: Expr, ghost start: nat) returns (r: Result<Expr>)
      requires Valid() && Parsed(tokens, start, current, target, OR_LEVEL)
      modifies this
      ensures Valid()
      ensures Yields(r, ParseAssignValue(tokens, start, old(current), target))
      decreases |tokens| - start, 18
    {
      var isAssign := Match([Assign]);
      if !isAssign {
        return Ok(target);
      }
      var equals := Previous();
      var value :- Assignment();
      if target.IdentifierExpr? {
        r := Ok(AssignExpr(target.ident, value));
      } else {
        r := Err(Error(equals, InvalidAssignmentTarget));
      }
    }

    /** The operand of a binary level: the next tighter level, `tighter`. */
    method Operand(tighter: int) returns (r: Result<Expr>)
      requires Valid() && OR_LEVEL < tighter <= UNARY
      modifies this
      ensures Valid()
      ensures Yields(r, ParseOperand(tokens, old(current), tighter))
      ensures r.Ok? ==> Parsed(tokens, old(current), current, r.value, tighter)
      decreases |tokens| - current, 12 + MULTIPLICATION + 2 - tighter, 1
    {
      if tighter == UNARY {
        r := Unary();
      } else {
        r := BinaryLevel(tighter);
      }
    }

    /**
     * One binary level (`orExpr` ... `multiplication`): operands of the next
     * tighter level joined by this level's operators, grouped to the left.
     */
    method BinaryLevel(level: int) returns (r: Result<Expr>)
      requires Valid() && OR_LEVEL <= level <= MULTIPLICATION
      modifies this
      ensures Valid()
      ensures Yields(r, ParseBinary(tokens, old(current), level))
      ensures r.Ok? ==> Parsed(tokens, old(current), current, r.value, level)
      decreases |tokens| - current, 12 + MULTIPLICATION + 1 - level, 2
    {
      var start := current;
      var first := Operand(level + 1);
      if first.Err? {
        return Err(first.error);
      }
      var expr := first.value;
      OperatorsFirst(tokens, start, level, expr, current);
      var more := true;
      while more
        invariant Valid() && LeftAt(tokens, start, current, level, expr)
        invariant more ==> ParseBinary(tokens, start, level) == ParseOperators(tokens, start, current, level, expr)
        invariant !more ==> ParseBinary(tokens, start, level) == Took(expr, current)
        decreases |tokens| - current + (if more then 1 else 0)
      {
        var mid := current;
        var round := Operator(expr, level, start);
        if round.Err? {
          return Err(round.error);
        }
        more := current != mid;
        expr := round.value;
      }
      return Ok(expr);
    }

    /** One round of the loop of a binary level: an operator of the level and the operand after it. */
    method Operator(left: Expr, level: int, ghost start: nat) returns (r: Result<Expr>)
      requires Valid() && LeftAt(tokens, start, current, level, left)
      modifies this
      ensures Valid()
      ensures Yields(r, ParseOperator(tokens, start, old(current), level, left))
      decreases |tokens| - current, 12 + MULTIPLICATION + 1 - level, 1
    {
      var isOp := Match(BinaryOps(level));
      if !isOp {
        return Ok(left);
      }
      var op := Previous();
      var right :- Operand(level + 1);
      r := Ok(BinaryExpr(left, right, op));
    }

    /** Prefix `!` and `-`, which nest. */
    method Unary() returns (r: Result<Expr>)
      requires Valid()
      modifies this
      ensures Valid()
      ensures Yields(r, ParseUnary(tokens, old(current)))
      ensures r.Ok? ==> Parsed(tokens, old(current), current, r.value, UNARY)
      decreases |tokens| - current, 12
    {
      var isOp := Match([Not, Minus]);
      if !isOp {
        r := MemberOperation();
        return;
      }
      var op := Previous();
      var right :- Unary();
      r := Ok(UnaryExpr(right, op));
    }

    /** A primary expression followed by any run of calls `(...)` and member accesses `.name`. */
    method MemberOperation() returns (r: Result<Expr>)
      requires Valid()
      modifies this
      ensures Valid()
      ensures Yields(r, ParsePostfix(tokens, old(current)))
      ensures r.Ok? ==> Parsed(tokens, old(current), current, r.value, POSTFIX)
      decreases |tokens| - current, 11
    {
      var start := current;
      var first := Primary();
      if first.Err? {
        return Err(first.error);
      }
      var expr := first.value;
      PostfixFirst(tokens, start, expr, current);
      var more := true;
      while more
        invariant Valid() && PostfixAt(tokens, start, current, expr)
        invariant more ==> ParsePostfix(tokens, start) == ParsePostfixOps(tokens, start, current, expr)
        invariant !more ==> ParsePostfix(tokens, start) == Took(expr, current)
        decreases |tokens| - current + (if more then 1 else 0)
      {
        var mid := current;
        var round := PostfixOperation(expr, start);
        if round.Err? {
          return Err(round.error);
        }
        more := current != mid;
        expr := round.value;
      }
      return Ok(expr);
    }

    /**
     * One round of the loop of `memberOperationExpr`: `(` starts a call,
     * `.` a member access, and at anything else the operand comes back
     * as it was with the cursor where it was.
     */
    method PostfixOperation(expr: Expr, ghost start: nat) returns (r: Result<Expr>)
      requires Valid() && PostfixAt(tokens, start, current, expr)
      modifies this
      ensures Valid()
      ensures Yields(r, ParsePostfixOp(tokens, start, old(current), expr))
      decreases |tokens| - current, 0
    {
      var isCall := Match([LeftParen]);
      if isCall {
        r := FinishCall(expr, start);
        return;
      }
      var isDot := Match([Dot]);
      if !isDot {
        return Ok(expr);
      }
      r := MemberName(expr, start);
    }

    /** The member name of an access, entered after the `.`. */
    method MemberName(parent: Expr, ghost start: nat) returns (r: Result<Expr>)
      requires Valid() && 0 < current && tokens[current - 1].kind == Dot
      requires ExprAt(tokens, start, current - 1, parent) && Prec(parent) >= POSTFIX
      modifies this
      ensures Valid()
      ensures r.Ok? == old(Check(Identifier))
      ensures r.Ok? ==> current == old(current) + 1 && r.value == MemberAccessExpr(parent, tokens[old(current)]) &&
                        ExprAt(tokens, start, current, r.value)
      ensures r.Err? ==> r.error == Error(old(Peek()), ExpectedMemberName)
    {
      var name :- Consume(Identifier, ExpectedMemberName);
      MemberStep(tokens, start, old(current) - 1, parent);
      return Ok(MemberAccessExpr(parent, name));
    }

    /**
     * `callExpr(callee)`, entered after the `(`: the comma-separated
     * arguments and the closing `)`.
     */
    method FinishCall(callee: Expr, ghost start: nat) returns (r: Result<Expr>)
      requires Valid() && CallOpen(tokens, start, current, callee)
      modifies this
      ensures Valid()
      ensures Yields(r, ParseCall(tokens, start, old(current), callee))
      ensures r.Ok? ==> old(current) < current && r.value.CallExpr? && r.value.callee == callee &&
                        ExprAt(tokens, start, current, r.value)
      decreases |tokens| - current, 22
    {
      var list := Arguments();
      if list.Err? {
        return Err(list.error);
      }
      var items := list.value;
      var closing := current;
      var _ :- Consume(RightParen, UnclosedCall);
      return Ok(CallExpr(callee, items));
    }

    /**
     * The arguments of a call, up to the closing `)`: none when `)` comes
     * next, else expressions separated by commas. Starting an argument
     * when more than MAX_ARGUMENTS are already collected is an error.
     */
    method Arguments() returns (r: Result<seq<Expr>>)
      requires Valid()
      modifies this
      ensures Valid()
      ensures Yields(r, ParseArguments(tokens, old(current)))
      ensures r.Ok? ==> ArgsAt(tokens, old(current), current, r.value)
      ensures r.Ok? && |r.value| == 0 ==> current == old(current) && old(Check(RightParen))
      decreases |tokens| - current, 21
    {
      var start := current;
      ArgumentsStart(tokens, start);
      if Check(RightParen) {
        return Ok([]);
      }
      var first := Expression();
      if first.Err? {
        return Err(first.error);
      }
      var list := [first.value];
      ArgumentsFirst(tokens, start, first.value, current);
      var more := true;
      while more
        invariant Valid() && ArgsSoFar(tokens, start, current, list)
        invariant more ==> ParseArguments(tokens, start) == ParseArgumentList(tokens, start, current, list)
        invariant !more ==> ParseArguments(tokens, start) == Took(list, current)
        decreases |tokens| - current + (if more then 1 else 0)
      {
        var mid := current;
        var round := NextArgument(list, start);
        if round.Err? {
          return Err(round.error);
        }
        more := current != mid;
        list := round.value;
      }
      return Ok(list);
    }

    /** One round of the argument loop: a comma and the next argument, unless too many are collected. */
    method NextArgument(list: seq<Expr>, ghost start: nat) returns (r: Result<seq<Expr>>)
      requires Valid() && ArgsSoFar(tokens, start, current, list)
      modifies this
      ensures Valid()
      ensures Yields(r, ParseNextArgument(tokens, start, old(current), list))
      decreases |tokens| - current, 0
    {
      var more := Match([Comma]);
      if !more {
        return Ok(list);
      }
      if |list| > MAX_ARGUMENTS {
        return Err(Error(Peek(), TooManyArguments));
      }
      var next :- Expression();
      r := Ok(list + [next]);
    }

    /** A literal, an identifier or a parenthesized expression; anything else is an error. */
    method Primary() returns (r: Result<Expr>)
      requires Valid()
      modifies this
      ensures Valid()
      ensures Yields(r, ParsePrimary(tokens, old(current)))
      ensures r.Ok? ==> ExprAt(tokens, old(current), current, r.value) && Prec(r.value) >= PRIMARY
      ensures old(!(IsLiteralKind(Peek().kind) || Peek().kind == Identifier || Peek().kind == LeftParen)) ==>
        r == Err(Error(old(Peek()), ExpectedExpression))
      ensures old(IsLiteralKind(Peek().kind)) ==> r == Ok(LiteralExpr(old(Peek()))) && current == old(current) + 1
      ensures old(Check(Identifier)) ==> r == Ok(IdentifierExpr(old(Peek()))) && current == old(current) + 1
      decreases |tokens| - current, 10
    {
      var isLiteral := Match([BoolLit, IntLit, DoubleLit, StringLit]);
      if isLiteral {
        return Ok(LiteralExpr(Previous()));
      }
      var isIdentifier := Match([Identifier]);
      if isIdentifier {
        return Ok(IdentifierExpr(Previous()));
      }
      var isParen := Match([LeftParen]);
      if isParen {
        r := Grouping();
        return;
      }
      return Err(Error(Peek(), ExpectedExpression));
    }

    /**
     * The rest of a parenthesized expression, entered after the `(`; a
     * missing `)` is reported at the token after the inner expression.
     */
    method Grouping() returns (r: Result<Expr>)
      requires Valid() && 0 < current && tokens[current - 1].kind == LeftParen
      modifies this
      ensures Valid()
      ensures Yields(r, ParseGrouping(tokens, old(current)))
      ensures r.Ok? ==> r.value.ParenthesizedExpr? && ExprAt(tokens, old(current) - 1, current, r.value)
      decreases |tokens| - current, 22
    {
      var e :- Expression();
      var _ :- Consume(RightParen, UnclosedGroup);
      return Ok(ParenthesizedExpr(e));
    }

    // -------------------------------------------------------------------
    // Types

    /** `parseType`/`ptrType`/`vType`: a type name, then one pointer level per `*`. */
    method ParseType() returns (r: Result<Type>)
      requires Valid()
      modifies this
      ensures Valid()
      ensures r.Ok? ==> TypeAt(tokens, old(current), current, r.value) && !Check(Star)
      ensures r.Ok? <==> old(Check(Identifier))
      ensures !old(Check(Identifier)) ==> r == Err(Error(old(Peek()), ExpectedTypeName))
    {
      var start := current;
      var name :- Consume(Identifier, ExpectedTypeName);
      TypeStep(tokens, start);
      var t := ValueType(name);
      while true
        invariant Valid() && TypeAt(tokens, start, current, t)
        decreases |tokens| - current
      {
        var star := Match([Star]);
        if !star {
          break;
        }
        PointerStep(tokens, start, current - 1, t);
        t := PointerType(t);
      }
      return Ok(t);
    }

    // -------------------------------------------------------------------
    // Statements: on success each method has consumed exactly the
    // rendering of the statement as written (`StmtAt`, in Grammar) and
    // returns its lowering. A method named after a keyword is entered
    // just after that keyword.

    /** `parse`: top-level items up to EOF, each preceded by what its includes brought in. */
    method Parse() returns (r: Result<seq<Stmt>>, ghost items: seq<TopLevelItem>, ghost imported: seq<seq<Stmt>>, ghost includes: seq<IncludeRecord>)
      requires Valid()
      modifies this, session
      ensures Valid() && SessionGrows(session)
      ensures r.Ok? ==>
        Peek().kind == Eof && |imported| == |items| &&
        FileAt(tokens, old(current), current, items) && r.value == Weave(imported, items)
      ensures r.Ok? ==> ItemsInclude(session.fs, session.fp, filepath, items, imported, includes, old(session.usedFiles))
      decreases session.Pending(), |tokens| - current, 40
    {
      var start := current;
      var statements: seq<Stmt> := [];
      items := [];
      imported := [];
      includes := [];
      NoFileItems(tokens, start);
      r := Ok([]);
      while !IsAtEnd()
        invariant Valid() && start <= current && SessionGrows(session) && r.Ok?
        invariant |imported| == |items| && FileAt(tokens, start, current, items)
        invariant statements == Weave(imported, items)
        invariant ItemsInclude(session.fs, session.fp, filepath, items, imported, includes, old(session.usedFiles))
        decreases |tokens| - current
      {
        var mid := current;
        ghost var entry := session.usedFiles;
        var d, more, item, used, parts := TopLevel();
        if d.Err? {
          r := Err(d.error);
          break;
        }
        ItemsIncludeStep(session.fs, session.fp, filepath, items, imported, includes, old(session.usedFiles), item, more, IncludeRecord(entry, used, parts), session.usedFiles);
        includes := includes + [IncludeRecord(entry, used, parts)];
        NextFileItem(tokens, start, mid, current, items, item);
        assert (imported + [more])[..|items|] == imported && (items + [item])[..|items|] == items;
        statements := statements + more + [d.value];
        items := items + [item];
        imported := imported + [more];
      }
      if r.Ok? {
        r := Ok(statements);
      }
    }

    /**
     * `topLevelStatement` at file level: the includes in front of a
     * declaration, then the declaration. `imported` holds what the included
     * files contributed, in order.
     */
    method TopLevel() returns (r: Result<Stmt>, imported: seq<Stmt>, ghost item: TopLevelItem, ghost used: seq<set<string>>, ghost parts: seq<seq<Stmt>>)
      requires Valid()
      modifies this, session
      ensures Valid() && SessionGrows(session)
      ensures r.Ok? ==>
        old(current) < current && Spans(tokens, old(current), current, RenderItem(item)) &&
        ItemWellFormed(item) && r.value == Lower(item.decl)
      ensures r.Ok? ==> IncludeTrail(session.fs, session.fp, filepath, item.includes, old(session.usedFiles), used, parts, imported, session.usedFiles)
      decreases session.Pending(), |tokens| - current, 39
    {
      item := TopLevelItem([], SynBreak);
      var start := current;
      var includes; ghost var files;
      includes, files, used, parts := FileIncludes();
      if includes.Err? {
        return Err(includes.error), [], item, used, parts;
      }
      imported := includes.value;
      var mid := current;
      ghost var usedNow := session.usedFiles;
      var d, decl := Declaration();
      if d.Err? {
        return Err(d.error), imported, item, used, parts;
      }
      assert session.usedFiles == usedNow;
      ItemStep(tokens, start, mid, current, files, decl);
      item := TopLevelItem(files, decl);
      r := Ok(d.value);
    }

    /**
     * `topLevelStatement` inside a block, where there is no statement
     * list to add included files to: an `include` is an error, anything
     * else is a declaration.
     */
    method BlockItem() returns (r: Result<Stmt>, ghost syn: Syntax)
      requires Valid()
      modifies this
      ensures Valid()
      ensures r.Ok? ==> StmtAt(tokens, old(current), current, syn) && r.value == Lower(syn)
      ensures old(Check(Include)) ==> r == Err(Error(tokens[old(current) + 1], IncludeOutsideGlobalScope))
      decreases |tokens| - current, 39
    {
      syn := SynBreak;
      var noInclude := NoBlockInclude();
      if noInclude.Err? {
        return Err(noInclude.error), syn;
      }
      r, syn := Declaration();
    }

    /** Below file level: an `include` is an error, reported at the token after it. */
    method NoBlockInclude() returns (r: Result<seq<Stmt>>)
      requires Valid()
      modifies this
      ensures Valid() && old(current) <= current
      ensures r.Ok? ==> r.value == [] && current == old(current)
      ensures old(Check(Include)) ==>
        r == Err(Error(tokens[old(current) + 1], IncludeOutsideGlobalScope))
    {
      var isInclude := Match([Include]);
      if isInclude {
        r := Err(Error(Peek(), IncludeOutsideGlobalScope));
      } else {
        r := Ok([]);
      }
    }

    /**
     * The include lines at file level: each parses the named file, and what
     * they yield is the concatenation, in order, of what each contributes.
     */
    method FileIncludes() returns (r: Result<seq<Stmt>>, ghost files: seq<Token>, ghost used: seq<set<string>>, ghost parts: seq<seq<Stmt>>)
      requires Valid()
      modifies this, session
      ensures Valid() && SessionGrows(session) && old(current) <= current
      ensures r.Ok? ==> IncludesAt(tokens, old(current), current, files)
      ensures r.Ok? ==> IncludeTrail(session.fs, session.fp, filepath, files, old(session.usedFiles), used, parts, r.value, session.usedFiles)
      decreases session.Pending(), |tokens| - current, 37
    {
      var start := current;
      var imported: seq<Stmt> := [];
      files, used, parts := [], [], [];
      NoIncludes(tokens, start);
      while true
        invariant Valid() && start <= current && SessionGrows(session)
        invariant IncludesAt(tokens, start, current, files)
        invariant IncludeTrail(session.fs, session.fp, filepath, files, old(session.usedFiles), used, parts, imported, session.usedFiles)
        decreases |tokens| - current
      {
        var isInclude := Match([Include]);
        if !isInclude {
          r := Ok(imported);
          break;
        }
        ghost var name := tokens[current];
        ghost var before := session.usedFiles;
        var more := IncludeLine(start, files);
        if more.Err? {
          r := Err(more.error);
          break;
        }
        IncludesStep(session.fs, session.fp, filepath, files, old(session.usedFiles), used, parts, imported, name, before, more.value, session.usedFiles);
        files, used, parts := files + [name], used + [before], parts + [more.value];
        imported := imported + more.value;
      }
    }

    /** One include line after the ones before it, entered after `include`. */
    method IncludeLine(ghost start: nat, ghost files: seq<Token>) returns (r: Result<seq<Stmt>>)
      requires Valid() && 0 < current && tokens[current - 1].kind == Include
      requires IncludesAt(tokens, start, current - 1, files)
      modifies this, session
      ensures Valid() && SessionGrows(session) && old(current) <= current
      ensures r.Ok? ==> IncludesAt(tokens, start, current, files + [tokens[old(current)]])
      ensures r.Ok? ==>
        IncludedAs(session.fs, session.fp, filepath, tokens[old(current)], old(session.usedFiles), r.value) &&
        session.fs.fullPath(IncludePath(session.fs, filepath, tokens[old(current)])) in session.usedFiles
      decreases session.Pending(), |tokens| - current, 36
    {
      r := IncludeDirective();
      if r.Ok? {
        IncludeStep(tokens, start, old(current) - 1, files);
      }
    }

    /**
     * One include, entered after `include`: the file name, the parse of
     * that file (relative to this file's directory) and the `;`.
     */
    method IncludeDirective() returns (r: Result<seq<Stmt>>)
      requires Valid() && 0 < current && tokens[current - 1].kind == Include
      modifies this, session
      ensures Valid() && SessionGrows(session) && old(current) <= current
      ensures r.Ok? ==>
        current == old(current) + 2 && tokens[old(current)].kind == StringLit &&
        tokens[old(current) + 1].kind == Semicolon &&
        session.fs.fullPath(IncludePath(session.fs, filepath, tokens[old(current)])) in session.usedFiles
      ensures r.Ok? ==> IncludedAs(session.fs, session.fp, filepath, tokens[old(current)], old(session.usedFiles), r.value)
      ensures !old(Check(StringLit)) ==> r == Err(Error(old(Peek()), ExpectedIncludeFile))
      decreases session.Pending(), |tokens| - current, 35
    {
      var fname :- Consume(StringLit, ExpectedIncludeFile);
      ghost var fileTokens, fileItems, fileImported;
      r, fileTokens, fileItems, fileImported := ParseFile(session, IncludePath(session.fs, filepath, fname), Some(filepath));
      if r.Err? {
        return;
      }
      var _ :- Consume(Semicolon, UnendedInclude);
      if session.fs.fullPath(IncludePath(session.fs, filepath, fname)) !in old(session.usedFiles) {
        assert ParsedAs(session.fs, session.fp, IncludePath(session.fs, filepath, fname), Some(filepath), r, fileTokens, fileItems, fileImported);
      }
    }

    /** `declaration`: a function, a variable declaration or expression statement, or a statement. */
    method Declaration() returns (r: Result<Stmt>, ghost syn: Syntax)
      requires Valid()
      modifies this
      ensures Valid()
      ensures r.Ok? ==> StmtAt(tokens, old(current), current, syn) && r.value == Lower(syn)
      ensures r.Ok? && old(Check(Func)) ==> syn.SynFunc?
      decreases |tokens| - current, 38
    {
      var isFunc := Match([Func]);
      if isFunc {
        r, syn := FuncDeclaration();
        return;
      }
      var isIdentifier := Match([Identifier]);
      if isIdentifier {
        r, syn := VarHandling(Previous());
        return;
      }
      r, syn := Statement();
    }

    /** `funcDeclaration`, entered after `func`: the signature and a block. */
    method FuncDeclaration() returns (r: Result<Stmt>, ghost syn: Syntax)
      requires Valid() && 0 < current && tokens[current - 1].kind == Func
      modifies this
      ensures Valid()
      ensures r.Ok? ==> syn.SynFunc? && StmtAt(tokens, old(current) - 1, current, syn) && r.value == Lower(syn)
      decreases |tokens| - current, 37
    {
      syn := SynBreak;
      var sig :- Signature();
      var (name, parameters, rtype) := sig;
      var sigEnd := current;
      var _ :- Consume(LeftCur, ExpectedFunctionBody);
      var body, block := Block();
      if body.Err? {
        return Err(body.error), syn;
      }
      FuncStep(tokens, old(current) - 1, sigEnd, current, name, parameters, rtype, block.items);
      syn := SynFunc(name, parameters, rtype, block.items);
      r := Ok(FuncDeclarationStmt(rtype, name, parameters, body.value));
    }

    /** `name(parameters): type`, after `func`. */
    method Signature() returns (r: Result<(Token, seq<Parameter>, Type)>)
      requires Valid()
      modifies this
      ensures Valid()
      ensures r.Ok? ==> SignatureAt(tokens, old(current), current, r.value.0, r.value.1, r.value.2)
      ensures !old(Check(Identifier)) ==> r == Err(Error(old(Peek()), ExpectedFunctionName))
    {
      var start := current;
      var name :- Consume(Identifier, ExpectedFunctionName);
      var _ :- Consume(LeftParen, ExpectedParameterList);
      var parameters :- ParameterList();
      var typeStart := current;
      var rtype :- ReturnType(name);
      SignatureStep(tokens, start, typeStart - 1, current, parameters, rtype);
      return Ok((name, parameters, rtype));
    }

    /** `: type` after a function's parameter list. */
    method ReturnType(name: Token) returns (r: Result<Type>)
      requires Valid()
      modifies this
      ensures Valid()
      ensures r.Ok? ==>
        old(current) + 1 < |tokens| && tokens[old(current)].kind == Colon &&
        TypeAt(tokens, old(current) + 1, current, r.value)
      ensures !old(Check(Colon)) ==>
        r == Err(Error(old(Peek()), MissingReturnType(name.identifierName)))
      ensures r.Ok? <==> old(FormAhead([Colon, Identifier]))
    {
      assert [Colon, Identifier][0] == Colon && [Colon, Identifier][1] == Identifier;
      var _ :- Consume(Colon, MissingReturnType(name.identifierName));
      r := ParseType();
    }

    /** The parameter list up to and including its `)`. */
    method ParameterList() returns (r: Result<seq<Parameter>>)
      requires Valid()
      modifies this
      ensures Valid()
      ensures r.Ok? ==>
        old(current) < current && ParamsAt(tokens, old(current), current - 1, r.value) &&
        tokens[current - 1].kind == RightParen
      ensures r.Ok? ==> (r.value == [] <==> old(Check(RightParen)))
      ensures old(Check(RightParen)) ==> r == Ok([]) && current == old(current) + 1
    {
      var parameters: seq<Parameter> := [];
      NoParams(tokens, current);
      if !Check(RightParen) {
        parameters :- Parameters();
      }
      var _ :- Consume(RightParen, UnclosedParameters);
      return Ok(parameters);
    }

    /** One or more parameters separated by commas. */
    method Parameters() returns (r: Result<seq<Parameter>>)
      requires Valid()
      modifies this
      ensures Valid()
      ensures r.Ok? ==> old(current) < current && 0 < |r.value| && ParamsAt(tokens, old(current), current, r.value)
    {
      var start := current;
      var first :- Param();
      FirstParamStep(tokens, start, current, first);
      var parameters := [first];
      while true
        invariant Valid() && start < current && 0 < |parameters| && ParamsAt(tokens, start, current, parameters)
        decreases |tokens| - current
      {
        var more := Match([Comma]);
        if !more {
          break;
        }
        var p :- NextParam(start, parameters);
        parameters := parameters + [p];
      }
      return Ok(parameters);
    }

    /**
     * A parameter after a comma. Starting one when MAX_ARGUMENTS are
     * already declared is an error.
     */
    method NextParam(ghost start: nat, parameters: seq<Parameter>) returns (r: Result<Parameter>)
      requires Valid() && 0 < current && tokens[current - 1].kind == Comma
      requires 0 < |parameters| && ParamsAt(tokens, start, current - 1, parameters)
      modifies this
      ensures Valid()
      ensures r.Ok? ==> old(current) < current && ParamsAt(tokens, start, current, parameters + [r.value])
      ensures |parameters| >= MAX_ARGUMENTS ==> r == Err(Error(old(Peek()), TooManyParameters))
      ensures r.Ok? <==> |parameters| < MAX_ARGUMENTS && old(FormAhead([Identifier, Colon, Identifier]))
    {
      if |parameters| >= MAX_ARGUMENTS {
        return Err(Error(Peek(), TooManyParameters));
      }
      r := Param();
      if r.Ok? {
        NextParamStep(tokens, start, old(current) - 1, current, parameters, r.value);
      }
    }

    /** One parameter, `name: type`. */
    method Param() returns (r: Result<Parameter>)
      requires Valid()
      modifies this
      ensures Valid()
      ensures r.Ok? ==> old(current) < current && ParamAt(tokens, old(current), current, r.value)
      ensures !old(Check(Identifier)) ==> r == Err(Error(old(Peek()), ExpectedParameterName))
      ensures r.Ok? <==> old(FormAhead([Identifier, Colon, Identifier]))
    {
      var start := current;
      ghost var form := [Identifier, Colon, Identifier];
      assert form[0] == Identifier && form[1] == Colon && form[2] == Identifier;
      var name :- Consume(Identifier, ExpectedParameterName);
      var _ :- Consume(Colon, ExpectedParameterColon);
      var t :- ParseType();
      ParamStep(tokens, start, current, t);
      return Ok(Parameter(t, name));
    }

    /**
     * `varHandling`, entered after an identifier: a declaration when `:`
     * follows, otherwise the identifier is put back and an expression
     * statement is parsed from it.
     */
    method VarHandling(name: Token) returns (r: Result<Stmt>, ghost syn: Syntax)
      requires Valid() && 0 < current && tokens[current - 1].kind == Identifier && name == tokens[current - 1]
      modifies this
      ensures Valid()
      ensures r.Ok? ==> StmtAt(tokens, old(current) - 1, current, syn) && r.value == Lower(syn)
      ensures r.Ok? ==> (syn.SynVar? <==> old(Check(Colon)))
    {
      var isColon := Match([Colon]);
      if isColon {
        r, syn := VarDeclaration(name);
        return;
      }
      current := current - 1;
      r, syn := ExpressionStatement();
    }

    /** `varDeclaration`, entered after `name:`: a type, an optional `= value`, and `;`. */
    method VarDeclaration(name: Token) returns (r: Result<Stmt>, ghost syn: Syntax)
      requires Valid() && 1 < current && name == tokens[current - 2]
      requires name.kind == Identifier && tokens[current - 1].kind == Colon
      modifies this
      ensures Valid()
      ensures r.Ok? ==> syn.SynVar? && StmtAt(tokens, old(current) - 2, current, syn) && r.value == Lower(syn)
    {
      syn := SynBreak;
      var t :- ParseType();
      var typeEnd := current;
      var value :- Initializer();
      VarStep(tokens, old(current) - 2, typeEnd, current - 1, t, value);
      syn := SynVar(name, t, value);
      r := Ok(VarDeclarationStmt(t, name, value));
    }

    /** The optional `= value` of a variable declaration, with the closing `;`. */
    method Initializer() returns (r: Result<Option<Expr>>)
      requires Valid()
      modifies this
      ensures Valid()
      ensures r.Ok? ==>
        old(current) < current && Spans(tokens, old(current), current - 1, OptAssign(r.value)) &&
        OptWellFormed(r.value) && tokens[current - 1].kind == Semicolon
      ensures r.Ok? ==> (r.value.Some? <==> old(Check(Assign)))
      ensures old(Check(Assign)) ==> (r.Ok? <==> ExprBefore(tokens, old(current) + 1, Semicolon))
      ensures !old(Check(Assign)) ==> (r.Ok? <==> old(Check(Semicolon)))
    {
      var start := current;
      var value: Option<Expr> := None;
      NoAssign(tokens, start);
      var isAssign := Match([Assign]);
      if isAssign {
        var e :- Expression();
        AssignInit(tokens, start, current, e);
        value := Some(e);
      }
      var _ :- Consume(Semicolon, UnendedVarDeclaration);
      return Ok(value);
    }

    /**
     * `statement`: the keyword statements, a block, or an expression
     * statement; never a declaration. Each `match` of a keyword is a
     * `Check` and an `Advance`; the alternatives are tried in the source's
     * order across this method and the three after it.
     */
    method Statement() returns (r: Result<Stmt>, ghost syn: Syntax)
      requires Valid()
      modifies this
      ensures Valid()
      ensures r.Ok? ==> StmtAt(tokens, old(current), current, syn) && !IsDeclaration(syn) && r.value == Lower(syn)
      decreases |tokens| - current, 34
    {
      if Check(For) {
        var _ := Advance();
        r, syn := ForStatement();
      } else if Check(If) {
        var _ := Advance();
        r, syn := IfStatement();
      } else {
        r, syn := StatementFromReturn();
      }
    }

    /** The alternatives of `statement` from `return` on. */
    method StatementFromReturn() returns (r: Result<Stmt>, ghost syn: Syntax)
      requires Valid()
      modifies this
      ensures Valid()
      ensures r.Ok? ==> StmtAt(tokens, old(current), current, syn) && !IsDeclaration(syn) && r.value == Lower(syn)
      decreases |tokens| - current, 33
    {
      if Check(Return) {
        Take(Return);
        r, syn := ReturnStatement();
      } else if Check(While) {
        Take(While);
        r, syn := WhileStatement();
      } else {
        r, syn := StatementFromBlock();
      }
    }

    /** The alternatives of `statement` from a block on. */
    method StatementFromBlock() returns (r: Result<Stmt>, ghost syn: Syntax)
      requires Valid()
      modifies this
      ensures Valid()
      ensures r.Ok? ==> StmtAt(tokens, old(current), current, syn) && !IsDeclaration(syn) && r.value == Lower(syn)
      decreases |tokens| - current, 32
    {
      if Check(LeftCur) {
        var _ := Advance();
        r, syn := Block();
      } else if Check(Break) {
        var _ := Advance();
        r, syn := BreakStatement();
      } else {
        r, syn := StatementFromContinue();
      }
    }

    /** The last alternatives of `statement`: `continue`, or an expression statement. */
    method StatementFromContinue() returns (r: Result<Stmt>, ghost syn: Syntax)
      requires Valid()
      modifies this
      ensures Valid()
      ensures r.Ok? ==> StmtAt(tokens, old(current), current, syn) && !IsDeclaration(syn) && r.value == Lower(syn)
    {
      if Check(Continue) {
        var _ := Advance();
        r, syn := ContinueStatement();
      } else {
        r, syn := ExpressionStatement();
      }
    }

    /**
     * `forStatement`, entered after `for`: the header and the body, returned
     * rewritten into a `while` loop (`DesugarFor`).
     */
    method ForStatement() returns (r: Result<Stmt>, ghost syn: Syntax)
      requires Valid() && 0 < current && tokens[current - 1].kind == For
      modifies this
      ensures Valid()
      ensures r.Ok? ==> syn.SynFor? && StmtAt(tokens, old(current) - 1, current, syn) && r.value == Lower(syn)
      decreases |tokens| - current, 33
    {
      syn := SynBreak;
      var _ :- Consume(LeftParen, ExpectedForHeader);
      var init, initSyntax := ForInitializer();
      if init.Err? {
        return Err(init.error), syn;
      }
      var clausesStart := current;
      var clauses :- ForHeader();
      var (condition, increment) := clauses;
      var bodyStart := current;
      var body, bodySyntax := Statement();
      if body.Err? {
        return Err(body.error), syn;
      }
      ForStep(tokens, old(current) - 1, clausesStart, bodyStart, current,
              initSyntax, condition, increment, bodySyntax);
      syn := SynFor(initSyntax, condition, increment, bodySyntax);
      r := Ok(DesugarFor(init.value, condition, increment, body.value));
    }

    /** The initializer of a `for` header, with its `;`: a declaration, nothing, or an expression. */
    method ForInitializer() returns (r: Result<Option<Stmt>>, ghost syn: ForInit)
      requires Valid()
      modifies this
      ensures Valid()
      ensures r.Ok? ==> old(current) < current && InitAt(tokens, old(current), current, syn) && r.value == LowerInit(syn)
      ensures r.Ok? ==> (syn.InitDecl? <==> old(FormAhead([Identifier, Colon])))
    {
      var start := current;
      var isDeclaration := CheckForm([Identifier, Colon]);
      if isDeclaration {
        r, syn := ForDeclaration();
        return;
      }
      var isEmpty := Match([Semicolon]);
      if isEmpty {
        NoInitStep(tokens, start);
        return Ok(None), NoInit;
      }
      var s, es := ExpressionStatement();
      if s.Err? {
        return Err(s.error), NoInit;
      }
      InitExprStep(tokens, start, current, es.expr);
      return Ok(Some(s.value)), InitExpr(es.expr);
    }

    /** `name: type = value;` in a `for` header; the value is required. */
    method ForDeclaration() returns (r: Result<Option<Stmt>>, ghost syn: ForInit)
      requires Valid() && FormAhead([Identifier, Colon])
      modifies this
      ensures Valid()
      ensures r.Ok? ==>
        syn.InitDecl? && old(current) < current && InitAt(tokens, old(current), current, syn) && r.value == LowerInit(syn)
    {
      syn := NoInit;
      var start := current;
      assert [Identifier, Colon][0] == Identifier && [Identifier, Colon][1] == Colon;
      var name := Advance();
      var _ := Advance();
      r, syn := ForDeclarationRest(start, name);
    }

    /** The type and the `= value;` of a `for` declaration, entered after `name :`. */
    method ForDeclarationRest(ghost start: nat, name: Token) returns (r: Result<Option<Stmt>>, ghost syn: ForInit)
      requires Valid() && start + 2 == current && tokens[start] == name
      requires name.kind == Identifier && tokens[start + 1].kind == Colon
      modifies this
      ensures Valid()
      ensures r.Ok? ==>
        syn.InitDecl? && start < current && InitAt(tokens, start, current, syn) && r.value == LowerInit(syn)
    {
      syn := NoInit;
      var t :- ParseType();
      r, syn := ForDeclarationTail(start, name, t);
    }

    /** The `= value;` of a `for` declaration, entered after `name : type`. */
    method ForDeclarationTail(ghost start: nat, name: Token, t: Type) returns (r: Result<Option<Stmt>>, ghost syn: ForInit)
      requires Valid() && start + 2 <= current && tokens[start] == name
      requires name.kind == Identifier && tokens[start + 1].kind == Colon && TypeAt(tokens, start + 2, current, t)
      modifies this
      ensures Valid()
      ensures r.Ok? ==>
        syn.InitDecl? && start < current && InitAt(tokens, start, current, syn) && r.value == LowerInit(syn)
    {
      syn := NoInit;
      ghost var typeEnd := current;
      var v := ForDeclarationValue();
      if v.Err? {
        return Err(v.error), syn;
      }
      InitDeclStep(tokens, start, typeEnd, current - 1, t, v.value);
      syn := InitDecl(name, t, v.value);
      r := Ok(Some(VarDeclarationStmt(t, name, Some(v.value))));
    }

    /** The `= value;` a `for` declaration must have. */
    method ForDeclarationValue() returns (r: Result<Expr>)
      requires Valid()
      modifies this
      ensures Valid()
      ensures r.Ok? ==>
        old(current) + 1 < current && tokens[old(current)].kind == Assign &&
        ExprAt(tokens, old(current) + 1, current - 1, r.value) && tokens[current - 1].kind == Semicolon
      ensures !old(Check(Assign)) ==> r == Err(Error(old(Peek()), ExpectedForAssignment))
      ensures r.Ok? <==> old(Check(Assign)) && ExprBefore(tokens, old(current) + 1, Semicolon)
    {
      var _ :- Consume(Assign, ExpectedForAssignment);
      var value :- Expression();
      var _ :- Consume(Semicolon, UnendedForDeclaration);
      return Ok(value);
    }

    /** `cond; increment)` of a `for` header; either expression may be missing. */
    method ForHeader() returns (r: Result<(Option<Expr>, Option<Expr>)>)
      requires Valid()
      modifies this
      ensures Valid()
      ensures r.Ok? ==>
        old(current) < current && Spans(tokens, old(current), current, ForClauses(r.value.0, r.value.1)) &&
        OptWellFormed(r.value.0) && OptWellFormed(r.value.1)
    {
      var start := current;
      var condition :- OptionalExpression(Semicolon, UnendedForCondition);
      r := ForIncrement(start, condition);
    }

    /** `increment)` of a `for` header, after `cond;` from `start`. */
    method ForIncrement(ghost start: nat, condition: Option<Expr>) returns (r: Result<(Option<Expr>, Option<Expr>)>)
      requires Valid() && start < current && OptAt(tokens, start, current - 1, condition)
      requires tokens[current - 1].kind == Semicolon
      modifies this
      ensures Valid()
      ensures r.Ok? ==>
        start < current && Spans(tokens, start, current, ForClauses(r.value.0, r.value.1)) &&
        OptWellFormed(r.value.0) && OptWellFormed(r.value.1)
    {
      ghost var mid := current;
      var increment :- OptionalExpression(RightParen, UnclosedForHeader);
      ClausesStep(tokens, start, mid, current, condition, increment);
      return Ok((condition, increment));
    }

    /**
     * An expression unless the terminator comes first, then the
     * terminator (as in a `for` header and in `return`).
     */
    method OptionalExpression(terminator: TokenType, msg: string) returns (r: Result<Option<Expr>>)
      requires Valid()
      modifies this
      ensures Valid()
      ensures r.Ok? ==>
        old(current) < current && OptAt(tokens, old(current), current - 1, r.value) &&
        tokens[current - 1].kind == terminator
      ensures r.Ok? ==> (r.value.None? <==> old(Check(terminator)))
      ensures r.Ok? <==> old(Check(terminator)) || ExprBefore(tokens, old(current), terminator)
      ensures r.Ok? && r.value.Some? ==> r.value.value == ParseExpression(tokens, old(current)).value
    {
      var start := current;
      var value: Option<Expr> := None;
      NoExpr(tokens, start);
      if !Check(terminator) {
        var e :- Expression();
        SomeExpr(tokens, start, current, e);
        value := Some(e);
      }
      var _ :- Consume(terminator, msg);
      return Ok(value);
    }

    /** `( expression )` after `if` or `while`, with the two messages for a missing parenthesis. */
    method Condition(openMessage: string, closeMessage: string) returns (r: Result<Expr>)
      requires Valid()
      modifies this
      ensures Valid()
      ensures r.Ok? ==> old(current) < current && CondAt(tokens, old(current), current, r.value)
      ensures !old(Check(LeftParen)) ==> r == Err(Error(old(Peek()), openMessage))
      ensures r.Ok? <==> old(Check(LeftParen)) && ExprBefore(tokens, old(current) + 1, RightParen)
      ensures r.Ok? ==> r.value == ParseExpression(tokens, old(current) + 1).value
    {
      var start := current;
      var _ :- Consume(LeftParen, openMessage);
      var c :- Expression();
      var closing := current;
      var _ :- Consume(RightParen, closeMessage);
      CondStep(tokens, start, closing, c);
      return Ok(c);
    }

    /** `ifStatement`, entered after `if`: a condition, a statement and an optional `else` statement. */
    method IfStatement() returns (r: Result<Stmt>, ghost syn: Syntax)
      requires Valid() && 0 < current && tokens[current - 1].kind == If
      modifies this
      ensures Valid()
      ensures r.Ok? ==> syn.SynIf? && StmtAt(tokens, old(current) - 1, current, syn) && r.value == Lower(syn)
      decreases |tokens| - current, 33
    {
      var c := Condition(ExpectedIfCondition, UnclosedIfCondition);
      if c.Err? {
        r, syn := Err(c.error), SynBreak;
      } else {
        r, syn := IfBranches(c.value, old(current) - 1);
      }
    }

    /** The branches of an `if` whose condition is parsed. */
    method IfBranches(c: Expr, ghost start: nat) returns (r: Result<Stmt>, ghost syn: Syntax)
      requires Valid() && start < |tokens| && tokens[start].kind == If && CondAt(tokens, start + 1, current, c)
      modifies this
      ensures Valid()
      ensures r.Ok? ==> syn.SynIf? && StmtAt(tokens, start, current, syn) && r.value == Lower(syn)
      decreases |tokens| - current, 36
    {
      var thenStart := current;
      var t, thenSyntax := Statement();
      if t.Err? {
        r, syn := Err(t.error), SynBreak;
      } else {
        var elseStart := current;
        var isElse := Match([Else]);
        if isElse {
          r, syn := ElseBranch(c, t.value, thenSyntax, start, thenStart, elseStart);
        } else {
          IfStep(tokens, start, thenStart, current, c, thenSyntax);
          r, syn := Ok(IfStmt(c, t.value, None)), SynIf(c, thenSyntax, None);
        }
      }
    }

    /** The statement after `else`, completing an `if` whose then-branch is parsed. */
    method ElseBranch(c: Expr, thenBranch: Stmt, ghost thenSyntax: Syntax, ghost start: nat, ghost thenStart: nat, ghost elseStart: nat)
      returns (r: Result<Stmt>, ghost syn: Syntax)
      requires Valid() && elseStart + 1 == current && tokens[elseStart].kind == Else
      requires start < |tokens| && tokens[start].kind == If && CondAt(tokens, start + 1, thenStart, c)
      requires StmtAt(tokens, thenStart, elseStart, thenSyntax) && !IsDeclaration(thenSyntax)
      requires thenBranch == Lower(thenSyntax)
      modifies this
      ensures Valid()
      ensures r.Ok? ==> syn.SynIf? && StmtAt(tokens, start, current, syn) && r.value == Lower(syn)
      decreases |tokens| - current, 35
    {
      var e, elseSyntax := Statement();
      if e.Err? {
        return Err(e.error), SynBreak;
      }
      IfElseStep(tokens, start, thenStart, elseStart, current, c, thenSyntax, elseSyntax);
      return Ok(IfStmt(c, thenBranch, Some(e.value))), SynIf(c, thenSyntax, Some(elseSyntax));
    }

    /** `returnStatement`, entered after `return`: an optional value and `;`. */
    method ReturnStatement() returns (r: Result<Stmt>, ghost syn: Syntax)
      requires Valid() && 0 < current && tokens[current - 1].kind == Return
      modifies this
      ensures Valid()
      ensures r.Ok? ==> syn.SynReturn? && StmtAt(tokens, old(current) - 1, current, syn) && r.value == Lower(syn)
      ensures r.Ok? ==> (syn.value.None? <==> old(Check(Semicolon)))
      ensures r.Ok? <==> old(Check(Semicolon)) || ExprBefore(tokens, old(current), Semicolon)
    {
      syn := SynBreak;
      var value :- OptionalExpression(Semicolon, UnendedReturn);
      ReturnStep(tokens, old(current) - 1, current - 1, value);
      return Ok(ReturnStmt(value)), SynReturn(value);
    }

    /** `whileStatement`, entered after `while`: a condition and a statement. */
    method WhileStatement() returns (r: Result<Stmt>, ghost syn: Syntax)
      requires Valid() && 0 < current && tokens[current - 1].kind == While
      modifies this
      ensures Valid()
      ensures r.Ok? ==> syn.SynWhile? && StmtAt(tokens, old(current) - 1, current, syn) && r.value == Lower(syn)
      decreases |tokens| - current, 33
    {
      syn := SynBreak;
      var c :- Condition(ExpectedWhileCondition, UnclosedWhileCondition);
      var bodyStart := current;
      var body, bodySyntax := Statement();
      if body.Err? {
        return Err(body.error), syn;
      }
      WhileStep(tokens, old(current) - 1, bodyStart, current, c, bodySyntax);
      return Ok(WhileStmt(c, body.value, false)), SynWhile(c, bodySyntax);
    }

    /**
     * `blockStatement`, entered after `{`: declarations up to the closing
     * `}`. Includes are not allowed inside.
     */
    method Block() returns (r: Result<Stmt>, ghost syn: Syntax)
      requires Valid() && 0 < current && tokens[current - 1].kind == LeftCur
      modifies this
      ensures Valid()
      ensures r.Ok? ==> syn.SynBlock? && StmtAt(tokens, old(current) - 1, current, syn) && r.value == Lower(syn)
      decreases |tokens| - current, 41
    {
      var start := current;
      ghost var items: seq<Syntax> := [];
      var body: seq<Stmt> := [];
      var failed := false;
      r, syn := Ok(BlockStmt([])), SynBreak;
      NoItems(tokens, start);
      while !Check(RightCur) && !IsAtEnd()
        invariant Valid() && start <= current
        invariant ItemsAt(tokens, start, current, items) && body == LowerAll(items)
        decreases |tokens| - current
      {
        var mid := current;
        var s, decl := BlockItem();
        if s.Err? {
          r, failed := Err(s.error), true;
          break;
        }
        NextItem(tokens, start, mid, current, items, decl);
        assert (items + [decl])[..|items|] == items;
        items := items + [decl];
        body := body + [s.value];
      }
      if !failed {
        var closing := current;
        var closed := Consume(RightCur, UnclosedBlock);
        if closed.Err? {
          r := Err(closed.error);
        } else {
          BlockStep(tokens, start - 1, closing, items);
          r, syn := Ok(BlockStmt(body)), SynBlock(items);
        }
      }
    }

    /** `breakStatement`, entered after `break`. */
    method BreakStatement() returns (r: Result<Stmt>, ghost syn: Syntax)
      requires Valid() && 0 < current && tokens[current - 1].kind == Break
      modifies this
      ensures Valid()
      ensures r.Ok? ==> syn == SynBreak && StmtAt(tokens, old(current) - 1, current, syn) && r.value == Lower(syn)
      ensures r.Ok? <==> old(Check(Semicolon))
      ensures !old(Check(Semicolon)) ==> r == Err(Error(old(Peek()), UnendedBreak))
    {
      syn := SynBreak;
      var _ :- Consume(Semicolon, UnendedBreak);
      BreakStep(tokens, old(current) - 1);
      return Ok(BreakStmt), SynBreak;
    }

    /** `continueStatement`, entered after `continue`. */
    method ContinueStatement() returns (r: Result<Stmt>, ghost syn: Syntax)
      requires Valid() && 0 < current && tokens[current - 1].kind == Continue
      modifies this
      ensures Valid()
      ensures r.Ok? ==> syn == SynContinue && StmtAt(tokens, old(current) - 1, current, syn) && r.value == Lower(syn)
      ensures r.Ok? <==> old(Check(Semicolon))
      ensures !old(Check(Semicolon)) ==> r == Err(Error(old(Peek()), UnendedContinue))
    {
      syn := SynContinue;
      var _ :- Consume(Semicolon, UnendedContinue);
      ContinueStep(tokens, old(current) - 1);
      return Ok(ContinueStmt), SynContinue;
    }

    /** `expressionStatement`: an expression and `;`. */
    method ExpressionStatement() returns (r: Result<Stmt>, ghost syn: Syntax)
      requires Valid()
      modifies this
      ensures Valid()
      ensures r.Ok? ==> syn.SynExpr? && StmtAt(tokens, old(current), current, syn) && r.value == Lower(syn)
      ensures r.Ok? <==> ExprBefore(tokens, old(current), Semicolon)
      ensures r.Ok? ==> syn.expr == ParseExpression(tokens, old(current)).value
    {
      syn := SynBreak;
      var start := current;
      var e :- Expression();
      var exprEnd := current;
      var _ :- Consume(Semicolon, UnendedExpression);
      ExprStmtStep(tokens, start, exprEnd, e);
      return Ok(ExprStmt(e)), SynExpr(e);
    }
  }

  /** The path an include names: relative to the directory of the including file. */
  function IncludePath(fs: FileSystem, including: string, name: Token): string {
    fs.directoryName(including) + "/" + name.stringValue
  }

  /** The file is parsed now: a new run, or an include not used in this run yet. */
  predicate FirstVisit(full: string, parent: Option<string>, used: set<string>) {
    parent.None? || full !in used
  }

  /** The statements several includes contribute, in order. */
  function Concat(parts: seq<seq<Stmt>>): (r: seq<Stmt>)
  {
    if |parts| == 0 then [] else Concat(parts[..|parts| - 1]) + parts[|parts| - 1]
  }

  /**
   * What the include of `name` in the file `including` contributes, the
   * used files being `used` when it is met: nothing when its file was used
   * already, otherwise what parsing that file for the first time parts.
   */
  ghost predicate IncludedAs(fs: FileSystem, fp: FloatOps, including: string, name: Token, used: set<string>, yielded: seq<Stmt>) {
    var path := IncludePath(fs, including, name);
    if fs.fullPath(path) in used then yielded == []
    else exists tks: seq<Token>, its: seq<TopLevelItem>, imp: seq<seq<Stmt>> ::
      ParsedAs(fs, fp, path, Some(including), Ok(yielded), tks, its, imp)
  }

  /** The used files once the include of `name`, met with `used`, is done: its file is among them. */
  function Visited(fs: FileSystem, including: string, name: Token, used: set<string>): (r: set<string>)
    ensures used <= r && fs.fullPath(IncludePath(fs, including, name)) in r
  {
    used + {fs.fullPath(IncludePath(fs, including, name))}
  }

  /**
   * The include lines `files` of `including`, the first met with the used
   * files `before` or more, the i-th with `used[i]`, contributed `parts[i]`
   * each; each include's file is used by the time the next one is met.
   */
  ghost predicate IncludesYield(
    fs: FileSystem, fp: FloatOps, including: string, files: seq<Token>,
    before: set<string>, used: seq<set<string>>, parts: seq<seq<Stmt>>)
  {
    |used| == |files| && |parts| == |files| &&
    (forall i :: 0 <= i < |files| ==> IncludedAs(fs, fp, including, files[i], used[i], parts[i])) &&
    (|files| > 0 ==> before <= used[0]) &&
    (forall i :: 0 < i < |files| ==> Visited(fs, including, files[i - 1], used[i - 1]) <= used[i])
  }

  /** Once an include line is done, its file stays used at every later include line of the same file. */
  lemma {:induction false} IncludedStaysUsed(
    fs: FileSystem, fp: FloatOps, including: string, files: seq<Token>, before: set<string>,
    used: seq<set<string>>, parts: seq<seq<Stmt>>, i: nat, j: nat)
    requires IncludesYield(fs, fp, including, files, before, used, parts) && i < j < |files|
    ensures Visited(fs, including, files[i], used[i]) <= used[j]
    decreases j - i
  {
    if i + 1 < j {
      IncludedStaysUsed(fs, fp, including, files, before, used, parts, i, j - 1);
      assert used[j - 1] <= Visited(fs, including, files[j - 1], used[j - 1]) <= used[j];
    }
  }

  /**
   * Including the same file twice in a run parses it once: a later include
   * line whose path resolves to the same full path contributes nothing.
   */
  lemma RepeatedIncludeYieldsNothing(
    fs: FileSystem, fp: FloatOps, including: string, files: seq<Token>, before: set<string>,
    used: seq<set<string>>, parts: seq<seq<Stmt>>, i: nat, j: nat)
    requires IncludesYield(fs, fp, including, files, before, used, parts) && i < j < |files|
    requires fs.fullPath(IncludePath(fs, including, files[i])) == fs.fullPath(IncludePath(fs, including, files[j]))
    ensures parts[j] == []
  {
    IncludedStaysUsed(fs, fp, including, files, before, used, parts, i, j);
  }

  /** A file already used when a run reaches an include line of it is not parsed again. */
  lemma UsedIncludeYieldsNothing(
    fs: FileSystem, fp: FloatOps, including: string, files: seq<Token>, before: set<string>,
    used: seq<set<string>>, parts: seq<seq<Stmt>>, j: nat)
    requires IncludesYield(fs, fp, including, files, before, used, parts) && j < |files|
    requires fs.fullPath(IncludePath(fs, including, files[j])) in before
    ensures parts[j] == []
  {
    if 0 < j {
      IncludedStaysUsed(fs, fp, including, files, before, used, parts, 0, j);
    }
  }

  /**
   * The include lines `files` met so far, starting from the used files
   * `before`, contributed `parts`, which concatenate to `imported`; by
   * `now` every one of their files is used.
   */
  ghost predicate IncludeTrail(
    fs: FileSystem, fp: FloatOps, including: string, files: seq<Token>, before: set<string>,
    used: seq<set<string>>, parts: seq<seq<Stmt>>, imported: seq<Stmt>, now: set<string>)
  {
    before <= now && imported == Concat(parts) &&
    IncludesYield(fs, fp, including, files, before, used, parts) && UsedSince(fs, including, files, used, now)
  }

  /** One more include line keeps the record of what a file's include lines contributed. */
  lemma IncludesStep(
    fs: FileSystem, fp: FloatOps, including: string, files: seq<Token>, before: set<string>,
    used: seq<set<string>>, parts: seq<seq<Stmt>>, imported: seq<Stmt>, name: Token, at: set<string>, more: seq<Stmt>, now: set<string>)
    requires IncludeTrail(fs, fp, including, files, before, used, parts, imported, at)
    requires IncludedAs(fs, fp, including, name, at, more)
    requires at + {fs.fullPath(IncludePath(fs, including, name))} <= now
    ensures IncludeTrail(fs, fp, including, files + [name], before, used + [at], parts + [more], imported + more, now)
  {
    assert (parts + [more])[..|parts|] == parts;
  }

  /** The include lines `files` of `including`, met with `used`, have all had their files used by `now`. */
  ghost predicate UsedSince(fs: FileSystem, including: string, files: seq<Token>, used: seq<set<string>>, now: set<string>) {
    |used| == |files| &&
    (|files| > 0 ==> Visited(fs, including, files[|files| - 1], used[|files| - 1]) <= now)
  }

  /**
   * For one top-level item of a file: the used files when its include
   * lines began, the used files at each of them, and what each contributed.
   */
  datatype IncludeRecord = IncludeRecord(entry: set<string>, used: seq<set<string>>, parts: seq<seq<Stmt>>)

  /**
   * What the include lines in front of `item` contributed, as `rec`
   * records it, with at least the used files `before` when they began;
   * `imported` is their concatenation.
   */
  ghost predicate ItemIncludes(
    fs: FileSystem, fp: FloatOps, including: string, item: TopLevelItem, imported: seq<Stmt>, rec: IncludeRecord, before: set<string>)
  {
    before <= rec.entry && imported == Concat(rec.parts) &&
    IncludesYield(fs, fp, including, item.includes, rec.entry, rec.used, rec.parts)
  }

  /** `imported[i]` and `recs[i]` are what the include lines in front of item i brought in. */
  ghost predicate ItemsInclude(
    fs: FileSystem, fp: FloatOps, including: string, items: seq<TopLevelItem>, imported: seq<seq<Stmt>>,
    recs: seq<IncludeRecord>, before: set<string>)
  {
    |imported| == |items| && |recs| == |items| &&
    forall i :: 0 <= i < |items| ==> ItemIncludes(fs, fp, including, items[i], imported[i], recs[i], before)
  }

  /** One more top-level item, whose includes began with the used files at least `before`, keeps the record. */
  lemma ItemsIncludeStep(
    fs: FileSystem, fp: FloatOps, including: string, items: seq<TopLevelItem>, imported: seq<seq<Stmt>>,
    recs: seq<IncludeRecord>, before: set<string>, item: TopLevelItem, more: seq<Stmt>, rec: IncludeRecord, now: set<string>)
    requires ItemsInclude(fs, fp, including, items, imported, recs, before) && before <= rec.entry
    requires IncludeTrail(fs, fp, including, item.includes, rec.entry, rec.used, rec.parts, more, now)
    ensures ItemsInclude(fs, fp, including, items + [item], imported + [more], recs + [rec], before)
  {
    var items', imported', recs' := items + [item], imported + [more], recs + [rec];
    forall i | 0 <= i < |items'|
      ensures ItemIncludes(fs, fp, including, items'[i], imported'[i], recs'[i], before)
    {
      if i < |items| {
        assert items'[i] == items[i] && imported'[i] == imported[i] && recs'[i] == recs[i];
      }
    }
  }

  /** The check for a self-include: the including file (or the root) has the same full path. */
  predicate IsSelfInclude(fs: FileSystem, filepath: string, parent: Option<string>) {
    fs.fullPath(if parent.Some? then parent.value else "/") == fs.fullPath(filepath)
  }

  /**
   * `ParseFile`: parses a file and, through its includes, every file it
   * reaches. A call without a parent starts a new run and forgets the files
   * used before. An included file already used in this run contributes
   * nothing; a self-include is reported as a warning first. The file is
   * marked as used before it is read, so a missing file is marked too.
   */
  method ParseFile(session: ParseSession, filepath: string, parent: Option<string>)
    returns (r: Result<seq<Stmt>>, ghost tokens: seq<Token>, ghost items: seq<TopLevelItem>, ghost imported: seq<seq<Stmt>>)
    modifies session
    ensures old(session.warnings) <= session.warnings
    ensures parent.Some? ==> SessionGrows(session)
    ensures session.fs.fullPath(filepath) in session.usedFiles
    ensures parent.Some? && session.fs.fullPath(filepath) in old(session.usedFiles) ==>
      r == Ok([]) && session.usedFiles == old(session.usedFiles)
    ensures FirstVisit(session.fs.fullPath(filepath), parent, old(session.usedFiles)) ==>
      ParsedAs(session.fs, session.fp, filepath, parent, r, tokens, items, imported)
    ensures IsSelfInclude(session.fs, filepath, parent) ==>
      |old(session.warnings)| < |session.warnings| && session.warnings[|old(session.warnings)|] == SelfInclude(filepath)
    decreases if parent.None? then |session.fs.files.Keys| + 1 else session.Pending(), 0, 2
  {
    var full := BeginFile(session, filepath, parent);
    if parent.None? {
      assert session.fs.files.Keys - session.usedFiles == session.fs.files.Keys;
    }
    r, tokens, items, imported := VisitFile(session, filepath, parent);
  }

  /** After `BeginFile`: nothing for an include already used in this run, otherwise the file's first parse. */
  method VisitFile(session: ParseSession, filepath: string, parent: Option<string>)
    returns (r: Result<seq<Stmt>>, ghost tokens: seq<Token>, ghost items: seq<TopLevelItem>, ghost imported: seq<seq<Stmt>>)
    requires parent.None? ==> session.usedFiles == {}
    modifies session
    ensures SessionGrows(session)
    ensures session.fs.fullPath(filepath) in session.usedFiles
    ensures parent.Some? && session.fs.fullPath(filepath) in old(session.usedFiles) ==>
      r == Ok([]) && session.usedFiles == old(session.usedFiles) && session.warnings == old(session.warnings)
    ensures FirstVisit(session.fs.fullPath(filepath), parent, old(session.usedFiles)) ==>
      ParsedAs(session.fs, session.fp, filepath, parent, r, tokens, items, imported)
    decreases session.Pending(), 0, 1
  {
    if session.fs.fullPath(filepath) in session.usedFiles && parent.Some? {
      r, tokens, items, imported := Ok([]), [], [], [];
    } else {
      r, tokens, items, imported := OpenFile(session, filepath, parent);
    }
  }

  /** A file met for the first time in this run: marked as used, then read, scanned and parsed. */
  method OpenFile(session: ParseSession, filepath: string, parent: Option<string>)
    returns (r: Result<seq<Stmt>>, ghost tokens: seq<Token>, ghost items: seq<TopLevelItem>, ghost imported: seq<seq<Stmt>>)
    requires session.fs.fullPath(filepath) !in session.usedFiles
    modifies session
    ensures SessionGrows(session)
    ensures session.fs.fullPath(filepath) in session.usedFiles
    ensures ParsedAs(session.fs, session.fp, filepath, parent, r, tokens, items, imported)
    decreases session.Pending(), 0, 0
  {
    var full := session.fs.fullPath(filepath);
    tokens, items, imported := [], [], [];
    if full in session.fs.files {
      PendingDrops(session.fs.files.Keys, session.usedFiles, full);
    } else {
      assert session.fs.files.Keys - (session.usedFiles + {full}) == session.fs.files.Keys - session.usedFiles;
    }
    session.usedFiles := session.usedFiles + {full};
    if full !in session.fs.files {
      r := Err(FileNotFound(filepath, parent));
    } else {
      var scanned := ScanFile(session.fp, session.fs.files[full]);
      r, tokens, items, imported := ParseScanned(session, filepath, scanned);
    }
  }

  /**
   * What a file read for the first time parts: `FileNotFound` when it
   * does not exist, otherwise what its contents scan and parse to.
   */
  ghost predicate ParsedAs(
    fs: FileSystem, fp: FloatOps, filepath: string, parent: Option<string>,
    r: Result<seq<Stmt>>, tokens: seq<Token>, items: seq<TopLevelItem>, imported: seq<seq<Stmt>>)
  {
    var full := fs.fullPath(filepath);
    if full !in fs.files then
      r == Err(FileNotFound(filepath, parent))
    else
      ScannedAs(Scanning.Tokenize(fp, fs.files[full]), r, tokens, items, imported)
  }

  /**
   * What a scanned file parts: the scanner's error, or the program its
   * tokens spell (each item after what its includes imported).
   */
  ghost predicate ScannedAs(
    scanned: Result<seq<Token>>, r: Result<seq<Stmt>>, tokens: seq<Token>, items: seq<TopLevelItem>, imported: seq<seq<Stmt>>)
  {
    (scanned.Err? ==> r == Err(scanned.error)) &&
    (r.Ok? ==>
      scanned == Ok(tokens) && |tokens| > 0 && |imported| == |items| &&
      FileAt(tokens, 0, |tokens| - 1, items) && r.value == Weave(imported, items))
  }

  /** The scanner's error, or the parse of the tokens it produced. */
  method ParseScanned(session: ParseSession, filepath: string, scanned: Result<seq<Token>>)
    returns (r: Result<seq<Stmt>>, ghost tokens: seq<Token>, ghost items: seq<TopLevelItem>, ghost imported: seq<seq<Stmt>>)
    requires scanned.Ok? ==>
      |scanned.value| > 0 && scanned.value[|scanned.value| - 1].kind == Eof &&
      forall i :: 0 <= i < |scanned.value| - 1 ==> scanned.value[i].kind != Eof
    modifies session
    ensures SessionGrows(session)
    ensures ScannedAs(scanned, r, tokens, items, imported)
    decreases session.Pending(), if scanned.Ok? then |scanned.value| + 2 else 0, 0
  {
    tokens, items, imported := [], [], [];
    if scanned.Err? {
      r := Err(scanned.error);
    } else {
      tokens := scanned.value;
      r, items, imported := ParseTokens(session, filepath, scanned.value);
    }
  }

  /** The start of `ParseFile`: a new run forgets the used files; a self-include is reported. */
  method BeginFile(session: ParseSession, filepath: string, parent: Option<string>) returns (full: string)
    modifies session
    ensures full == session.fs.fullPath(filepath)
    ensures session.usedFiles == if parent.None? then {} else old(session.usedFiles)
    ensures session.warnings ==
      old(session.warnings) + if IsSelfInclude(session.fs, filepath, parent) then [SelfInclude(filepath)] else []
  {
    if parent.None? {
      session.usedFiles := {};
    }
    full := session.fs.fullPath(filepath);
    if IsSelfInclude(session.fs, filepath, parent) {
      session.warnings := session.warnings + [SelfInclude(filepath)];
    }
  }

  /** Parses the tokens of a file that was just read. */
  method ParseTokens(session: ParseSession, filepath: string, tokens: seq<Token>)
    returns (r: Result<seq<Stmt>>, ghost items: seq<TopLevelItem>, ghost imported: seq<seq<Stmt>>)
    requires |tokens| > 0 && tokens[|tokens| - 1].kind == Eof
    requires forall i :: 0 <= i < |tokens| - 1 ==> tokens[i].kind != Eof
    modifies session
    ensures SessionGrows(session)
    ensures r.Ok? ==> |imported| == |items| && FileAt(tokens, 0, |tokens| - 1, items) && r.value == Weave(imported, items)
    decreases session.Pending(), |tokens| + 1, 0
  {
    var parser := new Parser(tokens, filepath, session);
    ghost var record;
    r, items, imported, record := parser.Parse();
    if r.Ok? {
      assert parser.current == |tokens| - 1;
    }
  }

  /** Scans a file's text with the imperative scanner. */
  method ScanFile(fp: FloatOps, src: string) returns (r: Result<seq<Token>>)
    ensures r == Scanning.Tokenize(fp, src)
    ensures r.Ok? ==>
      |r.value| > 0 && r.value[|r.value| - 1].kind == Eof &&
      forall i :: 0 <= i < |r.value| - 1 ==> r.value[i].kind != Eof
  {
    var scanner := new Scanning.Scanner(fp, src);
    r := scanner.Tokenize();
    ghost var lexed := Scanning.Tokenize(fp, src);
    if lexed.Ok? {
      assert [] + lexed.value == lexed.value;
    }
    Scanning.TokenizeShape(fp, src);
  }
}
