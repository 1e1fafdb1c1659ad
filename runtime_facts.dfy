/**
 * What the reference semantics of the tree-walking interpreter promises
 * about whole programs: loading, the nodes that blocks and calls leave
 * behind, the handling of loop signals, truthiness in conditions, the
 * evaluation order of operands and arguments, and `print`.
 */
module RuntimeFacts {
  import opened Numerics
  import opened Diagnostics
  import opened Tokens
  import opened Ast
  import opened Values
  import opened Environment
  import opened Semantics

  // ---------------------------------------------------------------------
  // load

  /** Every statement declares a function whose name is new to `g` and to the statements before it. */
  predicate Loadable(ss: seq<Stmt>, g: Frame)
  {
    (forall i :: 0 <= i < |ss| ==> ss[i].FuncDeclarationStmt? && ss[i].name.identifierName !in g.functions) &&
    (forall i, j :: 0 <= i < j < |ss| && ss[i].FuncDeclarationStmt? && ss[j].FuncDeclarationStmt? ==>
      ss[i].name.identifierName != ss[j].name.identifierName)
  }

  /** The record `load` stores for a function declaration. */
  function DeclOf(s: Stmt): FuncDecl
    requires s.FuncDeclarationStmt?
  {
    FuncDecl(s.rtype, s.name, s.parameters, s.body)
  }

  /**
   * `load` succeeds exactly when every top-level statement is a function
   * declaration with a name not yet taken; the global node then holds each
   * of them under its name, keeps what it had, gains nothing else, and its
   * variables are untouched.
   */
  lemma {:induction false} LoadBindsEveryFunction(ss: seq<Stmt>, g: Frame)
    ensures Load(ss, g).Ok? <==> Loadable(ss, g)
    ensures Load(ss, g).Err? ==> Load(ss, g).error == NonFunctionAtTopLevel || Load(ss, g).error.DuplicateFunction?
    ensures Load(ss, g).Ok? ==> Load(ss, g).value.vars == g.vars
    ensures Load(ss, g).Ok? ==> forall n :: n in g.functions ==>
      n in Load(ss, g).value.functions && Load(ss, g).value.functions[n] == g.functions[n]
    ensures Load(ss, g).Ok? ==> forall i :: 0 <= i < |ss| ==>
      ss[i].name.identifierName in Load(ss, g).value.functions &&
      Load(ss, g).value.functions[ss[i].name.identifierName] == DeclOf(ss[i])
    ensures Load(ss, g).Ok? ==> forall n :: n in Load(ss, g).value.functions ==>
      n in g.functions || exists i :: 0 <= i < |ss| && ss[i].name.identifierName == n
    decreases |ss|
  {
    if |ss| > 0 && ss[0].FuncDeclarationStmt? {
      var s := ss[0];
      var name := s.name.identifierName;
      if name !in g.functions {
        var g' := g.(functions := g.functions[name := DeclOf(s)]);
        LoadBindsEveryFunction(ss[1..], g');
        LoadableStep(ss, g, g');
        var r := Load(ss, g);
        assert r == Load(ss[1..], g');
        if r.Ok? {
          forall i | 0 <= i < |ss|
            ensures ss[i].name.identifierName in r.value.functions
            ensures r.value.functions[ss[i].name.identifierName] == DeclOf(ss[i])
          {
            if i > 0 {
              assert ss[i] == ss[1..][i - 1];
            }
          }
          forall n | n in r.value.functions
            ensures n in g.functions || exists i :: 0 <= i < |ss| && ss[i].name.identifierName == n
          {
            if n !in g'.functions {
              var k :| 0 <= k < |ss[1..]| && ss[1..][k].name.identifierName == n;
              assert ss[k + 1] == ss[1..][k];
            } else if n == name {
              assert ss[0].name.identifierName == n;
            }
          }
        }
      } else {
        assert !Loadable(ss, g) by {
          assert ss[0].name.identifierName in g.functions;
        }
      }
    } else if |ss| > 0 {
      assert !ss[0].FuncDeclarationStmt?;
    }
  }

  /** Loading the first declaration leaves the rest to load into the grown node. */
  lemma LoadableStep(ss: seq<Stmt>, g: Frame, g': Frame)
    requires |ss| > 0 && ss[0].FuncDeclarationStmt? && ss[0].name.identifierName !in g.functions
    requires g' == g.(functions := g.functions[ss[0].name.identifierName := DeclOf(ss[0])])
    ensures Loadable(ss, g) <==> Loadable(ss[1..], g')
  {
    var rest := ss[1..];
    if Loadable(ss, g) {
      forall i | 0 <= i < |rest|
        ensures rest[i].FuncDeclarationStmt? && rest[i].name.identifierName !in g'.functions
      {
        assert rest[i] == ss[i + 1];
      }
      forall i, j | 0 <= i < j < |rest| && rest[i].FuncDeclarationStmt? && rest[j].FuncDeclarationStmt?
        ensures rest[i].name.identifierName != rest[j].name.identifierName
      {
        assert rest[i] == ss[i + 1] && rest[j] == ss[j + 1];
      }
    }
    if Loadable(rest, g') {
      forall i | 0 <= i < |ss|
        ensures ss[i].FuncDeclarationStmt? && ss[i].name.identifierName !in g.functions
      {
        if i > 0 {
          assert ss[i] == rest[i - 1];
        }
      }
      forall i, j | 0 <= i < j < |ss| && ss[i].FuncDeclarationStmt? && ss[j].FuncDeclarationStmt?
        ensures ss[i].name.identifierName != ss[j].name.identifierName
      {
        assert ss[j] == rest[j - 1];
        if i > 0 {
          assert ss[i] == rest[i - 1];
        }
      }
    }
  }

  // ---------------------------------------------------------------------
  // Blocks and calls leave nodes behind

  /** The signal a `break`, `continue` or value-less `return` raises. */
  function SignalOf(s: Stmt): Signal
    requires s.BreakStmt? || s.ContinueStmt? || s.ReturnStmt?
  {
    if s.BreakStmt? then LoopSignal(false)
    else if s.ContinueStmt? then LoopSignal(true)
    else ReturnSignal(None)
  }

  /**
   * A block whose members end with a signal (`break`, `continue`, `return`
   * or an error) passes the signal on without its pop: the block's own
   * node stays on the chain, above the nodes the block started with.
   */
  lemma SignalLeavesBlockNode(fp: FloatOps, fuel: nat, ss: seq<Stmt>, st: State)
    requires |st.stack| > 0
    requires ExecSeq(fp, fuel, ss, Push(st)).completion.Abrupt?
    ensures ExecBlock(fp, fuel, ss, st) == ExecSeq(fp, fuel, ss, Push(st))
    ensures |ExecBlock(fp, fuel, ss, st).state.stack| > |st.stack|
  {
  }

  /** A block whose first member is `break`, `continue` or a value-less `return` raises its signal at once. */
  lemma SignalFirstRunsNothingElse(fp: FloatOps, fuel: nat, s: Stmt, rest: seq<Stmt>, st: State)
    requires |st.stack| > 0 && fuel > 0
    requires s.BreakStmt? || s.ContinueStmt? || s == ReturnStmt(None)
    ensures ExecBlock(fp, fuel, [s] + rest, st) == Executed(Abrupt(SignalOf(s)), Push(st))
  {
    var ss := [s] + rest;
    assert ss[0] == s;
    assert Exec(fp, fuel, s, Push(st)) == Executed(Abrupt(SignalOf(s)), Push(st));
  }

  /**
   * A call whose body raises a return signal yields the signal's value
   * (null for a bare `return`) and pops exactly one node. When the
   * arguments were bound and the body is a block, the block's node is what
   * that pop removes: the node the parameters were bound in stays on the
   * caller's chain.
   */
  lemma ReturningCallLeavesParameterNode(fp: FloatOps, fuel: nat, f: FuncDecl, args: seq<Expr>, st: State, v: Value)
    requires |st.stack| > 0 && |args| == |f.parameters|
    requires CallBody(fp, fuel, f, args, Push(st)).completion == Abrupt(ReturnSignal(v))
    ensures Invocation(fp, fuel, f, args, st) == Evaluated(Yield(v), Pop(CallBody(fp, fuel, f, args, Push(st)).state))
    ensures BindArgs(fp, fuel, f.parameters, args, Push(st)).completion.Normal? && f.body.BlockStmt? ==>
      |Invocation(fp, fuel, f, args, st).state.stack| > |st.stack|
  {
    var bound := BindArgs(fp, fuel, f.parameters, args, Push(st));
    if bound.completion.Normal? && f.body.BlockStmt? {
      assert fuel > 0;
      var inner := ExecSeq(fp, fuel - 1, f.body.statements, Push(bound.state));
      assert Exec(fp, fuel, f.body, bound.state) == inner;
    }
  }

  /**
   * A call whose body completes normally, without a `return`, yields null
   * and pops one node from the state the body left.
   */
  lemma FallingOffTheEndYieldsNull(fp: FloatOps, fuel: nat, f: FuncDecl, args: seq<Expr>, st: State)
    requires |st.stack| > 0 && |args| == |f.parameters|
    requires CallBody(fp, fuel, f, args, Push(st)).completion.Normal?
    ensures Invocation(fp, fuel, f, args, st) == Evaluated(Yield(None), Pop(CallBody(fp, fuel, f, args, Push(st)).state))
  {
  }

  /**
   * A `break` or `continue` that leaves a called function's body is not
   * stopped by the call: the call raises it with the state the body left,
   * nothing popped. When the arguments were bound and the body is a
   * block, both the parameter node and the body's node are still on the
   * chain.
   */
  lemma LoopSignalEscapesCall(fp: FloatOps, fuel: nat, f: FuncDecl, args: seq<Expr>, st: State, again: bool)
    requires |st.stack| > 0 && |args| == |f.parameters|
    requires CallBody(fp, fuel, f, args, Push(st)).completion == Abrupt(LoopSignal(again))
    ensures Invocation(fp, fuel, f, args, st) == Evaluated(Raise(LoopSignal(again)), CallBody(fp, fuel, f, args, Push(st)).state)
    ensures BindArgs(fp, fuel, f.parameters, args, Push(st)).completion.Normal? && f.body.BlockStmt? ==>
      |Invocation(fp, fuel, f, args, st).state.stack| >= |st.stack| + 2
  {
    var bound := BindArgs(fp, fuel, f.parameters, args, Push(st));
    if bound.completion.Normal? && f.body.BlockStmt? {
      assert fuel > 0;
      var inner := ExecSeq(fp, fuel - 1, f.body.statements, Push(bound.state));
      assert Exec(fp, fuel, f.body, bound.state) == inner;
    }
  }

  /** A function without parameters whose body block opens with a `break` or `continue` raises it with both nodes left. */
  lemma LoopSignalFirstEscapesCall(fp: FloatOps, fuel: nat, f: FuncDecl, rest: seq<Stmt>, st: State, s: Stmt)
    requires |st.stack| > 0 && fuel > 1
    requires s.BreakStmt? || s.ContinueStmt?
    requires f.parameters == [] && f.body == BlockStmt([s] + rest)
    ensures Invocation(fp, fuel, f, [], st) == Evaluated(Raise(SignalOf(s)), Push(Push(st)))
  {
    var p := Push(st);
    assert BindArgs(fp, fuel, [], [], p) == Executed(Normal, p);
    SignalFirstRunsNothingElse(fp, fuel - 1, s, rest, p);
    assert Exec(fp, fuel, f.body, p) == Executed(Abrupt(SignalOf(s)), Push(p));
  }

  // ---------------------------------------------------------------------
  // Loops

  /** A `break` out of the body ends the loop normally, in the state the body left. */
  lemma BreakEndsLoop(fp: FloatOps, fuel: nat, c: Expr, body: Stmt, isFor: bool, st: State)
    requires |st.stack| > 0 && fuel > 0
    requires IsTrueOf(fp, fuel, c, st).result == Holds(true)
    requires Exec(fp, fuel, body, IsTrueOf(fp, fuel, c, st).state).completion == Abrupt(LoopSignal(false))
    ensures ExecWhile(fp, fuel, c, body, isFor, st) ==
      Executed(Normal, Exec(fp, fuel, body, IsTrueOf(fp, fuel, c, st).state).state)
  {
    var test := IsTrueOf(fp, fuel, c, st);
    var run := Exec(fp, fuel, body, test.state);
    assert AfterBody(fp, fuel, body, isFor, run) == Exit(Executed(Normal, run.state));
    assert Iteration(fp, fuel, c, body, isFor, st) == Exit(Executed(Normal, run.state));
  }

  /** A `continue` in a plain `while` goes straight back to the condition. */
  lemma ContinueRetestsCondition(fp: FloatOps, fuel: nat, c: Expr, body: Stmt, st: State)
    requires |st.stack| > 0 && fuel > 0
    requires IsTrueOf(fp, fuel, c, st).result == Holds(true)
    requires Exec(fp, fuel, body, IsTrueOf(fp, fuel, c, st).state).completion == Abrupt(LoopSignal(true))
    ensures ExecWhile(fp, fuel, c, body, false, st) ==
      ExecWhile(fp, fuel - 1, c, body, false, Exec(fp, fuel, body, IsTrueOf(fp, fuel, c, st).state).state)
  {
    var test := IsTrueOf(fp, fuel, c, st);
    var run := Exec(fp, fuel, body, test.state);
    assert AfterBody(fp, fuel, body, false, run) == Again(run.state);
    assert Iteration(fp, fuel, c, body, false, st) == Again(run.state);
  }

  /**
   * A `continue` in a loop built from `for` runs the last member of the body
   * block (the increment) before the condition is evaluated again; a signal
   * of that member ends the loop.
   */
  lemma ContinueRunsIncrement(fp: FloatOps, fuel: nat, c: Expr, ss: seq<Stmt>, st: State)
    requires |st.stack| > 0 && fuel > 0 && |ss| > 0
    requires IsTrueOf(fp, fuel, c, st).result == Holds(true)
    requires Exec(fp, fuel, BlockStmt(ss), IsTrueOf(fp, fuel, c, st).state).completion == Abrupt(LoopSignal(true))
    ensures
      var after := Exec(fp, fuel, BlockStmt(ss), IsTrueOf(fp, fuel, c, st).state).state;
      var inc := Exec(fp, fuel, ss[|ss| - 1], after);
      ExecWhile(fp, fuel, c, BlockStmt(ss), true, st) ==
        if inc.completion.Normal? then ExecWhile(fp, fuel - 1, c, BlockStmt(ss), true, inc.state) else inc
  {
    var test := IsTrueOf(fp, fuel, c, st);
    var run := Exec(fp, fuel, BlockStmt(ss), test.state);
    var inc := Exec(fp, fuel, ss[|ss| - 1], run.state);
    var step := if inc.completion.Normal? then Again(inc.state) else Exit(inc);
    assert AfterBody(fp, fuel, BlockStmt(ss), true, run) == step;
    assert Iteration(fp, fuel, c, BlockStmt(ss), true, st) == step;
  }

  // ---------------------------------------------------------------------
  // Conditions

  /**
   * An `if` whose condition yields a value runs `ifBody` exactly when the
   * value is a true BOOL; any other value, a number or a string included,
   * counts as false without an error: the `else` branch runs, or nothing
   * when there is none.
   */
  lemma IfFollowsTruth(fp: FloatOps, fuel: nat, c: Expr, t: Stmt, e: Option<Stmt>, st: State)
    requires |st.stack| > 0
    requires Eval(fp, fuel, c, st).result.Yield? && Eval(fp, fuel, c, st).result.value.Some?
    ensures
      var v := Eval(fp, fuel, c, st);
      var p := v.result.value.value;
      ExecIf(fp, fuel, c, t, e, st) ==
        if p.atype == BoolType && p.boolValue then Exec(fp, fuel, t, v.state)
        else if e.Some? then Exec(fp, fuel, e.value, v.state)
        else Executed(Normal, v.state)
  {
    var v := Eval(fp, fuel, c, st);
    assert IsTrueOf(fp, fuel, c, st) == Tested(Holds(IsTrue(v.result.value.value)), v.state);
  }

  /** An `if` whose condition is null fails with a dereference error and runs neither branch. */
  lemma NullConditionFails(fp: FloatOps, fuel: nat, c: Expr, t: Stmt, e: Option<Stmt>, st: State)
    requires |st.stack| > 0
    requires Eval(fp, fuel, c, st).result == Yield(None)
    ensures ExecIf(fp, fuel, c, t, e, st) == Semantics.Fail(NullReference, Eval(fp, fuel, c, st).state)
  {
    var v := Eval(fp, fuel, c, st);
    assert IsTrueOf(fp, fuel, c, st) == Tested(Interrupt(ErrorSignal(NullReference)), v.state);
  }

  /** A declaration without an initializer evaluates a null expression: the invalid-expression error. */
  lemma DeclarationWithoutInitializerFails(fp: FloatOps, fuel: nat, t: Type, name: Token, st: State)
    requires |st.stack| > 0 && fuel > 0
    ensures Exec(fp, fuel, VarDeclarationStmt(t, name, None), st) == Semantics.Fail(InvalidExpression, st)
  {
  }

  // ---------------------------------------------------------------------
  // Expressions

  /**
   * An assignment yields the value of its right-hand side when some node
   * defines the name, and the name then reads as that value; otherwise it
   * is the unbound-assignment error. Nothing is written.
   */
  lemma AssignYieldsStoredValue(fp: FloatOps, fuel: nat, name: string, value: Expr, st: State)
    requires |st.stack| > 0
    requires Eval(fp, fuel, value, st).result.Yield?
    ensures
      var v := Eval(fp, fuel, value, st);
      var r := EvalAssign(fp, fuel, name, value, st);
      (r.result.Yield? <==> Defining(v.state.stack, name) < |v.state.stack|) &&
      (r.result.Yield? ==>
        r.result.value == v.result.value && LookupVar(r.state.stack, name) == Ok(v.result.value)) &&
      (r.result.Raise? ==> r.result.signal == ErrorSignal(UnboundAssignment(name))) &&
      r.state.output == v.state.output
  {
    var v := Eval(fp, fuel, value, st);
    AssignAlongChain(v.state.stack, name, v.result.value);
    if AssignChain(v.state.stack, name, v.result.value).Ok? {
      AssignThenLookup(v.state.stack, name, v.result.value, name);
    }
  }

  /**
   * Both operands of a binary operator are evaluated, left first: whenever
   * the left one yields, the right one runs in the state it left.
   */
  lemma BothOperandsEvaluated(fp: FloatOps, fuel: nat, l: Expr, r: Expr, kind: TokenType, st: State)
    requires |st.stack| > 0
    requires Eval(fp, fuel, l, st).result.Yield?
    ensures
      var left := Eval(fp, fuel, l, st);
      var right := Eval(fp, fuel, r, left.state);
      EvalBinary(fp, fuel, l, r, kind, st).state == right.state &&
      (right.result.Raise? ==> EvalBinary(fp, fuel, l, r, kind, st).result == right.result)
  {
  }

  /**
   * No short-circuit: `false and r` still evaluates `r`, so a failing `r`
   * makes the whole expression fail instead of yielding false; likewise
   * for `true or r`.
   */
  lemma NoShortCircuit(fp: FloatOps, fuel: nat, l: Expr, r: Expr, st: State)
    requires |st.stack| > 0
    requires Eval(fp, fuel, l, st).result.Yield?
    requires Eval(fp, fuel, r, Eval(fp, fuel, l, st).state).result.Raise?
    ensures EvalBinary(fp, fuel, l, r, And, st).result.Raise?
    ensures EvalBinary(fp, fuel, l, r, Or, st).result.Raise?
    ensures EvalBinary(fp, fuel, l, r, And, st).result == Eval(fp, fuel, r, Eval(fp, fuel, l, st).state).result
  {
  }

  /** With both operands BOOL, `and` and `or` are the boolean operations on their values. */
  lemma LogicalOperatorsOnBools(fp: FloatOps, a: bool, b: bool)
    ensures BinaryOperator(fp, And, Some(BoolVar(a)), Some(BoolVar(b))) == Ok(Some(BoolVar(a && b)))
    ensures BinaryOperator(fp, Or, Some(BoolVar(a)), Some(BoolVar(b))) == Ok(Some(BoolVar(a || b)))
  {
    LogicalTable(AndOp, BoolVar(a), BoolVar(b));
    LogicalTable(OrOp, BoolVar(a), BoolVar(b));
  }

  // ---------------------------------------------------------------------
  // Calls and print

  /**
   * The checks of a call before its push: only an identifier can be
   * called, `print` is taken before any lookup (a user function of that
   * name is never run), an unknown name is an error, and the argument
   * count must equal the parameter count.
   */
  lemma CallChecks(fp: FloatOps, fuel: nat, callee: Expr, args: seq<Expr>, st: State)
    requires |st.stack| > 0 && fuel > 0
    ensures !callee.IdentifierExpr? ==> Eval(fp, fuel, CallExpr(callee, args), st) == FailEval(InvalidCallee, st)
    ensures callee.IdentifierExpr? && callee.ident.identifierName == "print" ==>
      Eval(fp, fuel, CallExpr(callee, args), st) == Print(fp, fuel - 1, args, st)
    ensures callee.IdentifierExpr? && callee.ident.identifierName != "print" ==>
      var found := LookupFunc(st.stack, callee.ident.identifierName);
      (found.Err? ==> Eval(fp, fuel, CallExpr(callee, args), st) == FailEval(found.error, st)) &&
      (found.Ok? && |args| != |found.value.parameters| ==>
        Eval(fp, fuel, CallExpr(callee, args), st) == FailEval(WrongArgumentCount, st))
  {
  }

  /** `print(a)` writes the rendering of `a`'s value after whatever evaluating `a` wrote, and yields null. */
  lemma PrintWritesRendering(fp: FloatOps, fuel: nat, a: Expr, st: State)
    requires |st.stack| > 0
    requires Eval(fp, fuel, a, st).result.Yield?
    ensures
      var v := Eval(fp, fuel, a, st);
      Print(fp, fuel, [a], st) ==
        Evaluated(Yield(None), v.state.(output := v.state.output + Render(fp, v.result.value)))
  {
    assert [a][1..] == [];
  }

  /**
   * `print` handles its arguments one after another: printing `a + b` is
   * printing `a` and then, unless that raised, printing `b` from the state
   * it left.
   */
  lemma {:induction false} PrintInOrder(fp: FloatOps, fuel: nat, a: seq<Expr>, b: seq<Expr>, st: State)
    requires |st.stack| > 0
    ensures Print(fp, fuel, a + b, st) ==
      var first := Print(fp, fuel, a, st);
      if first.result.Raise? then first else Print(fp, fuel, b, first.state)
    decreases |a|
  {
    if |a| == 0 {
      assert a + b == b;
    } else {
      assert (a + b)[0] == a[0] && (a + b)[1..] == a[1..] + b;
      var v := Eval(fp, fuel, a[0], st);
      if v.result.Yield? {
        PrintInOrder(fp, fuel, a[1..], b, v.state.(output := v.state.output + Render(fp, v.result.value)));
      }
    }
  }

  /** The arguments `lits[0], lits[1], …` written as literal expressions. */
  function LiteralArgs(lits: seq<Token>): (r: seq<Expr>)
    ensures |r| == |lits|
  {
    if |lits| == 0 then [] else [LiteralExpr(lits[0])] + LiteralArgs(lits[1..])
  }

  /** The text printed for literal arguments: the rendering of each literal's value, in order. */
  function LiteralsText(fp: FloatOps, lits: seq<Token>): string
  {
    if |lits| == 0 then "" else Render(fp, LiteralValue(lits[0])) + LiteralsText(fp, lits[1..])
  }

  /** The text of literals is the rendering of the first followed by the text of the rest. */
  lemma LiteralTextStep(fp: FloatOps, lits: seq<Token>, output: string)
    requires |lits| > 0
    ensures output + LiteralsText(fp, lits) == output + Render(fp, LiteralValue(lits[0])) + LiteralsText(fp, lits[1..])
  {
    AppendAssociates(output, Render(fp, LiteralValue(lits[0])), LiteralsText(fp, lits[1..]));
  }

  lemma AppendAssociates<T>(a: seq<T>, b: seq<T>, c: seq<T>)
    ensures a + (b + c) == a + b + c
  {
  }

  /** `print` of literals appends their renderings in order, changes no node and yields null. */
  lemma {:induction false} PrintLiterals(fp: FloatOps, fuel: nat, lits: seq<Token>, st: State)
    requires |st.stack| > 0 && fuel > 0
    ensures Print(fp, fuel, LiteralArgs(lits), st) == Evaluated(Yield(None), st.(output := st.output + LiteralsText(fp, lits)))
    decreases |lits|
  {
    if |lits| > 0 {
      var rest, next := PrintLiteral(fp, fuel, lits, st);
      PrintLiterals(fp, fuel, rest, next);
    }
  }

  /** Printing a first argument that is a literal appends its rendering and goes on with the rest. */
  lemma PrintLiteral(fp: FloatOps, fuel: nat, lits: seq<Token>, st: State) returns (rest: seq<Token>, next: State)
    requires |st.stack| > 0 && fuel > 0 && |lits| > 0
    ensures rest == lits[1..] && next == st.(output := st.output + Render(fp, LiteralValue(lits[0])))
    ensures |next.stack| > 0 && |rest| < |lits|
    ensures Print(fp, fuel, LiteralArgs(lits), st) == Print(fp, fuel, LiteralArgs(rest), next)
    ensures st.(output := st.output + LiteralsText(fp, lits)) == next.(output := next.output + LiteralsText(fp, rest))
  {
    rest, next := lits[1..], st.(output := st.output + Render(fp, LiteralValue(lits[0])));
    LiteralTextStep(fp, lits, st.output);
    var args := LiteralArgs(lits);
    assert args[0] == LiteralExpr(lits[0]) && args[1..] == LiteralArgs(lits[1..]);
    assert Eval(fp, fuel, args[0], st) == Evaluated(Yield(LiteralValue(lits[0])), st);
  }

  /**
   * Arguments are bound in the call's new node in order, so a later
   * argument already sees the earlier parameters: binding `(p: a, q: p)`,
   * where `a` yields a value and leaves the chain as it was, gives both
   * parameters that value.
   */
  lemma LaterArgumentSeesEarlierParameter(fp: FloatOps, fuel: nat, p: Parameter, q: Parameter, a: Expr, st: State)
    requires |st.stack| > 0 && fuel > 0
    requires p.name.identifierName != q.name.identifierName
    requires Eval(fp, fuel, a, Push(st)).result.Yield? && Eval(fp, fuel, a, Push(st)).state.stack == Push(st).stack
    ensures
      var v := Eval(fp, fuel, a, Push(st));
      var r := BindArgs(fp, fuel, [p, q], [a, IdentifierExpr(p.name)], Push(st));
      r.completion.Normal? && r.state.stack[1..] == st.stack && r.state.output == v.state.output &&
      r.state.stack[0].vars == map[p.name.identifierName := v.result.value, q.name.identifierName := v.result.value]
  {
    var s0 := Push(st);
    var pn := p.name.identifierName;
    var qn := q.name.identifierName;
    var args := [a, IdentifierExpr(p.name)];
    var ev := Eval(fp, fuel, a, s0);
    var v := ev.result.value;
    assert args[0] == a;
    var s1 := State([s0.stack[0].(vars := map[pn := v])] + st.stack, ev.state.output);
    assert DefineEvaluated(fp, fuel, pn, args[0], s0) == Executed(Normal, s1);
    assert LookupVar(s1.stack, pn) == Ok(v);
    assert Eval(fp, fuel, args[1], s1) == Evaluated(Yield(v), s1);
    var s2 := State([s0.stack[0].(vars := map[pn := v, qn := v])] + st.stack, ev.state.output);
    assert DefineEvaluated(fp, fuel, qn, args[1], s1) == Executed(Normal, s2);
    assert [p, q][1..] == [q] && args[1..] == [args[1]];
    assert BindArgs(fp, fuel, [q], [args[1]], s1) == Executed(Normal, s2);
  }
}
