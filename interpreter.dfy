/**
 * The tree-walking interpreter itself
 * (src/Culebra/Interpreter/Treewalk/TreewalkInterpreter.cs): an object
 * whose `innermost` environment node is reassigned as blocks and calls are
 * entered and left, and whose nodes' tables are updated in place. Each
 * method is proved to do exactly what the matching function of `Semantics`
 * describes, signals included.
 */
module Treewalk {
  import opened Numerics
  import opened Diagnostics
  import opened Tokens
  import opened Ast
  import opened Values
  import opened Environment
  import opened Semantics

  class TreewalkInterpreter {
    var statements: seq<Stmt>
    /** The host's double operations. */
    const fp: FloatOps
    const global: VarEnv
    var innermost: VarEnv
    /** Everything `print` has written. */
    var output: string

    ghost predicate Valid()
      reads this
    {
      global.Valid() && innermost.Valid()
    }

    /** The interpreter's state as the semantics sees it. */
    ghost function Current(): State
      requires Valid()
      reads this, innermost.Repr
    {
      State(innermost.Frames(), output)
    }

    /**
     * What every step keeps: the chain still holds the node that was
     * innermost before, and every node it gained is new.
     */
    twostate predicate Extends()
      reads this
    {
      Valid() && old(innermost.Repr) <= innermost.Repr && fresh(innermost.Repr - old(innermost.Repr))
    }

    /**
     * The constructor with the parsed program: a fresh global node, which is
     * also the innermost one, and nothing written yet.
     */
    constructor (fp: FloatOps, statements: seq<Stmt>)
      ensures Valid() && innermost == global && fresh(global)
      ensures global.Frames() == [EmptyFrame] && Current() == State([EmptyFrame], "")
      ensures this.statements == statements && this.fp == fp
    {
      this.statements := statements;
      this.fp := fp;
      var g := new VarEnv(null);
      global := g;
      innermost := g;
      output := "";
    }

    /** `load`: bind every top-level function in the global node. */
    method Load() returns (r: Outcome)
      requires Valid()
      modifies global`functions
      ensures Valid()
      ensures r.Pass? <==> Semantics.Load(statements, old(global.Head())).Ok?
      ensures r.Pass? ==> global.Head() == Semantics.Load(statements, old(global.Head())).value
      ensures r.Fail? ==> r.error == Semantics.Load(statements, old(global.Head())).error
    {
      var i := 0;
      r := Pass;
      while i < |statements| && r.Pass?
        invariant 0 <= i <= |statements|
        invariant r.Pass? ==> Semantics.Load(statements[i..], global.Head()) == Semantics.Load(statements, old(global.Head()))
        invariant r.Fail? ==> Semantics.Load(statements, old(global.Head())) == Err(r.error)
      {
        var s := statements[i];
        assert statements[i..][1..] == statements[i + 1..];
        if s.FuncDeclarationStmt? {
          r := global.DefineFunc(s.name.identifierName, FuncDecl(s.rtype, s.name, s.parameters, s.body));
        } else {
          r := Fail(NonFunctionAtTopLevel);
        }
        i := i + 1;
      }
    }

    /**
     * `run`: the named function of the global node runs; its return signal
     * is caught, and a loop signal escaping it is an uncaught exception.
     */
    method Run(fuel: nat, functionName: string) returns (r: Completion)
      requires Valid()
      modifies this, innermost.Repr
      ensures Extends()
      ensures Executed(r, Current()) == RunMain(fp, fuel, functionName, old(global.Frames()), old(Current()))
    {
      var f := global.GetFunc(functionName);
      if f.Err? {
        r := Abrupt(ErrorSignal(f.error));
      } else {
        r := RunStatement(fuel, f.value.body);
        if r.Abrupt? && r.signal.ReturnSignal? {
          r := Normal;
        } else if r.Abrupt? && r.signal.LoopSignal? {
          r := Abrupt(ErrorSignal(UncaughtLoopControl));
        }
      }
    }

    // -------------------------------------------------------------------
    // Entering and leaving nodes

    /** `innermost = new(innermost)`. */
    method PushNode()
      requires Valid()
      modifies this`innermost
      ensures Valid() && fresh(innermost) && innermost.enclosing == old(innermost)
      ensures innermost.Repr == {innermost} + old(innermost.Repr)
      ensures Current() == Push(old(Current()))
    {
      innermost := new VarEnv(innermost);
    }

    /** `innermost = innermost.enclosing`, for a node pushed above `base`. */
    method PopNode(ghost base: VarEnv)
      requires Valid() && base.Valid() && base.Repr <= innermost.Repr && base.depth < innermost.depth
      modifies this`innermost
      ensures Valid() && base.Repr <= innermost.Repr && innermost.Repr <= old(innermost.Repr)
      ensures Current() == Pop(old(Current()))
    {
      PopAbove(innermost, base);
      innermost := innermost.enclosing;
    }

    // -------------------------------------------------------------------
    // Statements

    /** `runStatement`. */
    method RunStatement(fuel: nat, s: Stmt) returns (c: Completion)
      requires Valid()
      modifies this, innermost.Repr
      ensures Extends()
      ensures Executed(c, Current()) == Exec(fp, fuel, s, old(Current()))
      decreases fuel, 0
    {
      if fuel == 0 {
        c := Abrupt(OutOfFuel);
      } else {
        match s
        case BlockStmt(ss) => c := RunBlockStmt(fuel - 1, ss);
        case ExprStmt(e) => c := RunExprStmt(fuel - 1, e);
        case ReturnStmt(value) => c := RunReturnStmt(fuel - 1, value);
        case VarDeclarationStmt(_, name, value) => c := RunVarDeclarationStmt(fuel - 1, name.identifierName, value);
        case IfStmt(cond, t, e) => c := RunIfStmt(fuel - 1, cond, t, e);
        case WhileStmt(cond, body, isFor) => c := RunWhileStmt(fuel - 1, cond, body, isFor);
        case BreakStmt => c := Abrupt(LoopSignal(false));
        case ContinueStmt => c := Abrupt(LoopSignal(true));
        case FuncDeclarationStmt(_, _, _, _) => c := Abrupt(ErrorSignal(InvalidStatement));
      }
    }

    /** `runBlockStmt`: a new node for the block, removed only when every member completed normally. */
    method RunBlockStmt(fuel: nat, ss: seq<Stmt>) returns (c: Completion)
      requires Valid()
      modifies this, innermost.Repr
      ensures Extends()
      ensures Executed(c, Current()) == ExecBlock(fp, fuel, ss, old(Current()))
      decreases fuel, |ss| + 2
    {
      PushNode();
      c := RunSequence(fuel, ss);
      if c.Normal? {
        PopNode(old(innermost));
      }
    }

    /** The `foreach` of `runBlockStmt`: the members in order, up to the first signal. */
    method RunSequence(fuel: nat, ss: seq<Stmt>) returns (c: Completion)
      requires Valid()
      modifies this, innermost.Repr
      ensures Extends()
      ensures Executed(c, Current()) == ExecSeq(fp, fuel, ss, old(Current()))
      decreases fuel, |ss| + 1
    {
      var i := 0;
      c := Normal;
      while i < |ss| && c.Normal?
        invariant 0 <= i <= |ss|
        invariant Extends()
        invariant ExecSeq(fp, fuel, ss, old(Current())) == if c.Normal? then ExecSeq(fp, fuel, ss[i..], Current()) else Executed(c, Current())
        decreases |ss| - i
      {
        assert ss[i..][1..] == ss[i + 1..];
        c := RunStatement(fuel, ss[i]);
        i := i + 1;
      }
    }

    /** `runExprStmt`. */
    method RunExprStmt(fuel: nat, e: Expr) returns (c: Completion)
      requires Valid()
      modifies this, innermost.Repr
      ensures Extends()
      ensures Executed(c, Current()) == ExecExpr(fp, fuel, e, old(Current()))
      decreases fuel, 1
    {
      var v := EvaluateExpr(fuel, e);
      c := if v.Yield? then Normal else Abrupt(v.signal);
    }

    /** `runReturnStmt`. */
    method RunReturnStmt(fuel: nat, value: Option<Expr>) returns (c: Completion)
      requires Valid()
      modifies this, innermost.Repr
      ensures Extends()
      ensures Executed(c, Current()) == ExecReturn(fp, fuel, value, old(Current()))
      decreases fuel, 1
    {
      if value.None? {
        c := Abrupt(ReturnSignal(None));
      } else {
        var v := EvaluateExpr(fuel, value.value);
        c := Abrupt(if v.Yield? then ReturnSignal(v.value) else v.signal);
      }
    }

    /** `runVarDeclarationStmt`: the receiver node is taken before the initializer runs. */
    method RunVarDeclarationStmt(fuel: nat, name: string, value: Option<Expr>) returns (c: Completion)
      requires Valid()
      modifies this, innermost.Repr
      ensures Extends()
      ensures Executed(c, Current()) == ExecVarDecl(fp, fuel, name, value, old(Current()))
      decreases fuel, 2
    {
      if value.None? {
        c := Abrupt(ErrorSignal(InvalidExpression));
      } else {
        c := DefineEvaluated(fuel, name, value.value);
      }
    }

    /** `innermost.defineVar(name, evaluateExpr(e))`: the receiver is taken before the value is computed. */
    method DefineEvaluated(fuel: nat, name: string, e: Expr) returns (c: Completion)
      requires Valid()
      modifies this, innermost.Repr
      ensures Extends()
      ensures Executed(c, Current()) == Semantics.DefineEvaluated(fp, fuel, name, e, old(Current()))
      decreases fuel, 1
    {
      var receiver := innermost;
      var v := EvaluateExpr(fuel, e);
      if v.Raise? {
        c := Abrupt(v.signal);
      } else {
        c := DefineIn(receiver, old(Current()), name, v.value);
      }
    }

    /**
     * `receiver.defineVar(name, v)` for a node of the current chain that was
     * innermost in `before`: the semantics' definition in the receiver.
     */
    method DefineIn(receiver: VarEnv, ghost before: State, name: string, v: Value) returns (c: Completion)
      requires Valid() && receiver in innermost.Repr
      requires |before.stack| == receiver.depth + 1 && |before.stack| <= |Current().stack|
      modifies receiver`vars
      ensures Valid()
      ensures Executed(c, Current()) == DefineInReceiver(before, old(Current()), name, v)
    {
      ghost var frames := innermost.Frames();
      var o := DefineVarOnChain(innermost, receiver, frames, name, v);
      c := if o.Pass? then Normal else Abrupt(ErrorSignal(o.error));
    }

    /** `runIfStmt`: the else branch runs when the condition is anything but a true BOOL. */
    method RunIfStmt(fuel: nat, cond: Expr, t: Stmt, e: Option<Stmt>) returns (c: Completion)
      requires Valid()
      modifies this, innermost.Repr
      ensures Extends()
      ensures Executed(c, Current()) == ExecIf(fp, fuel, cond, t, e, old(Current()))
      decreases fuel, 2
    {
      var test := IsTrue(fuel, cond);
      c := RunBranch(fuel, test, t, e);
    }

    /** The branch of `runIfStmt` that the evaluated condition selects. */
    method RunBranch(fuel: nat, test: Condition, t: Stmt, e: Option<Stmt>) returns (c: Completion)
      requires Valid()
      modifies this, innermost.Repr
      ensures Extends()
      ensures Executed(c, Current()) == ExecBranch(fp, fuel, test, t, e, old(Current()))
      decreases fuel, 1
    {
      if test.Interrupt? {
        c := Abrupt(test.signal);
      } else if test.b {
        c := RunStatement(fuel, t);
      } else if e.Some? {
        c := RunStatement(fuel, e.value);
      } else {
        c := Normal;
      }
    }

    /** `runWhileStmt`, one iteration per unit of fuel. */
    method RunWhileStmt(fuel: nat, cond: Expr, body: Stmt, isFor: bool) returns (c: Completion)
      requires Valid()
      modifies this, innermost.Repr
      ensures Extends()
      ensures Executed(c, Current()) == ExecWhile(fp, fuel, cond, body, isFor, old(Current()))
      decreases fuel, 5
    {
      var f: nat := fuel;
      var again := true;
      c := Normal;
      while again
        invariant f <= fuel
        invariant Extends()
        invariant ExecWhile(fp, fuel, cond, body, isFor, old(Current())) ==
          if again then ExecWhile(fp, f, cond, body, isFor, Current()) else Executed(c, Current())
        decreases f, if again then 1 else 0
      {
        if f == 0 {
          c := Abrupt(OutOfFuel);
          again := false;
        } else {
          c, again := Iterate(f, cond, body, isFor);
          if again {
            f := f - 1;
          }
        }
      }
    }

    /** One test of the condition of `runWhileStmt` and, if it holds, one run of the body. */
    method Iterate(f: nat, cond: Expr, body: Stmt, isFor: bool) returns (c: Completion, again: bool)
      requires Valid()
      modifies this, innermost.Repr
      ensures Extends()
      ensures StepOf(again, c, Current()) == Iteration(fp, f, cond, body, isFor, old(Current()))
      decreases f, 4
    {
      var test := IsTrue(f, cond);
      c, again := LoopStep(f, body, isFor, test);
    }

    /** The rest of one iteration once the condition has been evaluated. */
    method LoopStep(f: nat, body: Stmt, isFor: bool, test: Condition) returns (c: Completion, again: bool)
      requires Valid()
      modifies this, innermost.Repr
      ensures Extends()
      ensures StepOf(again, c, Current()) == Semantics.LoopStep(fp, f, body, isFor, test, old(Current()))
      decreases f, 3
    {
      if test.Interrupt? {
        c, again := Abrupt(test.signal), false;
      } else if !test.b {
        c, again := Normal, false;
      } else {
        c, again := RunBodyOnce(f, body, isFor);
      }
    }

    /** One run of the loop body and its handler. */
    method RunBodyOnce(f: nat, body: Stmt, isFor: bool) returns (c: Completion, again: bool)
      requires Valid()
      modifies this, innermost.Repr
      ensures Extends()
      ensures StepOf(again, c, Current()) == Semantics.AfterBody(fp, f, body, isFor, Exec(fp, f, body, old(Current())))
      decreases f, 2
    {
      var run := RunStatement(f, body);
      c, again := AfterBody(f, body, isFor, run);
    }

    /**
     * The `catch` of `runWhileStmt` after one run of the body: either the
     * loop goes round again, or it ends with `c`.
     */
    method AfterBody(f: nat, body: Stmt, isFor: bool, run: Completion) returns (c: Completion, again: bool)
      requires Valid()
      modifies this, innermost.Repr
      ensures Extends()
      ensures StepOf(again, c, Current()) == Semantics.AfterBody(fp, f, body, isFor, Executed(run, old(Current())))
      decreases f, 1
    {
      again := false;
      c := run;
      if run.Normal? {
        again := true;
      } else if run.signal.LoopSignal? {
        if !run.signal.isContinue {
          c := Normal;
        } else if !isFor {
          again := true;
        } else if !body.BlockStmt? {
          c := Abrupt(ErrorSignal(NullReference));
        } else if |body.statements| == 0 {
          c := Abrupt(ErrorSignal(LastOfEmptyBlock));
        } else {
          c := RunStatement(f, body.statements[|body.statements| - 1]);
          again := c.Normal?;
        }
      }
    }

    // -------------------------------------------------------------------
    // Expressions

    /** `evaluateExpr`, with `evalLiteralExpr`, `evalIdentExpr` and `evalParenExpr`. */
    method EvaluateExpr(fuel: nat, e: Expr) returns (v: Evaluation)
      requires Valid()
      modifies this, innermost.Repr
      ensures Extends()
      ensures Evaluated(v, Current()) == Eval(fp, fuel, e, old(Current()))
      decreases fuel, 0
    {
      if fuel == 0 {
        v := Raise(OutOfFuel);
      } else if e.LiteralExpr? {
        v := Yield(LiteralValue(e.literal));
      } else if e.IdentifierExpr? {
        var r := innermost.GetVar(e.ident.identifierName);
        v := if r.Err? then Raise(ErrorSignal(r.error)) else Yield(r.value);
      } else if e.MemberAccessExpr? {
        v := Raise(ErrorSignal(InvalidExpression));
      } else if e.ParenthesizedExpr? {
        v := EvaluateExpr(fuel - 1, e.expr);
      } else {
        v := EvaluateOperation(fuel, e);
      }
    }

    /** The branches of `evaluateExpr` that hand the expression to an operator's own method. */
    method EvaluateOperation(fuel: nat, e: Expr) returns (v: Evaluation)
      requires Valid() && fuel > 0
      requires e.UnaryExpr? || e.BinaryExpr? || e.CallExpr? || e.AssignExpr?
      modifies this, innermost.Repr
      ensures Extends()
      ensures Evaluated(v, Current()) == Eval(fp, fuel, e, old(Current()))
      decreases fuel - 1, if e.CallExpr? then |e.args| + 5 else 3
    {
      match e
      case UnaryExpr(x, op) => v := EvalUnaryExpr(fuel - 1, x, op.kind);
      case BinaryExpr(l, r, op) => v := EvalBinaryExpr(fuel - 1, l, r, op.kind);
      case CallExpr(callee, args) => v := EvalCallExpr(fuel - 1, callee, args);
      case AssignExpr(name, value) => v := EvalAssignExpr(fuel - 1, name.identifierName, value);
    }

    /** `evalUnaryExpr`. */
    method EvalUnaryExpr(fuel: nat, x: Expr, kind: TokenType) returns (v: Evaluation)
      requires Valid()
      modifies this, innermost.Repr
      ensures Extends()
      ensures Evaluated(v, Current()) == EvalUnary(fp, fuel, x, kind, old(Current()))
      decreases fuel, 1
    {
      v := EvaluateExpr(fuel, x);
      if v.Yield? {
        v := Thrown(UnaryOperator(fp, kind, v.value));
      }
    }

    /** `evalBinaryExpr`: left operand, then right operand, then the operator. */
    method EvalBinaryExpr(fuel: nat, l: Expr, r: Expr, kind: TokenType) returns (v: Evaluation)
      requires Valid()
      modifies this, innermost.Repr
      ensures Extends()
      ensures Evaluated(v, Current()) == EvalBinary(fp, fuel, l, r, kind, old(Current()))
      decreases fuel, 2
    {
      var left := EvaluateExpr(fuel, l);
      v := EvalRightOperand(fuel, left, r, kind);
    }

    /** The right operand and the operator, once the left operand has been evaluated. */
    method EvalRightOperand(fuel: nat, left: Evaluation, r: Expr, kind: TokenType) returns (v: Evaluation)
      requires Valid()
      modifies this, innermost.Repr
      ensures Extends()
      ensures Evaluated(v, Current()) == Semantics.EvalRightOperand(fp, fuel, left, r, kind, old(Current()))
      decreases fuel, 1
    {
      if left.Raise? {
        v := left;
      } else {
        v := EvaluateExpr(fuel, r);
        ghost var mid := Current();
        if v.Yield? {
          assert Semantics.EvalRightOperand(fp, fuel, left, r, kind, old(Current())) ==
            Evaluated(Thrown(BinaryOperator(fp, kind, left.value, v.value)), mid);
          v := Thrown(BinaryOperator(fp, kind, left.value, v.value));
        }
      }
    }

    /** `evalAssignExpr`: the assignment starts from the node innermost after the value was computed. */
    method EvalAssignExpr(fuel: nat, name: string, value: Expr) returns (v: Evaluation)
      requires Valid()
      modifies this, innermost.Repr
      ensures Extends()
      ensures Evaluated(v, Current()) == EvalAssign(fp, fuel, name, value, old(Current()))
      decreases fuel, 1
    {
      v := EvaluateExpr(fuel, value);
      ghost var mid := Current().stack;
      if v.Yield? {
        var o := innermost.AssignVar(name, v.value);
        if o.Fail? {
          AssignAlongChain(mid, name, v.value);
          v := Raise(ErrorSignal(o.error));
        }
      }
    }

    /** `evalCallExpr`. */
    method EvalCallExpr(fuel: nat, callee: Expr, args: seq<Expr>) returns (v: Evaluation)
      requires Valid()
      modifies this, innermost.Repr
      ensures Extends()
      ensures Evaluated(v, Current()) == EvalCall(fp, fuel, callee, args, old(Current()))
      decreases fuel, |args| + 4
    {
      if !callee.IdentifierExpr? {
        v := Raise(ErrorSignal(InvalidCallee));
      } else if callee.ident.identifierName == "print" {
        v := Print(fuel, args);
      } else {
        var f := innermost.GetFunc(callee.ident.identifierName);
        if f.Err? {
          v := Raise(ErrorSignal(f.error));
        } else if |args| != |f.value.parameters| {
          v := Raise(ErrorSignal(WrongArgumentCount));
        } else {
          v := Invoke(fuel, f.value, args);
        }
      }
    }

    /** The part of `evalCallExpr` from the push to the pop. */
    method Invoke(fuel: nat, f: FuncDecl, args: seq<Expr>) returns (v: Evaluation)
      requires Valid() && |args| == |f.parameters|
      modifies this, innermost.Repr
      ensures Extends()
      ensures Evaluated(v, Current()) == Invocation(fp, fuel, f, args, old(Current()))
      decreases fuel, |args| + 3
    {
      PushNode();
      var c := RunCallBody(fuel, f, args);
      if c.Normal? || c.signal.ReturnSignal? {
        v := if c.Normal? then Yield(None) else Yield(c.signal.value);
        PopNode(old(innermost));
      } else {
        v := Raise(c.signal);
      }
    }

    /** The `try` block of `evalCallExpr`: the arguments, then `runFunction`. */
    method RunCallBody(fuel: nat, f: FuncDecl, args: seq<Expr>) returns (c: Completion)
      requires Valid() && |args| == |f.parameters|
      modifies this, innermost.Repr
      ensures Extends()
      ensures Executed(c, Current()) == CallBody(fp, fuel, f, args, old(Current()))
      decreases fuel, |args| + 2
    {
      c := BindArguments(fuel, f.parameters, args);
      if c.Normal? {
        c := RunStatement(fuel, f.body);
      }
    }

    /** The argument loop of `evalCallExpr`: each value is bound in the node innermost when its evaluation began. */
    method BindArguments(fuel: nat, params: seq<Parameter>, args: seq<Expr>) returns (c: Completion)
      requires Valid() && |params| == |args|
      modifies this, innermost.Repr
      ensures Extends()
      ensures Executed(c, Current()) == BindArgs(fp, fuel, params, args, old(Current()))
      decreases fuel, |args| + 1
    {
      var i := 0;
      c := Normal;
      while i < |args| && c.Normal?
        invariant 0 <= i <= |args|
        invariant Extends()
        invariant BindArgs(fp, fuel, params, args, old(Current())) ==
          if c.Normal? then BindArgs(fp, fuel, params[i..], args[i..], Current()) else Executed(c, Current())
        decreases |args| - i
      {
        assert params[i..][1..] == params[i + 1..] && args[i..][1..] == args[i + 1..];
        c := DefineEvaluated(fuel, params[i].name.identifierName, args[i]);
        i := i + 1;
      }
    }

    /** `interceptBuiltIns` with `print`: each value is written as soon as it is computed. */
    method Print(fuel: nat, args: seq<Expr>) returns (v: Evaluation)
      requires Valid()
      modifies this, innermost.Repr
      ensures Extends()
      ensures Evaluated(v, Current()) == Semantics.Print(fp, fuel, args, old(Current()))
      decreases fuel, |args| + 1
    {
      var i := 0;
      v := Yield(None);
      while i < |args|
        invariant 0 <= i <= |args|
        invariant Extends()
        invariant v.Yield? ==>
          Semantics.Print(fp, fuel, args[i..], Current()) == Semantics.Print(fp, fuel, args, old(Current()))
        invariant v.Raise? ==> Evaluated(v, Current()) == Semantics.Print(fp, fuel, args, old(Current()))
        decreases if v.Yield? then |args| - i else 0
      {
        assert args[i..][1..] == args[i + 1..];
        var a := EvaluateExpr(fuel, args[i]);
        if a.Raise? {
          v := a;
          break;
        }
        output := output + Render(fp, a.value);
        i := i + 1;
      }
    }

    /** `isTrue(e)`. */
    method IsTrue(fuel: nat, e: Expr) returns (t: Condition)
      requires Valid()
      modifies this, innermost.Repr
      ensures Extends()
      ensures Tested(t, Current()) == IsTrueOf(fp, fuel, e, old(Current()))
      decreases fuel, 1
    {
      var v := EvaluateExpr(fuel, e);
      if v.Raise? {
        t := Interrupt(v.signal);
      } else if v.value.None? {
        t := Interrupt(ErrorSignal(NullReference));
      } else {
        t := Holds(Values.IsTrue(v.value.value));
      }
    }
  }
}
