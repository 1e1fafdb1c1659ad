/**
 * The reference semantics of the tree-walking interpreter
 * (src/Culebra/Interpreter/Treewalk/TreewalkInterpreter.cs), as functions.
 *
 * The interpreter's state is the chain of environment nodes from
 * `innermost` to the root, innermost first, and the text written so far.
 * Its non-local exits become an explicit signal: `ReturnValueContainer` is
 * `ReturnSignal`, `LoopControlException` is `LoopSignal`, a reported error
 * or an uncaught host exception is `ErrorSignal` (the run ends there), and
 * `OutOfFuel` stands for a run longer than the fuel the caller granted.
 * Blocks and calls push and pop nodes exactly where the source does, so a
 * signal that leaves a block skips its pop and leaves the deeper node in
 * place.
 *
 * Fuel: `Exec` and `Eval` take one unit per statement or expression they
 * dispatch, and a loop one unit per iteration; every other step keeps the
 * fuel it was given.
 */
module Semantics {
  import opened Numerics
  import opened Diagnostics
  import opened Tokens
  import opened Ast
  import opened Values
  import opened Environment

  datatype State = State(stack: Chain, output: string)

  datatype Signal =
    | ReturnSignal(value: Value)
    | LoopSignal(isContinue: bool)
    | ErrorSignal(error: Diagnostic)
    | OutOfFuel

  datatype Completion = Normal | Abrupt(signal: Signal)

  datatype Evaluation = Yield(value: Value) | Raise(signal: Signal)

  datatype Condition = Holds(b: bool) | Interrupt(signal: Signal)

  /** The outcome of running a statement. */
  datatype Executed = Executed(completion: Completion, state: State)

  /** The outcome of evaluating an expression. */
  datatype Evaluated = Evaluated(result: Evaluation, state: State)

  /** The outcome of testing a condition (`isTrue`). */
  datatype Tested = Tested(result: Condition, state: State)

  /** The outcome of one iteration of a loop: go round again from `state`, or leave it with `exit`. */
  datatype Step = Again(state: State) | Exit(exit: Executed)

  function Fail(d: Diagnostic, st: State): Executed { Executed(Abrupt(ErrorSignal(d)), st) }
  /** An operator's value is yielded; its diagnostic is thrown. */
  function Thrown(r: Result<Value>): (e: Evaluation)
    ensures e.Yield? <==> r.Ok?
  {
    if r.Err? then Raise(ErrorSignal(r.error)) else Yield(r.value)
  }

  function FailEval(d: Diagnostic, st: State): Evaluated { Evaluated(Raise(ErrorSignal(d)), st) }

  /** `innermost = new(innermost)`. */
  function Push(st: State): (r: State)
    ensures |r.stack| == |st.stack| + 1 && r.stack[1..] == st.stack && r.stack[0] == EmptyFrame
    ensures r.output == st.output
  {
    st.(stack := [EmptyFrame] + st.stack)
  }

  /** `innermost = innermost.enclosing`. */
  function Pop(st: State): (r: State)
    requires |st.stack| > 0
    ensures |r.stack| == |st.stack| - 1 && r.output == st.output
  {
    st.(stack := st.stack[1..])
  }

  /**
   * `innermost.defineVar(name, evaluateExpr(e))`: the receiver node is read
   * before the value is evaluated, so the variable goes into the node that
   * was innermost in `before`, which sits `|after| - |before|` links out
   * from the innermost node of `after`.
   */
  function DefineInReceiver(before: State, after: State, name: string, v: Value): (r: Executed)
    requires 0 < |before.stack| <= |after.stack|
    ensures |r.state.stack| == |after.stack| && r.state.output == after.output
  {
    var k := |after.stack| - |before.stack|;
    var d := DeclareVar(after.stack[k], name, v);
    if d.Err? then Fail(d.error, after) else Executed(Normal, State(after.stack[k := d.value], after.output))
  }

  // ---------------------------------------------------------------------
  // Operators on possibly-null operands

  /** `evalLiteralExpr`: a value of the literal's kind; any other token gives null. */
  function LiteralValue(t: Token): Value
  {
    if t.kind == IntLit then Some(IntVar(t.intValue))
    else if t.kind == DoubleLit then Some(DoubleVar(t.doubleValue))
    else if t.kind == StringLit then Some(StringVar(t.stringValue))
    else if t.kind == BoolLit then Some(BoolVar(t.boolValue))
    else None
  }

  /** `evalUnaryExpr`'s switch: `+` passes the operand through (null included); `-` and `!` dereference it. */
  function UnaryOperator(fp: FloatOps, kind: TokenType, v: Value): Result<Value>
  {
    if kind == Plus then Ok(v)
    else if kind == Minus then
      if v.None? then Err(NullReference) else var p :- Negate(fp, v.value); Ok(Some(p))
    else if kind == Tokens.Not then
      if v.None? then Err(NullReference) else var p :- Values.Not(v.value); Ok(Some(p))
    else Ok(None)
  }

  datatype BinOp = ArithBin(a: ArithOp) | CompareBin(c: CmpOp) | LogicBin(l: LogicOp)

  /** The operators `evalBinaryExpr` knows. */
  function BinaryOpOf(kind: TokenType): Option<BinOp>
  {
    if kind == Plus then Some(ArithBin(AddOp))
    else if kind == Minus then Some(ArithBin(SubOp))
    else if kind == Star then Some(ArithBin(MulOp))
    else if kind == Slash then Some(ArithBin(DivOp))
    else if kind == Mod then Some(ArithBin(RemOp))
    else if kind == Eq then Some(CompareBin(EqOp))
    else if kind == NotEq then Some(CompareBin(NotEqOp))
    else if kind == Gt then Some(CompareBin(GtOp))
    else if kind == Geq then Some(CompareBin(GeqOp))
    else if kind == Lt then Some(CompareBin(LtOp))
    else if kind == Leq then Some(CompareBin(LeqOp))
    else if kind == And then Some(LogicBin(AndOp))
    else if kind == Or then Some(LogicBin(OrOp))
    else None
  }

  /**
   * The failure of an operator whose right operand is null: the operator
   * reports invalid types without touching the right operand when the left
   * one already rules the pairing out, and dereferences null otherwise.
   */
  function NullRightOperand(op: BinOp, l: PrimitiveVar): Diagnostic
  {
    match op
    case ArithBin(a) =>
      if IsNumeric(l) || (a == AddOp && l.atype == StringType) then NullReference
      else InvalidOperandTypes(ArithName(a))
    case CompareBin(_) => NullReference
    case LogicBin(o) =>
      if l.atype == BoolType then NullReference else InvalidOperandTypes(if o == AndOp then "and" else "or")
  }

  /** `evalBinaryExpr`'s switch over evaluated operands; every result is a new value. */
  function BinaryOperator(fp: FloatOps, kind: TokenType, l: Value, r: Value): Result<Value>
  {
    match BinaryOpOf(kind)
    case None => Err(InvalidBinaryOperator)
    case Some(op) =>
      if l.None? then Err(NullReference)
      else if r.None? then Err(NullRightOperand(op, l.value))
      else
        match op
        case ArithBin(a) => var p :- Arithmetic(fp, a, l.value, r.value); Ok(Some(Copy(p)))
        case CompareBin(c) => var b :- Compare(fp, c, l.value, r.value); Ok(Some(BoolVar(b)))
        case LogicBin(o) => var b :- Logical(o, l.value, r.value); Ok(Some(BoolVar(b)))
  }

  /** `(v as PrimitiveVar).isTrue()`: null is a dereference error. */
  function Truth(v: Value): Result<bool>
  {
    if v.None? then Err(NullReference) else Ok(IsTrue(v.value))
  }

  /** What `Console.Write` prints for a value: nothing for null. */
  function Render(fp: FloatOps, v: Value): string
  {
    if v.None? then "" else Values.ToString(fp, v.value)
  }

  // ---------------------------------------------------------------------
  // Statements

  /** `runStatement`. */
  function Exec(fp: FloatOps, fuel: nat, s: Stmt, st: State): (r: Executed)
    requires |st.stack| > 0
    ensures |r.state.stack| >= |st.stack|
    ensures st.output <= r.state.output
    decreases fuel, 0
  {
    if fuel == 0 then Executed(Abrupt(OutOfFuel), st)
    else
      match s
      case BlockStmt(ss) => ExecBlock(fp, fuel - 1, ss, st)
      case ExprStmt(e) => ExecExpr(fp, fuel - 1, e, st)
      case ReturnStmt(value) => ExecReturn(fp, fuel - 1, value, st)
      case VarDeclarationStmt(_, name, value) => ExecVarDecl(fp, fuel - 1, name.identifierName, value, st)
      case IfStmt(c, t, e) => ExecIf(fp, fuel - 1, c, t, e, st)
      case WhileStmt(c, body, isFor) => ExecWhile(fp, fuel - 1, c, body, isFor, st)
      case BreakStmt => Executed(Abrupt(LoopSignal(false)), st)
      case ContinueStmt => Executed(Abrupt(LoopSignal(true)), st)
      case FuncDeclarationStmt(_, _, _, _) => Fail(InvalidStatement, st)
  }

  /** `runBlockStmt`: push, run the members in order, and pop only when they all completed normally. */
  function ExecBlock(fp: FloatOps, fuel: nat, ss: seq<Stmt>, st: State): (r: Executed)
    requires |st.stack| > 0
    ensures |r.state.stack| >= |st.stack|
    ensures st.output <= r.state.output
    decreases fuel, |ss| + 2
  {
    var inner := ExecSeq(fp, fuel, ss, Push(st));
    if inner.completion.Normal? then Executed(Normal, Pop(inner.state)) else inner
  }

  /** The `foreach` of `runBlockStmt`: the first signal ends the sequence. */
  function ExecSeq(fp: FloatOps, fuel: nat, ss: seq<Stmt>, st: State): (r: Executed)
    requires |st.stack| > 0
    ensures |r.state.stack| >= |st.stack|
    ensures st.output <= r.state.output
    decreases fuel, |ss| + 1
  {
    if |ss| == 0 then Executed(Normal, st)
    else
      var first := Exec(fp, fuel, ss[0], st);
      if first.completion.Normal? then ExecSeq(fp, fuel, ss[1..], first.state) else first
  }

  /** `runExprStmt`: evaluate and drop the value. */
  function ExecExpr(fp: FloatOps, fuel: nat, e: Expr, st: State): (r: Executed)
    requires |st.stack| > 0
    ensures |r.state.stack| >= |st.stack|
    ensures st.output <= r.state.output
    decreases fuel, 1
  {
    var v := Eval(fp, fuel, e, st);
    Executed(if v.result.Yield? then Normal else Abrupt(v.result.signal), v.state)
  }

  /** `runReturnStmt`: the value (null without one) travels in a return signal. */
  function ExecReturn(fp: FloatOps, fuel: nat, value: Option<Expr>, st: State): (r: Executed)
    requires |st.stack| > 0
    ensures |r.state.stack| >= |st.stack|
    ensures st.output <= r.state.output
    decreases fuel, 1
  {
    if value.None? then Executed(Abrupt(ReturnSignal(None)), st)
    else
      var v := Eval(fp, fuel, value.value, st);
      Executed(Abrupt(if v.result.Yield? then ReturnSignal(v.result.value) else v.result.signal), v.state)
  }

  /**
   * `runVarDeclarationStmt`: a declaration without an initializer evaluates
   * a null expression, which is the invalid-expression error.
   */
  function ExecVarDecl(fp: FloatOps, fuel: nat, name: string, value: Option<Expr>, st: State): (r: Executed)
    requires |st.stack| > 0
    ensures |r.state.stack| >= |st.stack|
    ensures st.output <= r.state.output
    decreases fuel, 2
  {
    if value.None? then Fail(InvalidExpression, st)
    else DefineEvaluated(fp, fuel, name, value.value, st)
  }

  /**
   * `innermost.defineVar(name, evaluateExpr(e))`, shared by declarations and
   * argument binding: the receiver is read before the value is computed.
   */
  function DefineEvaluated(fp: FloatOps, fuel: nat, name: string, e: Expr, st: State): (r: Executed)
    requires |st.stack| > 0
    ensures |r.state.stack| >= |st.stack|
    ensures st.output <= r.state.output
    decreases fuel, 1
  {
    var v := Eval(fp, fuel, e, st);
    if v.result.Raise? then Executed(Abrupt(v.result.signal), v.state)
    else DefineInReceiver(st, v.state, name, v.result.value)
  }

  /** `isTrue(e)`: evaluate, then the value's truth; null is a dereference error. */
  function IsTrueOf(fp: FloatOps, fuel: nat, e: Expr, st: State): (r: Tested)
    requires |st.stack| > 0
    ensures |r.state.stack| >= |st.stack|
    ensures st.output <= r.state.output
    decreases fuel, 1
  {
    var v := Eval(fp, fuel, e, st);
    if v.result.Raise? then Tested(Interrupt(v.result.signal), v.state)
    else
      match Truth(v.result.value)
      case Err(d) => Tested(Interrupt(ErrorSignal(d)), v.state)
      case Ok(b) => Tested(Holds(b), v.state)
  }

  /** `runIfStmt`. */
  function ExecIf(fp: FloatOps, fuel: nat, c: Expr, t: Stmt, e: Option<Stmt>, st: State): (r: Executed)
    requires |st.stack| > 0
    ensures |r.state.stack| >= |st.stack|
    ensures st.output <= r.state.output
    decreases fuel, 2
  {
    var test := IsTrueOf(fp, fuel, c, st);
    ExecBranch(fp, fuel, test.result, t, e, test.state)
  }

  /** The branch `runIfStmt` takes once its condition has been evaluated. */
  function ExecBranch(fp: FloatOps, fuel: nat, test: Condition, t: Stmt, e: Option<Stmt>, st: State): (r: Executed)
    requires |st.stack| > 0
    ensures |r.state.stack| >= |st.stack|
    ensures st.output <= r.state.output
    decreases fuel, 1
  {
    match test
    case Interrupt(sig) => Executed(Abrupt(sig), st)
    case Holds(b) =>
      if b then Exec(fp, fuel, t, st)
      else if e.Some? then Exec(fp, fuel, e.value, st)
      else Executed(Normal, st)
  }

  /**
   * `runWhileStmt`, one iteration per unit of fuel: each iteration either
   * goes round again from a new state or leaves the loop.
   */
  function ExecWhile(fp: FloatOps, fuel: nat, c: Expr, body: Stmt, isFor: bool, st: State): (r: Executed)
    requires |st.stack| > 0
    ensures |r.state.stack| >= |st.stack|
    ensures st.output <= r.state.output
    decreases fuel, 4
  {
    if fuel == 0 then Executed(Abrupt(OutOfFuel), st)
    else
      match Iteration(fp, fuel, c, body, isFor, st)
      case Again(next) => ExecWhile(fp, fuel - 1, c, body, isFor, next)
      case Exit(exit) => exit
  }

  /** One iteration of `runWhileStmt`: the condition is evaluated and, if it holds, the body runs. */
  function Iteration(fp: FloatOps, fuel: nat, c: Expr, body: Stmt, isFor: bool, st: State): (r: Step)
    requires |st.stack| > 0
    ensures r.Again? ==> |r.state.stack| >= |st.stack|
    ensures r.Again? ==> st.output <= r.state.output
    ensures r.Exit? ==> |r.exit.state.stack| >= |st.stack|
    ensures r.Exit? ==> st.output <= r.exit.state.output
    decreases fuel, 3
  {
    var test := IsTrueOf(fp, fuel, c, st);
    LoopStep(fp, fuel, body, isFor, test.result, test.state)
  }

  /** The rest of one iteration once the condition has been evaluated. */
  function LoopStep(fp: FloatOps, fuel: nat, body: Stmt, isFor: bool, test: Condition, st: State): (r: Step)
    requires |st.stack| > 0
    ensures r.Again? ==> |r.state.stack| >= |st.stack|
    ensures r.Again? ==> st.output <= r.state.output
    ensures r.Exit? ==> |r.exit.state.stack| >= |st.stack|
    ensures r.Exit? ==> st.output <= r.exit.state.output
    decreases fuel, 2
  {
    match test
    case Interrupt(sig) => Exit(Executed(Abrupt(sig), st))
    case Holds(b) =>
      if !b then Exit(Executed(Normal, st))
      else AfterBody(fp, fuel, body, isFor, Exec(fp, fuel, body, st))
  }

  /**
   * The handler around one run of a loop body: a break ends the loop, a
   * continue re-tests the condition, except in a loop built from `for`,
   * where it first runs the last member of the body block (outside the
   * handler, so that member's own signals leave the loop); every other
   * signal leaves the loop.
   */
  function AfterBody(fp: FloatOps, fuel: nat, body: Stmt, isFor: bool, run: Executed): (r: Step)
    requires |run.state.stack| > 0
    ensures r.Again? ==> |r.state.stack| >= |run.state.stack|
    ensures r.Again? ==> run.state.output <= r.state.output
    ensures r.Exit? ==> |r.exit.state.stack| >= |run.state.stack|
    ensures r.Exit? ==> run.state.output <= r.exit.state.output
    decreases fuel, 1
  {
    match run.completion
    case Normal => Again(run.state)
    case Abrupt(LoopSignal(isContinue)) =>
      if !isContinue then Exit(Executed(Normal, run.state))
      else if !isFor then Again(run.state)
      else if !body.BlockStmt? then Exit(Fail(NullReference, run.state))
      else if |body.statements| == 0 then Exit(Fail(LastOfEmptyBlock, run.state))
      else
        var step := Exec(fp, fuel, body.statements[|body.statements| - 1], run.state);
        if step.completion.Normal? then Again(step.state) else Exit(step)
    case Abrupt(_) => Exit(run)
  }

  /** The step a loop iteration takes, rebuilt from an interpreter's `again` flag. */
  function StepOf(again: bool, c: Completion, st: State): Step
  {
    if again then Again(st) else Exit(Executed(c, st))
  }

  // ---------------------------------------------------------------------
  // Expressions

  /** `evaluateExpr`. */
  function Eval(fp: FloatOps, fuel: nat, e: Expr, st: State): (r: Evaluated)
    requires |st.stack| > 0
    ensures |r.state.stack| >= |st.stack|
    ensures st.output <= r.state.output
    decreases fuel, 0
  {
    if fuel == 0 then Evaluated(Raise(OutOfFuel), st)
    else
      match e
      case LiteralExpr(t) => Evaluated(Yield(LiteralValue(t)), st)
      case IdentifierExpr(t) =>
        (match LookupVar(st.stack, t.identifierName)
         case Err(d) => FailEval(d, st)
         case Ok(v) => Evaluated(Yield(v), st))
      case UnaryExpr(x, op) => EvalUnary(fp, fuel - 1, x, op.kind, st)
      case BinaryExpr(l, r, op) => EvalBinary(fp, fuel - 1, l, r, op.kind, st)
      case MemberAccessExpr(_, _) => FailEval(InvalidExpression, st)
      case CallExpr(callee, args) => EvalCall(fp, fuel - 1, callee, args, st)
      case ParenthesizedExpr(x) => Eval(fp, fuel - 1, x, st)
      case AssignExpr(name, value) => EvalAssign(fp, fuel - 1, name.identifierName, value, st)
  }

  /** `evalUnaryExpr`. */
  function EvalUnary(fp: FloatOps, fuel: nat, x: Expr, kind: TokenType, st: State): (r: Evaluated)
    requires |st.stack| > 0
    ensures |r.state.stack| >= |st.stack|
    ensures st.output <= r.state.output
    decreases fuel, 1
  {
    var v := Eval(fp, fuel, x, st);
    if v.result.Raise? then v
    else
      Evaluated(Thrown(UnaryOperator(fp, kind, v.result.value)), v.state)
  }

  /** `evalBinaryExpr`: both operands are evaluated, left first, before the operator applies. */
  function EvalBinary(fp: FloatOps, fuel: nat, l: Expr, r: Expr, kind: TokenType, st: State): (res: Evaluated)
    requires |st.stack| > 0
    ensures |res.state.stack| >= |st.stack|
    ensures st.output <= res.state.output
    decreases fuel, 2
  {
    var left := Eval(fp, fuel, l, st);
    EvalRightOperand(fp, fuel, left.result, r, kind, left.state)
  }

  /** The rest of `evalBinaryExpr` once the left operand has been evaluated. */
  function EvalRightOperand(fp: FloatOps, fuel: nat, left: Evaluation, r: Expr, kind: TokenType, st: State): (res: Evaluated)
    requires |st.stack| > 0
    ensures |res.state.stack| >= |st.stack|
    ensures st.output <= res.state.output
    decreases fuel, 1
  {
    if left.Raise? then Evaluated(left, st)
    else
      var right := Eval(fp, fuel, r, st);
      if right.result.Raise? then right
      else Evaluated(Thrown(BinaryOperator(fp, kind, left.value, right.result.value)), right.state)
  }

  /** `evalAssignExpr`: evaluate, assign along the chain as it then stands, and yield the value. */
  function EvalAssign(fp: FloatOps, fuel: nat, name: string, value: Expr, st: State): (r: Evaluated)
    requires |st.stack| > 0
    ensures |r.state.stack| >= |st.stack|
    ensures st.output <= r.state.output
    decreases fuel, 1
  {
    var v := Eval(fp, fuel, value, st);
    if v.result.Raise? then v
    else
      match AssignChain(v.state.stack, name, v.result.value)
      case Err(d) => FailEval(d, v.state)
      case Ok(c) =>
        AssignAlongChain(v.state.stack, name, v.result.value);
        Evaluated(Yield(v.result.value), v.state.(stack := c))
  }

  /**
   * `evalCallExpr`: only an identifier can be called; `print` is handled
   * before any lookup; the argument count must match before the call is
   * made.
   */
  function EvalCall(fp: FloatOps, fuel: nat, callee: Expr, args: seq<Expr>, st: State): (r: Evaluated)
    requires |st.stack| > 0
    ensures |r.state.stack| >= |st.stack|
    ensures st.output <= r.state.output
    decreases fuel, |args| + 4
  {
    if !callee.IdentifierExpr? then FailEval(InvalidCallee, st)
    else if callee.ident.identifierName == "print" then Print(fp, fuel, args, st)
    else
      match LookupFunc(st.stack, callee.ident.identifierName)
      case Err(d) => FailEval(d, st)
      case Ok(f) =>
        if |args| != |f.parameters| then FailEval(WrongArgumentCount, st)
        else Invocation(fp, fuel, f, args, st)
  }

  /**
   * A call from the push to the pop: each argument is evaluated and bound
   * in the node innermost at that moment, the body runs, a return signal supplies the result (null without
   * one), and exactly one node is popped; loop signals and errors leave
   * without the pop.
   */
  function Invocation(fp: FloatOps, fuel: nat, f: FuncDecl, args: seq<Expr>, st: State): (r: Evaluated)
    requires |st.stack| > 0 && |args| == |f.parameters|
    ensures |r.state.stack| >= |st.stack|
    ensures st.output <= r.state.output
    decreases fuel, |args| + 3
  {
    var body := CallBody(fp, fuel, f, args, Push(st));
    match body.completion
    case Normal => Evaluated(Yield(None), Pop(body.state))
    case Abrupt(ReturnSignal(v)) => Evaluated(Yield(v), Pop(body.state))
    case Abrupt(sig) => Evaluated(Raise(sig), body.state)
  }

  /** The `try` block of `evalCallExpr`: bind the arguments in order, then run the body. */
  function CallBody(fp: FloatOps, fuel: nat, f: FuncDecl, args: seq<Expr>, st: State): (r: Executed)
    requires |st.stack| > 0 && |args| == |f.parameters|
    ensures |r.state.stack| >= |st.stack|
    ensures st.output <= r.state.output
    decreases fuel, |args| + 2
  {
    var bound := BindArgs(fp, fuel, f.parameters, args, st);
    if bound.completion.Normal? then Exec(fp, fuel, f.body, bound.state) else bound
  }

  /** The argument loop of `evalCallExpr`. */
  function BindArgs(fp: FloatOps, fuel: nat, params: seq<Parameter>, args: seq<Expr>, st: State): (r: Executed)
    requires |st.stack| > 0 && |params| == |args|
    ensures |r.state.stack| >= |st.stack|
    ensures st.output <= r.state.output
    decreases fuel, |args| + 1
  {
    if |args| == 0 then Executed(Normal, st)
    else
      var first := DefineEvaluated(fp, fuel, params[0].name.identifierName, args[0], st);
      if first.completion.Normal? then BindArgs(fp, fuel, params[1..], args[1..], first.state) else first
  }

  /** The built-in `print` (StandardFunctions.cs): write each argument's value in turn; the call yields null. */
  function Print(fp: FloatOps, fuel: nat, args: seq<Expr>, st: State): (r: Evaluated)
    requires |st.stack| > 0
    ensures |r.state.stack| >= |st.stack|
    ensures st.output <= r.state.output
    ensures r.result.Yield? ==> r.result.value.None?
    decreases fuel, |args| + 1
  {
    if |args| == 0 then Evaluated(Yield(None), st)
    else
      var v := Eval(fp, fuel, args[0], st);
      if v.result.Raise? then v
      else Print(fp, fuel, args[1..], v.state.(output := v.state.output + Render(fp, v.result.value)))
  }

  // ---------------------------------------------------------------------
  // Whole programs

  /** `load`: every top-level statement must be a function declaration with a fresh name. */
  function Load(statements: seq<Stmt>, global: Frame): Result<Frame>
    decreases |statements|
  {
    if |statements| == 0 then Ok(global)
    else
      match statements[0]
      case FuncDeclarationStmt(rtype, name, parameters, body) =>
        var next :- DeclareFunc(global, name.identifierName, FuncDecl(rtype, name, parameters, body));
        Load(statements[1..], next)
      case _ => Err(NonFunctionAtTopLevel)
  }

  /**
   * `run`: look the function up in the global node and run its body; a
   * return signal ends it normally, and a loop signal that escapes it is an
   * uncaught exception.
   */
  function RunMain(fp: FloatOps, fuel: nat, functionName: string, global: Chain, st: State): (r: Executed)
    requires |st.stack| > 0
    ensures r.completion.Normal? || r.completion.signal.ErrorSignal? || r.completion.signal.OutOfFuel?
    ensures st.output <= r.state.output
  {
    match LookupFunc(global, functionName)
    case Err(d) => Fail(d, st)
    case Ok(f) =>
      var run := Exec(fp, fuel, f.body, st);
      match run.completion
      case Normal => run
      case Abrupt(ReturnSignal(_)) => Executed(Normal, run.state)
      case Abrupt(LoopSignal(_)) => Fail(UncaughtLoopControl, run.state)
      case Abrupt(_) => run
  }
}
