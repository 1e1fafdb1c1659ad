/**
 * The diagnostics sink. `reportError` ends the process, so every error is
 * final: the model turns each one into a failure value that its callers
 * propagate unchanged (the first error reached wins). Uncaught host
 * exceptions (a null dereference, an overflow, division by zero) end the
 * process too and are failures of the same kind.
 */
module Diagnostics {
  import opened Tokens

  datatype Diagnostic =
    // scanner
    | UnexpectedCharacter(c: char)
    | UnterminatedString
    | IntLiteralOverflow(text: string)
    // parser
    // `error(token, msg)`: the file being parsed, the offending token
    // (its line and rendering are part of the report) and the message
    | ParseError(file: string, token: Token, message: string)
    // the file could not be read; `includedFrom` names the including file
    | FileNotFound(path: string, includedFrom: Option<string>)
    // load
    | NonFunctionAtTopLevel
    | DuplicateFunction(name: string)
    // runtime
    | DuplicateVariable(name: string)
    | VariableNotFound(name: string)
    // `assignVar` reports its own message ("Variable not found (1)")
    | UnboundAssignment(name: string)
    | FunctionNotFound(name: string)
    | InvalidOperandTypes(op: string)
    | ComparingDifferentTypes
    | IncompatibleComparison
    | InvalidExpression
    | InvalidStatement
    | InvalidBinaryOperator
    | InvalidCallee
    | WrongArgumentCount
    | DivideByZero
    | ArithmeticOverflow
    | NullReference
    | LastOfEmptyBlock
    | UncaughtLoopControl

  datatype Option<+T> = None | Some(value: T)

  datatype Result<+T> = Ok(value: T) | Err(error: Diagnostic) {
    predicate IsFailure() { Err? }
    function PropagateFailure<U>(): Result<U>
      requires Err?
    {
      Err(error)
    }
    function Extract(): T
      requires Ok?
    {
      value
    }
  }

  /** Outcome of an operation that yields nothing but may fail. */
  datatype Outcome = Pass | Fail(error: Diagnostic) {
    predicate IsFailure() { Fail? }
    function PropagateFailure<U>(): Result<U>
      requires Fail?
    {
      Err(error)
    }
  }
}
