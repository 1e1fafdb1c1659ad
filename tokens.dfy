/**
 * Lexical units of Culebra: the token kinds and the token record with its
 * literal payloads, its default value and its display form.
 */
module Tokens {
  import opened Numerics

  /**
   * The token kinds. Like the host enumeration they are numbers, given in
   * declaration order from 0.
   */
  newtype TokenType = k: int | 0 <= k < 43

  const Plus: TokenType := 0
  const Minus: TokenType := 1
  const Star: TokenType := 2
  const Slash: TokenType := 3
  const Comma: TokenType := 4
  const Dot: TokenType := 5
  const Mod: TokenType := 6
  const Colon: TokenType := 7
  const DColon: TokenType := 8
  const Assign: TokenType := 9
  const Eq: TokenType := 10
  const NotEq: TokenType := 11
  const Lt: TokenType := 12
  const Gt: TokenType := 13
  const Leq: TokenType := 14
  const Geq: TokenType := 15
  const Semicolon: TokenType := 16
  const And: TokenType := 17
  const Not: TokenType := 18
  const Or: TokenType := 19
  const LeftParen: TokenType := 20
  const RightParen: TokenType := 21
  const LeftSqr: TokenType := 22
  const RightSqr: TokenType := 23
  const LeftCur: TokenType := 24
  const RightCur: TokenType := 25
  const If: TokenType := 26
  const Else: TokenType := 27
  const For: TokenType := 28
  const While: TokenType := 29
  const Break: TokenType := 30
  const Continue: TokenType := 31
  const Return: TokenType := 32
  const Var: TokenType := 33
  const Func: TokenType := 34
  const Include: TokenType := 35
  const IntLit: TokenType := 36
  const DoubleLit: TokenType := 37
  const BoolLit: TokenType := 38
  const StringLit: TokenType := 39
  const Identifier: TokenType := 40
  const Error: TokenType := 41
  const Eof: TokenType := 42

  /** The enumerators' names as the host prints them, indexed by kind. */
  const Names: seq<string> := [
    "PLUS", "MINUS", "STAR", "SLASH", "COMMA", "DOT", "MOD", "COLON", "DCOLON", "ASSIGN",
    "EQ", "NOT_EQ", "LT", "GT", "LEQ", "GEQ", "SEMICOLON", "AND", "NOT", "OR",
    "LEFT_PAREN", "RIGHT_PAREN", "LEFT_SQR", "RIGHT_SQR", "LEFT_CUR", "RIGHT_CUR", "IF",
    "ELSE", "FOR", "WHILE", "BREAK", "CONTINUE", "RETURN", "VAR", "FUNC", "INCLUDE",
    "INT_LIT", "DOUBLE_LIT", "BOOL_LIT", "STRING_LIT", "IDENTIFIER", "ERROR", "EOF"
  ]

  /** The enumerator's name as the host prints it. */
  function Name(k: TokenType): string
  {
    Names[k]
  }

  /**
   * A token. Exactly one payload is meaningful for a literal or identifier
   * kind; the others keep their default values.
   */
  datatype Token = Token(
    kind: TokenType,
    identifierName: string,
    stringValue: string,
    intValue: int32,
    doubleValue: Float64,
    boolValue: bool,
    line: int)

  /** `new Token()`: kind EOF, empty strings, zero numbers, false, line 0. */
  const Default: Token := Token(Eof, "", "", 0, FLOAT_ZERO, false, 0)

  /** `new Token(line)`: the default token on the given line. */
  function At(line: int): Token
  {
    Default.(line := line)
  }

  /** A token of the given kind and line carrying no payload (`new Token(line){type = k}`). */
  function Simple(kind: TokenType, line: int): Token
  {
    At(line).(kind := kind)
  }

  /** `Boolean.ToString()`. */
  function BoolText(b: bool): string
  {
    if b then "True" else "False"
  }

  /** Display form of a string literal: quoted in full up to 20 characters, else 17 characters and a marker. */
  function StringView(s: string): string
  {
    if |s| > 20 then "\"" + s[..17] + "\" [...] " else "\"" + s + "\""
  }

  /** `Token.ToString`: the kind's name, then ": " and the payload for literals and identifiers. */
  function ToString(fp: FloatOps, t: Token): string
  {
    Name(t.kind) +
    if t.kind == IntLit then ": " + IntToString(t.intValue as int)
    else if t.kind == DoubleLit then ": " + fp.show(t.doubleValue)
    else if t.kind == StringLit then ": " + StringView(t.stringValue)
    else if t.kind == BoolLit then ": " + BoolText(t.boolValue)
    else if t.kind == Identifier then ": " + t.identifierName
    else ""
  }

  predicate HasPayload(k: TokenType)
  {
    k in {IntLit, DoubleLit, StringLit, BoolLit, Identifier}
  }

  /** The text that follows the kind name and ": " in a display form. */
  function PayloadPart(fp: FloatOps, t: Token): string
    requires HasPayload(t.kind)
  {
    if t.kind == IntLit then IntToString(t.intValue as int)
    else if t.kind == DoubleLit then fp.show(t.doubleValue)
    else if t.kind == StringLit then StringView(t.stringValue)
    else if t.kind == BoolLit then BoolText(t.boolValue)
    else t.identifierName
  }

  /**
   * The display form always starts with the kind's name; kinds without a
   * payload display as their name alone, the others add ": " and the payload.
   */
  lemma DisplayNamesKind(fp: FloatOps, t: Token)
    ensures Name(t.kind) <= ToString(fp, t)
    ensures !HasPayload(t.kind) ==> ToString(fp, t) == Name(t.kind)
    ensures HasPayload(t.kind) ==> ToString(fp, t) == Name(t.kind) + ": " + PayloadPart(fp, t)
  {
  }

  /** An identifier's display form carries its name. */
  lemma IdentifierDisplay(fp: FloatOps, t: Token)
    requires t.kind == Identifier
    ensures PayloadPart(fp, t) == t.identifierName
  {
  }

  /** A string literal's display form quotes it in full up to 20 characters, else its first 17. */
  lemma StringDisplay(fp: FloatOps, t: Token)
    requires t.kind == StringLit
    ensures |t.stringValue| <= 20 ==> PayloadPart(fp, t) == "\"" + t.stringValue + "\""
    ensures |t.stringValue| > 20 ==> PayloadPart(fp, t) == "\"" + t.stringValue[..17] + "\" [...] "
  {
  }

  /** An integer literal's display form is its decimal value, which reads back to the same number. */
  lemma IntegerDisplay(fp: FloatOps, t: Token)
    requires t.kind == IntLit
    ensures t.intValue >= 0 ==>
      (forall i :: 0 <= i < |PayloadPart(fp, t)| ==> IsDigit(PayloadPart(fp, t)[i])) &&
      DigitsValue(PayloadPart(fp, t)) == t.intValue as int
    ensures t.intValue < 0 ==>
      PayloadPart(fp, t)[0] == '-' &&
      (forall i :: 1 <= i < |PayloadPart(fp, t)| ==> IsDigit(PayloadPart(fp, t)[i])) &&
      DigitsValue(PayloadPart(fp, t)[1..]) == -(t.intValue as int)
  {
    var n := t.intValue as int;
    assert PayloadPart(fp, t) == IntToString(n);
    if n >= 0 {
      DigitsValueOfNatToString(n);
    } else {
      assert IntToString(n)[1..] == NatToString(-n);
      DigitsValueOfNatToString(-n);
    }
  }

  /** `new Token(line)` differs from `new Token()` in its line only. */
  lemma AtIsDefaultButLine(line: int)
    ensures At(line).line == line && At(line).(line := 0) == Default
    ensures At(line).kind == Eof && At(line).identifierName == "" && At(line).stringValue == ""
    ensures At(line).intValue == 0 && At(line).doubleValue == FLOAT_ZERO && !At(line).boolValue
  {
  }
}
