/**
 * The scanner: one character of lookahead, maximal munch for two-character
 * operators, a keyword table and escape handling in string literals.
 *
 * `Step` and `Lex` are the reference definition of one scanning step and of
 * a whole scan; the `Scanner` class is the imperative scanner, whose
 * methods are proved to compute exactly what the reference definition says.
 */
module Scanning {
  import opened Numerics
  import opened Tokens
  import opened Diagnostics

  /** The keyword table; `true` and `false` map to the boolean literal kind. */
  function Keyword(text: string): Option<TokenType> {
    match text
    case "and" => Some(And)
    case "or" => Some(Or)
    case "not" => Some(Not)
    case "true" => Some(BoolLit)
    case "false" => Some(BoolLit)
    case "if" => Some(If)
    case "else" => Some(Else)
    case "for" => Some(For)
    case "while" => Some(While)
    case "break" => Some(Break)
    case "continue" => Some(Continue)
    case "return" => Some(Return)
    case "var" => Some(Var)
    case "func" => Some(Func)
    case "include" => Some(Include)
    case _ => None
  }

  predicate IsAlpha(c: char) { ('a' <= c <= 'z') || ('A' <= c <= 'Z') || c == '_' }
  predicate IsAlphaNumeric(c: char) { IsAlpha(c) || IsDigit(c) }
  /** The runs of characters the scanner skips over with a loop. */
  datatype Run = Digits | WordChars | ToLineEnd | ToQuote

  predicate InRun(k: Run, c: char)
  {
    match k
    case Digits => IsDigit(c)
    case WordChars => IsAlphaNumeric(c)
    case ToLineEnd => c != '\n'
    case ToQuote => c != '"'
  }

  /** The end of the longest run of kind `k` that starts at `pos`. */
  function SpanWhile(src: string, pos: nat, k: Run): (e: nat)
    requires pos <= |src|
    ensures pos <= e <= |src|
    ensures e < |src| ==> !InRun(k, src[e])
    decreases |src| - pos
  {
    if pos < |src| && InRun(k, src[pos]) then SpanWhile(src, pos + 1, k) else pos
  }

  /** Every character of the run belongs to it. */
  lemma {:induction false} SpanWhileRun(src: string, pos: nat, k: Run)
    requires pos <= |src|
    ensures forall i :: pos <= i < SpanWhile(src, pos, k) ==> InRun(k, src[i])
    decreases |src| - pos
  {
    if pos < |src| && InRun(k, src[pos]) {
      SpanWhileRun(src, pos + 1, k);
    }
  }

  /** Number of line feeds in `src[lo..hi]`. */
  function LineFeeds(src: string, lo: nat, hi: nat): nat
    requires lo <= hi <= |src|
    decreases hi
  {
    if lo == hi then 0 else LineFeeds(src, lo, hi - 1) + (if src[hi - 1] == '\n' then 1 else 0)
  }

  /** What one scanning step produced: at most one token, the next position and the line counter. */
  datatype Lexeme = Lexeme(emitted: Option<Token>, next: nat, line: nat)

  function Emit(kind: TokenType, next: nat, line: nat): Lexeme
  {
    Lexeme(Some(Simple(kind, line)), next, line)
  }

  /** A character that may pair with the one at `p` to form a two-character token. */
  function Munch(src: string, p: nat, second: char, two: TokenType, one: TokenType, line: nat): Lexeme
    requires p <= |src|
  {
    if p < |src| && src[p] == second then Emit(two, p + 1, line) else Emit(one, p, line)
  }

  /**
   * `formatEscapes`: a backslash followed by `n` or `t` becomes a line feed
   * or a tab; a backslash followed by anything else is dropped; a final
   * backslash is kept.
   */
  function Unescape(s: string): (r: string)
    ensures |r| <= |s|
  {
    if |s| == 0 then ""
    else if s[0] == '\\' && |s| > 1 then
      if s[1] == 'n' then "\n" + Unescape(s[2..])
      else if s[1] == 't' then "\t" + Unescape(s[2..])
      else Unescape(s[1..])
    else [s[0]] + Unescape(s[1..])
  }

  /** The token an identifier-shaped lexeme becomes. */
  function WordToken(text: string, line: nat): (t: Token)
  {
    match Keyword(text)
    case None => At(line).(kind := Identifier, identifierName := text)
    case Some(kind) =>
      if kind == BoolLit then At(line).(kind := BoolLit, boolValue := text == "true")
      else Simple(kind, line)
  }

  /** `scanIdentifier`, started after the first letter at `start`. */
  function WordLexeme(src: string, start: nat, line: nat): Lexeme
    requires start < |src|
  {
    var e := SpanWhile(src, start + 1, WordChars);
    Lexeme(Some(WordToken(src[start..e], line)), e, line)
  }

  /** Whether a number whose integer digits end at `e` continues with a fraction. */
  predicate HasFraction(src: string, e: nat)
  {
    e + 1 < |src| && src[e] == '.' && IsDigit(src[e + 1])
  }

  /** `scanNumber`, started after the first digit at `start`. */
  function NumberLexeme(fp: FloatOps, src: string, start: nat, line: nat): Result<Lexeme>
    requires start < |src| && IsDigit(src[start])
  {
    var e := SpanWhile(src, start + 1, Digits);
    if HasFraction(src, e) then
      var f := SpanWhile(src, e + 1, Digits);
      Ok(Lexeme(Some(At(line).(kind := DoubleLit, doubleValue := fp.parse(src[start..f]))), f, line))
    else
      var text := src[start..e];
      var v := DigitsValue(text);
      if v > INT_MAX then Err(IntLiteralOverflow(text))
      else Ok(Lexeme(Some(At(line).(kind := IntLit, intValue := v as int32)), e, line))
  }

  /** `NumberLexeme` when the integer digits end at `e` and a fraction follows, ending at `f`. */
  lemma FractionCase(fp: FloatOps, src: string, start: nat, line: nat, e: nat, f: nat)
    requires start < |src| && IsDigit(src[start]) && e == SpanWhile(src, start + 1, Digits)
    requires HasFraction(src, e) && f == SpanWhile(src, e + 1, Digits)
    ensures NumberLexeme(fp, src, start, line) ==
      Ok(Lexeme(Some(At(line).(kind := DoubleLit, doubleValue := fp.parse(src[start..f]))), f, line))
  {
  }

  /** `NumberLexeme` when the integer digits end at `e` and no fraction follows. */
  lemma IntegerCase(fp: FloatOps, src: string, start: nat, line: nat, e: nat)
    requires start < |src| && IsDigit(src[start]) && e == SpanWhile(src, start + 1, Digits)
    requires !HasFraction(src, e)
    ensures NumberLexeme(fp, src, start, line) ==
      if DigitsValue(src[start..e]) > INT_MAX then Err(IntLiteralOverflow(src[start..e]))
      else Ok(Lexeme(Some(At(line).(kind := IntLit, intValue := DigitsValue(src[start..e]) as int32)), e, line))
  {
  }

  /** `StringLexeme` once the position `e` of the closing quote, or the end, is known. */
  lemma StringCase(src: string, start: nat, line: nat, e: nat)
    requires start < |src| && e == SpanWhile(src, start + 1, ToQuote)
    ensures StringLexeme(src, start, line) ==
      if e == |src| then Err(UnterminatedString)
      else
        var l := line + LineFeeds(src, start + 1, e);
        Ok(Lexeme(Some(At(l).(kind := StringLit, stringValue := Unescape(src[start + 1..e]))), e + 1, l))
  {
  }

  /** `scanString`, started after the opening quote at `start`. */
  function StringLexeme(src: string, start: nat, line: nat): Result<Lexeme>
    requires start < |src|
  {
    var e := SpanWhile(src, start + 1, ToQuote);
    if e == |src| then Err(UnterminatedString)
    else
      var body := src[start + 1..e];
      var l := line + LineFeeds(src, start + 1, e);
      Ok(Lexeme(Some(At(l).(kind := StringLit, stringValue := Unescape(body))), e + 1, l))
  }

  /** The kinds of the characters that are tokens by themselves whatever follows. */
  function Punctuator(c: char): TokenType
  {
    match c
    case '(' => LeftParen
    case ')' => RightParen
    case '{' => LeftCur
    case '}' => RightCur
    case '[' => LeftSqr
    case ']' => RightSqr
    case '+' => Plus
    case '-' => Minus
    case '*' => Star
    case ',' => Comma
    case '.' => Dot
    case '%' => Mod
    case _ => Semicolon
  }

  /** `scanToken`: one step of the scanner at `pos`. */
  function Step(fp: FloatOps, src: string, pos: nat, line: nat): Result<Lexeme>
    requires pos < |src|
  {
    var p := pos + 1;
    match src[pos]
    case '(' | ')' | '{' | '}' | '[' | ']' | '+' | '-' | '*' | ',' | '.' | '%' | ';' =>
      Ok(Emit(Punctuator(src[pos]), p, line))
    case ':' => Ok(Munch(src, p, ':', DColon, Colon, line))
    case '=' => Ok(Munch(src, p, '=', Eq, Assign, line))
    case '>' => Ok(Munch(src, p, '=', Geq, Gt, line))
    case '<' => Ok(Munch(src, p, '=', Leq, Lt, line))
    case '!' => Ok(Munch(src, p, '=', NotEq, Not, line))
    case '/' =>
      if p < |src| && src[p] == '/' then Ok(Lexeme(None, SpanWhile(src, p + 1, ToLineEnd), line))
      else Ok(Emit(Slash, p, line))
    case ' ' | '\r' | '\t' => Ok(Lexeme(None, p, line))
    case '\n' => Ok(Lexeme(None, p, line + 1))
    case '"' => StringLexeme(src, pos, line)
    case c =>
      if IsDigit(c) then NumberLexeme(fp, src, pos, line)
      else if IsAlpha(c) then Ok(WordLexeme(src, pos, line))
      else Err(UnexpectedCharacter(c))
  }

  function OptSeq<T>(o: Option<T>): seq<T>
  {
    if o.Some? then [o.value] else []
  }

  /** `tokenize` from position `pos` with the line counter at `line`. */
  function Lex(fp: FloatOps, src: string, pos: nat, line: nat): Result<seq<Token>>
    requires pos <= |src|
    decreases |src| - pos
  {
    if pos == |src| then Ok([Simple(Eof, line)])
    else
      var lx :- Step(fp, src, pos, line);
      StepAdvances(fp, src, pos, line);
      var rest :- Lex(fp, src, lx.next, lx.line);
      Ok(OptSeq(lx.emitted) + rest)
  }

  /** `tokens` followed by the tokens of `r`, or the failure of `r`. */
  function Prepend(tokens: seq<Token>, r: Result<seq<Token>>): Result<seq<Token>>
  {
    if r.Ok? then Ok(tokens + r.value) else r
  }

  /** The scan of a whole source text. */
  function Tokenize(fp: FloatOps, src: string): Result<seq<Token>>
  {
    Lex(fp, src, 0, 1)
  }

  lemma {:induction false} LineFeedsSplit(src: string, a: nat, b: nat, c: nat)
    requires a <= b <= c <= |src|
    ensures LineFeeds(src, a, c) == LineFeeds(src, a, b) + LineFeeds(src, b, c)
    decreases c - b
  {
    if b < c {
      LineFeedsSplit(src, a, b, c - 1);
    }
  }

  lemma LineFeedsStep(src: string, lo: nat, hi: nat)
    requires lo <= hi < |src|
    ensures LineFeeds(src, lo, hi + 1) == LineFeeds(src, lo, hi) + if src[hi] == '\n' then 1 else 0
  {
  }

  lemma {:induction false} LineFeedsNone(src: string, a: nat, b: nat)
    requires a <= b <= |src|
    requires forall i :: a <= i < b ==> src[i] != '\n'
    ensures LineFeeds(src, a, b) == 0
    decreases b - a
  {
    if a < b {
      LineFeedsNone(src, a, b - 1);
    }
  }

  /** The characters `scanToken` handles by its switch rather than by its default branch. */
  const SwitchChars: set<char> := {'(', ')', '{', '}', '[', ']', '+', '-', '*', ',', '.', '%',
                                   ':', ';', '=', '>', '<', '!', '/', ' ', '\r', '\t', '\n', '"'}

  /** The characters of the switch that start an operator or a comment. */
  const OperatorChars: set<char> := {'(', ')', '{', '}', '[', ']', '+', '-', '*', ',', '.', '%',
                                     ':', ';', '=', '>', '<', '!', '/'}

  /** The quotes around a string literal are not line feeds. */
  lemma QuotedLineFeeds(src: string, pos: nat, e: nat)
    requires pos < e < |src| && src[pos] == '"' && src[e] == '"'
    ensures LineFeeds(src, pos, e + 1) == LineFeeds(src, pos + 1, e)
  {
    LineFeedsStep(src, pos, pos);
    LineFeedsSplit(src, pos, pos + 1, e);
    LineFeedsStep(src, pos, e);
  }

  lemma StringAdvances(src: string, pos: nat, line: nat)
    requires pos < |src| && src[pos] == '"'
    ensures var st := StringLexeme(src, pos, line);
      st.Ok? ==>
        pos < st.value.next <= |src| &&
        st.value.line == line + LineFeeds(src, pos, st.value.next) &&
        st.value.emitted.Some? && st.value.emitted.value.line == st.value.line as int &&
        st.value.emitted.value.kind == StringLit
  {
    var e := SpanWhile(src, pos + 1, ToQuote);
    if e < |src| {
      assert src[e] == '"';
      QuotedLineFeeds(src, pos, e);
    }
  }

  lemma NoLineFeeds(src: string, pos: nat, next: nat)
    requires pos < next <= |src| && src[pos] != '\n'
    requires forall i :: pos < i < next ==> src[i] != '\n'
    ensures LineFeeds(src, pos, next) == 0
  {
    LineFeedsNone(src, pos, next);
  }

  /**
   * What a successful step promises: at least one character consumed and no
   * more than remain, the line counter grown by the line feeds consumed,
   * and an emitted token that carries the updated line and is not EOF.
   */
  predicate WellAdvanced(src: string, pos: nat, line: nat, st: Result<Lexeme>)
  {
    st.Ok? ==>
      pos < st.value.next <= |src| &&
      st.value.line == line + LineFeeds(src, pos, st.value.next) &&
      (st.value.emitted.Some? ==> st.value.emitted.value.line == st.value.line as int &&
                                  st.value.emitted.value.kind != Eof)
  }

  lemma NumberAdvances(fp: FloatOps, src: string, pos: nat, line: nat)
    requires pos < |src| && IsDigit(src[pos])
    ensures WellAdvanced(src, pos, line, NumberLexeme(fp, src, pos, line))
  {
    var st := NumberLexeme(fp, src, pos, line);
    if st.Ok? {
      var e := SpanWhile(src, pos + 1, Digits);
      SpanWhileRun(src, pos + 1, Digits);
      if HasFraction(src, e) {
        SpanWhileRun(src, e + 1, Digits);
      }
      NoLineFeeds(src, pos, st.value.next);
    }
  }

  lemma WordAdvances(src: string, pos: nat, line: nat)
    requires pos < |src| && IsAlpha(src[pos])
    ensures WellAdvanced(src, pos, line, Ok(WordLexeme(src, pos, line)))
  {
    SpanWhileRun(src, pos + 1, WordChars);
    NoLineFeeds(src, pos, WordLexeme(src, pos, line).next);
  }

  /** Outside its switch, `scanToken` scans a number, an identifier, or fails. */
  lemma DefaultStep(fp: FloatOps, src: string, pos: nat, line: nat)
    requires pos < |src| && src[pos] !in SwitchChars
    ensures Step(fp, src, pos, line) ==
      if IsDigit(src[pos]) then NumberLexeme(fp, src, pos, line)
      else if IsAlpha(src[pos]) then Ok(WordLexeme(src, pos, line))
      else Err(UnexpectedCharacter(src[pos]))
  {
  }

  lemma DefaultAdvances(fp: FloatOps, src: string, pos: nat, line: nat)
    requires pos < |src| && src[pos] !in SwitchChars
    ensures WellAdvanced(src, pos, line, Step(fp, src, pos, line))
  {
    DefaultStep(fp, src, pos, line);
    if IsDigit(src[pos]) {
      NumberAdvances(fp, src, pos, line);
    } else if IsAlpha(src[pos]) {
      WordAdvances(src, pos, line);
    }
  }

  lemma SwitchAdvances(fp: FloatOps, src: string, pos: nat, line: nat)
    requires pos < |src| && src[pos] in SwitchChars - {'"', '\n', '/', ':', '=', '>', '<', '!'}
    ensures WellAdvanced(src, pos, line, Step(fp, src, pos, line))
  {
  }

  lemma MunchAdvances(fp: FloatOps, src: string, pos: nat, line: nat)
    requires pos < |src| && src[pos] in {'/', ':', '=', '>', '<', '!'}
    ensures WellAdvanced(src, pos, line, Step(fp, src, pos, line))
  {
    if pos + 1 < |src| {
      SpanWhileRun(src, pos + 2, ToLineEnd);
    }
    NoLineFeeds(src, pos, Step(fp, src, pos, line).value.next);
  }

  lemma StepAdvances(fp: FloatOps, src: string, pos: nat, line: nat)
    requires pos < |src|
    ensures WellAdvanced(src, pos, line, Step(fp, src, pos, line))
  {
    var c := src[pos];
    if c == '"' {
      StringAdvances(src, pos, line);
    } else if c == '\n' {
    } else if c in {'/', ':', '=', '>', '<', '!'} {
      MunchAdvances(fp, src, pos, line);
    } else if c in SwitchChars {
      SwitchAdvances(fp, src, pos, line);
    } else {
      DefaultAdvances(fp, src, pos, line);
    }
  }

  /** A scan that succeeds from a position inside the text is one step followed by the scan of the rest. */
  lemma LexUnfold(fp: FloatOps, src: string, pos: nat, line: nat)
    requires pos < |src| && Lex(fp, src, pos, line).Ok?
    ensures Step(fp, src, pos, line).Ok?
    ensures var lx := Step(fp, src, pos, line).value;
      WellAdvanced(src, pos, line, Step(fp, src, pos, line)) &&
      Lex(fp, src, lx.next, lx.line).Ok? &&
      Lex(fp, src, pos, line).value == OptSeq(lx.emitted) + Lex(fp, src, lx.next, lx.line).value
  {
    StepAdvances(fp, src, pos, line);
  }

  /** Only the last token may be EOF. */
  predicate OnlyLastIsEof(ts: seq<Token>)
  {
    forall i :: 0 <= i < |ts| - 1 ==> ts[i].kind != Eof
  }

  /** Line numbers start at `line` or later and never decrease from one token to the next. */
  predicate LinesFrom(ts: seq<Token>, line: int)
  {
    (|ts| > 0 ==> line <= ts[0].line) &&
    forall i :: 0 < i < |ts| ==> ts[i - 1].line <= ts[i].line
  }

  /** Ordered neighbours give ordered pairs. */
  lemma {:induction false} LinesFromPairs(ts: seq<Token>, line: int)
    requires LinesFrom(ts, line)
    ensures forall i, j :: 0 <= i <= j < |ts| ==> line <= ts[i].line <= ts[j].line
    decreases |ts|
  {
    if |ts| > 1 {
      var init := ts[..|ts| - 1];
      assert LinesFrom(init, line);
      LinesFromPairs(init, line);
      forall i, j | 0 <= i <= j < |ts| ensures line <= ts[i].line <= ts[j].line {
        if j < |ts| - 1 {
          assert ts[i] == init[i] && ts[j] == init[j];
        } else if i < j {
          assert ts[i] == init[i] && ts[j - 1] == init[j - 1];
        } else {
          assert ts[j - 1] == init[j - 1];
        }
      }
    }
  }

  lemma ConsNonEof(o: Option<Token>, rest: seq<Token>)
    requires |rest| > 0 && OnlyLastIsEof(rest) && (o.Some? ==> o.value.kind != Eof)
    ensures var ts := OptSeq(o) + rest;
      |ts| > 0 && ts[|ts| - 1] == rest[|rest| - 1] && OnlyLastIsEof(ts)
  {
  }

  lemma ConsLines(o: Option<Token>, rest: seq<Token>, line: int, next: int)
    requires LinesFrom(rest, next) && line <= next && (o.Some? ==> o.value.line == next)
    ensures LinesFrom(OptSeq(o) + rest, line)
  {
    var ts := OptSeq(o) + rest;
    if o.Some? {
      forall i | 0 < i < |ts| ensures ts[i - 1].line <= ts[i].line {
        if i > 1 {
          assert ts[i - 1] == rest[i - 2] && ts[i] == rest[i - 1];
        }
      }
    } else {
      assert ts == rest;
    }
  }

  /** The token list ends in exactly one EOF token, which carries no payload. */
  lemma {:induction false} LexEndsWithEof(fp: FloatOps, src: string, pos: nat, line: nat)
    requires pos <= |src|
    ensures var r := Lex(fp, src, pos, line);
      r.Ok? ==>
        |r.value| > 0 &&
        r.value[|r.value| - 1] == Simple(Eof, r.value[|r.value| - 1].line) &&
        OnlyLastIsEof(r.value)
    decreases |src| - pos
  {
    var r := Lex(fp, src, pos, line);
    if pos < |src| && r.Ok? {
      LexUnfold(fp, src, pos, line);
      var lx := Step(fp, src, pos, line).value;
      LexEndsWithEof(fp, src, lx.next, lx.line);
      ConsNonEof(lx.emitted, Lex(fp, src, lx.next, lx.line).value);
    }
  }

  /** The last token's line is the starting line plus the line feeds that remain. */
  lemma {:induction false} LexFinalLine(fp: FloatOps, src: string, pos: nat, line: nat)
    requires pos <= |src|
    ensures var r := Lex(fp, src, pos, line);
      r.Ok? ==> |r.value| > 0 && r.value[|r.value| - 1].line == line + LineFeeds(src, pos, |src|)
    decreases |src| - pos
  {
    var r := Lex(fp, src, pos, line);
    if pos < |src| && r.Ok? {
      LexUnfold(fp, src, pos, line);
      var lx := Step(fp, src, pos, line).value;
      LexFinalLine(fp, src, lx.next, lx.line);
      LineFeedsSplit(src, pos, lx.next, |src|);
      var rest := Lex(fp, src, lx.next, lx.line).value;
      assert r.value[|r.value| - 1] == rest[|rest| - 1];
    }
  }

  /** Token lines never decrease and never fall below the starting line. */
  lemma {:induction false} LexLinesOrdered(fp: FloatOps, src: string, pos: nat, line: nat)
    requires pos <= |src|
    ensures var r := Lex(fp, src, pos, line);
      r.Ok? ==> LinesFrom(r.value, line)
    decreases |src| - pos
  {
    var r := Lex(fp, src, pos, line);
    if pos < |src| && r.Ok? {
      LexUnfold(fp, src, pos, line);
      var lx := Step(fp, src, pos, line).value;
      LexLinesOrdered(fp, src, lx.next, lx.line);
      ConsLines(lx.emitted, Lex(fp, src, lx.next, lx.line).value, line, lx.line);
    }
  }

  /** A whole scan: one final EOF on line 1 plus the number of line feeds, and ordered lines from 1. */
  lemma TokenizeShape(fp: FloatOps, src: string)
    ensures var r := Tokenize(fp, src);
      r.Ok? ==>
        |r.value| > 0 &&
        r.value[|r.value| - 1] == Simple(Eof, 1 + LineFeeds(src, 0, |src|)) &&
        (forall i :: 0 <= i < |r.value| - 1 ==> r.value[i].kind != Eof) &&
        (forall i, j :: 0 <= i <= j < |r.value| ==> 1 <= r.value[i].line <= r.value[j].line)
  {
    LexEndsWithEof(fp, src, 0, 1);
    LexFinalLine(fp, src, 0, 1);
    LexLinesOrdered(fp, src, 0, 1);
    var r := Tokenize(fp, src);
    if r.Ok? {
      LinesFromPairs(r.value, 1);
    }
  }

  /** The punctuation tokens a lone character stands for. */
  function OneCharOperator(c: char): Option<TokenType>
  {
    if c == '(' then Some(LeftParen) else if c == ')' then Some(RightParen)
    else if c == '{' then Some(LeftCur) else if c == '}' then Some(RightCur)
    else if c == '[' then Some(LeftSqr) else if c == ']' then Some(RightSqr)
    else if c == '+' then Some(Plus) else if c == '-' then Some(Minus)
    else if c == '*' then Some(Star) else if c == '/' then Some(Slash)
    else if c == ',' then Some(Comma) else if c == '.' then Some(Dot)
    else if c == '%' then Some(Mod) else if c == ';' then Some(Semicolon)
    else if c == ':' then Some(Colon) else if c == '=' then Some(Assign)
    else if c == '>' then Some(Gt) else if c == '<' then Some(Lt)
    else if c == '!' then Some(Not)
    else None
  }

  /** The two-character operators. */
  function TwoCharOperator(a: char, b: char): Option<TokenType>
  {
    if a == ':' && b == ':' then Some(DColon)
    else if a == '=' && b == '=' then Some(Eq)
    else if a == '>' && b == '=' then Some(Geq)
    else if a == '<' && b == '=' then Some(Leq)
    else if a == '!' && b == '=' then Some(NotEq)
    else None
  }

  /** Whether a comment starts at `pos`. */
  predicate CommentAt(src: string, pos: nat)
  {
    pos + 1 < |src| && src[pos] == '/' && src[pos + 1] == '/'
  }

  /**
   * Maximal munch: a two-character operator is taken whole whenever its
   * second character follows; otherwise a punctuation character is a
   * one-character token of its own.
   */
  lemma MaximalMunch(fp: FloatOps, src: string, pos: nat, line: nat)
    requires pos < |src| && OneCharOperator(src[pos]).Some?
    ensures pos + 1 < |src| && TwoCharOperator(src[pos], src[pos + 1]).Some? ==>
      Step(fp, src, pos, line) == Ok(Emit(TwoCharOperator(src[pos], src[pos + 1]).value, pos + 2, line))
    ensures !(pos + 1 < |src| && TwoCharOperator(src[pos], src[pos + 1]).Some?) && !CommentAt(src, pos) ==>
      Step(fp, src, pos, line) == Ok(Emit(OneCharOperator(src[pos]).value, pos + 1, line))
  {
  }

  /** Blanks and comments emit nothing; a line feed advances the line counter. */
  lemma Skipping(fp: FloatOps, src: string, pos: nat, line: nat)
    requires pos < |src|
    ensures src[pos] in {' ', '\r', '\t'} ==> Step(fp, src, pos, line) == Ok(Lexeme(None, pos + 1, line))
    ensures src[pos] == '\n' ==> Step(fp, src, pos, line) == Ok(Lexeme(None, pos + 1, line + 1))
    ensures CommentAt(src, pos) ==>
      var st := Step(fp, src, pos, line);
      st.Ok? && st.value.emitted.None? && st.value.line == line &&
      (st.value.next == |src| || src[st.value.next] == '\n') &&
      forall i :: pos <= i < st.value.next ==> src[i] != '\n'
  {
    if CommentAt(src, pos) {
      SpanWhileRun(src, pos + 2, ToLineEnd);
    }
  }

  /**
   * A word is the longest run of letters, digits and underscores; a keyword
   * becomes its kind, `true`/`false` a boolean literal, and anything else an
   * identifier carrying the word.
   */
  lemma WordClassification(fp: FloatOps, src: string, pos: nat, line: nat)
    requires pos < |src| && IsAlpha(src[pos])
    ensures var st := Step(fp, src, pos, line);
      st.Ok? && st.value.emitted.Some? && pos < st.value.next <= |src| &&
      var text := src[pos..st.value.next];
      var t := st.value.emitted.value;
      (forall i :: pos <= i < st.value.next ==> IsAlphaNumeric(src[i])) &&
      (st.value.next == |src| || !IsAlphaNumeric(src[st.value.next])) &&
      (Keyword(text).Some? ==> t.kind == Keyword(text).value) &&
      (t.kind == BoolLit <==> text == "true" || text == "false") &&
      (t.kind == BoolLit ==> t.boolValue == (text == "true")) &&
      (t.kind == Identifier <==> Keyword(text).None?) &&
      (t.kind == Identifier ==> t.identifierName == text)
  {
    DefaultStep(fp, src, pos, line);
    SpanWhileRun(src, pos + 1, WordChars);
  }

  /**
   * A number is a double literal exactly when its digits are followed by a
   * `.` and a digit; otherwise it is an integer literal that stops before any
   * `.`, and it fails when its value exceeds the 32-bit range.
   */
  lemma NumberClassification(fp: FloatOps, src: string, pos: nat, line: nat)
    requires pos < |src| && IsDigit(src[pos])
    ensures var e := SpanWhile(src, pos + 1, Digits);
      var st := Step(fp, src, pos, line);
      (HasFraction(src, e) ==>
        st.Ok? && st.value.emitted.Some? && e + 1 < st.value.next &&
        st.value.emitted.value == At(line).(kind := DoubleLit, doubleValue := fp.parse(src[pos..st.value.next]))) &&
      (!HasFraction(src, e) ==>
        (st.Ok? ==> st.value.next == e &&
                    st.value.emitted.Some? && st.value.emitted.value.kind == IntLit) &&
        (st.Err? ==> st.error == IntLiteralOverflow(src[pos..e])))
    ensures var e := SpanWhile(src, pos + 1, Digits);
      !HasFraction(src, e) ==>
        (forall i :: 0 <= i < |src[pos..e]| ==> IsDigit(src[pos..e][i])) &&
        (Step(fp, src, pos, line).Ok? <==> DigitsValue(src[pos..e]) <= INT_MAX) &&
        (Step(fp, src, pos, line).Ok? ==>
          Step(fp, src, pos, line).value.emitted.value.intValue as int == DigitsValue(src[pos..e]))
  {
    DefaultStep(fp, src, pos, line);
    var e := SpanWhile(src, pos + 1, Digits);
    SpanWhileRun(src, pos + 1, Digits);
    forall i | 0 <= i < |src[pos..e]| ensures IsDigit(src[pos..e][i]) {
      assert src[pos..e][i] == src[pos + i];
    }
  }

  /** `1.` scans as an integer literal followed by a dot. */
  lemma IntegerThenDot(fp: FloatOps)
    ensures Tokenize(fp, "1.") == Ok([At(1).(kind := IntLit, intValue := 1), Simple(Dot, 1), Simple(Eof, 1)])
  {
    var src := "1.";
    assert SpanWhile(src, 1, Digits) == 1;
    assert !HasFraction(src, 1);
    assert src[0..1] == "1";
    assert DigitsValue("1") == 1;
    DefaultStep(fp, src, 0, 1);
    assert Step(fp, src, 0, 1) == Ok(Lexeme(Some(At(1).(kind := IntLit, intValue := 1)), 1, 1));
    assert Step(fp, src, 1, 1) == Ok(Emit(Dot, 2, 1));
    assert Lex(fp, src, 2, 1) == Ok([Simple(Eof, 1)]);
    assert Lex(fp, src, 1, 1) == Ok([Simple(Dot, 1)] + [Simple(Eof, 1)]);
    var lx := Step(fp, src, 0, 1).value;
    assert lx.next == 1 && lx.line == 1;
    assert OptSeq(lx.emitted) == [At(1).(kind := IntLit, intValue := 1)];
    assert Lex(fp, src, 0, 1) == Ok(OptSeq(lx.emitted) + Lex(fp, src, 1, 1).value);
    assert OptSeq(lx.emitted) + Lex(fp, src, 1, 1).value
        == [At(1).(kind := IntLit, intValue := 1), Simple(Dot, 1), Simple(Eof, 1)];
  }

  /**
   * A string literal runs to the next quote: its value is the text between
   * the quotes after escape handling, and the line counter counts the line
   * feeds inside it. Without a closing quote the scan fails.
   */
  lemma StringClassification(fp: FloatOps, src: string, pos: nat, line: nat)
    requires pos < |src| && src[pos] == '"'
    ensures Step(fp, src, pos, line).Err? <==> forall i :: pos < i < |src| ==> src[i] != '"'
    ensures Step(fp, src, pos, line).Err? ==> Step(fp, src, pos, line).error == UnterminatedString
    ensures var st := Step(fp, src, pos, line);
      st.Ok? ==>
        pos + 2 <= st.value.next <= |src| && src[st.value.next - 1] == '"' &&
        var body := src[pos + 1..st.value.next - 1];
        (forall i :: 0 <= i < |body| ==> body[i] != '"') &&
        st.value.line == line + LineFeeds(src, pos + 1, st.value.next - 1) &&
        st.value.emitted == Some(At(st.value.line).(kind := StringLit, stringValue := Unescape(body)))
  {
    var e := SpanWhile(src, pos + 1, ToQuote);
    SpanWhileRun(src, pos + 1, ToQuote);
    if e < |src| {
      assert src[e] == '"';
      var body := src[pos + 1..e];
      forall i | 0 <= i < |body| ensures body[i] != '"' {
        assert body[i] == src[pos + 1 + i];
      }
    }
  }

  /** Exactly the characters outside the switch that are neither digits nor letters are unexpected. */
  lemma UnexpectedCharacterError(fp: FloatOps, src: string, pos: nat, line: nat)
    requires pos < |src|
    ensures Step(fp, src, pos, line) == Err(UnexpectedCharacter(src[pos])) <==>
      src[pos] !in SwitchChars && !IsDigit(src[pos]) && !IsAlpha(src[pos])
  {
    var c := src[pos];
    if c == '"' {
    } else if c in SwitchChars {
      StepAdvances(fp, src, pos, line);
    } else {
      DefaultStep(fp, src, pos, line);
    }
  }

  predicate NoBackslash(s: string)
  {
    forall i :: 0 <= i < |s| ==> s[i] != '\\'
  }

  /** Text without backslashes passes through escape handling unchanged. */
  lemma {:induction false} UnescapePlain(s: string)
    requires NoBackslash(s)
    ensures Unescape(s) == s
    decreases |s|
  {
    if |s| > 0 {
      UnescapePlain(s[1..]);
    }
  }

  /** Write line feeds and tabs as `\n` and `\t`. */
  function Escape(t: string): (r: string)
    ensures |r| >= |t|
  {
    if |t| == 0 then ""
    else (if t[0] == '\n' then "\\n" else if t[0] == '\t' then "\\t" else [t[0]]) + Escape(t[1..])
  }

  /** Escape handling undoes `Escape` on text without backslashes. */
  lemma {:induction false} UnescapeEscape(t: string)
    requires NoBackslash(t)
    ensures Unescape(Escape(t)) == t
    decreases |t|
  {
    if |t| > 0 {
      var head := if t[0] == '\n' then "\\n" else if t[0] == '\t' then "\\t" else [t[0]];
      assert Escape(t) == head + Escape(t[1..]);
      UnescapeEscape(t[1..]);
      if t[0] == '\n' || t[0] == '\t' {
        assert (head + Escape(t[1..]))[2..] == Escape(t[1..]);
      } else {
        assert (head + Escape(t[1..]))[1..] == Escape(t[1..]);
      }
    }
  }

  /** The escape cases one by one: `\n`, `\t`, a backslash before anything else, and a lone final backslash. */
  lemma EscapeCases(c: char, s: string)
    ensures Unescape("\\n" + s) == "\n" + Unescape(s)
    ensures Unescape("\\t" + s) == "\t" + Unescape(s)
    ensures c != 'n' && c != 't' ==> Unescape(['\\', c] + s) == Unescape([c] + s)
    ensures Unescape("\\") == "\\"
  {
    assert ("\\n" + s)[2..] == s;
    assert ("\\t" + s)[2..] == s;
    assert (['\\', c] + s)[1..] == [c] + s;
  }

  /** A backslash at the very end is kept, unless another backslash precedes it. */
  lemma {:induction false} TrailingBackslash(p: string)
    requires |p| == 0 || p[|p| - 1] != '\\'
    ensures Unescape(p + "\\") == Unescape(p) + "\\"
    decreases |p|
  {
    var s := p + "\\";
    if |p| == 0 {
      assert s == "\\";
    } else if p[0] == '\\' {
      assert |p| > 1;
      assert s[0] == '\\' && s[1] == p[1];
      if p[1] == 'n' || p[1] == 't' {
        assert s[2..] == p[2..] + "\\";
        TrailingBackslash(p[2..]);
      } else {
        assert s[1..] == p[1..] + "\\";
        TrailingBackslash(p[1..]);
      }
    } else {
      assert s[0] == p[0] && s[1..] == p[1..] + "\\";
      TrailingBackslash(p[1..]);
    }
  }

  /** One step of `Lex`: a failing step fails the scan, a successful one prepends its token. */
  lemma LexStep(fp: FloatOps, src: string, pos: nat, line: nat)
    requires pos < |src|
    ensures var st := Step(fp, src, pos, line);
      (st.Err? ==> Lex(fp, src, pos, line) == Err(st.error)) &&
      (st.Ok? ==> WellAdvanced(src, pos, line, st) &&
                  Lex(fp, src, pos, line) == Prepend(OptSeq(st.value.emitted), Lex(fp, src, st.value.next, st.value.line)))
  {
    StepAdvances(fp, src, pos, line);
  }

  lemma PrependAssoc(a: seq<Token>, b: seq<Token>, r: Result<seq<Token>>)
    ensures Prepend(a, Prepend(b, r)) == Prepend(a + b, r)
  {
    if r.Ok? {
      assert a + (b + r.value) == (a + b) + r.value;
    }
  }

  /**
   * The imperative scanner: `start` marks the beginning of the current
   * lexeme, `current` the next character to read, `line` the line counter,
   * and `tokens` the tokens emitted so far.
   */
  class Scanner {
    const fp: FloatOps
    const src: string
    var tokens: seq<Token>
    var start: nat
    var current: nat
    var line: nat

    predicate Valid()
      reads this
    {
      start <= current <= |src|
    }

    constructor (fp: FloatOps, src: string)
      ensures this.fp == fp && this.src == src
      ensures tokens == [] && start == 0 && current == 0 && line == 1
      ensures Valid()
    {
      this.fp := fp;
      this.src := src;
      tokens := [];
      start := 0;
      current := 0;
      line := 1;
    }

    predicate AtEnd()
      reads this
    {
      current >= |src|
    }

    /** The next character, or NUL at the end. */
    function Peek(): char
      reads this
    {
      if current >= |src| then '\0' else src[current]
    }

    /** The character after the next one, or NUL past the end. */
    function PeekNext(): char
      reads this
    {
      if current + 1 >= |src| then '\0' else src[current + 1]
    }

    method Advance() returns (c: char)
      requires current < |src|
      modifies this
      ensures c == src[old(current)] && current == old(current) + 1
      ensures tokens == old(tokens) && start == old(start) && line == old(line)
    {
      current := current + 1;
      c := src[current - 1];
    }

    /** Consume the next character when it is `expected`. */
    method Match(expected: char) returns (b: bool)
      requires current <= |src|
      modifies this
      ensures b <==> old(current) < |src| && src[old(current)] == expected
      ensures current == if b then old(current) + 1 else old(current)
      ensures tokens == old(tokens) && start == old(start) && line == old(line)
    {
      if AtEnd() {
        return false;
      }
      if src[current] != expected {
        return false;
      }
      current := current + 1;
      return true;
    }

    method AddToken(t: Token)
      modifies this
      ensures tokens == old(tokens) + [t]
      ensures start == old(start) && current == old(current) && line == old(line)
    {
      tokens := tokens + [t];
    }

    /** Append a payload-free token of the given kind on the current line. */
    method AddKind(kind: TokenType)
      modifies this
      ensures tokens == old(tokens) + [Simple(kind, line)]
      ensures start == old(start) && current == old(current) && line == old(line)
    {
      AddToken(Simple(kind, line));
    }

    /** `tokenize`: scan the rest of the text and append the EOF token. */
    method Tokenize() returns (r: Result<seq<Token>>)
      requires Valid()
      modifies this
      ensures r == Prepend(old(tokens), Lex(fp, src, old(current), old(line)))
      ensures r.Ok? ==> tokens == r.value
    {
      while !AtEnd()
        invariant Valid()
        invariant Prepend(tokens, Lex(fp, src, current, line)) == Prepend(old(tokens), Lex(fp, src, old(current), old(line)))
        decreases |src| - current
      {
        start := current;
        ghost var before, pos, ln := tokens, current, line;
        LexStep(fp, src, pos, ln);
        var o := ScanToken();
        if o.Fail? {
          return Err(o.error);
        }
        PrependAssoc(before, OptSeq(Step(fp, src, pos, ln).value.emitted), Lex(fp, src, current, line));
      }
      AddKind(Eof);
      r := Ok(tokens);
    }

    /** `scanToken`: one step, as `Step` defines it. */
    method ScanToken() returns (o: Outcome)
      requires Valid() && start == current < |src|
      modifies this
      ensures var st := Step(fp, src, old(current), old(line));
        (st.Err? ==> o == Fail(st.error)) &&
        (st.Ok? ==> o == Pass && Valid() && tokens == old(tokens) + OptSeq(st.value.emitted) &&
                    current == st.value.next && line == st.value.line)
    {
      var c := Advance();
      o := Pass;
      match c
      case '(' | ')' | '{' | '}' | '[' | ']' | '+' | '-' | '*' | ',' | '.' | '%' | ';'
         | ':' | '=' | '>' | '<' | '!' | '/' =>
        ScanOperator(c);
      case ' ' | '\r' | '\t' =>
      case '\n' => line := line + 1;
      case '"' => o := ScanString();
      case _ => o := ScanDefault(c);
    }

    /** The operator and comment branches of `scanToken`, entered after their first character. */
    method ScanOperator(c: char)
      requires start < |src| && current == start + 1 && c == src[start] && c in OperatorChars
      modifies this
      ensures start == old(start)
      ensures var st := Step(fp, src, start, old(line));
        st.Ok? && Valid() && tokens == old(tokens) + OptSeq(st.value.emitted) &&
        current == st.value.next && line == st.value.line
    {
      match c
      case '(' | ')' | '{' | '}' | '[' | ']' | '+' | '-' | '*' | ',' | '.' | '%' | ';' =>
        AddKind(Punctuator(c));
      case ':' => ScanMunch(':', DColon, Colon);
      case '=' => ScanMunch('=', Eq, Assign);
      case '>' => ScanMunch('=', Geq, Gt);
      case '<' => ScanMunch('=', Leq, Lt);
      case '!' => ScanMunch('=', NotEq, Not);
      case '/' =>
        var comment := Match('/');
        if comment {
          AdvanceWhile(ToLineEnd);
        } else {
          AddKind(Slash);
        }
    }

    /** An operator that is one character long, or two when `second` follows. */
    method ScanMunch(second: char, two: TokenType, one: TokenType)
      requires current <= |src|
      modifies this
      ensures var lx := Munch(src, old(current), second, two, one, old(line));
        tokens == old(tokens) + OptSeq(lx.emitted) && current == lx.next && line == lx.line
      ensures start == old(start)
    {
      var b := Match(second);
      AddKind(if b then two else one);
    }

    /** The default branch of `scanToken`: a number, a word, or an unexpected character. */
    method ScanDefault(c: char) returns (o: Outcome)
      requires start < |src| && current == start + 1 && c == src[start] && c !in SwitchChars
      modifies this
      ensures start == old(start)
      ensures var st := Step(fp, src, start, old(line));
        (st.Err? ==> o == Fail(st.error)) &&
        (st.Ok? ==> o == Pass && Valid() && tokens == old(tokens) + OptSeq(st.value.emitted) &&
                    current == st.value.next && line == st.value.line)
    {
      DefaultStep(fp, src, start, line);
      if IsDigit(c) {
        o := ScanNumber();
      } else if IsAlpha(c) {
        ScanIdentifier();
        o := Pass;
      } else {
        o := Fail(UnexpectedCharacter(c));
      }
      StepAdvances(fp, src, start, old(line));
    }

    /** Advance over a run of digits, of word characters, or of comment text up to a line feed. */
    method AdvanceWhile(k: Run)
      requires current <= |src|
      modifies this
      ensures current == SpanWhile(src, old(current), k)
      ensures tokens == old(tokens) && start == old(start) && line == old(line)
    {
      while !AtEnd() && InRun(k, Peek())
        invariant old(current) <= current <= |src|
        invariant SpanWhile(src, current, k) == SpanWhile(src, old(current), k)
        invariant tokens == old(tokens) && start == old(start) && line == old(line)
        decreases |src| - current
      {
        var _ := Advance();
      }
    }

    /** `scanIdentifier`: the rest of a word, then a keyword, boolean or identifier token. */
    method ScanIdentifier()
      requires start < |src| && current == start + 1
      modifies this
      ensures start == old(start)
      ensures var lx := WordLexeme(src, start, old(line));
        tokens == old(tokens) + OptSeq(lx.emitted) && current == lx.next && line == old(line)
    {
      AdvanceWhile(WordChars);
      var text := src[start..current];
      var keyword := Keyword(text);
      if keyword.None? {
        AddToken(At(line).(kind := Identifier, identifierName := text));
        return;
      }
      var kind := keyword.value;
      if kind == BoolLit {
        AddToken(At(line).(kind := BoolLit, boolValue := text == "true"));
        return;
      }
      AddKind(kind);
    }

    /** `scanNumber`: the rest of an integer or double literal. */
    method ScanNumber() returns (o: Outcome)
      requires start < |src| && current == start + 1 && IsDigit(src[start])
      modifies this
      ensures start == old(start)
      ensures var st := NumberLexeme(fp, src, start, old(line));
        (st.Err? ==> o == Fail(st.error)) &&
        (st.Ok? ==> o == Pass && tokens == old(tokens) + OptSeq(st.value.emitted) &&
                    current == st.value.next && line == old(line))
    {
      AdvanceWhile(Digits);
      ghost var e := current;
      if Peek() == '.' && IsDigit(PeekNext()) {
        var _ := Advance();
        AdvanceWhile(Digits);
        FractionCase(fp, src, start, line, e, current);
        AddToken(At(line).(kind := DoubleLit, doubleValue := fp.parse(src[start..current])));
        return Pass;
      }
      var text := src[start..current];
      IntegerCase(fp, src, start, line, e);
      var v := DigitsValue(text);
      if v > INT_MAX {
        return Fail(IntLiteralOverflow(text));
      }
      AddToken(At(line).(kind := IntLit, intValue := v as int32));
      return Pass;
    }

    /** Advance to the next quote or the end, counting the line feeds passed. */
    method AdvanceToQuote()
      requires current <= |src|
      modifies this
      ensures current == SpanWhile(src, old(current), ToQuote)
      ensures line == old(line) + LineFeeds(src, old(current), current)
      ensures tokens == old(tokens) && start == old(start)
    {
      while Peek() != '"' && !AtEnd()
        invariant old(current) <= current <= |src|
        invariant SpanWhile(src, current, ToQuote) == SpanWhile(src, old(current), ToQuote)
        invariant line == old(line) + LineFeeds(src, old(current), current)
        invariant tokens == old(tokens) && start == old(start)
        decreases |src| - current
      {
        LineFeedsStep(src, old(current), current);
        if Peek() == '\n' {
          line := line + 1;
        }
        var _ := Advance();
      }
    }

    /** `scanString`: the rest of a string literal, counting the line feeds inside it. */
    method ScanString() returns (o: Outcome)
      requires start < |src| && current == start + 1
      modifies this
      ensures start == old(start)
      ensures var st := StringLexeme(src, start, old(line));
        (st.Err? ==> o == Fail(st.error)) &&
        (st.Ok? ==> o == Pass && tokens == old(tokens) + OptSeq(st.value.emitted) &&
                    current == st.value.next && line == st.value.line)
    {
      AdvanceToQuote();
      ghost var e := current;
      StringCase(src, start, old(line), e);
      if AtEnd() {
        return Fail(UnterminatedString);
      }
      var _ := Advance();
      var val := src[start + 1..current - 1];
      val := FormatEscapes(val);
      AddToken(At(line).(kind := StringLit, stringValue := val));
      return Pass;
    }
  }

  /** `formatEscapes`, as the loop the scanner runs. */
  method FormatEscapes(s: string) returns (res: string)
    ensures res == Unescape(s)
  {
    res := "";
    var i := 0;
    while i < |s|
      invariant 0 <= i <= |s|
      invariant res + Unescape(s[i..]) == Unescape(s)
    {
      var rest := s[i..];
      assert rest[0] == s[i] && rest[1..] == s[i + 1..];
      if s[i] == '\\' && i != |s| - 1 {
        assert rest[1] == s[i + 1] && rest[2..] == s[i + 2..];
        if s[i + 1] == 'n' {
          res := res + "\n";
          i := i + 1;
        } else if s[i + 1] == 't' {
          res := res + "\t";
          i := i + 1;
        }
      } else {
        res := res + [s[i]];
      }
      i := i + 1;
    }
    assert s[i..] == [];
  }
}
