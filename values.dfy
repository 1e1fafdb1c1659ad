/**
 * Runtime values of the tree-walking interpreter
 * (src/Culebra/Interpreter/Treewalk/PrimitiveVar.cs). A `PrimitiveVar`
 * carries an active-type tag and all four payload fields; a constructor
 * sets the tag and one payload and leaves the others at their defaults,
 * and some operators read the payload of a different tag. Every operator
 * either yields a fresh value (or a boolean) or reports an error, which
 * ends the run.
 */
module Values {
  import opened Numerics
  import opened Diagnostics
  import Tokens

  datatype PVActiveType = IntType | DoubleType | StringType | BoolType

  datatype PrimitiveVar = PrimitiveVar(
    atype: PVActiveType,
    intValue: int32,
    doubleValue: Float64,
    stringValue: string,
    boolValue: bool)

  /** A `RuntimeVariable` reference as the interpreter passes it around; `None` is `null`. */
  type Value = Option<PrimitiveVar>

  function IntVar(i: int32): PrimitiveVar { PrimitiveVar(IntType, i, FLOAT_ZERO, "", false) }
  function DoubleVar(d: Float64): PrimitiveVar { PrimitiveVar(DoubleType, 0, d, "", false) }
  function StringVar(s: string): PrimitiveVar { PrimitiveVar(StringType, 0, FLOAT_ZERO, s, false) }
  function BoolVar(b: bool): PrimitiveVar { PrimitiveVar(BoolType, 0, FLOAT_ZERO, "", b) }

  /** The copy constructor: a value equal to `other` in all five fields. */
  function Copy(other: PrimitiveVar): (r: PrimitiveVar)
    ensures r.atype == other.atype && r.intValue == other.intValue
    ensures r.doubleValue == other.doubleValue && r.stringValue == other.stringValue
    ensures r.boolValue == other.boolValue
  {
    PrimitiveVar(other.atype, other.intValue, other.doubleValue, other.stringValue, other.boolValue)
  }

  predicate IsNumeric(p: PrimitiveVar)
  {
    p.atype == IntType || p.atype == DoubleType
  }

  /** The operand as a double: an INT converted, otherwise the double payload (set or not). */
  function AsDouble(fp: FloatOps, p: PrimitiveVar): Float64
  {
    if p.atype == IntType then fp.ofInt(p.intValue) else p.doubleValue
  }

  // ---------------------------------------------------------------------
  // Binary arithmetic: + - * / %

  datatype ArithOp = AddOp | SubOp | MulOp | DivOp | RemOp

  /** The operator as the error message names it. */
  function ArithName(op: ArithOp): string
  {
    match op
    case AddOp => "+"
    case SubOp => "-"
    case MulOp => "*"
    case DivOp => "/"
    case RemOp => "%"
  }

  /**
   * C# `int` arithmetic: + - * wrap around; / and % truncate toward zero,
   * throw on a zero divisor and on `int.MinValue` divided by -1.
   */
  function IntArith(op: ArithOp, a: int32, b: int32): Result<int32>
  {
    match op
    case AddOp => Ok(Add32(a, b))
    case SubOp => Ok(Sub32(a, b))
    case MulOp => Ok(Mul32(a, b))
    case DivOp =>
      if b == 0 then Err(DivideByZero)
      else if DivOverflows(a, b) then Err(ArithmeticOverflow)
      else Ok(Div32(a, b))
    case RemOp =>
      if b == 0 then Err(DivideByZero)
      else if DivOverflows(a, b) then Err(ArithmeticOverflow)
      else Ok(Rem32(a, b))
  }

  function FloatArith(fp: FloatOps, op: ArithOp, x: Float64, y: Float64): Float64
  {
    match op
    case AddOp => fp.add(x, y)
    case SubOp => fp.sub(x, y)
    case MulOp => fp.mul(x, y)
    case DivOp => fp.div(x, y)
    case RemOp => fp.rem(x, y)
  }

  /**
   * `operator +`, `-`, `*`, `/` and `%` on two values: INT with INT stays in
   * `int`, a DOUBLE on either side makes the operation a double one, `+` also
   * concatenates two STRINGs, and every other pairing is an error.
   */
  function Arithmetic(fp: FloatOps, op: ArithOp, l: PrimitiveVar, r: PrimitiveVar): Result<PrimitiveVar>
  {
    if l.atype == IntType && r.atype == IntType then
      var i :- IntArith(op, l.intValue, r.intValue);
      Ok(IntVar(i))
    else if IsNumeric(l) && IsNumeric(r) then
      Ok(DoubleVar(FloatArith(fp, op, AsDouble(fp, l), AsDouble(fp, r))))
    else if op == AddOp && l.atype == StringType && r.atype == StringType then
      Ok(StringVar(l.stringValue + r.stringValue))
    else
      Err(InvalidOperandTypes(ArithName(op)))
  }

  /** The operand types an operator accepts: numbers, and for `+` also two strings. */
  predicate ArithOperands(op: ArithOp, l: PrimitiveVar, r: PrimitiveVar)
  {
    (IsNumeric(l) && IsNumeric(r)) || (op == AddOp && l.atype == StringType && r.atype == StringType)
  }

  /**
   * The type table: an operand pairing outside the accepted ones is exactly
   * the invalid-types error; on numbers the result is an INT exactly when
   * both operands are, and it can only fail for integer / and % (zero
   * divisor or overflow); two strings concatenate.
   */
  lemma ArithmeticTypes(fp: FloatOps, op: ArithOp, l: PrimitiveVar, r: PrimitiveVar)
    ensures Arithmetic(fp, op, l, r) == Err(InvalidOperandTypes(ArithName(op))) <==> !ArithOperands(op, l, r)
    ensures IsNumeric(l) && IsNumeric(r) && Arithmetic(fp, op, l, r).Ok? ==>
      (Arithmetic(fp, op, l, r).value.atype == IntType <==> l.atype == IntType && r.atype == IntType) &&
      (Arithmetic(fp, op, l, r).value.atype == DoubleType <==> l.atype == DoubleType || r.atype == DoubleType)
    ensures IsNumeric(l) && IsNumeric(r) && Arithmetic(fp, op, l, r).Err? ==>
      l.atype == IntType && r.atype == IntType && (op == DivOp || op == RemOp)
    ensures op == AddOp && l.atype == StringType && r.atype == StringType ==>
      Arithmetic(fp, op, l, r) == Ok(StringVar(l.stringValue + r.stringValue))
  {
    if ArithOperands(op, l, r) && l.atype == IntType && r.atype == IntType {
      match op
      case DivOp =>
      case RemOp =>
      case _ =>
    }
  }

  /**
   * Integer / and % agree with C#: the error cases are a zero divisor and
   * `int.MinValue` by -1, and otherwise the quotient rounds toward zero and
   * the remainder keeps the dividend's sign and satisfies l == r * q + rem.
   */
  lemma IntegerDivision(fp: FloatOps, a: int32, b: int32)
    ensures Arithmetic(fp, DivOp, IntVar(a), IntVar(b)).Err? <==> b == 0 || DivOverflows(a, b)
    ensures Arithmetic(fp, RemOp, IntVar(a), IntVar(b)).Err? <==> b == 0 || DivOverflows(a, b)
    ensures b == 0 ==>
      Arithmetic(fp, DivOp, IntVar(a), IntVar(b)) == Err(DivideByZero) &&
      Arithmetic(fp, RemOp, IntVar(a), IntVar(b)) == Err(DivideByZero)
    ensures b != 0 && !DivOverflows(a, b) ==>
      var q := Arithmetic(fp, DivOp, IntVar(a), IntVar(b)).value.intValue as int;
      var m := Arithmetic(fp, RemOp, IntVar(a), IntVar(b)).value.intValue as int;
      a as int == b as int * q + m && Abs(m) < Abs(b as int) && (m == 0 || (m < 0 <==> a < 0)) &&
      Abs(q) == Abs(a as int) / Abs(b as int)
  {
    if b != 0 {
      TruncDivRem(a as int, b as int);
    }
  }

  /** Integer + - * are the exact results reduced to 32 bits, and exact when those fit. */
  lemma IntegerWrapAround(fp: FloatOps, op: ArithOp, a: int32, b: int32)
    requires op == AddOp || op == SubOp || op == MulOp
    ensures Arithmetic(fp, op, IntVar(a), IntVar(b)).Ok?
    ensures
      var exact := match op
        case AddOp => a as int + b as int
        case SubOp => a as int - b as int
        case _ => a as int * b as int;
      var r := Arithmetic(fp, op, IntVar(a), IntVar(b)).value.intValue as int;
      (exact - r) % TWO_32 == 0 && (INT_MIN <= exact <= INT_MAX ==> r == exact)
  {
  }

  // ---------------------------------------------------------------------
  // Unary operators

  /** Unary `-`: negates an INT (wrapping `int.MinValue` to itself) or a DOUBLE. */
  function Negate(fp: FloatOps, p: PrimitiveVar): (r: Result<PrimitiveVar>)
    ensures r.Err? <==> !IsNumeric(p)
    ensures r.Err? ==> r.error == InvalidOperandTypes("unary -")
    ensures r.Ok? ==> r.value.atype == p.atype
    ensures r.Ok? && p.atype == IntType ==> r.value == IntVar(Neg32(p.intValue))
    ensures r.Ok? && p.atype == DoubleType ==> r.value == DoubleVar(fp.neg(p.doubleValue))
  {
    match p.atype
    case IntType => Ok(IntVar(Neg32(p.intValue)))
    case DoubleType => Ok(DoubleVar(fp.neg(p.doubleValue)))
    case _ => Err(InvalidOperandTypes("unary -"))
  }

  /** Unary `!`: negates a BOOL. */
  function Not(p: PrimitiveVar): (r: Result<PrimitiveVar>)
    ensures r.Err? <==> p.atype != BoolType
    ensures r.Err? ==> r.error == InvalidOperandTypes("unary !")
    ensures r.Ok? ==> r.value == BoolVar(!p.boolValue) && (IsTrue(r.value) <==> !IsTrue(p))
  {
    if p.atype == BoolType then Ok(BoolVar(!p.boolValue)) else Err(InvalidOperandTypes("unary !"))
  }

  /** Negating an integer twice gives it back, `int.MinValue` included. */
  lemma NegateIntTwice(fp: FloatOps, i: int32)
    ensures Negate(fp, IntVar(i)).Ok? && Negate(fp, Negate(fp, IntVar(i)).value) == Ok(IntVar(i))
  {
    assert Negate(fp, IntVar(i)).value == IntVar(Neg32(i));
    if i as int == INT_MIN {
      NegMinValue();
    }
  }

  // ---------------------------------------------------------------------
  // Comparisons

  /** `operator ==`: an error when the tags differ, else the payloads of that tag compared. */
  function Equal(fp: FloatOps, l: PrimitiveVar, r: PrimitiveVar): Result<bool>
  {
    if l.atype != r.atype then Err(ComparingDifferentTypes)
    else
      match l.atype
      case IntType => Ok(l.intValue == r.intValue)
      case DoubleType => Ok(fp.equal(l.doubleValue, r.doubleValue))
      case StringType => Ok(l.stringValue == r.stringValue)
      case BoolType => Ok(l.boolValue == r.boolValue)
  }

  /** `operator !=`: the negation of `==`. */
  function NotEqual(fp: FloatOps, l: PrimitiveVar, r: PrimitiveVar): Result<bool>
  {
    var eq :- Equal(fp, l, r);
    Ok(!eq)
  }

  /**
   * `operator <`: an error when a non-number is compared with a number; two
   * non-numbers are never less; a number against a non-number compares with
   * the latter's unset double payload.
   */
  function Less(fp: FloatOps, l: PrimitiveVar, r: PrimitiveVar): Result<bool>
  {
    if !IsNumeric(l) && IsNumeric(r) then Err(IncompatibleComparison)
    else if l.atype == IntType && r.atype == IntType then Ok(l.intValue < r.intValue)
    else if IsNumeric(l) then Ok(fp.less(AsDouble(fp, l), AsDouble(fp, r)))
    else Ok(false)
  }

  /** `operator >`: not less, and then (only then) not equal. */
  function Greater(fp: FloatOps, l: PrimitiveVar, r: PrimitiveVar): Result<bool>
  {
    var lt :- Less(fp, l, r);
    if lt then Ok(false) else NotEqual(fp, l, r)
  }

  /** `operator >=`: not less. */
  function GreaterEq(fp: FloatOps, l: PrimitiveVar, r: PrimitiveVar): Result<bool>
  {
    var lt :- Less(fp, l, r);
    Ok(!lt)
  }

  /** `operator <=`: not greater. */
  function LessEq(fp: FloatOps, l: PrimitiveVar, r: PrimitiveVar): Result<bool>
  {
    var gt :- Greater(fp, l, r);
    Ok(!gt)
  }

  datatype CmpOp = EqOp | NotEqOp | LtOp | GtOp | LeqOp | GeqOp

  /** The six comparison operators by name. */
  function Compare(fp: FloatOps, op: CmpOp, l: PrimitiveVar, r: PrimitiveVar): Result<bool>
  {
    match op
    case EqOp => Equal(fp, l, r)
    case NotEqOp => NotEqual(fp, l, r)
    case LtOp => Less(fp, l, r)
    case GtOp => Greater(fp, l, r)
    case LeqOp => LessEq(fp, l, r)
    case GeqOp => GreaterEq(fp, l, r)
  }

  /**
   * `==` fails exactly on differing tags and otherwise compares the payload
   * of the shared tag; `!=` fails alike and otherwise is its negation.
   */
  lemma EqualityTable(fp: FloatOps, l: PrimitiveVar, r: PrimitiveVar)
    ensures Equal(fp, l, r).Err? <==> l.atype != r.atype
    ensures Equal(fp, l, r).Err? ==> Equal(fp, l, r).error == ComparingDifferentTypes
    ensures NotEqual(fp, l, r).Err? <==> Equal(fp, l, r).Err?
    ensures NotEqual(fp, l, r).Err? ==> NotEqual(fp, l, r).error == ComparingDifferentTypes
    ensures NotEqual(fp, l, r).Ok? ==> NotEqual(fp, l, r).value == !Equal(fp, l, r).value
    ensures l.atype == r.atype == IntType ==> Equal(fp, l, r) == Ok(l.intValue == r.intValue)
    ensures l.atype == r.atype == StringType ==> Equal(fp, l, r) == Ok(l.stringValue == r.stringValue)
    ensures l.atype == r.atype == BoolType ==> Equal(fp, l, r) == Ok(l.boolValue == r.boolValue)
  {
  }

  /**
   * `<` fails exactly when a non-number meets a number on its right; two
   * non-numbers compare false; a number against a non-number compares with
   * that operand's double payload, which a string or bool value has at zero.
   */
  lemma LessTable(fp: FloatOps, l: PrimitiveVar, r: PrimitiveVar)
    ensures Less(fp, l, r).Err? <==> !IsNumeric(l) && IsNumeric(r)
    ensures Less(fp, l, r).Err? ==> Less(fp, l, r).error == IncompatibleComparison
    ensures !IsNumeric(l) && !IsNumeric(r) ==> Less(fp, l, r) == Ok(false)
    ensures IsNumeric(l) && !IsNumeric(r) ==> Less(fp, l, r) == Ok(fp.less(AsDouble(fp, l), r.doubleValue))
    ensures l.atype == IntType && r.atype == IntType ==> Less(fp, l, r) == Ok(l.intValue < r.intValue)
  {
  }

  /** Values built from a string, a bool or an int keep their double payload at +0.0. */
  lemma UnsetDoublePayload(s: string, b: bool, i: int32)
    ensures StringVar(s).doubleValue == FLOAT_ZERO && BoolVar(b).doubleValue == FLOAT_ZERO
    ensures IntVar(i).doubleValue == FLOAT_ZERO
  {
  }

  /**
   * `>` and `<=` succeed exactly when `<` does and either `<` holds or the
   * tags agree (so `1 > 0.5` is the differing-types error while `0 > 0.5` is
   * false); `>=` fails exactly when `<` does and negates it.
   */
  lemma DerivedComparisons(fp: FloatOps, l: PrimitiveVar, r: PrimitiveVar)
    ensures Greater(fp, l, r).Ok? <==> Less(fp, l, r) == Ok(true) || (Less(fp, l, r).Ok? && l.atype == r.atype)
    ensures Greater(fp, l, r) == Ok(true) <==>
      Less(fp, l, r) == Ok(false) && NotEqual(fp, l, r) == Ok(true)
    ensures Greater(fp, l, r).Err? && Less(fp, l, r).Ok? ==> Greater(fp, l, r).error == ComparingDifferentTypes
    ensures LessEq(fp, l, r).Ok? <==> Greater(fp, l, r).Ok?
    ensures LessEq(fp, l, r).Ok? ==> LessEq(fp, l, r).value == !Greater(fp, l, r).value
    ensures GreaterEq(fp, l, r).Ok? <==> Less(fp, l, r).Ok?
    ensures GreaterEq(fp, l, r).Ok? ==> GreaterEq(fp, l, r).value == !Less(fp, l, r).value
  {
  }

  /** On two integers the six comparisons are the usual integer order. */
  lemma IntegerComparisons(fp: FloatOps, a: int32, b: int32)
    ensures Less(fp, IntVar(a), IntVar(b)) == Ok(a < b)
    ensures Greater(fp, IntVar(a), IntVar(b)) == Ok(a > b)
    ensures LessEq(fp, IntVar(a), IntVar(b)) == Ok(a <= b)
    ensures GreaterEq(fp, IntVar(a), IntVar(b)) == Ok(a >= b)
    ensures Equal(fp, IntVar(a), IntVar(b)) == Ok(a == b)
    ensures NotEqual(fp, IntVar(a), IntVar(b)) == Ok(a != b)
  {
  }

  /**
   * On two strings `<` is always false, so `>` means "different", `<=`
   * means "equal" and `>=` always holds.
   */
  lemma StringComparisons(fp: FloatOps, s: string, t: string)
    ensures Less(fp, StringVar(s), StringVar(t)) == Ok(false)
    ensures Greater(fp, StringVar(s), StringVar(t)) == Ok(s != t)
    ensures LessEq(fp, StringVar(s), StringVar(t)) == Ok(s == t)
    ensures GreaterEq(fp, StringVar(s), StringVar(t)) == Ok(true)
  {
  }

  // ---------------------------------------------------------------------
  // Logical operators and truthiness

  datatype LogicOp = AndOp | OrOp

  /** `logicalAnd` / `logicalOr`: both operands must be BOOLs. */
  function Logical(op: LogicOp, l: PrimitiveVar, r: PrimitiveVar): Result<bool>
  {
    if l.atype != BoolType || r.atype != BoolType then
      Err(InvalidOperandTypes(if op == AndOp then "and" else "or"))
    else if op == AndOp then Ok(l.boolValue && r.boolValue)
    else Ok(l.boolValue || r.boolValue)
  }

  /** `isTrue`: a BOOL whose payload is true; every other value counts as false. */
  predicate IsTrue(p: PrimitiveVar)
  {
    p.atype == BoolType && p.boolValue
  }

  /**
   * `and`/`or` fail exactly when an operand is not a BOOL, and otherwise they
   * agree with the truth of their operands.
   */
  lemma LogicalTable(op: LogicOp, l: PrimitiveVar, r: PrimitiveVar)
    ensures Logical(op, l, r).Err? <==> l.atype != BoolType || r.atype != BoolType
    ensures Logical(op, l, r).Ok? && op == AndOp ==> Logical(op, l, r).value == (IsTrue(l) && IsTrue(r))
    ensures Logical(op, l, r).Ok? && op == OrOp ==> Logical(op, l, r).value == (IsTrue(l) || IsTrue(r))
  {
  }

  /** Truthiness is strict: only a true BOOL is true; no number or string is. */
  lemma Truthiness(b: bool, i: int32, d: Float64, s: string)
    ensures IsTrue(BoolVar(b)) == b
    ensures !IsTrue(IntVar(i)) && !IsTrue(DoubleVar(d)) && !IsTrue(StringVar(s))
  {
  }

  // ---------------------------------------------------------------------
  // Rendering

  /** `ToString`: decimal for an INT, the host's text for a DOUBLE, the string itself, "True"/"False". */
  function ToString(fp: FloatOps, p: PrimitiveVar): string
  {
    match p.atype
    case IntType => IntToString(p.intValue as int)
    case DoubleType => fp.show(p.doubleValue)
    case StringType => p.stringValue
    case BoolType => Tokens.BoolText(p.boolValue)
  }

  /**
   * A string renders as itself, a bool as "True" or "False", and an integer
   * as its decimal digits (after a '-' when negative), which read back to it.
   */
  lemma Rendering(fp: FloatOps, s: string, b: bool, i: int32)
    ensures ToString(fp, StringVar(s)) == s
    ensures ToString(fp, BoolVar(b)) == if b then "True" else "False"
    ensures i >= 0 ==> DigitsValue(ToString(fp, IntVar(i))) == i as int
    ensures i < 0 ==>
      ToString(fp, IntVar(i))[0] == '-' && DigitsValue(ToString(fp, IntVar(i))[1..]) == -(i as int)
  {
    var n := i as int;
    if n >= 0 {
      DigitsValueOfNatToString(n);
    } else {
      assert IntToString(n)[1..] == NatToString(-n);
      DigitsValueOfNatToString(-n);
    }
  }
}
