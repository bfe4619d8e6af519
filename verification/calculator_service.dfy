/** The calculation service of the backend: seven operations, each of which
    validates its operands, then checks its own precondition, then computes
    and rejects a result that is not finite. A thrown `CalculatorException`
    becomes an `Err` carrying the error body the exception handler sends.

    The IEEE-754 arithmetic itself is not modelled: the raw result of each
    primitive (`+`, `-`, `*`, `/`, `pow`, `sqrt`) is given by an `Arithmetic`
    record of functions, so every statement here holds whatever those
    primitives return. */
module CalculatorService {
  import opened Options
  import opened Numbers
  import opened ErrorResponses

  datatype Operation = Add | Subtract | Multiply | Divide | Power | Sqrt | Percentage

  /** The raw floating-point primitives, applied to finite operands only. */
  datatype Arithmetic = Arithmetic(
    plus: (Magnitude, Magnitude) -> Double,
    minus: (Magnitude, Magnitude) -> Double,
    times: (Magnitude, Magnitude) -> Double,
    quotient: (Magnitude, Magnitude) -> Double,
    pow: (Magnitude, Magnitude) -> Double,
    sqrt: Magnitude -> Double)

  /** What a service call returns: the result, or the error body of the
      exception it threw. */
  datatype Outcome = Ok(value: Double) | Err(error: ErrorResponse)

  /** What a validation step does: return normally, or throw. */
  datatype Check = Pass | Fail(error: ErrorResponse)

  const NaNOperand := InvalidOperandException("CALC_002", "Invalid operand (NaN)", Some("Operands cannot be NaN"))
  const InfiniteOperand := InvalidOperandException("CALC_002", "Invalid operand (Infinity)", Some("Operands cannot be Infinity"))
  const ZeroDivisor := DivisionByZeroException("Division by zero", Some("Second operand cannot be zero"))
  const NegativeRadicand := InvalidOperandException("CALC_003", "Negative number for square root", Some("Operand must be >= 0"))
  const PercentageOutOfRange := InvalidOperandException("CALC_005", "Invalid percentage value", Some("Percentage must be between 0 and 100"))
  const NonFiniteResult := OverflowException("Numerical overflow or underflow", Some("Result exceeds Double limits"))
  const ResultAboveMax := OverflowException("Numerical overflow or underflow", Some("Result exceeds Double.MAX_VALUE"))

  /** Both operands are checked for NaN before either is checked for infinity. */
  function ValidateOperands(op1: Double, op2: Double): (r: Check)
    ensures r == Pass <==> op1.Finite? && op2.Finite?
    ensures r == Fail(NaNOperand) <==> op1 == NaN || op2 == NaN
    ensures r == Fail(InfiniteOperand) <==> op1 != NaN && op2 != NaN && !(op1.Finite? && op2.Finite?)
  {
    if op1.IsNaN() || op2.IsNaN() then Fail(NaNOperand)
    else if op1.IsInfinite() || op2.IsInfinite() then Fail(InfiniteOperand)
    else Pass
  }

  function ValidateForDivision(divisor: Double): (r: Check)
    ensures r != Pass <==> divisor == Finite(0.0)
    ensures r != Pass ==> r.error.errorCode == "CALC_001"
  {
    if divisor.EqualTo(0.0) then Fail(ZeroDivisor) else Pass
  }

  function ValidateForSqrt(operand: Double): (r: Check)
    ensures r != Pass <==> operand == NegInf || (operand.Finite? && operand.x < 0.0)
    ensures r != Pass ==> r.error.errorCode == "CALC_003"
  {
    if operand.LessThan(0.0) then Fail(NegativeRadicand) else Pass
  }

  function ValidatePercentage(percentage: Double): (r: Check)
    ensures r == Pass <==> percentage == NaN || (percentage.Finite? && 0.0 <= percentage.x <= 100.0)
    ensures r != Pass ==> r.error.errorCode == "CALC_005"
  {
    if percentage.LessThan(0.0) || percentage.GreaterThan(100.0) then Fail(PercentageOutOfRange) else Pass
  }

  /** Both overflow tests of the source. The second one, against
      `Double.MAX_VALUE`, can never fire: a finite `Double` never exceeds it,
      so exactly the finite results pass. */
  function CheckOverflow(result: Double): (r: Check)
    ensures r == Pass <==> result.Finite?
    ensures r != Pass ==> r == Fail(NonFiniteResult)
  {
    if result.IsNaN() || result.IsInfinite() then Fail(NonFiniteResult)
    else if result.AbsExceedsMax() then Fail(ResultAboveMax)
    else Pass
  }

  /** Turns a computed value into the outcome the overflow check allows. */
  function Settle(result: Double): (r: Outcome)
  {
    match CheckOverflow(result)
    case Fail(e) => Err(e)
    case Pass => Ok(result)
  }

  /** `(value * percentage) / 100.0`: a non-finite product stays non-finite
      after the division by 100, as in IEEE-754. */
  function PercentOf(arith: Arithmetic, value: Magnitude, percentage: Magnitude): Double
  {
    match arith.times(value, percentage)
    case Finite(p) => arith.quotient(p, 100.0)
    case other => other
  }

  function AddOp(a: Double, b: Double, arith: Arithmetic): (r: Outcome)
    ensures r.Ok? <==> a.Finite? && b.Finite? && arith.plus(a.x, b.x).Finite?
    ensures r.Ok? ==> r.value == arith.plus(a.x, b.x)
    ensures r.Err? ==> r.error in {NaNOperand, InfiniteOperand, NonFiniteResult}
  {
    match ValidateOperands(a, b)
    case Fail(e) => Err(e)
    case Pass => Settle(arith.plus(a.x, b.x))
  }

  function SubtractOp(a: Double, b: Double, arith: Arithmetic): (r: Outcome)
    ensures r.Ok? <==> a.Finite? && b.Finite? && arith.minus(a.x, b.x).Finite?
    ensures r.Ok? ==> r.value == arith.minus(a.x, b.x)
    ensures r.Err? ==> r.error in {NaNOperand, InfiniteOperand, NonFiniteResult}
  {
    match ValidateOperands(a, b)
    case Fail(e) => Err(e)
    case Pass => Settle(arith.minus(a.x, b.x))
  }

  function MultiplyOp(a: Double, b: Double, arith: Arithmetic): (r: Outcome)
    ensures r.Ok? <==> a.Finite? && b.Finite? && arith.times(a.x, b.x).Finite?
    ensures r.Ok? ==> r.value == arith.times(a.x, b.x)
    ensures r.Err? ==> r.error in {NaNOperand, InfiniteOperand, NonFiniteResult}
  {
    match ValidateOperands(a, b)
    case Fail(e) => Err(e)
    case Pass => Settle(arith.times(a.x, b.x))
  }

  function DivideOp(a: Double, b: Double, arith: Arithmetic): (r: Outcome)
    ensures a.Finite? && b == Finite(0.0) ==> r == Err(ZeroDivisor)
    ensures r.Ok? <==> a.Finite? && b.Finite? && b.x != 0.0 && arith.quotient(a.x, b.x).Finite?
    ensures r.Ok? ==> r.value == arith.quotient(a.x, b.x)
  {
    match ValidateOperands(a, b)
    case Fail(e) => Err(e)
    case Pass =>
      match ValidateForDivision(b)
      case Fail(e) => Err(e)
      case Pass => Settle(arith.quotient(a.x, b.x))
  }

  function PowerOp(base: Double, exponent: Double, arith: Arithmetic): (r: Outcome)
    ensures r.Ok? <==> base.Finite? && exponent.Finite? && arith.pow(base.x, exponent.x).Finite?
    ensures r.Ok? ==> r.value == arith.pow(base.x, exponent.x)
    ensures r.Err? ==> r.error in {NaNOperand, InfiniteOperand, NonFiniteResult}
  {
    match ValidateOperands(base, exponent)
    case Fail(e) => Err(e)
    case Pass => Settle(arith.pow(base.x, exponent.x))
  }

  /** The single operand is passed as both operands of the operand check. */
  function SqrtOp(operand: Double, arith: Arithmetic): (r: Outcome)
    ensures operand == NaN ==> r == Err(NaNOperand)
    ensures operand.IsInfinite() ==> r == Err(InfiniteOperand)
    ensures operand.Finite? && operand.x < 0.0 ==> r == Err(NegativeRadicand)
    ensures r.Ok? <==> operand.Finite? && operand.x >= 0.0 && arith.sqrt(operand.x).Finite?
    ensures r.Ok? ==> r.value == arith.sqrt(operand.x)
  {
    match ValidateOperands(operand, operand)
    case Fail(e) => Err(e)
    case Pass =>
      match ValidateForSqrt(operand)
      case Fail(e) => Err(e)
      case Pass => Settle(arith.sqrt(operand.x))
  }

  function PercentageOp(value: Double, percentage: Double, arith: Arithmetic): (r: Outcome)
    ensures value.Finite? && percentage.Finite? && (percentage.x < 0.0 || percentage.x > 100.0)
            ==> r == Err(PercentageOutOfRange)
    ensures r.Ok? <==> value.Finite? && percentage.Finite? && 0.0 <= percentage.x <= 100.0
                       && PercentOf(arith, value.x, percentage.x).Finite?
    ensures r.Ok? ==> r.value == PercentOf(arith, value.x, percentage.x)
  {
    match ValidateOperands(value, percentage)
    case Fail(e) => Err(e)
    case Pass =>
      match ValidatePercentage(percentage)
      case Fail(e) => Err(e)
      case Pass => Settle(PercentOf(arith, value.x, percentage.x))
  }

  /** The service entry point for an operation; `sqrt` reads only `a`. */
  function Calculate(op: Operation, a: Double, b: Double, arith: Arithmetic): Outcome
  {
    match op
    case Add => AddOp(a, b, arith)
    case Subtract => SubtractOp(a, b, arith)
    case Multiply => MultiplyOp(a, b, arith)
    case Divide => DivideOp(a, b, arith)
    case Power => PowerOp(a, b, arith)
    case Sqrt => SqrtOp(a, arith)
    case Percentage => PercentageOp(a, b, arith)
  }

  // ---------------------------------------------------------------------
  // The validation table, stated independently of the code above: the
  // operand rules, then the operation's own rule, then the result rule,
  // and the first rule that fails decides the error.
  // ---------------------------------------------------------------------

  /** The operands an operation reads. */
  function Operands(op: Operation, a: Double, b: Double): seq<Double>
  {
    if op == Sqrt then [a] else [a, b]
  }

  /** The operation-specific rule on finite operands, if it is violated. */
  function Violation(op: Operation, a: real, b: real): Option<ErrorResponse>
  {
    match op
    case Divide => if b == 0.0 then Some(ZeroDivisor) else None
    case Sqrt => if a < 0.0 then Some(NegativeRadicand) else None
    case Percentage => if b < 0.0 || 100.0 < b then Some(PercentageOutOfRange) else None
    case _ => None
  }

  /** The raw value an operation computes from finite operands. */
  function RawResult(op: Operation, a: Magnitude, b: Magnitude, arith: Arithmetic): Double
  {
    match op
    case Add => arith.plus(a, b)
    case Subtract => arith.minus(a, b)
    case Multiply => arith.times(a, b)
    case Divide => arith.quotient(a, b)
    case Power => arith.pow(a, b)
    case Sqrt => arith.sqrt(a)
    case Percentage => PercentOf(arith, a, b)
  }

  ghost function Table(op: Operation, a: Double, b: Double, arith: Arithmetic): Outcome
  {
    var xs := Operands(op, a, b);
    if exists d :: d in xs && d.NaN? then Err(NaNOperand)
    else if exists d :: d in xs && !d.Finite? then Err(InfiniteOperand)
    else
      var b' := if op == Sqrt then a else b;
      match Violation(op, a.x, b'.x)
      case Some(e) => Err(e)
      case None =>
        var raw := RawResult(op, a.x, b'.x, arith);
        if raw.Finite? then Ok(raw) else Err(NonFiniteResult)
  }

  /** Every operation follows the validation table, on every input. */
  lemma CalculateFollowsTable(op: Operation, a: Double, b: Double, arith: Arithmetic)
    ensures Calculate(op, a, b, arith) == Table(op, a, b, arith)
  {
    OperandRules(op, a, b);
    match op
    case Add => assert Calculate(op, a, b, arith) == AddOp(a, b, arith);
    case Subtract => assert Calculate(op, a, b, arith) == SubtractOp(a, b, arith);
    case Multiply => assert Calculate(op, a, b, arith) == MultiplyOp(a, b, arith);
    case Divide => assert Calculate(op, a, b, arith) == DivideOp(a, b, arith);
    case Power => assert Calculate(op, a, b, arith) == PowerOp(a, b, arith);
    case Sqrt => assert Calculate(op, a, b, arith) == SqrtOp(a, arith);
    case Percentage => assert Calculate(op, a, b, arith) == PercentageOp(a, b, arith);
  }

  /** The table's operand rules, read operand by operand. */
  lemma OperandRules(op: Operation, a: Double, b: Double)
    ensures (exists d :: d in Operands(op, a, b) && d.NaN?) <==> a.NaN? || (op != Sqrt && b.NaN?)
    ensures (exists d :: d in Operands(op, a, b) && !d.Finite?) <==> !a.Finite? || (op != Sqrt && !b.Finite?)
  {
    var xs := Operands(op, a, b);
    assert a in xs;
    if op != Sqrt {
      assert b in xs;
    }
  }

  /** Operand validity is decided before anything else: a NaN operand is
      reported as NaN even when the other operand is infinite, and an
      operation's own rule is never reached with a bad operand. */
  lemma OperandsCheckedFirst(op: Operation, a: Double, b: Double, arith: Arithmetic)
    ensures (a == NaN || (op != Sqrt && b == NaN)) ==> Calculate(op, a, b, arith) == Err(NaNOperand)
    ensures a != NaN && (op == Sqrt || b != NaN) && (a.IsInfinite() || (op != Sqrt && b.IsInfinite()))
            ==> Calculate(op, a, b, arith) == Err(InfiniteOperand)
  {
  }

  /** Every successful result is finite and is the raw result of the
      operation; every failure carries one of the service's codes. */
  lemma SuccessIsFinite(op: Operation, a: Double, b: Double, arith: Arithmetic)
    ensures Calculate(op, a, b, arith).Ok? ==> Calculate(op, a, b, arith).value.Finite?
    ensures Calculate(op, a, b, arith).Err? ==>
              Calculate(op, a, b, arith).error.errorCode in {"CALC_001", "CALC_002", "CALC_003", "CALC_004", "CALC_005"}
  {
    CalculateFollowsTable(op, a, b, arith);
  }

  /** A non-finite raw result on valid operands is always CALC_004. */
  lemma NonFiniteIsOverflow(op: Operation, a: Magnitude, b: Magnitude, arith: Arithmetic)
    requires Violation(op, a, if op == Sqrt then a else b) == None
    requires !RawResult(op, a, if op == Sqrt then a else b, arith).Finite?
    ensures Calculate(op, Finite(a), Finite(b), arith) == Err(NonFiniteResult)
  {
    CalculateFollowsTable(op, Finite(a), Finite(b), arith);
  }
}
