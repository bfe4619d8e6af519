/** The request side of the calculator hook: what `handleCalculate` and
    `handleSqrt` dispatch before the request, which request they send, and
    which action the answer becomes. The request itself is not modelled; its
    outcome is an input. */
module CalculatorHook {
  import opened Options
  import opened CalculatorService
  import opened CalculatorReducer
  import Validation

  const DivideByZeroMessage := "Cannot divide by zero"
  const NegativeSqrtMessage := "Cannot calculate square root of negative number"
  const FallbackMessage := "Something went wrong"

  /** The operands sent to the service. */
  datatype ApiRequest = Binary(op: Operation, operand1: real, operand2: real) | Unary(op: Operation, operand: real)

  /** The actions dispatched before the request, and the request, if any. */
  datatype Plan = Plan(dispatched: seq<Action>, request: Option<ApiRequest>)

  /** How the request ended: a result, or a rejection whose value is an
      `Error` with the given message (`Some`) or something else (`None`). */
  datatype Completion = Resolved(result: real) | Rejected(errorMessage: Option<string>)

  /** The two cases `handleCalculate` refuses without asking the service: a
      division by a displayed zero and a square root of a displayed negative
      number. */
  predicate RefusedOnClient(s: State, fmt: NumberFormat)
  {
    || (s.operation == Some(Divide) && fmt.parse(s.display) == 0.0)
    || (s.operation == Some(Sqrt) && fmt.parse(s.display) < 0.0)
  }

  /** `handleCalculate`, up to the request. */
  function PlanCalculate(s: State, fmt: NumberFormat): (p: Plan)
    ensures s.operation.None? ==> p == Plan([], None)
    ensures s.operation.Some? ==> |p.dispatched| == 2 && p.dispatched[0] == ClearError
    ensures s.operation == Some(Divide) && fmt.parse(s.display) == 0.0
            ==> p == Plan([ClearError, SetError(DivideByZeroMessage)], None)
    ensures s.operation == Some(Sqrt) && fmt.parse(s.display) < 0.0
            ==> p == Plan([ClearError, SetError(NegativeSqrtMessage)], None)
    ensures p.request.Some? ==> p.dispatched == [ClearError, SetLoading(true)]
    ensures p.request.Some? && s.operation != Some(Sqrt)
            ==> p.request.value == Binary(s.operation.value, s.previousValue.GetOr(fmt.parse(s.display)), fmt.parse(s.display))
    ensures p.request.Some? && s.operation == Some(Sqrt) ==> p.request.value == Unary(Sqrt, fmt.parse(s.display))
    ensures s.operation.Some? && p.request.None? ==> p.dispatched[1].SetError?
    // the only two refusals; every other pending operation is sent
    ensures s.operation.Some? ==> (p.request.None? <==> RefusedOnClient(s, fmt))
  {
    match s.operation
    case None => Plan([], None)
    case Some(op) =>
      var current := fmt.parse(s.display);
      if op == Sqrt then
        if Validation.IsNegativeForSqrt(current) then Plan([ClearError, SetError(NegativeSqrtMessage)], None)
        else Plan([ClearError, SetLoading(true)], Some(Unary(op, current)))
      else
        var prev := s.previousValue.GetOr(current);
        if op == Divide && Validation.IsDivisionByZero(current) then Plan([ClearError, SetError(DivideByZeroMessage)], None)
        else Plan([ClearError, SetLoading(true)], Some(Binary(op, prev, current)))
  }

  /** `handleSqrt`, up to the request: the displayed value is the operand,
      whatever operation is pending. */
  function PlanSqrt(s: State, fmt: NumberFormat): (p: Plan)
    ensures fmt.parse(s.display) < 0.0 ==> p == Plan([ClearError, SetError(NegativeSqrtMessage)], None)
    ensures fmt.parse(s.display) >= 0.0 ==> p == Plan([ClearError, SetLoading(true)], Some(Unary(Sqrt, fmt.parse(s.display))))
  {
    var current := fmt.parse(s.display);
    if Validation.IsNegativeForSqrt(current) then Plan([ClearError, SetError(NegativeSqrtMessage)], None)
    else Plan([ClearError, SetLoading(true)], Some(Unary(Sqrt, current)))
  }

  /** The action dispatched when the request ends. */
  function Complete(c: Completion): (a: Action)
    ensures c.Resolved? ==> a == SetResult(c.result)
    ensures c.Rejected? ==> a.SetError? && a.message == c.errorMessage.GetOr(FallbackMessage)
  {
    match c
    case Resolved(result) => SetResult(result)
    case Rejected(message) => SetError(if message.Some? then message.value else FallbackMessage)
  }

  /** A division by a displayed zero, and a square root of a displayed
      negative number, are refused on the client: no request goes out, the
      state shows the client's message and is not loading. */
  lemma RefusedLocally(s: State, fmt: NumberFormat)
    requires s.operation.Some?
    requires PlanCalculate(s, fmt).request.None?
    ensures var r := ReduceAll(s, PlanCalculate(s, fmt).dispatched, fmt);
            r.error == Some(if s.operation == Some(Divide) then DivideByZeroMessage else NegativeSqrtMessage) && !r.isLoading
    ensures RefusedOnClient(s, fmt)
  {
    var p := PlanCalculate(s, fmt);
    var s1 := Reduce(s, ClearError, fmt);
    assert ReduceAll(s, p.dispatched, fmt) == ReduceAll(s1, p.dispatched[1..], fmt);
    assert ReduceAll(s1, p.dispatched[1..], fmt) == ReduceAll(Reduce(s1, p.dispatched[1], fmt), [], fmt);
  }

  /** The square-root key and a pending `sqrt` behave alike: the same
      refusal, the same request. */
  lemma SqrtKeyMatchesPendingSqrt(s: State, fmt: NumberFormat)
    requires s.operation == Some(Sqrt)
    ensures PlanSqrt(s, fmt) == PlanCalculate(s, fmt)
  {
  }

  /** A request that goes out never divides by zero and never takes the root
      of a negative number, and while it is in flight the state is loading
      with no error shown. */
  lemma SentRequestsAreValid(s: State, fmt: NumberFormat)
    requires PlanCalculate(s, fmt).request.Some?
    ensures var q := PlanCalculate(s, fmt).request.value;
            && (q.Binary? && q.op == Divide ==> !Validation.IsDivisionByZero(q.operand2))
            && (q.Unary? ==> q.op == Sqrt && !Validation.IsNegativeForSqrt(q.operand))
    ensures var r := ReduceAll(s, PlanCalculate(s, fmt).dispatched, fmt);
            r.isLoading && r.error.None? && r.display == s.display
  {
    var p := PlanCalculate(s, fmt);
    var s1 := Reduce(s, ClearError, fmt);
    assert ReduceAll(s, p.dispatched, fmt) == ReduceAll(s1, p.dispatched[1..], fmt);
    assert ReduceAll(s1, p.dispatched[1..], fmt) == ReduceAll(Reduce(s1, p.dispatched[1], fmt), [], fmt);
  }

  /** Once a request succeeds, the pending operation is consumed and the
      next digit starts a new number. */
  lemma SuccessConsumesOperation(s: State, fmt: NumberFormat, result: real)
    ensures var r := Reduce(s, Complete(Resolved(result)), fmt);
            r.operation.None? && r.previousValue.None? && r.waitingForOperand && !r.isLoading && r.error.None?
  {
  }
}
