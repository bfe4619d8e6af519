/** The calculator's input state machine: one pure transition per user event,
    over a display string, a staged left operand, a pending operation and
    flags.

    Numbers are JavaScript numbers, modelled as reals. Reading the display as
    a number (`parseDisplay`) and writing a number as text (`String(number)`)
    are supplied as a `NumberFormat`; the facts about them that a property
    needs are stated as requirements of that property. */
module CalculatorReducer {
  import opened Options
  import opened Text
  import opened CalculatorService

  /** The most digits the display may gain by typing. */
  const MaxDigits: nat := 15

  /** `parse` is `parseDisplay` (commas removed, unparsable text read as 0);
      `show` is `String(number)`. */
  datatype NumberFormat = NumberFormat(parse: string -> real, show: real -> string)

  datatype State = State(
    display: string,
    currentValue: Option<real>,
    previousValue: Option<real>,
    operation: Option<Operation>,
    waitingForOperand: bool,
    isLoading: bool,
    error: Option<string>)

  const InitialState := State("0", None, None, None, false, false, None)

  datatype Action =
    | InputDigit(digit: string)
    | InputDecimal
    | SetOperation(op: Operation)
    | CalculateResult
    | Clear
    | ClearError
    | SetLoading(loading: bool)
    | SetResult(result: real)
    | SetError(message: string)
    | PercentageKey
    | ToggleSign
    | Backspace

  predicate IsDigit(c: char)
  {
    '0' <= c <= '9'
  }

  /** How many characters of `s` are the digits 0 to 9. */
  function DigitCount(s: string): nat
  {
    if s == [] then 0 else (if IsDigit(s[0]) then 1 else 0) + DigitCount(s[1..])
  }

  lemma {:induction false} DigitCountAppend(a: string, b: string)
    ensures DigitCount(a + b) == DigitCount(a) + DigitCount(b)
    decreases |a|
  {
    if a == [] {
      assert a + b == b;
    } else {
      assert (a + b)[1..] == a[1..] + b;
      DigitCountAppend(a[1..], b);
    }
  }

  /** JavaScript truthiness of `state.error`: an empty message is no error. */
  predicate HasError(s: State)
  {
    s.error.Some? && s.error.value != ""
  }

  /** Whether typing `digit` keeps the display within the digit cap, stated by
      counting: the digit alone when it replaces the display, or the digits
      already shown plus the new ones when it is appended. */
  predicate DigitFits(s: State, digit: string)
  {
    if s.waitingForOperand || s.display == "0" then DigitCount(digit) <= MaxDigits
    else DigitCount(s.display) + DigitCount(digit) <= MaxDigits
  }

  /** Typing a digit on a state without an error. */
  function EnterDigit(s: State, digit: string, fmt: NumberFormat): (r: State)
    ensures !DigitFits(s, digit) ==> r == s
    ensures DigitFits(s, digit) ==>
              && DigitCount(r.display) <= MaxDigits
              && r == s.(display := r.display, waitingForOperand := false, currentValue := Some(fmt.parse(r.display)))
              && r.display == (if s.waitingForOperand || s.display == "0" then digit else s.display + digit)
  {
    var newDisplay :=
      if s.waitingForOperand then (if digit == "0" then "0" else digit)
      else if s.display == "0" && digit != "0" then digit
      else if s.display == "0" && digit == "0" then "0"
      else s.display + digit;
    DigitCountAppend(s.display, digit);
    if DigitCount(newDisplay) > MaxDigits then s
    else s.(display := newDisplay, waitingForOperand := false, currentValue := Some(fmt.parse(newDisplay)))
  }

  /** Typing the decimal point on a state without an error. */
  function EnterDecimal(s: State, fmt: NumberFormat): (r: State)
    ensures '.' in r.display
    ensures s.waitingForOperand ==> r.display == "0."
    ensures !s.waitingForOperand && '.' in s.display ==> r == s
    ensures !s.waitingForOperand && '.' !in s.display ==> r.display == s.display + "." && Count('.', r.display) == 1
    ensures r != s ==> r == s.(display := r.display, waitingForOperand := false, currentValue := Some(fmt.parse(r.display)))
  {
    if s.waitingForOperand then
      s.(display := "0.", waitingForOperand := false, currentValue := Some(fmt.parse("0.")))
    else if '.' in s.display then s
    else
      var newDisplay := s.display + ".";
      CountZero('.', s.display);
      CountAppend('.', s.display, ".");
      s.(display := newDisplay, waitingForOperand := false, currentValue := Some(fmt.parse(newDisplay)))
  }

  /** Negating the displayed number, unless an error is shown. */
  function NegateDisplay(s: State, fmt: NumberFormat): (r: State)
    ensures HasError(s) ==> r == s
    ensures !HasError(s) ==> r == s.(display := r.display, currentValue := Some(-fmt.parse(s.display)))
    ensures !HasError(s) && fmt.parse(s.display) == 0.0 ==> r.display == "0"
    ensures !HasError(s) && fmt.parse(s.display) != 0.0 ==> r.display == fmt.show(-fmt.parse(s.display))
  {
    if HasError(s) then s
    else
      var n := fmt.parse(s.display);
      var newDisplay := if n == 0.0 then "0" else fmt.show(-n);
      s.(display := newDisplay, currentValue := Some(-n))
  }

  /** Deleting the last character, unless an error is shown. */
  function DeleteLast(s: State, fmt: NumberFormat): (r: State)
    ensures HasError(s) ==> r == s
    ensures !HasError(s) ==> r == s.(display := r.display, currentValue := r.currentValue)
    ensures !HasError(s) ==> r.display != "" && r.display != "-"
    ensures !HasError(s) ==> r.display == "0" || (|s.display| >= 2 && r.display == s.display[..|s.display| - 1])
    ensures !HasError(s) && |s.display| >= 2 && s.display != "0" && s.display[..|s.display| - 1] != "-"
            ==> r.display == s.display[..|s.display| - 1]
    ensures !HasError(s) ==> r.currentValue == Some(if |s.display| <= 1 then 0.0 else fmt.parse(r.display))
  {
    if HasError(s) then s
    else if s.display == "0" || |s.display| <= 1 then s.(display := "0", currentValue := Some(0.0))
    else
      var next := s.display[..|s.display| - 1];
      var newDisplay := if next == "" || next == "-" then "0" else next;
      s.(display := newDisplay, currentValue := Some(fmt.parse(newDisplay)))
  }

  /** Choosing an operator (or the percentage key), unless an error is shown.
      The source distinguishes the chaining case, where an operation and a
      staged value exist and an operand has been typed since; the contract
      shows that both branches follow the same rule. */
  function SelectOperation(s: State, op: Operation, fmt: NumberFormat): (r: State)
    ensures HasError(s) ==> r == s
    ensures !HasError(s) ==> r.operation == Some(op) && r.waitingForOperand && r.display == s.display
    ensures !HasError(s) ==>
              r.previousValue == (if s.waitingForOperand && s.previousValue.Some? then s.previousValue else Some(fmt.parse(s.display)))
    ensures !HasError(s) ==> r == s.(previousValue := r.previousValue, operation := Some(op), waitingForOperand := true)
  {
    if HasError(s) then s
    else
      var current := fmt.parse(s.display);
      if s.operation.Some? && s.previousValue.Some? && !s.waitingForOperand then
        s.(previousValue := Some(current), operation := Some(op), waitingForOperand := true)
      else
        s.(previousValue := if s.waitingForOperand && s.previousValue.Some? then s.previousValue else Some(current),
           operation := Some(op), waitingForOperand := true)
  }

  /** `calculatorReducer`. Digit and decimal input on a state with an error
      re-run the same action on the state with the error cleared. */
  function Reduce(s: State, a: Action, fmt: NumberFormat): (r: State)
    // while an error is shown, the sign, backspace, operator and equals keys do nothing
    ensures HasError(s) && (a.ToggleSign? || a.Backspace? || a.SetOperation? || a.PercentageKey? || a.CalculateResult?)
            ==> r == s
    // typing always leaves no error shown
    ensures a.InputDigit? || a.InputDecimal? ==> !HasError(r)
    // only loading, errors, results and clearing touch the loading flag
    ensures r.isLoading == (if a.SetLoading? then a.loading
                            else if a.SetError? || a.SetResult? || a.Clear? then false
                            else s.isLoading)
    decreases if HasError(s) then 1 else 0
  {
    match a
    case ClearError => s.(error := None)
    case SetLoading(loading) => s.(isLoading := loading)
    case SetError(message) => s.(error := Some(message), isLoading := false)
    case SetResult(result) =>
      s.(display := fmt.show(result), currentValue := Some(result), previousValue := None,
         operation := None, waitingForOperand := true, isLoading := false, error := None)
    case Clear => InitialState
    case InputDigit(digit) =>
      if HasError(s) then Reduce(s.(error := None), InputDigit(digit), fmt) else EnterDigit(s, digit, fmt)
    case InputDecimal =>
      if HasError(s) then Reduce(s.(error := None), InputDecimal, fmt) else EnterDecimal(s, fmt)
    case ToggleSign => NegateDisplay(s, fmt)
    case Backspace => DeleteLast(s, fmt)
    case SetOperation(op) => SelectOperation(s, op, fmt)
    case PercentageKey => SelectOperation(s, Percentage, fmt)
    case CalculateResult => s
  }

  /** The state after a sequence of actions, in order. */
  function ReduceAll(s: State, actions: seq<Action>, fmt: NumberFormat): State
    decreases |actions|
  {
    if actions == [] then s else ReduceAll(Reduce(s, actions[0], fmt), actions[1..], fmt)
  }

  // ---------------------------------------------------------------------
  // Properties of the reducer
  // ---------------------------------------------------------------------

  /** Typed digits never push the display past the cap: a digit that would
      is dropped and the state (with any error cleared first) stays as it was. */
  lemma DigitCap(s: State, digit: string, fmt: NumberFormat)
    ensures var r := Reduce(s, InputDigit(digit), fmt);
            var base := if HasError(s) then s.(error := None) else s;
            DigitFits(base, digit) ==> DigitCount(r.display) <= MaxDigits && !r.waitingForOperand
    ensures var r := Reduce(s, InputDigit(digit), fmt);
            var base := if HasError(s) then s.(error := None) else s;
            !DigitFits(base, digit) ==> r == base
  {
  }

  /** With a digit of its own, a display already at the cap keeps its digit count. */
  lemma {:induction false} SixteenthDigitRejected(s: State, d: char, fmt: NumberFormat)
    requires IsDigit(d) && !HasError(s) && !s.waitingForOperand && s.display != "0"
    requires DigitCount(s.display) == MaxDigits
    ensures Reduce(s, InputDigit([d]), fmt) == s
  {
    assert DigitCount([d]) == 1 by {
      assert [d][1..] == [];
    }
  }

  /** Digit and decimal input behave, under an error, exactly as on the same
      state with the error cleared. */
  lemma InputClearsErrorFirst(s: State, a: Action, fmt: NumberFormat)
    requires a.InputDigit? || a.InputDecimal?
    requires HasError(s)
    ensures Reduce(s, a, fmt) == Reduce(s.(error := None), a, fmt)
    ensures Reduce(s, a, fmt).error == None
  {
  }

  /** Two decimal points in a row act like one. */
  lemma DecimalIdempotent(s: State, fmt: NumberFormat)
    ensures Reduce(Reduce(s, InputDecimal, fmt), InputDecimal, fmt) == Reduce(s, InputDecimal, fmt)
  {
    var once := Reduce(s, InputDecimal, fmt);
    if HasError(s) {
      assert once == Reduce(s.(error := None), InputDecimal, fmt);
      assert !HasError(s.(error := None));
      assert once == EnterDecimal(s.(error := None), fmt);
    } else {
      assert once == EnterDecimal(s, fmt);
    }
    assert !HasError(once);
    assert !once.waitingForOperand;
  }

  /** The actions that only keep books change exactly what they name. */
  lemma Bookkeeping(s: State, fmt: NumberFormat, loading: bool, message: string, result: real)
    ensures Reduce(s, Clear, fmt) == InitialState
    ensures Reduce(s, ClearError, fmt) == s.(error := None)
    ensures Reduce(s, SetLoading(loading), fmt) == s.(isLoading := loading)
    ensures Reduce(s, SetError(message), fmt) == s.(error := Some(message), isLoading := false)
    ensures var r := Reduce(s, SetResult(result), fmt);
            r.previousValue.None? && r.operation.None? && r.error.None? && !r.isLoading && r.waitingForOperand
            && r.currentValue == Some(result)
    ensures Reduce(s, CalculateResult, fmt) == s
  {
  }

  /** The percentage key is the operator key for `percentage`. */
  lemma PercentageIsAnOperator(s: State, fmt: NumberFormat)
    ensures Reduce(s, PercentageKey, fmt) == Reduce(s, SetOperation(Percentage), fmt)
  {
  }

  // ---------------------------------------------------------------------
  // A display invariant kept by every action
  // ---------------------------------------------------------------------

  /** The display is never empty and holds at most one decimal point. */
  predicate DisplayInvariant(s: State)
  {
    s.display != [] && Count('.', s.display) <= 1
  }

  /** A digit action carries one decimal digit, as every caller sends. */
  predicate WellFormed(a: Action)
  {
    a.InputDigit? ==> |a.digit| == 1 && IsDigit(a.digit[0])
  }

  /** `String(number)` never returns empty text or more than one point. */
  ghost predicate ShowsPlainNumbers(fmt: NumberFormat)
  {
    forall x :: fmt.show(x) != [] && Count('.', fmt.show(x)) <= 1
  }

  lemma InitialStateInvariant()
    ensures DisplayInvariant(InitialState)
  {
    assert Count('.', "0") == 0 by {
      assert "0"[1..] == [];
    }
  }

  lemma {:induction false} DigitHasNoPoint(d: string)
    requires |d| == 1 && IsDigit(d[0])
    ensures Count('.', d) == 0
  {
    assert d[1..] == [];
  }

  lemma EnterDigitKeepsInvariant(s: State, digit: string, fmt: NumberFormat)
    requires DisplayInvariant(s) && |digit| == 1 && IsDigit(digit[0])
    ensures DisplayInvariant(EnterDigit(s, digit, fmt))
  {
    DigitHasNoPoint(digit);
    CountAppend('.', s.display, digit);
    InitialStateInvariant();
  }

  lemma EnterDecimalKeepsInvariant(s: State, fmt: NumberFormat)
    requires DisplayInvariant(s)
    ensures DisplayInvariant(EnterDecimal(s, fmt))
  {
    if s.waitingForOperand {
      assert Count('.', "0.") == 1 by {
        assert "0."[1..] == ".";
        assert "."[1..] == [];
      }
    }
  }

  lemma NegateDisplayKeepsInvariant(s: State, fmt: NumberFormat)
    requires DisplayInvariant(s) && ShowsPlainNumbers(fmt)
    ensures DisplayInvariant(NegateDisplay(s, fmt))
  {
    InitialStateInvariant();
  }

  lemma DeleteLastKeepsInvariant(s: State, fmt: NumberFormat)
    requires DisplayInvariant(s)
    ensures DisplayInvariant(DeleteLast(s, fmt))
  {
    InitialStateInvariant();
    if !HasError(s) && |s.display| >= 2 {
      CountDropLast('.', s.display);
    }
  }

  lemma {:induction false} InvariantPreserved(s: State, a: Action, fmt: NumberFormat)
    requires DisplayInvariant(s) && WellFormed(a) && ShowsPlainNumbers(fmt)
    ensures DisplayInvariant(Reduce(s, a, fmt))
    decreases if HasError(s) then 1 else 0
  {
    match a
    case InputDigit(digit) =>
      if HasError(s) {
        InvariantPreserved(s.(error := None), a, fmt);
      } else {
        EnterDigitKeepsInvariant(s, digit, fmt);
      }
    case InputDecimal =>
      if HasError(s) {
        InvariantPreserved(s.(error := None), a, fmt);
      } else {
        EnterDecimalKeepsInvariant(s, fmt);
      }
    case ToggleSign => NegateDisplayKeepsInvariant(s, fmt);
    case Backspace => DeleteLastKeepsInvariant(s, fmt);
    case Clear => InitialStateInvariant();
    case _ =>
  }

  /** The invariant holds after any sequence of well-formed actions. */
  lemma {:induction false} InvariantAlways(s: State, actions: seq<Action>, fmt: NumberFormat)
    requires DisplayInvariant(s) && ShowsPlainNumbers(fmt)
    requires forall i :: 0 <= i < |actions| ==> WellFormed(actions[i])
    ensures DisplayInvariant(ReduceAll(s, actions, fmt))
    decreases |actions|
  {
    if actions != [] {
      InvariantPreserved(s, actions[0], fmt);
      InvariantAlways(Reduce(s, actions[0], fmt), actions[1..], fmt);
    }
  }

  // ---------------------------------------------------------------------
  // Sign toggling
  // ---------------------------------------------------------------------

  /** `parseDisplay` reads "0" as 0, and reads back what `String(number)`
      writes for every value a display can hold and for its negation. */
  ghost predicate ReadsBack(fmt: NumberFormat)
  {
    && fmt.parse("0") == 0.0
    && forall d: string ::
         && fmt.parse(fmt.show(fmt.parse(d))) == fmt.parse(d)
         && fmt.parse(fmt.show(-fmt.parse(d))) == -fmt.parse(d)
  }

  /** Both requirements on a number format can be met: a format that reads
      every display as 0 and writes every number as "0" satisfies them. */
  lemma FormatRequirementsSatisfiable()
    ensures var fmt := NumberFormat(d => 0.0, x => "0");
            ReadsBack(fmt) && ShowsPlainNumbers(fmt)
  {
    assert Count('.', "0") == 0 by {
      assert "0"[1..] == [];
    }
  }

  /** Pressing the sign key twice restores the displayed value. */
  lemma ToggleTwice(s: State, fmt: NumberFormat)
    requires ReadsBack(fmt) && !HasError(s)
    ensures fmt.parse(Reduce(Reduce(s, ToggleSign, fmt), ToggleSign, fmt).display) == fmt.parse(s.display)
  {
    var n := fmt.parse(s.display);
    var once := Reduce(s, ToggleSign, fmt);
    if n == 0.0 {
      assert once.display == "0";
    } else {
      assert fmt.parse(once.display) == -n;
    }
  }
}
