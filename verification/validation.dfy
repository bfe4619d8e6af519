/** The client-side checks the calculator runs before it sends a request.
    JavaScript numbers are modelled as reals; NaN never reaches these checks
    because the display parser maps it to 0. */
module Validation {
  import opened Numbers
  import CalculatorService

  /** `operand2 === 0`. On every value a double can hold, it rejects exactly
      the divisors the service rejects. */
  function IsDivisionByZero(operand2: real): (b: bool)
    ensures -MaxDouble <= operand2 <= MaxDouble ==>
              (b <==> CalculatorService.ValidateForDivision(Finite(operand2)).Fail?)
  {
    operand2 == 0.0
  }

  /** `operand < 0`: zero is not negative. On every value a double can
      hold, it rejects exactly the radicands the service rejects. */
  function IsNegativeForSqrt(operand: real): (b: bool)
    ensures -MaxDouble <= operand <= MaxDouble ==>
              (b <==> CalculatorService.ValidateForSqrt(Finite(operand)).Fail?)
  {
    operand < 0.0
  }

  /** `percentage < 0 || percentage > 100`: both bounds are in range. On
      every value a double can hold, it rejects exactly the percentages the
      service rejects. */
  function IsPercentageOutOfRange(percentage: real): (b: bool)
    ensures -MaxDouble <= percentage <= MaxDouble ==>
              (b <==> CalculatorService.ValidatePercentage(Finite(percentage)).Fail?)
  {
    percentage < 0.0 || percentage > 100.0
  }

  /** The boundary cases the client accepts: 0 has a square root, and both
      0 and 100 are valid percentages, while anything just outside is not. */
  lemma Boundaries(eps: real)
    requires eps > 0.0
    ensures !IsNegativeForSqrt(0.0) && IsNegativeForSqrt(-eps)
    ensures !IsPercentageOutOfRange(0.0) && !IsPercentageOutOfRange(100.0)
    ensures IsPercentageOutOfRange(-eps) && IsPercentageOutOfRange(100.0 + eps)
  {
  }
}
