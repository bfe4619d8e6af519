/** The error body every failure of the service reaches the client as. The
    exception handler of the service copies an exception's code, message and
    details into this body unchanged, so each exception class of the service
    is modelled directly as the body it produces. The timestamp is not
    modelled. */
module ErrorResponses {
  import opened Options

  datatype ErrorResponse = ErrorResponse(errorCode: string, message: string, details: Option<string>)

  /** `DivisionByZeroException`: code CALC_001. */
  function DivisionByZeroException(message: string, details: Option<string>): ErrorResponse
  {
    ErrorResponse("CALC_001", message, details)
  }

  /** `OverflowException`: code CALC_004. */
  function OverflowException(message: string, details: Option<string>): ErrorResponse
  {
    ErrorResponse("CALC_004", message, details)
  }

  /** `InvalidOperandException`: carries its own code. */
  function InvalidOperandException(errorCode: string, message: string, details: Option<string>): ErrorResponse
  {
    ErrorResponse(errorCode, message, details)
  }
}
