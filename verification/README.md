# Calculator service and keypad: a Dafny model

This project models the decision logic of a two-part calculator: a web
keypad that turns key presses into a display and a pending operation, and a
backend service that validates and classifies seven arithmetic operations
(add, subtract, multiply, divide, power, square root, percentage). It also
models the three request filters in front of the service: a fixed-window
rate limiter with its path exclusions and client-address resolution, and the
sanitising of the `X-Request-ID` correlation header.

Every piece is a pure function. The modules follow the source files. The
hook file is split into its reducer and its request handlers, and four
helper modules hold shared definitions:

- `CalculatorReducer` (`calculator_reducer.dfy`): the keypad reducer, state
  and actions, the 15-digit cap, and a display invariant kept by every action.
- `CalculatorHook` (`calculator_hook.dfy`): what `handleCalculate` and
  `handleSqrt` dispatch before a request, and which request they send.
- `CalculatorService` (`calculator_service.dfy`): the seven operations and
  their validation steps. Errors are a tagged `Outcome`, `Ok(value)` or
  `Err(error body)`, in place of thrown exceptions. `ErrorResponses`
  (`error_response.dfy`) holds the error body and one constructor per
  exception class.
- `Validation` (`validation.dfy`): the client's pre-request checks and their
  agreement with the service.
- `ErrorMessages` (`error_messages.dfy`): the client's error-to-message
  classifier.
- `RateLimiter`, `RateLimitFilter`, `MdcFilter`: the filters.
- `Numbers`, `Text`, `Options`: the JVM `Double`
  (`Finite(x) | NaN | PosInf | NegInf`, with `|x|` at most `Double.MAX_VALUE`),
  the Kotlin and JavaScript string functions used, and optional values.

Inputs that the code gets from its environment are parameters:

- The raw IEEE-754 results of `+ - * / pow sqrt` are an `Arithmetic` record
  of functions.
- `parseDisplay` and `String(number)` are a `NumberFormat` record.
- The clock reading of the rate limiter is a `now` parameter.
- The UUID generator of the request-id filter is a `generated` parameter.
- The outcome of the HTTP request is a `Completion` value.

Where the code and the project's tests (`useCalculator.test.ts`) disagree,
the model follows the code:

- A 16th digit leaves the state exactly as it was. No "Maximum 15 digits
  allowed" error is set.
- The decimal point has no digit cap.
- Backspace does nothing while any error is shown. This includes the
  digit-limit error, which the code never sets.

Error presence follows JavaScript truthiness, so an empty error message
counts as no error (`HasError`).

## Model

| member | source | states |
|---|---|---|
| CalculatorReducer.Reduce | calculator-frontend/src/hooks/useCalculator.ts:44-193 | while a truthy error is shown, the sign, backspace, operator, percentage and equals keys leave the state unchanged. After digit or decimal input no error is shown. Only SET_LOADING, SET_ERROR, SET_RESULT and CLEAR change the loading flag |
| CalculatorReducer.DigitCountAppend | calculator-frontend/src/hooks/useCalculator.ts:25-27 | the digit count of a concatenation is the sum of the parts' digit counts |
| CalculatorReducer.EnterDigit | calculator-frontend/src/hooks/useCalculator.ts:88-107 | a digit that would push the digit count past 15 leaves the state identical. Otherwise the display is replaced (when waiting or showing "0") or extended, the count stays at most 15, waiting is cleared, the current value is the parsed display, and nothing else changes |
| CalculatorReducer.EnterDecimal | calculator-frontend/src/hooks/useCalculator.ts:117-130 | the display always ends up holding a '.'. When waiting it becomes "0.". A display that already holds '.' is left alone. Otherwise one '.' is appended and the display then holds exactly one |
| CalculatorReducer.NegateDisplay | calculator-frontend/src/hooks/useCalculator.ts:133-142 | identity under an error. A display that parses to 0 becomes exactly "0", never "-0". Any other display becomes the text of the negated value. Only the display and the current value change |
| CalculatorReducer.DeleteLast | calculator-frontend/src/hooks/useCalculator.ts:144-156 | identity under an error. Otherwise the display is never "" or "-": it either loses exactly its last character or becomes "0". Only the display and the current value change |
| CalculatorReducer.SelectOperation | calculator-frontend/src/hooks/useCalculator.ts:158-185 | identity under an error. Otherwise the operation is the chosen one, waiting is set and the display is kept. The staged value is kept only when already waiting with one staged, and is the parsed display otherwise. The chaining branch obeys the same rule |
| CalculatorReducer.DigitCap | calculator-frontend/src/hooks/useCalculator.ts:81-108 | after digit input, either the display has at most 15 digits, or the state is the input state with any error cleared. Without an error, a digit that does not fit returns the identical state |
| CalculatorReducer.SixteenthDigitRejected | calculator-frontend/src/hooks/useCalculator.ts:98-101 | a single digit typed onto a display that already holds 15 digits returns the identical state |
| CalculatorReducer.InputClearsErrorFirst | calculator-frontend/src/hooks/useCalculator.ts:82-87 | under an error, digit and decimal input act as on the same state with the error cleared, and no error remains |
| CalculatorReducer.DecimalIdempotent | calculator-frontend/src/hooks/useCalculator.ts:110-131 | two decimal-point actions in a row give the same state as one |
| CalculatorReducer.Bookkeeping | calculator-frontend/src/hooks/useCalculator.ts:49-79 | CLEAR gives the initial state. CLEAR_ERROR changes only the error, SET_LOADING only the loading flag. SET_ERROR sets the error and clears loading. SET_RESULT clears the staged value, operation, error and loading and sets waiting. CALCULATE_RESULT is the identity |
| CalculatorReducer.PercentageIsAnOperator | calculator-frontend/src/hooks/useCalculator.ts:158-162 | the percentage key acts as selecting the `percentage` operation |
| CalculatorReducer.InitialStateInvariant | calculator-frontend/src/hooks/useCalculator.ts:34-42 | the initial display "0" satisfies the display invariant |
| CalculatorReducer.InvariantPreserved | calculator-frontend/src/hooks/useCalculator.ts:44-193 | if digit actions carry one digit and number text never holds two points, every action keeps the display non-empty with at most one '.' |
| CalculatorReducer.InvariantAlways | calculator-frontend/src/hooks/useCalculator.ts:44-193 | the display invariant holds after any sequence of well-formed actions |
| CalculatorReducer.ToggleTwice | calculator-frontend/src/hooks/useCalculator.ts:133-142 | if parsing reads "0" as 0 and reads back what `String(number)` writes for every displayable value and its negation, pressing the sign key twice restores the displayed value |
| CalculatorReducer.FormatRequirementsSatisfiable | calculator-frontend/src/hooks/useCalculator.ts:29-32 | the two requirements placed on the number format can be met together, so the properties that assume them are not vacuous |
| CalculatorHook.PlanCalculate | calculator-frontend/src/hooks/useCalculator.ts:199-245 | with no operation nothing is dispatched. A division by a displayed 0, or the square root of a displayed negative value, dispatches CLEAR_ERROR then the client's error and sends nothing. A request is sent exactly when neither of these two refusals applies. It is preceded by CLEAR_ERROR and SET_LOADING and carries `(previousValue ?? current, current)`, or `current` alone for sqrt |
| CalculatorHook.PlanSqrt | calculator-frontend/src/hooks/useCalculator.ts:247-267 | a negative displayed value is refused locally. Any other is sent as the sqrt operand, whatever operation is pending |
| CalculatorHook.Complete | calculator-frontend/src/hooks/useCalculator.ts:232-244 | a result becomes SET_RESULT. A rejection becomes SET_ERROR with the error's message, or "Something went wrong" when the rejection is not an `Error` |
| CalculatorHook.RefusedLocally | calculator-frontend/src/hooks/useCalculator.ts:199-231 | a pending operation with no request sent is a division by a displayed 0 or a square root of a displayed negative value. It leaves that case's message shown and loading off |
| CalculatorHook.SqrtKeyMatchesPendingSqrt | calculator-frontend/src/hooks/useCalculator.ts:204-222 | with `sqrt` pending, the square-root key and the equals key refuse the same values and send the same request |
| CalculatorHook.SentRequestsAreValid | calculator-frontend/src/hooks/useCalculator.ts:199-245 | a request that is sent never divides by 0 and never takes the root of a negative value. While it is in flight the state is loading with no error and the same display |
| CalculatorHook.SuccessConsumesOperation | calculator-frontend/src/hooks/useCalculator.ts:61-77 | after a successful request the operation and staged value are gone, waiting is set, and loading and error are cleared |
| CalculatorService.ValidateOperands | calculator-backend/src/main/kotlin/com/calculator/service/impl/CalculatorServiceImpl.kt:77-86 | passes exactly when both operands are finite. Fails with CALC_002 "Invalid operand (NaN)" exactly when either is NaN, checked before infinity. Fails with CALC_002 "Invalid operand (Infinity)" exactly when neither is NaN but one is infinite |
| CalculatorService.ValidateForDivision | calculator-backend/src/main/kotlin/com/calculator/service/impl/CalculatorServiceImpl.kt:88-93 | fails exactly for a zero divisor, with CALC_001 |
| CalculatorService.ValidateForSqrt | calculator-backend/src/main/kotlin/com/calculator/service/impl/CalculatorServiceImpl.kt:95-104 | fails exactly for a negative operand (including negative infinity), with CALC_003. Zero passes |
| CalculatorService.ValidatePercentage | calculator-backend/src/main/kotlin/com/calculator/service/impl/CalculatorServiceImpl.kt:106-115 | passes exactly on the closed range [0, 100] (and on NaN, which never reaches it), and fails with CALC_005 otherwise |
| CalculatorService.CheckOverflow | calculator-backend/src/main/kotlin/com/calculator/service/impl/CalculatorServiceImpl.kt:117-126 | passes exactly the finite results, and fails with CALC_004 otherwise. The `Double.MAX_VALUE` test at line 122 never fires |
| CalculatorService.AddOp | calculator-backend/src/main/kotlin/com/calculator/service/impl/CalculatorServiceImpl.kt:18-24 | succeeds exactly when both operands and the raw sum are finite, returning the raw sum. It has no other failure than CALC_002 or CALC_004 |
| CalculatorService.SubtractOp | calculator-backend/src/main/kotlin/com/calculator/service/impl/CalculatorServiceImpl.kt:26-32 | the same for the raw difference |
| CalculatorService.MultiplyOp | calculator-backend/src/main/kotlin/com/calculator/service/impl/CalculatorServiceImpl.kt:34-40 | the same for the raw product |
| CalculatorService.DivideOp | calculator-backend/src/main/kotlin/com/calculator/service/impl/CalculatorServiceImpl.kt:42-49 | a zero divisor with a finite dividend gives CALC_001 "Division by zero", whatever the dividend. Success happens exactly when both operands are finite, the divisor is non-zero and the raw quotient is finite |
| CalculatorService.PowerOp | calculator-backend/src/main/kotlin/com/calculator/service/impl/CalculatorServiceImpl.kt:51-57 | succeeds exactly when base, exponent and raw power are finite. It has no other failure than CALC_002 or CALC_004 |
| CalculatorService.SqrtOp | calculator-backend/src/main/kotlin/com/calculator/service/impl/CalculatorServiceImpl.kt:59-66 | the single operand gets the NaN and then the infinity check. A negative finite operand gives CALC_003. Success happens exactly for a non-negative finite operand whose raw root is finite |
| CalculatorService.PercentageOp | calculator-backend/src/main/kotlin/com/calculator/service/impl/CalculatorServiceImpl.kt:68-75 | finite operands with the percentage outside [0, 100] give CALC_005. Success, including at 0 and 100, happens exactly when the percentage is in range and `(value * percentage) / 100` is finite |
| CalculatorService.CalculateFollowsTable | calculator-backend/src/main/kotlin/com/calculator/service/impl/CalculatorServiceImpl.kt:18-126 | on every input every operation equals an independent rule table: operand NaN, then operand infinity, then the operation's own rule, then a finite result, with the first failing rule deciding |
| CalculatorService.OperandsCheckedFirst | calculator-backend/src/main/kotlin/com/calculator/service/impl/CalculatorServiceImpl.kt:77-86 | for every operation a NaN operand gives the NaN error, and otherwise an infinite operand gives the infinity error, before any operation rule (so divide(NaN, 0) is CALC_002) |
| CalculatorService.SuccessIsFinite | calculator-backend/src/main/kotlin/com/calculator/service/impl/CalculatorServiceImpl.kt:117-126 | every successful result is finite, and every error carries one of CALC_001 to CALC_005 |
| CalculatorService.NonFiniteIsOverflow | calculator-backend/src/main/kotlin/com/calculator/service/impl/CalculatorServiceImpl.kt:117-121 | on valid operands, a NaN or infinite raw result always gives the CALC_004 error |
| Validation.Boundaries | calculator-frontend/src/utils/validation.ts:5-11 | 0 is not negative, and 0 and 100 are in the percentage range. Values just below 0 or above 100 are not |
| Validation.IsDivisionByZero | calculator-frontend/src/utils/validation.ts:1-3 | on every value a double can hold, true exactly when the service's divisor check fails |
| Validation.IsNegativeForSqrt | calculator-frontend/src/utils/validation.ts:5-7 | on every value a double can hold, true exactly when the service's square-root check fails |
| Validation.IsPercentageOutOfRange | calculator-frontend/src/utils/validation.ts:9-11 | on every value a double can hold, true exactly when the service's percentage check fails |
| ErrorMessages.FromResponse | calculator-frontend/src/utils/errorMessages.ts:16-25 | the response branch answers exactly when a body arrived with a mapped code or a non-empty message |
| ErrorMessages.GetUserFriendlyErrorMessage | calculator-frontend/src/utils/errorMessages.ts:12-33 | a mapped code gives its table message. Otherwise a non-empty server message is returned verbatim. Without a usable response, an `Error` mentioning "timeout" or "Network" gives "Unable to connect to server" and any other `Error` gives its own message. Anything else gives the default |
| ErrorMessages.MessageKinds | calculator-frontend/src/utils/errorMessages.ts:3-33 | the message is always a table entry, the server's message, the connection text, the error's own message or the default |
| ErrorMessages.ResponseBeforeError | calculator-frontend/src/utils/errorMessages.ts:16-31 | when the response branch answers, whether the object is also an `Error`, and with which message, makes no difference |
| ErrorMessages.NetworkErrors | calculator-frontend/src/utils/errorMessages.ts:26-29 | the HTTP client's "Network Error" message and its 5000 ms timeout message both become "Unable to connect to server". A value that is not an object gets the default "Something went wrong" |
| RateLimiter.TryConsume | calculator-backend/src/main/kotlin/com/calculator/config/RateLimiter.kt:23-40 | when disabled, allows and leaves the windows untouched. A missing or expired window restarts as `(now, 1)` and allows. A full window refuses and stays unchanged. Otherwise the count goes up by one with the same start, and the call is allowed. No other bucket changes |
| RateLimiter.CountsStayBounded | calculator-backend/src/main/kotlin/com/calculator/config/RateLimiter.kt:26-39 | with a limit of at least 1, every stored count stays between 1 and the limit. Under the configured bounds a count never reaches the `Int` maximum |
| RateLimiter.QuotaWithinWindow | calculator-backend/src/main/kotlin/com/calculator/config/RateLimiter.kt:29-36 | over any sequence of calls inside a window, the calls allowed number at most the limit minus the window's count. The window keeps its start and counts them |
| RateLimiter.AtMostLimitPerWindow | calculator-backend/src/main/kotlin/com/calculator/config/RateLimiter.kt:23-40 | starting from a missing or expired window, at most `limit` calls for one key are allowed during the window the first call opens |
| RateLimiter.LimitOfTwo | calculator-backend/src/main/kotlin/com/calculator/config/RateLimiter.kt:29-34 | with limit 2, two calls at the same instant pass and the third is refused |
| RateLimitFilter.MatchesExclusion | calculator-backend/src/main/kotlin/com/calculator/config/RateLimitFilter.kt:38 | an entry without the wildcard matches only the equal path. An entry with it matches the equal path and every path whose leading characters are the entry minus the wildcard |
| RateLimitFilter.IsExcluded | calculator-backend/src/main/kotlin/com/calculator/config/RateLimitFilter.kt:37-39 | a path is excluded exactly when some entry equals it, or ends in the wildcard and the path starts with the entry minus the wildcard |
| RateLimitFilter.ResolveClientIp | calculator-backend/src/main/kotlin/com/calculator/config/RateLimitFilter.kt:57-62 | with `X-Forwarded-For` present, the key is its first comma-separated element, trimmed, and holds no comma. Otherwise it is `X-Real-IP`, trimmed. Otherwise it is the remote address |
| RateLimitFilter.ForwardedForWins | calculator-backend/src/main/kotlin/com/calculator/config/RateLimitFilter.kt:58-59 | with `X-Forwarded-For` present, `X-Real-IP` is ignored, and anything after the first comma does not change the key |
| RateLimitFilter.DoFilter | calculator-backend/src/main/kotlin/com/calculator/config/RateLimitFilter.kt:29-55 | when disabled, or on an excluded path, the request proceeds and no quota is used. Otherwise it proceeds exactly when the limiter allows, and a refusal is status 429 with the RATE_001 body and does not change the windows |
| RateLimitFilter.HealthIsFree | calculator-backend/src/main/kotlin/com/calculator/config/RateLimitConfig.kt:28 | under the default settings, `/api/v1/health` proceeds without touching the windows |
| RateLimitFilter.ExclusionIsRawPrefix | calculator-backend/src/main/kotlin/com/calculator/config/RateLimitFilter.kt:38 | "/api" with the wildcard also excludes "/apiary", and an entry without the wildcard does not exclude paths below it |
| RateLimitFilter.RefusalBody | calculator-backend/src/main/kotlin/com/calculator/config/RateLimitFilter.kt:43-53 | a refusal happens only when limiting is on and the limiter said no. Its body has code RATE_001 and non-null details |
| MdcFilter.SelectRequestId | calculator-backend/src/main/kotlin/com/calculator/config/MdcFilter.kt:23-28 | an absent or blank header gives the generated id. A header that fully matches the safe pattern is used unchanged, because its trim is a no-op. Any other header gives the generated id |
| MdcFilter.SafeIdHasNoWhitespace | calculator-backend/src/main/kotlin/com/calculator/config/MdcFilter.kt:14 | a safe id holds no whitespace and is not blank |
| MdcFilter.UuidIsSafe | calculator-backend/src/main/kotlin/com/calculator/config/MdcFilter.kt:25 | the 36-character UUID text form matches the safe pattern |
| MdcFilter.StoredIdIsSafe | calculator-backend/src/main/kotlin/com/calculator/config/MdcFilter.kt:13-29 | with a generator of UUID text, the stored id always matches the safe pattern and is either the header verbatim or the generated id |
| MdcFilter.Examples | calculator-backend/src/main/kotlin/com/calculator/config/MdcFilter.kt:24-28 | "req-abc123_xyz" is kept. Headers with spaces or with '\|' are replaced |

## Left out

- IEEE-754 arithmetic: the values of `+ - * / pow sqrt` are left abstract (the `Arithmetic` parameter). Only the classification of results and their finiteness are proved. Rounding, subnormals and signed zero are not modelled; `-0.0` and `0.0` are the same real.
- The service's logging (`logSuccess`, `logError`) and the MDC context are left out. They have no effect on returned values.
- The controller, the Micronaut exception handlers and the HTTP status mapping of service errors are left out. Request-body validation (CALC_006) is also left out, as is the error-response rewriting filter. These are framework glue. The service exception handler passes code, message and details through unchanged, so it is folded into `ErrorResponse`.
- JavaScript numbers are reals. `parseDisplay` and `String(number)` are supplied functions, not parsers, because exact number formatting is a runtime-library matter. The properties that need facts about them state those facts as requirements (`ShowsPlainNumbers`, `ReadsBack`).
- The `SET_RESULT` display text is `String(result)` in both branches of its conditional. It is modelled as the supplied `show` function.
- `CalculatorHook.PlanCalculate`: the React dispatch and the `await` are left out. The function returns the actions dispatched before the request and the request itself, and `Complete` gives the action dispatched afterwards. Interleaving of later key presses with an in-flight request is not modelled.
- Operator chaining in the calculator component, the 3000 ms auto-dismiss of errors, keyboard handling and all rendering are left out. They are UI wiring outside the reducer and the hook.
- `ErrorMessages.GetUserFriendlyErrorMessage`: a thrown value is reduced to whether it has a `response` key, the body it holds, and whether it is an `Error` and with what message. Non-string field values, and codes that name inherited object properties (such as "toString"), are not modelled.
- `RateLimiter.TryConsume`: time is an unbounded integer, so the 64-bit subtraction `now - startMillis` is not modelled to wrap. The clock reading and the atomicity of the concurrent map update are inputs and assumptions, not modelled.
- `RateLimitFilter.ResolveClientIp`: the fallback chain inside the remote address (host string, then host address, then `toString`) is one input string. Which value a repeated header yields is the framework's choice and is not modelled.
- `MdcFilter.SelectRequestId`: the UUID generator is a parameter. Putting the id into the logging context and clearing it afterwards are side effects and are not modelled.
- The health service, security headers, build files and the browser tests are outside the modelled core.
