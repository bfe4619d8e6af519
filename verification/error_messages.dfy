/** The client's translation of a failed request into the message it shows.
    A thrown JavaScript value is reduced to the parts the translation reads:
    whether it is an object carrying a `response` key and what error body that
    response holds, and whether it is an `Error` and with what message. */
module ErrorMessages {
  import opened Options
  import opened Text

  /** The fixed message for each service error code. */
  const ErrorCodeMap: map<string, string> := map[
    "CALC_001" := "Cannot divide by zero",
    "CALC_002" := "Invalid number",
    "CALC_003" := "Cannot calculate square root of negative number",
    "CALC_004" := "Number too large",
    "CALC_005" := "Invalid percentage",
    "CALC_006" := "Invalid input"
  ]

  /** The default value of the `defaultMessage` parameter. */
  const SomethingWentWrong := "Something went wrong"

  const UnableToConnect := "Unable to connect to server"

  /** An error body as received: either field may be missing. */
  datatype ResponseData = ResponseData(errorCode: Option<string>, message: Option<string>)

  /** A thrown value.
      `JsObject(response, errorMessage)` is a non-null object: `response` is
      `None` when it has no `response` key, `Some(None)` when the key is there
      but `response` or its `data` is missing, and `Some(Some(d))` when a body
      `d` arrived; `errorMessage` is `Some(m)` exactly when the object is an
      `Error` whose message is `m`. Everything else (null, strings, numbers)
      is `Primitive`. */
  datatype Thrown =
    | JsObject(response: Option<Option<ResponseData>>, errorMessage: Option<string>)
    | Primitive

  /** JavaScript truthiness of an optional string: present and non-empty. */
  predicate Truthy(s: Option<string>)
  {
    s.Some? && s.value != ""
  }

  /** The message the response branch returns, if it returns at all. */
  function FromResponse(data: Option<ResponseData>): (r: Option<string>)
    ensures r.Some? <==> data.Some? && (Truthy(data.value.message) || (data.value.errorCode.Some? && data.value.errorCode.value in ErrorCodeMap))
  {
    match data
    case None => None
    case Some(d) =>
      if Truthy(d.errorCode) && d.errorCode.value in ErrorCodeMap && ErrorCodeMap[d.errorCode.value] != "" then
        Some(ErrorCodeMap[d.errorCode.value])
      else if Truthy(d.message) then
        Some(d.message.value)
      else
        None
  }

  function GetUserFriendlyErrorMessage(error: Thrown, defaultMessage: string := SomethingWentWrong): (r: string)
    // a mapped code wins over the server's own message
    ensures error.JsObject? && error.response.Some? && error.response.value.Some?
            && error.response.value.value.errorCode.Some?
            && error.response.value.value.errorCode.value in ErrorCodeMap
            ==> r == ErrorCodeMap[error.response.value.value.errorCode.value]
    // otherwise a non-empty server message is shown verbatim
    ensures error.JsObject? && error.response.Some? && error.response.value.Some?
            && !(error.response.value.value.errorCode.Some? && error.response.value.value.errorCode.value in ErrorCodeMap)
            && Truthy(error.response.value.value.message)
            ==> r == error.response.value.value.message.value
    // an Error without a usable response: connection failures get a fixed text
    ensures error.JsObject? && FromResponseOf(error).None? && error.errorMessage.Some?
            ==> r == (if Contains(error.errorMessage.value, "timeout") || Contains(error.errorMessage.value, "Network")
                      then UnableToConnect else error.errorMessage.value)
    // anything else falls back to the default
    ensures (error.Primitive? || (FromResponseOf(error).None? && error.errorMessage.None?)) ==> r == defaultMessage
  {
    match error
    case Primitive => defaultMessage
    case JsObject(response, errorMessage) =>
      var fromResponse := if response.Some? then FromResponse(response.value) else None;
      if fromResponse.Some? then fromResponse.value
      else if errorMessage.Some? then
        if Contains(errorMessage.value, "timeout") || Contains(errorMessage.value, "Network") then UnableToConnect
        else errorMessage.value
      else defaultMessage
  }

  /** The response branch's message for a thrown object, if any. */
  function FromResponseOf(error: Thrown): Option<string>
  {
    if error.JsObject? && error.response.Some? then FromResponse(error.response.value) else None
  }

  /** The message shown is always one of five kinds: a table entry, the
      server's message, the connection text, the error's own message, or the
      default. */
  lemma MessageKinds(error: Thrown, defaultMessage: string)
    ensures var r := GetUserFriendlyErrorMessage(error, defaultMessage);
            || r in ErrorCodeMap.Values
            || (FromResponseOf(error).Some? && r == error.response.value.value.message.value)
            || r == UnableToConnect
            || (error.JsObject? && error.errorMessage == Some(r))
            || r == defaultMessage
  {
    var r := GetUserFriendlyErrorMessage(error, defaultMessage);
    if error.JsObject? && FromResponseOf(error).Some? {
      var d := error.response.value.value;
      if d.errorCode.Some? && d.errorCode.value in ErrorCodeMap {
        assert r == ErrorCodeMap[d.errorCode.value];
      }
    }
  }

  /** A usable response takes precedence: whether the object is also an
      `Error`, and with what message, makes no difference. */
  lemma ResponseBeforeError(response: Option<Option<ResponseData>>, m1: Option<string>, m2: Option<string>, defaultMessage: string)
    requires FromResponseOf(JsObject(response, m1)).Some?
    ensures GetUserFriendlyErrorMessage(JsObject(response, m1), defaultMessage)
         == GetUserFriendlyErrorMessage(JsObject(response, m2), defaultMessage)
  {
  }

  /** The two connection-failure messages the HTTP client produces, with its
      5000 ms timeout, and the default used when nothing else applies. */
  lemma NetworkErrors(defaultMessage: string)
    ensures GetUserFriendlyErrorMessage(JsObject(None, Some("Network Error")), defaultMessage) == UnableToConnect
    ensures GetUserFriendlyErrorMessage(JsObject(None, Some("timeout of 5000ms exceeded")), defaultMessage) == UnableToConnect
    ensures GetUserFriendlyErrorMessage(Primitive) == "Something went wrong"
  {
    assert StartsWith("Network Error", "Network");
    assert StartsWith("timeout of 5000ms exceeded", "timeout");
  }
}
