/** The choice of the correlation id logged with every request: the client's
    `X-Request-ID` header when it is safe to log, a freshly generated id
    otherwise. The generator is an input. */
module MdcFilter {
  import opened Options
  import opened Text

  const MaxRequestIdLength: nat := 64

  /** A character of the class `[a-zA-Z0-9\-_]`. */
  predicate SafeChar(c: char)
  {
    ('a' <= c <= 'z') || ('A' <= c <= 'Z') || ('0' <= c <= '9') || c == '-' || c == '_'
  }

  /** A full match of `^[a-zA-Z0-9\-_]{1,64}$`. */
  predicate IsSafeRequestId(s: string)
  {
    1 <= |s| <= MaxRequestIdLength && forall i :: 0 <= i < |s| ==> SafeChar(s[i])
  }

  /** The id stored for the request, given the header and a generated id. */
  function SelectRequestId(header: Option<string>, generated: string): (id: string)
    ensures header.None? || IsBlank(header.value) ==> id == generated
    ensures header.Some? && IsSafeRequestId(header.value) ==> id == header.value
    ensures header.Some? && !IsSafeRequestId(header.value) ==> id == generated
  {
    match header
    case None => generated
    case Some(value) =>
      SafeIdHasNoWhitespace(value);
      if IsBlank(value) then generated
      else if IsSafeRequestId(value) then
        TrimNoWhitespace(value);
        Trim(value)
      else generated
  }

  /** A safe id is never blank and trims to itself. */
  lemma SafeIdHasNoWhitespace(s: string)
    ensures IsSafeRequestId(s) ==> NoWhitespace(s) && !IsBlank(s)
  {
    if IsSafeRequestId(s) {
      assert !IsWhitespace(s[0]);
    }
  }

  predicate IsHexDigit(c: char)
  {
    ('0' <= c <= '9') || ('a' <= c <= 'f') || ('A' <= c <= 'F')
  }

  /** The 36-character text form of a UUID (section 3 of RFC 4122): hex
      digits in groups of 8, 4, 4, 4 and 12 separated by hyphens. */
  predicate IsUuidText(s: string)
  {
    && |s| == 36
    && forall i :: 0 <= i < 36 ==> (if i in {8, 13, 18, 23} then s[i] == '-' else IsHexDigit(s[i]))
  }

  lemma UuidIsSafe(s: string)
    requires IsUuidText(s)
    ensures IsSafeRequestId(s)
  {
    forall i | 0 <= i < |s|
      ensures SafeChar(s[i])
    {
      if i in {8, 13, 18, 23} {
        assert s[i] == '-';
      } else {
        assert IsHexDigit(s[i]);
      }
    }
  }

  /** With a generator that produces UUID text, the stored id is always safe
      to log, and it is either the client's header, verbatim, or the
      generated id: no unsafe character from the client reaches the log. */
  lemma StoredIdIsSafe(header: Option<string>, generated: string)
    requires IsUuidText(generated)
    ensures IsSafeRequestId(SelectRequestId(header, generated))
    ensures SelectRequestId(header, generated) == generated
            || (header.Some? && SelectRequestId(header, generated) == header.value)
  {
    UuidIsSafe(generated);
  }

  /** The ids of the filter's own test cases. */
  lemma Examples(generated: string)
    ensures SelectRequestId(Some("req-abc123_xyz"), generated) == "req-abc123_xyz"
    ensures SelectRequestId(Some("id with spaces"), generated) == generated
    ensures SelectRequestId(Some("id|with|pipes"), generated) == generated
  {
    assert !SafeChar("id with spaces"[2]);
    assert !SafeChar("id|with|pipes"[2]);
    var ok := "req-abc123_xyz";
    assert forall i :: 0 <= i < |ok| ==> SafeChar(ok[i]);
  }
}
