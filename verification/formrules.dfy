/**
 * The field rules the client forms' `validateForm` functions are built from.
 * Each rule yields the kind of error a field gets, or `None`; a form's error
 * object holds one such entry per field, and the form is valid when every
 * entry is `None`.
 */
module FormRules {
  import opened Wrappers
  import opened Text

  /** Which message a field shows: the "is required" one, the length one, a format one, a mismatch one. */
  datatype FieldError = Required | TooShort | Invalid | Mismatch

  /**
   * `if (!v.trim()) required; else if (v.trim().length < min) too short`.
   * The "required" check runs first, so a blank field never gets the length message.
   */
  function TrimmedMinLength(v: string, min: nat): (r: Option<FieldError>)
    ensures r == Some(Required) <==> IsBlank(v)
    ensures r == Some(TooShort) <==> !IsBlank(v) && |Trim(v)| < min
    ensures r.None? || r == Some(Required) || r == Some(TooShort)
    ensures min >= 1 ==> (r.None? <==> |Trim(v)| >= min)
  {
    if IsBlank(v) then Some(Required)
    else if |Trim(v)| < min then Some(TooShort)
    else None
  }

  /** `if (!v.trim()) required`: no length bound at all. */
  function NonBlank(v: string): (r: Option<FieldError>)
    ensures r.None? <==> |Trim(v)| >= 1
    ensures r.Some? ==> r.value == Required
  {
    if IsBlank(v) then Some(Required) else None
  }

  /** A blank value gets the "required" message whatever the minimum length: "required" takes precedence. */
  lemma RequiredTakesPrecedence(v: string, min: nat)
    requires AllWhitespace(v)
    ensures TrimmedMinLength(v, min) == Some(Required)
  {
  }
}
