/**
 * The sign-up form (`Register`): `validateForm`, including the unanchored
 * e-mail pattern `/\S+@\S+\.\S+/`, and the payload `handleSubmit` sends. The
 * sign-in form repeats the e-mail and password rules, so `LoginErrors` reuses
 * them.
 */
module RegisterForm {
  import opened Wrappers
  import opened Text
  import opened Schema
  import opened FormRules

  // ---------------------------------------------------------------------
  // The e-mail pattern
  // ---------------------------------------------------------------------

  /** `\S`: any character outside the white-space class. */
  predicate NonSpace(c: char) {
    !IsWhitespace(c)
  }

  /**
   * With the `@` at `at`, the pattern can put its `.` at `dot`: the characters
   * strictly between them form a non-empty run of `\S`, and one `\S` follows the dot.
   */
  predicate DotAfter(s: string, at: nat, dot: nat) {
    && at + 2 <= dot && dot + 1 < |s|
    && s[dot] == '.' && NonSpace(s[dot + 1])
    && forall k :: at < k < dot ==> NonSpace(s[k])
  }

  /** The pattern matches with its `@` at `at`: one `\S` before it and a usable dot after it. */
  predicate MatchAt(s: string, at: nat) {
    1 <= at < |s| && s[at] == '@' && NonSpace(s[at - 1])
    && exists dot :: at + 2 <= dot < |s| && DotAfter(s, at, dot)
  }

  /**
   * `/\S+@\S+\.\S+/.test(s)`: the pattern matches somewhere in `s`. The outer
   * runs can always be shortened to one character, so only the middle run is
   * pinned down.
   */
  predicate EmailPattern(s: string) {
    exists at :: 0 <= at < |s| && MatchAt(s, at)
  }

  /** Searches for a match the way a backtracking matcher would: each `@`, then each dot after it. */
  method SearchEmailPattern(s: string) returns (found: bool)
    ensures found <==> EmailPattern(s)
  {
    var at := 1;
    while at < |s|
      invariant 1 <= at <= |s| || (|s| == 0 && at == 1)
      invariant forall a :: 0 <= a < at && a < |s| ==> !MatchAt(s, a)
    {
      if s[at] == '@' && NonSpace(s[at - 1]) {
        var d := at + 1;
        while d < |s| && NonSpace(s[d])
          invariant at + 1 <= d <= |s|
          invariant forall k :: at < k < d ==> NonSpace(s[k])
          invariant forall e :: at + 2 <= e < d ==> !DotAfter(s, at, e)
        {
          if at + 2 <= d && s[d] == '.' && d + 1 < |s| && NonSpace(s[d + 1]) {
            assert DotAfter(s, at, d);
            assert MatchAt(s, at);
            return true;
          }
          d := d + 1;
        }
        // Past `d` the middle run is broken (or the input is over), so no later dot works.
        forall e | at + 2 <= e < |s|
          ensures !DotAfter(s, at, e)
        {
          if e >= d && d < |s| {
            assert !NonSpace(s[d]);
          }
        }
      }
      at := at + 1;
    }
    return false;
  }

  // ---------------------------------------------------------------------
  // The form
  // ---------------------------------------------------------------------

  datatype FormData = FormData(name: string, email: string, password: string, confirmPassword: string)

  datatype Errors = Errors(name: Option<FieldError>, email: Option<FieldError>,
                           password: Option<FieldError>, confirmPassword: Option<FieldError>)

  predicate NoErrors(e: Errors) {
    e.name.None? && e.email.None? && e.password.None? && e.confirmPassword.None?
  }

  /** `if (!email) required; else if (!pattern.test(email)) invalid`: the raw, untrimmed input. */
  function EmailError(email: string): (r: Option<FieldError>)
    ensures r.None? <==> EmailPattern(email)
    ensures r == Some(Required) <==> email == ""
  {
    if email == "" then Some(Required)
    else if !EmailPattern(email) then Some(Invalid)
    else None
  }

  /** `if (!password) required; else if (password.length < 6) too short`: the raw length counts. */
  function PasswordError(password: string): (r: Option<FieldError>)
    ensures r.None? <==> |password| >= 6
    ensures r == Some(Required) <==> password == ""
  {
    if password == "" then Some(Required)
    else if |password| < 6 then Some(TooShort)
    else None
  }

  /** `if (!confirmPassword) required; else if (password !== confirmPassword) mismatch`. */
  function ConfirmError(password: string, confirm: string): (r: Option<FieldError>)
    ensures r.None? <==> confirm != "" && confirm == password
    ensures r == Some(Required) <==> confirm == ""
  {
    if confirm == "" then Some(Required)
    else if password != confirm then Some(Mismatch)
    else None
  }

  /** `validateForm`. */
  function Validate(f: FormData): Errors {
    Errors(TrimmedMinLength(f.name, 2), EmailError(f.email),
           PasswordError(f.password), ConfirmError(f.password, f.confirmPassword))
  }

  /** The texts the `errors` object holds, field by field. */
  function NameMessage(k: FieldError): string {
    if k == Required then "Name is required" else "Name must be at least 2 characters"
  }

  function EmailMessage(k: FieldError): string {
    if k == Required then "Email is required" else "Email is invalid"
  }

  function PasswordMessage(k: FieldError): string {
    if k == Required then "Password is required" else "Password must be at least 6 characters"
  }

  function ConfirmMessage(k: FieldError): string {
    if k == Required then "Please confirm your password" else "Passwords do not match"
  }

  /** The sign-in form's `validateForm`: the same e-mail and password rules. */
  function LoginErrors(email: string, password: string): (r: (Option<FieldError>, Option<FieldError>))
    ensures r.0.None? && r.1.None? <==> EmailPattern(email) && |password| >= 6
  {
    (EmailError(email), PasswordError(password))
  }

  /** The JSON `handleSubmit` sends: the inputs without `confirmPassword`, untrimmed, and a fixed role. */
  datatype Payload = Payload(name: string, email: string, password: string, role: string)

  /** `handleSubmit`. */
  function Submit(f: FormData): (r: Option<Payload>)
    ensures r.Some? <==> (&& |Trim(f.name)| >= 2 && EmailPattern(f.email)
                          && |f.password| >= 6 && f.confirmPassword == f.password)
    ensures r.Some? ==> && ParseRole(r.value.role) == Some(User)
                        && r.value.name == f.name && r.value.email == f.email
                        && r.value.password == f.password
  {
    if NoErrors(Validate(f)) then Some(Payload(f.name, f.email, f.password, RoleName(User)))
    else None
  }

  // ---------------------------------------------------------------------
  // Properties of the validator
  // ---------------------------------------------------------------------

  /** The pattern is not anchored: text around an address does not stop it from matching. */
  lemma PatternIsUnanchored(pre: string, s: string, post: string)
    requires EmailPattern(s)
    ensures EmailPattern(pre + s + post)
  {
    var t := pre + s + post;
    var at :| 0 <= at < |s| && MatchAt(s, at);
    var dot :| at + 2 <= dot < |s| && DotAfter(s, at, dot);
    var n := |pre|;
    assert forall k :: 0 <= k < |s| ==> t[n + k] == s[k];
    assert DotAfter(t, n + at, n + dot);
    assert MatchAt(t, n + at);
  }

  /** A short address matches; white space before the `@` breaks the first run. */
  lemma PatternExamples()
    ensures EmailPattern("a@b.c")
    ensures !EmailPattern("a @b.c")
    ensures !EmailPattern("a@b")
  {
    assert DotAfter("a@b.c", 1, 3);
    assert MatchAt("a@b.c", 1);
    var s := "a @b.c";
    forall at | 0 <= at < |s| ensures !MatchAt(s, at) {
      if at != 2 {
        assert s[at] != '@';
      } else {
        assert IsWhitespace(s[1]);
      }
    }
    var u := "a@b";
    forall at | 0 <= at < |u| ensures !MatchAt(u, at) {
      if at != 1 {
        assert u[at] != '@';
      }
    }
  }

  /** The name's "required" message takes precedence over its length message. */
  lemma NameRequiredFirst(f: FormData)
    ensures IsBlank(f.name) ==> NameMessage(Validate(f).name.value) == "Name is required"
    ensures !IsBlank(f.name) && |Trim(f.name)| < 2
            ==> NameMessage(Validate(f).name.value) == "Name must be at least 2 characters"
  {
  }

  /** A filled-in confirmation that differs from the password gets the mismatch message, never "required". */
  lemma MismatchMessage(f: FormData)
    requires f.confirmPassword != "" && f.confirmPassword != f.password
    ensures ConfirmMessage(Validate(f).confirmPassword.value) == "Passwords do not match"
  {
  }

  /** The password length counts white space: six spaces are an acceptable password. */
  lemma SpacesCountInPassword()
    ensures PasswordError("      ").None?
  {
  }
}
