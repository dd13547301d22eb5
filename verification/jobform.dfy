/**
 * The admin's job form (`JobForm`): `validateForm` over the raw inputs and the
 * payload `handleSubmit` builds once the form is valid. Salary inputs are the
 * strings of the two number inputs; `parseInt` is `Text.ParseInt`, `NaN` being
 * `None`.
 */
module JobForm {
  import opened Wrappers
  import opened Text
  import opened FormRules

  datatype FormData = FormData(title: string, description: string, company: string, location: string,
                               salaryMin: string, salaryMax: string, jobType: string, status: string)

  /** The `errors` object: one optional entry per field that can fail. */
  datatype Errors = Errors(title: Option<FieldError>, description: Option<FieldError>,
                           company: Option<FieldError>, location: Option<FieldError>,
                           salaryMax: Option<FieldError>)

  predicate NoErrors(e: Errors) {
    e.title.None? && e.description.None? && e.company.None? && e.location.None? && e.salaryMax.None?
  }

  /**
   * `if (salary_min && salary_max) { min = parseInt(..); max = parseInt(..); if (min > max) ... }`.
   * A comparison with `NaN` is false, so an unparsable salary never raises the error.
   */
  function SalaryError(salaryMin: string, salaryMax: string): (r: Option<FieldError>)
    ensures r.Some? <==> (&& salaryMin != "" && salaryMax != ""
                          && ParseInt(salaryMin).Some? && ParseInt(salaryMax).Some?
                          && ParseInt(salaryMin).value > ParseInt(salaryMax).value)
  {
    if salaryMin != "" && salaryMax != "" then
      match (ParseInt(salaryMin), ParseInt(salaryMax))
      case (Some(lo), Some(hi)) => if lo > hi then Some(Invalid) else None
      case _ => None
    else None
  }

  /** `validateForm`. */
  function Validate(f: FormData): Errors {
    Errors(TrimmedMinLength(f.title, 3), TrimmedMinLength(f.description, 10),
           NonBlank(f.company), NonBlank(f.location), SalaryError(f.salaryMin, f.salaryMax))
  }

  /** The texts the `errors` object holds for the title and the description. */
  function TitleMessage(k: FieldError): string {
    if k == Required then "Job title is required" else "Job title must be at least 3 characters"
  }

  function DescriptionMessage(k: FieldError): string {
    if k == Required then "Job description is required" else "Job description must be at least 10 characters"
  }

  /** The JSON `handleSubmit` sends; a `NaN` salary serialises as `null`, like an empty one. */
  datatype Payload = Payload(title: string, description: string, company: string, location: string,
                             salaryMin: Option<int>, salaryMax: Option<int>, jobType: string, status: string)

  /** `salary ? parseInt(salary) : null`. */
  function SalaryField(s: string): (r: Option<int>)
    ensures s == "" ==> r.None?
    ensures s != "" ==> r == ParseInt(s)
  {
    if s == "" then None else ParseInt(s)
  }

  /** `handleSubmit`: the payload is dispatched only when the form is valid. */
  function Submit(f: FormData): (r: Option<Payload>)
    ensures r.Some? <==> (&& |Trim(f.title)| >= 3 && |Trim(f.description)| >= 10
                          && |Trim(f.company)| >= 1 && |Trim(f.location)| >= 1
                          && SalaryError(f.salaryMin, f.salaryMax).None?)
    ensures r.Some? ==> && IsTrimmed(r.value.title) && IsTrimmed(r.value.description)
                        && IsTrimmed(r.value.company) && IsTrimmed(r.value.location)
                        && StripsTo(f.title, r.value.title) && StripsTo(f.description, r.value.description)
                        && StripsTo(f.company, r.value.company) && StripsTo(f.location, r.value.location)
                        && |r.value.title| >= 3 && |r.value.description| >= 10
                        && r.value.company != [] && r.value.location != []
                        && r.value.salaryMin == SalaryField(f.salaryMin)
                        && r.value.salaryMax == SalaryField(f.salaryMax)
                        && r.value.jobType == f.jobType && r.value.status == f.status
  {
    if NoErrors(Validate(f)) then
      TrimStrips(f.title);
      TrimStrips(f.description);
      TrimStrips(f.company);
      TrimStrips(f.location);
      Some(Payload(Trim(f.title), Trim(f.description), Trim(f.company), Trim(f.location),
                   SalaryField(f.salaryMin), SalaryField(f.salaryMax), f.jobType, f.status))
    else None
  }

  // ---------------------------------------------------------------------
  // Properties of the validator
  // ---------------------------------------------------------------------

  /** A blank title gets the "required" message; a short non-blank one gets the length message. */
  lemma TitlePrecedence(f: FormData)
    ensures IsBlank(f.title) ==> TitleMessage(Validate(f).title.value) == "Job title is required"
    ensures !IsBlank(f.title) && |Trim(f.title)| < 3
            ==> TitleMessage(Validate(f).title.value) == "Job title must be at least 3 characters"
  {
  }

  /** The description follows the same rule with a minimum of 10 trimmed characters. */
  lemma DescriptionPrecedence(f: FormData)
    ensures IsBlank(f.description) ==> DescriptionMessage(Validate(f).description.value) == "Job description is required"
    ensures !IsBlank(f.description) && |Trim(f.description)| < 10
            ==> DescriptionMessage(Validate(f).description.value) == "Job description must be at least 10 characters"
    ensures Validate(f).description.None? <==> |Trim(f.description)| >= 10
  {
  }

  /** Equal salaries pass; only a strictly greater minimum is an error. */
  lemma EqualSalariesAllowed(s: string)
    ensures SalaryError(s, s).None?
  {
  }

  /** Company and location only need a non-blank value: a single character passes. */
  lemma OneCharacterCompanyPasses(f: FormData, c: char)
    requires !IsWhitespace(c)
    ensures Validate(f.(company := [c], location := [c])).company.None?
    ensures Validate(f.(company := [c], location := [c])).location.None?
  {
    TrimNoWhitespace([c]);
  }

  /** Either salary left empty becomes `null` in the payload and never blocks submission. */
  lemma EmptySalaryIsNull(f: FormData)
    requires f.salaryMin == "" || f.salaryMax == ""
    ensures SalaryError(f.salaryMin, f.salaryMax).None?
    ensures Submit(f).Some? ==> (f.salaryMin == "" ==> Submit(f).value.salaryMin.None?)
                                && (f.salaryMax == "" ==> Submit(f).value.salaryMax.None?)
  {
  }

  /** A salary typed as a number is sent as that number. */
  lemma SalaryFieldReadsNumber(n: int)
    ensures SalaryField(IntToDecimal(n)) == Some(n)
  {
    ParseIntOfDecimal(n);
  }
}
