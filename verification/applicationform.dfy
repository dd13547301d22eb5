/**
 * The applicant's form (`ApplicationForm`; `JobApplicationModal` repeats the
 * same validator): `validateForm` and the payload `handleSubmit` builds.
 * `parsesAsUrl` stands for `new URL(s)` not throwing.
 */
module ApplicationForm {
  import opened Wrappers
  import opened Text
  import opened FormRules

  datatype FormData = FormData(coverLetter: string, cvLink: string)

  datatype Errors = Errors(coverLetter: Option<FieldError>, cvLink: Option<FieldError>)

  predicate NoErrors(e: Errors) {
    e.coverLetter.None? && e.cvLink.None?
  }

  /** The client's minimum for the trimmed cover letter; it sets no maximum. */
  const CoverLetterMin: nat := 50

  /**
   * The CV link is required here (the server treats it as optional) and must
   * parse as a URL; the untrimmed input is what is parsed.
   */
  function CvLinkError(link: string, parsesAsUrl: string -> bool): (r: Option<FieldError>)
    ensures r == Some(Required) <==> IsBlank(link)
    ensures r == Some(Invalid) <==> !IsBlank(link) && !parsesAsUrl(link)
    ensures r.None? <==> !IsBlank(link) && parsesAsUrl(link)
  {
    if IsBlank(link) then Some(Required)
    else if !parsesAsUrl(link) then Some(Invalid)
    else None
  }

  /** `validateForm`. */
  function Validate(f: FormData, parsesAsUrl: string -> bool): Errors {
    Errors(TrimmedMinLength(f.coverLetter, CoverLetterMin), CvLinkError(f.cvLink, parsesAsUrl))
  }

  function CoverLetterMessage(k: FieldError): string {
    if k == Required then "Cover letter is required" else "Cover letter must be at least 50 characters"
  }

  function CvLinkMessage(k: FieldError): string {
    if k == Required then "CV link is required" else "Please enter a valid URL"
  }

  /** The JSON `handleSubmit` sends; `job_id` is `parseInt` of the route parameter (`NaN` is `None`). */
  datatype Payload = Payload(jobId: Option<int>, coverLetter: string, cvLink: string)

  /** `handleSubmit`: a payload only for a valid form, carrying the trimmed inputs. */
  function Submit(routeJobId: string, f: FormData, parsesAsUrl: string -> bool): (r: Option<Payload>)
    ensures r.Some? <==> |Trim(f.coverLetter)| >= CoverLetterMin && !IsBlank(f.cvLink) && parsesAsUrl(f.cvLink)
    ensures r.Some? ==> && r.value.jobId == ParseInt(routeJobId)
                        && IsTrimmed(r.value.coverLetter) && |r.value.coverLetter| >= CoverLetterMin
                        && IsTrimmed(r.value.cvLink) && r.value.cvLink != []
                        && StripsTo(f.coverLetter, r.value.coverLetter) && StripsTo(f.cvLink, r.value.cvLink)
  {
    if NoErrors(Validate(f, parsesAsUrl)) then
      TrimStrips(f.coverLetter);
      TrimStrips(f.cvLink);
      Some(Payload(ParseInt(routeJobId), Trim(f.coverLetter), Trim(f.cvLink)))
    else None
  }

  /** A blank cover letter gets "required", a short one the length message, whatever the link. */
  lemma CoverLetterPrecedence(f: FormData, parsesAsUrl: string -> bool)
    ensures IsBlank(f.coverLetter) ==>
              CoverLetterMessage(Validate(f, parsesAsUrl).coverLetter.value) == "Cover letter is required"
    ensures !IsBlank(f.coverLetter) && |Trim(f.coverLetter)| < CoverLetterMin ==>
              CoverLetterMessage(Validate(f, parsesAsUrl).coverLetter.value) == "Cover letter must be at least 50 characters"
  {
  }

  /** A form without a CV link is refused, although the server would accept a submission without one. */
  lemma EmptyCvLinkRefused(f: FormData, parsesAsUrl: string -> bool, routeJobId: string)
    requires f.cvLink == ""
    ensures Validate(f, parsesAsUrl).cvLink == Some(Required)
    ensures Submit(routeJobId, f, parsesAsUrl).None?
  {
  }
}
