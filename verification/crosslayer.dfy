/**
 * What the client forms let through against what the routes then check. The
 * forms and the server validators were written separately, and their bounds
 * differ: the applicant's form asks for more than the server's minimum and
 * sets no maximum, and the job form asks for less than the server does for
 * company, location and title length.
 */
module CrossLayer {
  import opened Wrappers
  import opened Text
  import opened Schema
  import opened Api
  import Applications
  import Jobs
  import ApplicationForm
  import JobForm
  import opened FormRules

  // ---------------------------------------------------------------------
  // The applicant's form against POST /applications/send
  // ---------------------------------------------------------------------

  /** The body the route receives from a payload the form dispatched. */
  function SubmissionOf(p: ApplicationForm.Payload): (r: Applications.Submission)
    ensures r.jobId == p.jobId && r.coverLetter == p.coverLetter && r.cvLink == Some(p.cvLink)
  {
    Applications.Submission(p.jobId, p.coverLetter, Some(p.cvLink))
  }

  /**
   * A letter the form accepts meets the server's minimum, and the server's
   * `trim()` leaves it as the form sent it.
   */
  lemma AcceptedLetterMeetsServerMinimum(routeJobId: string, f: ApplicationForm.FormData, parsesAsUrl: string -> bool)
    requires ApplicationForm.Submit(routeJobId, f, parsesAsUrl).Some?
    ensures var p := ApplicationForm.Submit(routeJobId, f, parsesAsUrl).value;
            && Trim(p.coverLetter) == p.coverLetter
            && |Trim(p.coverLetter)| >= Applications.CoverLetterMin
  {
    var p := ApplicationForm.Submit(routeJobId, f, parsesAsUrl).value;
    TrimOfTrimmed(p.coverLetter);
  }

  /**
   * A form the client accepts passes the route's validators exactly when the
   * letter is within the server's maximum and `isURL` accepts the trimmed link.
   */
  lemma AcceptedFormPassesServerValidation(routeJobId: string, f: ApplicationForm.FormData,
                                           parsesAsUrl: string -> bool, isUrl: string -> bool)
    requires ApplicationForm.Submit(routeJobId, f, parsesAsUrl).Some?
    ensures var p := ApplicationForm.Submit(routeJobId, f, parsesAsUrl).value;
            (Applications.SubmissionErrors(SubmissionOf(p), isUrl) == {}
             <==> |Trim(f.coverLetter)| <= Applications.CoverLetterMax && isUrl(Trim(f.cvLink)))
  {
    var p := ApplicationForm.Submit(routeJobId, f, parsesAsUrl).value;
    SentFieldsAreTrimmed(routeJobId, f, parsesAsUrl);
    TrimIdempotent(f.coverLetter);
    NoSubmissionErrors(SubmissionOf(p), isUrl);
  }

  /** The letter and link the form sends are the trimmed inputs. */
  lemma SentFieldsAreTrimmed(routeJobId: string, f: ApplicationForm.FormData, parsesAsUrl: string -> bool)
    requires ApplicationForm.Submit(routeJobId, f, parsesAsUrl).Some?
    ensures var p := ApplicationForm.Submit(routeJobId, f, parsesAsUrl).value;
            p.coverLetter == Trim(f.coverLetter) && p.cvLink == Trim(f.cvLink)
  {
    var p := ApplicationForm.Submit(routeJobId, f, parsesAsUrl).value;
    TrimIsTheOnlyTrimmedStrip(f.coverLetter, p.coverLetter);
    TrimIsTheOnlyTrimmedStrip(f.cvLink, p.cvLink);
  }

  /** The route's validators report nothing exactly when the letter's length is in range and a supplied link is a URL. */
  lemma NoSubmissionErrors(sub: Applications.Submission, isUrl: string -> bool)
    ensures Applications.SubmissionErrors(sub, isUrl) == {}
            <==> Applications.CoverLetterOk(sub.coverLetter) && (sub.cvLink.Some? ==> isUrl(sub.cvLink.value))
  {
    if !Applications.CoverLetterOk(sub.coverLetter) {
      assert CoverLetterField in Applications.SubmissionErrors(sub, isUrl);
    }
    if sub.cvLink.Some? && !isUrl(sub.cvLink.value) {
      assert CvLinkField in Applications.SubmissionErrors(sub, isUrl);
    }
  }

  /**
   * The form takes any letter of more than 2000 characters without white
   * space, which the server then refuses.
   */
  lemma OverlongLetterPassesClientOnly(f: ApplicationForm.FormData, parsesAsUrl: string -> bool)
    requires |f.coverLetter| > Applications.CoverLetterMax
    requires forall k :: 0 <= k < |f.coverLetter| ==> !IsWhitespace(f.coverLetter[k])
    ensures ApplicationForm.Validate(f, parsesAsUrl).coverLetter.None?
    ensures !Applications.CoverLetterOk(f.coverLetter)
  {
    TrimNoWhitespace(f.coverLetter);
  }

  // ---------------------------------------------------------------------
  // The job form against POST/PUT /jobs
  // ---------------------------------------------------------------------

  /**
   * Any job body that carries the company the form dispatched fails the
   * server's validators when that company is one character long, although
   * the form accepted it.
   */
  lemma OneCharacterCompanyRefusedByServer(f: JobForm.FormData, b: Jobs.JobBody)
    requires JobForm.Submit(f).Some? && |Trim(f.company)| == 1
    requires b.company == Some(JobForm.Submit(f).value.company)
    ensures !Jobs.BodyValid(b)
    ensures CompanyField in Jobs.BodyErrors(b)
  {
    SentJobFieldsAreTrimmed(f);
    TrimIdempotent(f.company);
    assert !Jobs.LengthOk(b.company, 2, 100);
  }

  /** The same holds for a title over the server's 100 characters: the form sets no maximum. */
  lemma LongTitleRefusedByServer(f: JobForm.FormData, b: Jobs.JobBody)
    requires JobForm.Submit(f).Some? && |Trim(f.title)| > 100
    requires b.title == Some(JobForm.Submit(f).value.title)
    ensures !Jobs.BodyValid(b)
    ensures TitleField in Jobs.BodyErrors(b)
  {
    SentJobFieldsAreTrimmed(f);
    TrimIdempotent(f.title);
    assert !Jobs.LengthOk(b.title, 3, 100);
  }

  /** The title and company the job form sends are the trimmed inputs. */
  lemma SentJobFieldsAreTrimmed(f: JobForm.FormData)
    requires JobForm.Submit(f).Some?
    ensures JobForm.Submit(f).value.title == Trim(f.title)
    ensures JobForm.Submit(f).value.company == Trim(f.company)
  {
    var p := JobForm.Submit(f).value;
    TrimIsTheOnlyTrimmedStrip(f.title, p.title);
    TrimIsTheOnlyTrimmedStrip(f.company, p.company);
  }
}
