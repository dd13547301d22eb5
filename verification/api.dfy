/**
 * What the route handlers share: the authenticated caller that the auth
 * middleware attaches to `req.user`, and the error responses they send.
 */
module Api {
  import opened Wrappers
  import opened Schema

  /** `req.user`: the caller's user id and role, as carried by the token. */
  datatype Caller = Caller(id: int, role: Role)

  predicate IsAdmin(c: Caller) {
    c.role == Admin
  }

  /** The ownership rule of the application routes: admins see everything, users their own rows. */
  predicate MayAccess(c: Caller, ownerId: int) {
    c.role == Admin || ownerId == c.id
  }

  /** The request fields express-validator can name in its `errors` array. */
  datatype Field =
    | TitleField | DescriptionField | CompanyField | LocationField
    | SalaryMinField | SalaryMaxField | TypeField | StatusField
    | CoverLetterField | CvLinkField | JobIdField | PageField | LimitField

  /** The `param` name a field carries in the JSON error list. */
  function FieldName(f: Field): string {
    match f
    case TitleField => "title"
    case DescriptionField => "description"
    case CompanyField => "company"
    case LocationField => "location"
    case SalaryMinField => "salary_min"
    case SalaryMaxField => "salary_max"
    case TypeField => "type"
    case StatusField => "status"
    case CoverLetterField => "cover_letter"
    case CvLinkField => "cv_link"
    case JobIdField => "job_id"
    case PageField => "page"
    case LimitField => "limit"
  }

  /** Every non-500 error response a handler of the model sends, plus the generic 500. */
  datatype Error =
    | ValidationFailed(fields: set<Field>)  // express-validator's `errors.array()`
    | InvalidJobId
    | JobNotFound
    | ApplicationNotFound
    | InactiveJob
    | AlreadyApplied
    | AdminRequired                          // from the `requireAdmin` middleware
    | AccessDenied
    | DuplicateTitle
    | SalaryRange
    | NoFieldsToUpdate
    | JobHasApplications
    | StorageFailure                         // a thrown database error, caught as 500

  function HttpStatus(e: Error): int {
    match e
    case ValidationFailed(_) => 400
    case InvalidJobId => 400
    case JobNotFound => 404
    case ApplicationNotFound => 404
    case InactiveJob => 400
    case AlreadyApplied => 400
    case AdminRequired => 403
    case AccessDenied => 403
    case DuplicateTitle => 400
    case SalaryRange => 400
    case NoFieldsToUpdate => 400
    case JobHasApplications => 400
    case StorageFailure => 500
  }

  /**
   * The `error` string of the JSON body. A validation failure sends an `errors`
   * array instead, and the 500 text names the route, so both are left empty here.
   */
  function Message(e: Error): string {
    match e
    case ValidationFailed(_) => ""
    case InvalidJobId => "Valid job_id is required"
    case JobNotFound => "Job not found"
    case ApplicationNotFound => "Application not found"
    case InactiveJob => "Cannot apply to inactive job"
    case AlreadyApplied => "You have already applied to this job"
    case AdminRequired => "Admin access required"
    case AccessDenied => "Access denied"
    case DuplicateTitle => "A job with this title already exists"
    case SalaryRange => "Minimum salary cannot be greater than maximum salary"
    case NoFieldsToUpdate => "No valid fields to update"
    case JobHasApplications => "Cannot delete job with existing applications. Consider setting status to \"closed\" instead."
    case StorageFailure => ""
  }

  /** One fail-fast guard of a handler: whether it passes, and the response it sends when it does not. */
  datatype Gate = Gate(pass: bool, error: Error)

  /**
   * The error of the first guard that fails, in order; `None` when all pass.
   * This is the reference reading of a handler written as a chain of early returns.
   */
  function FirstFailure(gates: seq<Gate>): (r: Option<Error>)
    ensures r.None? <==> forall k :: 0 <= k < |gates| ==> gates[k].pass
    ensures r.Some? ==> exists k :: 0 <= k < |gates| && !gates[k].pass && gates[k].error == r.value
                                    && forall j :: 0 <= j < k ==> gates[j].pass
  {
    if |gates| == 0 then None
    else if !gates[0].pass then Some(gates[0].error)
    else
      var r := FirstFailure(gates[1..]);
      assert r.Some? ==> exists k :: 1 <= k < |gates| && !gates[k].pass && gates[k].error == r.value
                                     && forall j :: 0 <= j < k ==> gates[j].pass by {
        if r.Some? {
          var k :| 0 <= k < |gates| - 1 && !gates[1..][k].pass && gates[1..][k].error == r.value
                   && forall j :: 0 <= j < k ==> gates[1..][j].pass;
          assert forall j :: 1 <= j < k + 1 ==> gates[j] == gates[1..][j - 1];
        }
      }
      r
  }

  /** The error a handler answered with, `None` for a success: what `FirstFailure` predicts. */
  function Verdict<T>(r: Result<T, Error>): (v: Option<Error>)
    ensures v.None? <==> r.Success?
    ensures r.Failure? ==> v == Some(r.error)
  {
    if r.Success? then None else Some(r.error)
  }

  /** The guard at position `k` decides the response when it fails and every earlier guard passes. */
  lemma FirstFailureAt(gates: seq<Gate>, k: int)
    requires 0 <= k < |gates| && !gates[k].pass
    requires forall j :: 0 <= j < k ==> gates[j].pass
    ensures FirstFailure(gates) == Some(gates[k].error)
  {
    var r := FirstFailure(gates);
    var k' :| 0 <= k' < |gates| && !gates[k'].pass && gates[k'].error == r.value
              && forall j :: 0 <= j < k' ==> gates[j].pass;
    assert k' == k;
  }

  /** Five guards read as five early returns. */
  lemma FirstFailureOfFive(g0: Gate, g1: Gate, g2: Gate, g3: Gate, g4: Gate)
    ensures FirstFailure([g0, g1, g2, g3, g4])
            == if !g0.pass then Some(g0.error) else if !g1.pass then Some(g1.error)
               else if !g2.pass then Some(g2.error) else if !g3.pass then Some(g3.error)
               else if !g4.pass then Some(g4.error) else None
  {
    FirstFailureCons(g4, []);
    FirstFailureCons(g3, [g4]);
    FirstFailureCons(g2, [g3, g4]);
    FirstFailureCons(g1, [g2, g3, g4]);
    FirstFailureCons(g0, [g1, g2, g3, g4]);
  }

  /** Six guards read as six early returns. */
  lemma FirstFailureOfSix(g0: Gate, g1: Gate, g2: Gate, g3: Gate, g4: Gate, g5: Gate)
    ensures FirstFailure([g0, g1, g2, g3, g4, g5])
            == if !g0.pass then Some(g0.error) else if !g1.pass then Some(g1.error)
               else if !g2.pass then Some(g2.error) else if !g3.pass then Some(g3.error)
               else if !g4.pass then Some(g4.error) else if !g5.pass then Some(g5.error) else None
  {
    FirstFailureOfFive(g1, g2, g3, g4, g5);
    FirstFailureCons(g0, [g1, g2, g3, g4, g5]);
  }

  /** A chain that starts with `g` stops at `g` when it fails and otherwise answers as the rest does. */
  lemma FirstFailureCons(g: Gate, rest: seq<Gate>)
    ensures FirstFailure([g] + rest) == if !g.pass then Some(g.error) else FirstFailure(rest)
  {
    assert ([g] + rest)[1..] == rest;
  }
}
