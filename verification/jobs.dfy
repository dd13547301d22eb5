/**
 * The job routes: the public list (`GET /`) and detail (`GET /:id`) with their
 * visibility rule, and the admin-only create (`POST /`), partial update
 * (`PUT /:id`) and delete (`DELETE /:id`) with the duplicate-title, salary-range
 * and referenced-job guards.
 */
module Jobs {
  import opened Wrappers
  import opened Text
  import opened Schema
  import opened Api

  /**
   * A JSON body for create or update. `None` is an absent field; salaries are
   * JSON numbers. Explicit `null`s are not modelled: `jobValidation` rejects them.
   */
  datatype JobBody = JobBody(title: Option<string>, description: Option<string>,
                             company: Option<string>, location: Option<string>,
                             salaryMin: Option<int>, salaryMax: Option<int>,
                             jobType: Option<string>, status: Option<string>)

  const EmptyBody := JobBody(None, None, None, None, None, None, None, None)

  /** The trimmed length of an optional field lies in `lo..hi` (no upper bound when `hi` is 0). */
  predicate LengthOk(f: Option<string>, lo: nat, hi: nat) {
    f.Some? ==> lo <= |Trim(f.value)| && (hi == 0 || |Trim(f.value)| <= hi)
  }

  /** Every supplied field of the body satisfies its `jobValidation` rule. */
  predicate BodyValid(b: JobBody) {
    && LengthOk(b.title, 3, 100) && LengthOk(b.description, 10, 0)
    && LengthOk(b.company, 2, 100) && LengthOk(b.location, 2, 100)
    && (b.salaryMin.Some? ==> b.salaryMin.value >= 0)
    && (b.salaryMax.Some? ==> b.salaryMax.value >= 0)
    && (b.jobType.Some? ==> ParseJobType(b.jobType.value).Some?)
    && (b.status.Some? ==> ParseJobStatus(b.status.value).Some?)
  }

  /**
   * `jobValidation`: the names of the failing fields. Every rule is `.optional()`,
   * so an absent field is never an error.
   */
  function BodyErrors(b: JobBody): set<Field> {
    (if LengthOk(b.title, 3, 100) then {} else {TitleField})
    + (if LengthOk(b.description, 10, 0) then {} else {DescriptionField})
    + (if LengthOk(b.company, 2, 100) then {} else {CompanyField})
    + (if LengthOk(b.location, 2, 100) then {} else {LocationField})
    + (if b.salaryMin.Some? && b.salaryMin.value < 0 then {SalaryMinField} else {})
    + (if b.salaryMax.Some? && b.salaryMax.value < 0 then {SalaryMaxField} else {})
    + (if b.jobType.Some? && ParseJobType(b.jobType.value).None? then {TypeField} else {})
    + (if b.status.Some? && ParseJobStatus(b.status.value).None? then {StatusField} else {})
  }

  /** The error list is empty exactly when every supplied field satisfies its rule. */
  lemma BodyErrorsEmptyIffValid(b: JobBody)
    ensures BodyErrors(b) == {} <==> BodyValid(b)
  {
  }

  function TrimField(f: Option<string>): Option<string> {
    if f.Some? then Some(Trim(f.value)) else None
  }

  /** The body after the `trim()` sanitizers have rewritten the four text fields in place. */
  function Sanitized(b: JobBody): JobBody {
    b.(title := TrimField(b.title), description := TrimField(b.description),
       company := TrimField(b.company), location := TrimField(b.location))
  }

  /** `SELECT ... WHERE title = ? [AND id != ?] AND status != 'closed'` finds a row. */
  predicate TitleTaken(jobs: map<int, Job>, title: string, except: Option<int>) {
    exists id :: id in jobs && jobs[id].title == title && jobs[id].status != Closed
                 && (except.Some? ==> id != except.value)
  }

  /** The duplicate-title query of `POST /` finds a row (only a non-empty title is looked up). */
  predicate DuplicateOnCreate(st: Store, c: JobBody) {
    c.title.Some? && TitleTaken(st.jobs.rows, c.title.value, None)
  }

  /** The duplicate-title query of `PUT /:id`: run only for a non-empty title, and never matching the job itself. */
  predicate DuplicateOnUpdate(st: Store, id: int, c: JobBody) {
    c.title.Some? && c.title.value != "" && TitleTaken(st.jobs.rows, c.title.value, Some(id))
  }

  /** `salary_min && salary_max && salary_min > salary_max`: JavaScript truthiness makes 0 skip the check. */
  predicate SalaryInverted(min: Option<int>, max: Option<int>) {
    min.Some? && max.Some? && min.value != 0 && max.value != 0 && min.value > max.value
  }

  /** The columns the insert leaves NULL although the schema declares them NOT NULL. */
  predicate MissesRequiredColumn(c: JobBody) {
    c.title.None? || c.description.None? || c.company.None? || c.location.None?
  }

  /** The guards of `POST /`, in order; the last is the database's NOT NULL check, a 500. */
  function CreateGates(st: Store, caller: Caller, b: JobBody): seq<Gate> {
    [ Gate(IsAdmin(caller), AdminRequired),
      Gate(BodyValid(b), ValidationFailed(BodyErrors(b))),
      Gate(!DuplicateOnCreate(st, Sanitized(b)), DuplicateTitle),
      Gate(!SalaryInverted(b.salaryMin, b.salaryMax), SalaryRange),
      Gate(!MissesRequiredColumn(Sanitized(b)), StorageFailure) ]
  }

  /**
   * The row `POST /` inserts for a complete, validated body: the trimmed text
   * fields, type and status defaulting (in the handler's destructuring) to
   * `full-time` and `active`, and the caller as `posted_by`.
   */
  function NewJob(caller: Caller, c: JobBody, now: int): Job
    requires !MissesRequiredColumn(c) && EnumsParse(c)
  {
    Job(c.title.value, c.description.value, c.company.value, c.location.value,
        c.salaryMin, c.salaryMax,
        if c.jobType.Some? then ParseJobType(c.jobType.value).value else FullTime,
        if c.status.Some? then ParseJobStatus(c.status.value).value else Active,
        caller.id, now, now)
  }

  /**
   * The INSERT of `POST /` for a sanitized body. The handler's destructuring
   * defaults (`full-time`, `active`) are the column defaults, so an absent field
   * is handed to the insert as absent; a missing NOT NULL column is a 500.
   */
  function InsertNewJob(st: Store, caller: Caller, c: JobBody, now: int): (r: Result<(Store, int), Error>)
    requires Valid(st) && EnumsParse(c)
    ensures r.Success? <==> !MissesRequiredColumn(c)
    ensures r.Failure? ==> r.error == StorageFailure
    ensures r.Success? ==> var (st', id) := r.value;
      && Valid(st')
      && st'.apps == st.apps
      && id !in st.jobs.rows
      && st'.jobs.rows == st.jobs.rows[id := NewJob(caller, c, now)]
  {
    var ins := InsertJob(st.jobs, c.title, c.description, c.company, c.location,
                         c.salaryMin, c.salaryMax, c.jobType, c.status, caller.id, now);
    if ins.Failure? then Failure(StorageFailure)
    else
      var (jobs', id) := ins.value;
      assert jobs'.rows == st.jobs.rows[id := NewJob(caller, c, now)] by {
        assert jobs'.rows[id] == NewJob(caller, c, now);
      }
      Success((st.(jobs := jobs'), id))
  }

  /** `POST /`: returns the new store and the new job's id. */
  function CreateJob(st: Store, caller: Caller, b: JobBody, now: int): (r: Result<(Store, int), Error>)
    requires Valid(st)
    ensures r.Success? <==> (&& IsAdmin(caller) && BodyValid(b)
                             && !DuplicateOnCreate(st, Sanitized(b))
                             && !SalaryInverted(b.salaryMin, b.salaryMax)
                             && !MissesRequiredColumn(Sanitized(b)))
    ensures r.Success? ==> var (st', id) := r.value;
      && Valid(st')
      && st'.apps == st.apps
      && id !in st.jobs.rows
      && EnumsParse(Sanitized(b))
      && st'.jobs.rows == st.jobs.rows[id := NewJob(caller, Sanitized(b), now)]
  {
    if !IsAdmin(caller) then Failure(AdminRequired)
    else if !BodyValid(b) then Failure(ValidationFailed(BodyErrors(b)))
    else
      var c := Sanitized(b);
      if DuplicateOnCreate(st, c) then Failure(DuplicateTitle)
      else if SalaryInverted(c.salaryMin, c.salaryMax) then Failure(SalaryRange)
      else InsertNewJob(st, caller, c, now)
  }

  /** `undefined` and `null` fields are skipped; is there anything left to SET? */
  predicate HasUpdate(c: JobBody) {
    || c.title.Some? || c.description.Some? || c.company.Some? || c.location.Some?
    || c.salaryMin.Some? || c.salaryMax.Some? || c.jobType.Some? || c.status.Some?
  }

  /** The enumerated fields of a validated body name members of their enums. */
  predicate EnumsParse(c: JobBody) {
    && (c.jobType.Some? ==> ParseJobType(c.jobType.value).Some?)
    && (c.status.Some? ==> ParseJobStatus(c.status.value).Some?)
  }

  /** The `UPDATE jobs SET ... , updated_at = CURRENT_TIMESTAMP` built from the supplied fields. */
  function Patch(j: Job, c: JobBody, now: int): Job
    requires EnumsParse(c)
  {
    j.(title := c.title.GetOr(j.title),
       description := c.description.GetOr(j.description),
       company := c.company.GetOr(j.company),
       location := c.location.GetOr(j.location),
       salaryMin := if c.salaryMin.Some? then c.salaryMin else j.salaryMin,
       salaryMax := if c.salaryMax.Some? then c.salaryMax else j.salaryMax,
       jobType := if c.jobType.Some? then ParseJobType(c.jobType.value).value else j.jobType,
       status := if c.status.Some? then ParseJobStatus(c.status.value).value else j.status,
       updatedAt := now)
  }

  /** The guards of `PUT /:id`, in order. */
  function UpdateGates(st: Store, caller: Caller, id: int, b: JobBody): seq<Gate> {
    var c := Sanitized(b);
    [ Gate(IsAdmin(caller), AdminRequired),
      Gate(BodyValid(b), ValidationFailed(BodyErrors(b))),
      Gate(id in st.jobs.rows, JobNotFound),
      Gate(!DuplicateOnUpdate(st, id, c), DuplicateTitle),
      Gate(!SalaryInverted(c.salaryMin, c.salaryMax), SalaryRange),
      Gate(HasUpdate(c), NoFieldsToUpdate) ]
  }

  /** `PUT /:id`: a partial update of the supplied fields. */
  function UpdateJob(st: Store, caller: Caller, id: int, b: JobBody, now: int): (r: Result<Store, Error>)
    requires Valid(st)
    ensures r.Success? ==> var st' := r.value;
      && Valid(st')
      && st'.apps == st.apps
      && id in st.jobs.rows
      && st'.jobs.rows.Keys == st.jobs.rows.Keys
      && (forall k :: k in st.jobs.rows && k != id ==> st'.jobs.rows[k] == st.jobs.rows[k])
      && st'.jobs.rows[id].postedBy == st.jobs.rows[id].postedBy
      && st'.jobs.rows[id].createdAt == st.jobs.rows[id].createdAt
      && st'.jobs.rows[id].updatedAt == now
  {
    if !IsAdmin(caller) then Failure(AdminRequired)
    else if !BodyValid(b) then Failure(ValidationFailed(BodyErrors(b)))
    else if id !in st.jobs.rows then Failure(JobNotFound)
    else
      var c := Sanitized(b);
      if DuplicateOnUpdate(st, id, c) then Failure(DuplicateTitle)
      else if SalaryInverted(c.salaryMin, c.salaryMax) then Failure(SalaryRange)
      else if !HasUpdate(c) then Failure(NoFieldsToUpdate)
      else
        var j := Patch(st.jobs.rows[id], c, now);
        Success(st.(jobs := st.jobs.Update(id, j)))
  }

  predicate Referenced(st: Store, id: int) {
    exists k :: k in st.apps.rows && st.apps.rows[k].jobId == id
  }

  /** The guards of `DELETE /:id`, in order. */
  function DeleteGates(st: Store, caller: Caller, id: int): seq<Gate> {
    [ Gate(IsAdmin(caller), AdminRequired),
      Gate(id in st.jobs.rows, JobNotFound),
      Gate(!Referenced(st, id), JobHasApplications) ]
  }

  /** `DELETE /:id`: refused while any application refers to the job. */
  function DeleteJob(st: Store, caller: Caller, id: int): (r: Result<Store, Error>)
    requires Valid(st)
    ensures r.Success? <==> IsAdmin(caller) && id in st.jobs.rows && !Referenced(st, id)
    ensures r.Success? ==> var st' := r.value;
      && Valid(st')
      && st'.apps == st.apps
      && st'.jobs.rows.Keys == st.jobs.rows.Keys - {id}
      && (forall k :: k in st'.jobs.rows ==> st'.jobs.rows[k] == st.jobs.rows[k])
  {
    if !IsAdmin(caller) then Failure(AdminRequired)
    else if id !in st.jobs.rows then Failure(JobNotFound)
    else if Referenced(st, id) then Failure(JobHasApplications)
    else Success(st.(jobs := st.jobs.Delete(id)))
  }

  /** `GET /:id`: non-admins, signed in or not, get the same 404 for a non-active job as for a missing one. */
  function GetJob(st: Store, caller: Option<Caller>, id: int): (r: Result<Job, Error>)
    ensures r.Success? ==> id in st.jobs.rows && r.value == st.jobs.rows[id]
    ensures r.Failure? ==> r.error == JobNotFound
    ensures r.Success? <==> id in st.jobs.rows
                            && (st.jobs.rows[id].status == Active || (caller.Some? && IsAdmin(caller.value)))
  {
    if id !in st.jobs.rows then Failure(JobNotFound)
    else if (caller.None? || !IsAdmin(caller.value)) && st.jobs.rows[id].status != Active then
      Failure(JobNotFound)
    else Success(st.jobs.rows[id])
  }

  /** The query string of `GET /`. */
  datatype JobQuery = JobQuery(title: Option<string>, location: Option<string>,
                               jobType: Option<string>, status: Option<string>,
                               page: Option<int>, limit: Option<int>)

  function QueryErrors(q: JobQuery): set<Field> {
    (if q.jobType.Some? && ParseJobType(q.jobType.value).None? then {TypeField} else {})
    + (if q.status.Some? && ParseJobStatus(q.status.value).None? then {StatusField} else {})
    + (if q.page.Some? && q.page.value < 1 then {PageField} else {})
    + (if q.limit.Some? && !(1 <= q.limit.value <= 50) then {LimitField} else {})
  }

  /**
   * `col LIKE '%q%'` for the trimmed query text, applied only when that text is
   * non-empty; `like(value, q)` is SQLite's pattern match.
   */
  predicate TextMatches(value: string, q: Option<string>, like: (string, string) -> bool) {
    q.Some? && Trim(q.value) != "" ==> like(value, Trim(q.value))
  }

  /** The WHERE clause of `GET /`. Without a `status` filter, only admins see non-active jobs. */
  predicate Shown(caller: Option<Caller>, q: JobQuery, like: (string, string) -> bool, j: Job) {
    && TextMatches(j.title, q.title, like)
    && TextMatches(j.location, q.location, like)
    && (q.jobType.Some? ==> JobTypeName(j.jobType) == q.jobType.value)
    && (if q.status.Some? then JobStatusName(j.status) == q.status.value
        else (caller.Some? && IsAdmin(caller.value)) || j.status == Active)
  }

  /** `GET /`: every row the WHERE clause selects, before ordering and paging. */
  function ListJobs(st: Store, caller: Option<Caller>, q: JobQuery, like: (string, string) -> bool)
    : (r: Result<map<int, Job>, Error>)
    ensures QueryErrors(q) != {} ==> r == Failure(ValidationFailed(QueryErrors(q)))
    ensures QueryErrors(q) == {} ==> r.Success?
    ensures r.Success? ==> r.value.Keys <= st.jobs.rows.Keys
                           && forall k :: k in r.value ==> r.value[k] == st.jobs.rows[k]
  {
    if QueryErrors(q) != {} then Failure(ValidationFailed(QueryErrors(q)))
    else Success(map k | k in st.jobs.rows && Shown(caller, q, like, st.jobs.rows[k]) :: st.jobs.rows[k])
  }

  // ---------------------------------------------------------------------
  // Properties of the handlers
  // ---------------------------------------------------------------------

  lemma CreateFollowsGates(st: Store, caller: Caller, b: JobBody, now: int)
    requires Valid(st)
    ensures Verdict(CreateJob(st, caller, b, now)) == FirstFailure(CreateGates(st, caller, b))
  {
    var c := Sanitized(b);
    FirstFailureOfFive(Gate(IsAdmin(caller), AdminRequired),
                       Gate(BodyValid(b), ValidationFailed(BodyErrors(b))),
                       Gate(!DuplicateOnCreate(st, c), DuplicateTitle),
                       Gate(!SalaryInverted(b.salaryMin, b.salaryMax), SalaryRange),
                       Gate(!MissesRequiredColumn(c), StorageFailure));
  }

  lemma UpdateFollowsGates(st: Store, caller: Caller, id: int, b: JobBody, now: int)
    requires Valid(st)
    ensures Verdict(UpdateJob(st, caller, id, b, now)) == FirstFailure(UpdateGates(st, caller, id, b))
  {
    var c := Sanitized(b);
    FirstFailureOfSix(Gate(IsAdmin(caller), AdminRequired),
                      Gate(BodyValid(b), ValidationFailed(BodyErrors(b))),
                      Gate(id in st.jobs.rows, JobNotFound),
                      Gate(!DuplicateOnUpdate(st, id, c), DuplicateTitle),
                      Gate(!SalaryInverted(c.salaryMin, c.salaryMax), SalaryRange),
                      Gate(HasUpdate(c), NoFieldsToUpdate));
  }

  lemma DeleteFollowsGates(st: Store, caller: Caller, id: int)
    requires Valid(st)
    ensures Verdict(DeleteJob(st, caller, id)) == FirstFailure(DeleteGates(st, caller, id))
  {
    var g := DeleteGates(st, caller, id);
    if !g[0].pass { FirstFailureAt(g, 0); }
    else if !g[1].pass { FirstFailureAt(g, 1); }
    else if !g[2].pass { FirstFailureAt(g, 2); }
  }

  /** Create, update and delete answer a regular user with 403 "Admin access required", whatever the request. */
  lemma JobWritesRequireAdmin(st: Store, caller: Caller, id: int, b: JobBody, now: int)
    requires Valid(st)
    requires !IsAdmin(caller)
    ensures CreateJob(st, caller, b, now) == Failure(AdminRequired)
    ensures UpdateJob(st, caller, id, b, now) == Failure(AdminRequired)
    ensures DeleteJob(st, caller, id) == Failure(AdminRequired)
    ensures Message(AdminRequired) == "Admin access required" && HttpStatus(AdminRequired) == 403
  {
  }

  /** A create body without `type` or `status` yields a `full-time`, `active` job. */
  lemma CreateDefaults(st: Store, admin: Caller, b: JobBody, now: int)
    requires Valid(st)
    requires b.jobType.None? && b.status.None?
    requires CreateJob(st, admin, b, now).Success?
    ensures var (st', id) := CreateJob(st, admin, b, now).value;
            st'.jobs.rows[id].jobType == DefaultJobType && st'.jobs.rows[id].status == DefaultJobStatus
  {
  }

  /** A non-closed job with the same (trimmed) title blocks creation. */
  lemma OpenTitleBlocksCreate(st: Store, admin: Caller, b: JobBody, now: int, other: int)
    requires Valid(st)
    requires IsAdmin(admin) && BodyValid(b)
    requires b.title.Some? && other in st.jobs.rows
    requires st.jobs.rows[other].title == Trim(b.title.value) && st.jobs.rows[other].status != Closed
    ensures CreateJob(st, admin, b, now) == Failure(DuplicateTitle)
  {
    assert TitleTaken(st.jobs.rows, Trim(b.title.value), None);
    assert DuplicateOnCreate(st, Sanitized(b));
  }

  /** Closed jobs never block reusing their title: a complete, consistent body is then accepted. */
  lemma ClosedTitleDoesNotBlockCreate(st: Store, admin: Caller, b: JobBody, now: int)
    requires Valid(st)
    requires IsAdmin(admin) && BodyValid(b)
    requires b.title.Some? && b.description.Some? && b.company.Some? && b.location.Some?
    requires !SalaryInverted(b.salaryMin, b.salaryMax)
    requires forall k :: k in st.jobs.rows && st.jobs.rows[k].title == Trim(b.title.value)
                         ==> st.jobs.rows[k].status == Closed
    ensures CreateJob(st, admin, b, now).Success?
  {
    SanitizedFields(b);
    NoOpenTitle(st.jobs.rows, Trim(b.title.value));
    CreateSucceeds(st, admin, b, now);
  }

  /** The sanitizers trim the text fields in place and keep every field's presence. */
  lemma SanitizedFields(b: JobBody)
    ensures MissesRequiredColumn(Sanitized(b)) == MissesRequiredColumn(b)
    ensures b.title.Some? ==> Sanitized(b).title == Some(Trim(b.title.value))
  {
  }

  /** The duplicate-title query finds nothing when every job with the title is closed. */
  lemma NoOpenTitle(jobs: map<int, Job>, title: string)
    requires forall k :: k in jobs && jobs[k].title == title ==> jobs[k].status == Closed
    ensures !TitleTaken(jobs, title, None)
  {
  }

  /** The success condition of `CreateJob`, stated apart from the store invariant's details. */
  lemma CreateSucceeds(st: Store, admin: Caller, b: JobBody, now: int)
    requires Valid(st)
    requires IsAdmin(admin) && BodyValid(b) && !DuplicateOnCreate(st, Sanitized(b))
    requires !SalaryInverted(b.salaryMin, b.salaryMax) && !MissesRequiredColumn(Sanitized(b))
    ensures CreateJob(st, admin, b, now).Success?
  {
  }

  /**
   * Every `jobValidation` rule is optional, so an admin's empty body passes
   * validation and reaches the INSERT, whose NOT NULL title column makes it fail
   * with a 500 rather than a 400.
   */
  lemma EmptyCreateBodyFailsInDatabase(st: Store, admin: Caller, now: int)
    requires Valid(st)
    requires IsAdmin(admin)
    ensures CreateJob(st, admin, EmptyBody, now) == Failure(StorageFailure)
  {
    assert BodyErrors(EmptyBody) == {};
  }

  /**
   * An update changes exactly the supplied fields: each supplied field takes its
   * (trimmed) new value, every other field keeps its stored value.
   */
  lemma UpdateChangesOnlySuppliedFields(st: Store, admin: Caller, id: int, b: JobBody, now: int)
    requires Valid(st)
    requires UpdateJob(st, admin, id, b, now).Success?
    ensures var prev := st.jobs.rows[id];
            var j := UpdateJob(st, admin, id, b, now).value.jobs.rows[id];
            && j.title == (if b.title.Some? then Trim(b.title.value) else prev.title)
            && j.description == (if b.description.Some? then Trim(b.description.value) else prev.description)
            && j.company == (if b.company.Some? then Trim(b.company.value) else prev.company)
            && j.location == (if b.location.Some? then Trim(b.location.value) else prev.location)
            && j.salaryMin == (if b.salaryMin.Some? then b.salaryMin else prev.salaryMin)
            && j.salaryMax == (if b.salaryMax.Some? then b.salaryMax else prev.salaryMax)
            && (b.jobType.None? ==> j.jobType == prev.jobType)
            && (b.jobType.Some? ==> JobTypeName(j.jobType) == b.jobType.value)
            && (b.status.None? ==> j.status == prev.status)
            && (b.status.Some? ==> JobStatusName(j.status) == b.status.value)
  {
  }

  /** A body with no fields at all is refused with "No valid fields to update" once the job exists. */
  lemma EmptyUpdateRefused(st: Store, admin: Caller, id: int, now: int)
    requires Valid(st)
    requires IsAdmin(admin) && id in st.jobs.rows
    ensures UpdateJob(st, admin, id, EmptyBody, now) == Failure(NoFieldsToUpdate)
  {
    assert BodyErrors(EmptyBody) == {};
  }

  /**
   * The salary check looks only at the request: an update that supplies just a
   * `salary_min` above the stored `salary_max` is accepted, leaving min > max.
   */
  lemma SalaryCheckIgnoresStoredValues(st: Store, admin: Caller, id: int, min: int, now: int)
    requires Valid(st)
    requires IsAdmin(admin) && id in st.jobs.rows
    requires st.jobs.rows[id].salaryMax.Some? && 0 <= st.jobs.rows[id].salaryMax.value < min
    ensures var b := EmptyBody.(salaryMin := Some(min));
            UpdateJob(st, admin, id, b, now).Success?
            && UpdateJob(st, admin, id, b, now).value.jobs.rows[id].salaryMin.value
               > UpdateJob(st, admin, id, b, now).value.jobs.rows[id].salaryMax.value
  {
    var b := EmptyBody.(salaryMin := Some(min));
    assert BodyErrors(b) == {};
    assert Sanitized(b) == b;
  }

  /** The salary guard of create and update: equal salaries pass and a zero on either side skips the check. */
  lemma SalaryGuardBoundaries(st: Store, admin: Caller, b: JobBody, now: int)
    requires Valid(st)
    requires IsAdmin(admin) && BodyErrors(b) == {}
    requires b.salaryMin.Some? && b.salaryMax.Some?
    requires b.salaryMin.value == b.salaryMax.value || b.salaryMin.value == 0 || b.salaryMax.value == 0
    ensures CreateJob(st, admin, b, now) != Failure(SalaryRange)
  {
  }

  /** A job referenced by an application cannot be deleted, so every application keeps a job to point at. */
  lemma ReferencedJobIsNotDeleted(st: Store, admin: Caller, app: int)
    requires Valid(st)
    requires app in st.apps.rows
    ensures DeleteJob(st, admin, st.apps.rows[app].jobId).Failure?
  {
    assert Referenced(st, st.apps.rows[app].jobId);
  }

  /** Non-admins, signed in or anonymous, listing without a `status` filter see only active jobs. */
  lemma PublicListShowsOnlyActive(st: Store, caller: Option<Caller>, q: JobQuery, like: (string, string) -> bool)
    requires caller.None? || !IsAdmin(caller.value)
    requires q.status.None?
    requires ListJobs(st, caller, q, like).Success?
    ensures forall k :: k in ListJobs(st, caller, q, like).value ==> ListJobs(st, caller, q, like).value[k].status == Active
  {
  }

  /** An explicit `status` filter is applied as given, whoever is asking. */
  lemma StatusFilterIgnoresRole(st: Store, c1: Option<Caller>, c2: Option<Caller>, q: JobQuery,
                                like: (string, string) -> bool)
    requires q.status.Some?
    ensures ListJobs(st, c1, q, like) == ListJobs(st, c2, q, like)
  {
    if QueryErrors(q) == {} {
      var rows := st.jobs.rows;
      var m1 := map k | k in rows && Shown(c1, q, like, rows[k]) :: rows[k];
      var m2 := map k | k in rows && Shown(c2, q, like, rows[k]) :: rows[k];
      assert m1.Keys == m2.Keys;
    }
  }

  /**
   * An explicit `status` filter is applied as given: a valid query lists a
   * stored job exactly when its status is the requested one and it matches the
   * title, location and type filters, for admins, other users and anonymous
   * callers alike.
   */
  lemma StatusFilterAppliedAsGiven(st: Store, caller: Option<Caller>, q: JobQuery,
                                   like: (string, string) -> bool, s: JobStatus, id: int)
    requires QueryErrors(q) == {}
    requires q.status == Some(JobStatusName(s))
    ensures ListJobs(st, caller, q, like).Success?
    ensures id in ListJobs(st, caller, q, like).value
            <==> && id in st.jobs.rows && st.jobs.rows[id].status == s
                 && TextMatches(st.jobs.rows[id].title, q.title, like)
                 && TextMatches(st.jobs.rows[id].location, q.location, like)
                 && (q.jobType.Some? ==> ParseJobType(q.jobType.value) == Some(st.jobs.rows[id].jobType))
  {
    if id in st.jobs.rows {
      var j := st.jobs.rows[id];
      EnumNamesRoundTrip(User, j.jobType, j.status, Pending);
      EnumNamesRoundTrip(User, FullTime, s, Pending);
    }
  }

  /**
   * Without a `status` filter a valid query lists a stored job exactly when it
   * matches the title, location and type filters and is active, unless the
   * caller is an admin, who sees every status.
   */
  lemma DefaultStatusFilter(st: Store, caller: Option<Caller>, q: JobQuery,
                            like: (string, string) -> bool, id: int)
    requires QueryErrors(q) == {}
    requires q.status.None?
    ensures ListJobs(st, caller, q, like).Success?
    ensures id in ListJobs(st, caller, q, like).value
            <==> && id in st.jobs.rows
                 && ((caller.Some? && IsAdmin(caller.value)) || st.jobs.rows[id].status == Active)
                 && TextMatches(st.jobs.rows[id].title, q.title, like)
                 && TextMatches(st.jobs.rows[id].location, q.location, like)
                 && (q.jobType.Some? ==> ParseJobType(q.jobType.value) == Some(st.jobs.rows[id].jobType))
  {
    if id in st.jobs.rows {
      EnumNamesRoundTrip(User, st.jobs.rows[id].jobType, Active, Pending);
    }
  }

  /** An admin's unfiltered list holds every job, whatever its status. */
  lemma AdminUnfilteredListIsComplete(st: Store, admin: Caller, like: (string, string) -> bool)
    requires IsAdmin(admin)
    ensures var r := ListJobs(st, Some(admin), JobQuery(None, None, None, None, None, None), like);
            r.Success? && r.value.Keys == st.jobs.rows.Keys
  {
    var q := JobQuery(None, None, None, None, None, None);
    assert QueryErrors(q) == {};
    forall j: Job ensures Shown(Some(admin), q, like, j) {
    }
  }

  /** For a non-admin a non-active job is indistinguishable from a missing one. */
  lemma HiddenJobLooksMissing(st: Store, caller: Option<Caller>, id: int)
    requires Valid(st)
    requires caller.None? || !IsAdmin(caller.value)
    requires id in st.jobs.rows && st.jobs.rows[id].status != Active
    ensures GetJob(st, caller, id) == GetJob(st.(jobs := st.jobs.Delete(id)), caller, id)
  {
  }
}
