/**
 * The application routes: submission (`POST /send`), the admin-only status
 * change (`PATCH /:id/status`), owner-or-admin delete (`DELETE /:id`) and
 * read (`GET /:id`), and the per-caller list (`GET /`). Each handler is a chain
 * of fail-fast guards ending in at most one write; a failure returns the
 * response and leaves the store as it was.
 */
module Applications {
  import opened Wrappers
  import opened Text
  import opened Schema
  import opened Api

  /**
   * The body of `POST /send`. `job_id` is a JSON number, as the application
   * form sends it; `jobId` is `None` when it is missing or null (a `NaN` from
   * the form's `parseInt` serialises as null). `cvLink` is `None` when the
   * field is absent.
   */
  datatype Submission = Submission(jobId: Option<int>, coverLetter: string, cvLink: Option<string>)

  /** The bounds of `isLength` on the trimmed cover letter. */
  const CoverLetterMin: nat := 10
  const CoverLetterMax: nat := 2000

  predicate CoverLetterOk(coverLetter: string) {
    CoverLetterMin <= |Trim(coverLetter)| <= CoverLetterMax
  }

  /** `applicationValidation`: the fields express-validator reports; `isUrl` is validator.js `isURL`. */
  function SubmissionErrors(sub: Submission, isUrl: string -> bool): set<Field> {
    (if CoverLetterOk(sub.coverLetter) then {} else {CoverLetterField})
    + (if sub.cvLink.Some? && !isUrl(sub.cvLink.value) then {CvLinkField} else {})
  }

  /** The guards of `POST /send`, in the order the handler runs them. */
  function SubmitGates(st: Store, caller: Caller, sub: Submission, isUrl: string -> bool): seq<Gate> {
    var errs := SubmissionErrors(sub, isUrl);
    var jid := sub.jobId.GetOr(0);
    [ Gate(errs == {}, ValidationFailed(errs)),
      Gate(sub.jobId.Some? && jid != 0, InvalidJobId),
      Gate(jid in st.jobs.rows, JobNotFound),
      Gate(jid in st.jobs.rows && st.jobs.rows[jid].status == Active, InactiveJob),
      Gate(!HasPair(st.apps.rows, jid, caller.id), AlreadyApplied) ]
  }

  /** The row a successful submission stores: the trimmed letter, the caller as owner, status pending. */
  function NewApplication(caller: Caller, sub: Submission, now: int): Application
    requires sub.jobId.Some?
  {
    Application(sub.jobId.value, caller.id, Trim(sub.coverLetter), sub.cvLink, Pending, now, now)
  }

  /**
   * `POST /send`. Returns the new store and the new application's id. The
   * express-validator `trim()` sanitizer rewrites `cover_letter` in place, so the
   * stored letter is the trimmed one.
   */
  function Submit(st: Store, caller: Caller, sub: Submission, isUrl: string -> bool, now: int)
    : (r: Result<(Store, int), Error>)
    requires Valid(st)
    ensures r.Success? <==> (&& SubmissionErrors(sub, isUrl) == {}
                             && sub.jobId.Some? && sub.jobId.value in st.jobs.rows
                             && st.jobs.rows[sub.jobId.value].status == Active
                             && !HasPair(st.apps.rows, sub.jobId.value, caller.id))
    ensures r.Success? ==> var (st', id) := r.value;
      && Valid(st')
      && id !in st.apps.rows
      && st'.jobs == st.jobs
      && st'.apps.rows == st.apps.rows[id := NewApplication(caller, sub, now)]
    ensures r != Failure(StorageFailure)
  {
    var errs := SubmissionErrors(sub, isUrl);
    if errs != {} then Failure(ValidationFailed(errs))
    else if sub.jobId.None? || sub.jobId.value == 0 then Failure(InvalidJobId)
    else
      var jid := sub.jobId.value;
      if jid !in st.jobs.rows then Failure(JobNotFound)
      else if st.jobs.rows[jid].status != Active then Failure(InactiveJob)
      else if HasPair(st.apps.rows, jid, caller.id) then Failure(AlreadyApplied)
      else
        match InsertApplication(st.apps, jid, caller.id, Trim(sub.coverLetter), sub.cvLink, now)
        case Failure(_) => Failure(StorageFailure)
        case Success((apps', id)) => Success((st.(apps := apps'), id))
  }

  /** The guards of `PATCH /:id/status`; `requireAdmin` runs before the body is validated. */
  function UpdateStatusGates(st: Store, caller: Caller, id: int, status: string): seq<Gate> {
    [ Gate(IsAdmin(caller), AdminRequired),
      Gate(ParseAppStatus(status).Some?, ValidationFailed({StatusField})),
      Gate(id in st.apps.rows, ApplicationNotFound) ]
  }

  /**
   * `PATCH /:id/status`. Any admin may move any application to any of the four
   * statuses, whatever its current status; only `status` and `updated_at` change.
   */
  function UpdateStatus(st: Store, caller: Caller, id: int, status: string, now: int)
    : (r: Result<Store, Error>)
    requires Valid(st)
    ensures r.Success? <==> IsAdmin(caller) && ParseAppStatus(status).Some? && id in st.apps.rows
    ensures r.Success? ==> var st' := r.value;
      && Valid(st')
      && st'.jobs == st.jobs
      && st'.apps.rows.Keys == st.apps.rows.Keys
      && (forall k :: k in st.apps.rows && k != id ==> st'.apps.rows[k] == st.apps.rows[k])
      && AppStatusName(st'.apps.rows[id].status) == status
      && st'.apps.rows[id].updatedAt == now
      && st'.apps.rows[id].(status := st.apps.rows[id].status, updatedAt := st.apps.rows[id].updatedAt)
         == st.apps.rows[id]
  {
    if !IsAdmin(caller) then Failure(AdminRequired)
    else if ParseAppStatus(status).None? then Failure(ValidationFailed({StatusField}))
    else if id !in st.apps.rows then Failure(ApplicationNotFound)
    else
      var row := st.apps.rows[id].(status := ParseAppStatus(status).value, updatedAt := now);
      Success(st.(apps := st.apps.Update(id, row)))
  }

  /** The guards of `DELETE /:id`: existence is checked before ownership. */
  function DeleteGates(st: Store, caller: Caller, id: int): seq<Gate> {
    [ Gate(id in st.apps.rows, ApplicationNotFound),
      Gate(id in st.apps.rows && MayAccess(caller, st.apps.rows[id].userId), AccessDenied) ]
  }

  /** `DELETE /:id`: the owner or an admin removes the application, whatever its status. */
  function Delete(st: Store, caller: Caller, id: int): (r: Result<Store, Error>)
    requires Valid(st)
    ensures r.Success? <==> id in st.apps.rows && MayAccess(caller, st.apps.rows[id].userId)
    ensures r.Success? ==> var st' := r.value;
      && Valid(st')
      && st'.jobs == st.jobs
      && st'.apps.rows.Keys == st.apps.rows.Keys - {id}
      && (forall k :: k in st'.apps.rows ==> st'.apps.rows[k] == st.apps.rows[k])
  {
    if id !in st.apps.rows then Failure(ApplicationNotFound)
    else if !MayAccess(caller, st.apps.rows[id].userId) then Failure(AccessDenied)
    else Success(st.(apps := st.apps.Delete(id)))
  }

  /** `GET /:id`: 404 for a missing id, then 403 unless the caller is an admin or the owner. */
  function Get(st: Store, caller: Caller, id: int): (r: Result<Application, Error>)
    ensures id !in st.apps.rows ==> r == Failure(ApplicationNotFound)
    ensures id in st.apps.rows && !MayAccess(caller, st.apps.rows[id].userId) ==> r == Failure(AccessDenied)
    ensures r.Success? ==> id in st.apps.rows && r.value == st.apps.rows[id] && MayAccess(caller, r.value.userId)
  {
    if id !in st.apps.rows then Failure(ApplicationNotFound)
    else if !MayAccess(caller, st.apps.rows[id].userId) then Failure(AccessDenied)
    else Success(st.apps.rows[id])
  }

  /** The query string of `GET /`; pagination is validated but not applied by the model. */
  datatype ListQuery = ListQuery(jobId: Option<int>, status: Option<string>,
                                 page: Option<int>, limit: Option<int>)

  function ListQueryErrors(q: ListQuery): set<Field> {
    (if q.jobId.Some? && q.jobId.value < 1 then {JobIdField} else {})
    + (if q.status.Some? && ParseAppStatus(q.status.value).None? then {StatusField} else {})
    + (if q.page.Some? && q.page.value < 1 then {PageField} else {})
    + (if q.limit.Some? && !(1 <= q.limit.value <= 50) then {LimitField} else {})
  }

  /** The WHERE clause of `GET /`: the optional filters and, for non-admins, `a.user_id = caller`. */
  predicate Listed(caller: Caller, q: ListQuery, a: Application) {
    && (q.jobId.Some? ==> a.jobId == q.jobId.value)
    && (q.status.Some? ==> AppStatusName(a.status) == q.status.value)
    && (!IsAdmin(caller) ==> a.userId == caller.id)
  }

  /** `GET /`: every row the WHERE clause selects, before ordering and paging. */
  function List(st: Store, caller: Caller, q: ListQuery): (r: Result<map<int, Application>, Error>)
    ensures ListQueryErrors(q) != {} ==> r == Failure(ValidationFailed(ListQueryErrors(q)))
    ensures ListQueryErrors(q) == {} ==> r.Success?
    ensures r.Success? ==> r.value.Keys <= st.apps.rows.Keys
                           && forall k :: k in r.value ==> r.value[k] == st.apps.rows[k]
  {
    var errs := ListQueryErrors(q);
    if errs != {} then Failure(ValidationFailed(errs))
    else Success(map k | k in st.apps.rows && Listed(caller, q, st.apps.rows[k]) :: st.apps.rows[k])
  }

  // ---------------------------------------------------------------------
  // Properties of the handlers
  // ---------------------------------------------------------------------

  /** Submission answers with the error of the first guard that fails, in the order of the handler. */
  lemma SubmitFollowsGates(st: Store, caller: Caller, sub: Submission, isUrl: string -> bool, now: int)
    requires Valid(st)
    ensures Verdict(Submit(st, caller, sub, isUrl, now)) == FirstFailure(SubmitGates(st, caller, sub, isUrl))
  {
    var errs := SubmissionErrors(sub, isUrl);
    var jid := sub.jobId.GetOr(0);
    FirstFailureOfFive(Gate(errs == {}, ValidationFailed(errs)),
                       Gate(sub.jobId.Some? && jid != 0, InvalidJobId),
                       Gate(jid in st.jobs.rows, JobNotFound),
                       Gate(jid in st.jobs.rows && st.jobs.rows[jid].status == Active, InactiveJob),
                       Gate(!HasPair(st.apps.rows, jid, caller.id), AlreadyApplied));
  }

  /**
   * A well-formed submission to a job that is `inactive` or `closed` gets the
   * same "Cannot apply to inactive job" response, whoever the caller is.
   */
  lemma SubmitToNonActiveJob(st: Store, caller: Caller, sub: Submission, isUrl: string -> bool, now: int)
    requires Valid(st)
    requires SubmissionErrors(sub, isUrl) == {}
    requires sub.jobId.Some? && sub.jobId.value in st.jobs.rows
    requires st.jobs.rows[sub.jobId.value].status != Active
    ensures Submit(st, caller, sub, isUrl, now) == Failure(InactiveJob)
  {
  }

  /** Once user U has applied to job J, a second submission by U for J is refused as a duplicate. */
  lemma SubmitTwiceIsDuplicate(st: Store, caller: Caller, sub: Submission, sub2: Submission,
                               isUrl: string -> bool, now: int, now2: int)
    requires Valid(st)
    requires Submit(st, caller, sub, isUrl, now).Success?
    requires SubmissionErrors(sub2, isUrl) == {} && sub2.jobId == sub.jobId
    ensures var st' := Submit(st, caller, sub, isUrl, now).value.0;
            Submit(st', caller, sub2, isUrl, now2) == Failure(AlreadyApplied)
  {
    var (st', id) := Submit(st, caller, sub, isUrl, now).value;
    assert st'.apps.rows[id].jobId == sub.jobId.value && st'.apps.rows[id].userId == caller.id;
  }

  /**
   * A successful submission for (J, U) changes nothing for any other pair: a
   * later submission by another user, or for another job, gets the same answer
   * it would have got before.
   */
  lemma SubmitLeavesOtherPairsAlone(st: Store, caller: Caller, sub: Submission,
                                    other: Caller, sub2: Submission,
                                    isUrl: string -> bool, now: int, now2: int)
    requires Valid(st)
    requires Submit(st, caller, sub, isUrl, now).Success?
    requires other.id != caller.id || sub2.jobId != sub.jobId
    ensures var st' := Submit(st, caller, sub, isUrl, now).value.0;
            var before := Submit(st, other, sub2, isUrl, now2);
            var after := Submit(st', other, sub2, isUrl, now2);
            (after.Success? <==> before.Success?) && (after.Failure? ==> after.error == before.error)
  {
    var st' := Submit(st, caller, sub, isUrl, now).value.0;
    var jid := sub2.jobId.GetOr(0);
    PairsAfterSubmit(st, caller, sub, isUrl, now, jid, other.id);
    assert HasPair(st'.apps.rows, jid, other.id) <==> HasPair(st.apps.rows, jid, other.id) by {
      if sub2.jobId.None? {
        assert jid !in st.jobs.rows;
      }
    }
    SubmitAnswerDependsOnPair(st', st, other, sub2, isUrl, now2);
  }

  /** Two stores with the same jobs answer a submission alike when they agree on the caller's pair. */
  lemma SubmitAnswerDependsOnPair(st1: Store, st2: Store, caller: Caller, sub: Submission,
                                  isUrl: string -> bool, now: int)
    requires Valid(st1) && Valid(st2) && st1.jobs == st2.jobs
    requires HasPair(st1.apps.rows, sub.jobId.GetOr(0), caller.id)
             == HasPair(st2.apps.rows, sub.jobId.GetOr(0), caller.id)
    ensures Verdict(Submit(st1, caller, sub, isUrl, now)) == Verdict(Submit(st2, caller, sub, isUrl, now))
  {
    SubmitFollowsGates(st1, caller, sub, isUrl, now);
    SubmitFollowsGates(st2, caller, sub, isUrl, now);
    assert SubmitGates(st1, caller, sub, isUrl) == SubmitGates(st2, caller, sub, isUrl);
  }

  /** After a successful submission the stored (job, user) pairs are the old ones plus the new one. */
  lemma PairsAfterSubmit(st: Store, caller: Caller, sub: Submission, isUrl: string -> bool, now: int,
                         jobId: int, userId: int)
    requires Valid(st)
    requires Submit(st, caller, sub, isUrl, now).Success?
    ensures var st' := Submit(st, caller, sub, isUrl, now).value.0;
            HasPair(st'.apps.rows, jobId, userId)
            <==> HasPair(st.apps.rows, jobId, userId) || (jobId == sub.jobId.value && userId == caller.id)
  {
    var (st', id) := Submit(st, caller, sub, isUrl, now).value;
    PairsAfterInsert(st.apps.rows, id, NewApplication(caller, sub, now), jobId, userId);
  }

  /** Adding a row under a fresh key adds exactly its (job, user) pair. */
  lemma PairsAfterInsert(rows: map<int, Application>, id: int, a: Application, jobId: int, userId: int)
    requires id !in rows
    ensures HasPair(rows[id := a], jobId, userId)
            <==> HasPair(rows, jobId, userId) || (jobId == a.jobId && userId == a.userId)
  {
    var rows' := rows[id := a];
    if HasPair(rows', jobId, userId) && !(jobId == a.jobId && userId == a.userId) {
      var k :| k in rows' && rows'[k].jobId == jobId && rows'[k].userId == userId;
      assert k != id && k in rows;
    }
    if HasPair(rows, jobId, userId) {
      var k :| k in rows && rows[k].jobId == jobId && rows[k].userId == userId;
      assert k != id && rows'[k] == rows[k];
    }
    if jobId == a.jobId && userId == a.userId {
      assert rows'[id].jobId == jobId;
    }
  }

  /** A status change answers with the error of the first failing guard: role, value, existence. */
  lemma UpdateStatusFollowsGates(st: Store, caller: Caller, id: int, status: string, now: int)
    requires Valid(st)
    ensures Verdict(UpdateStatus(st, caller, id, status, now)) == FirstFailure(UpdateStatusGates(st, caller, id, status))
  {
    var g := UpdateStatusGates(st, caller, id, status);
    if !g[0].pass { FirstFailureAt(g, 0); }
    else if !g[1].pass { FirstFailureAt(g, 1); }
    else if !g[2].pass { FirstFailureAt(g, 2); }
  }

  /**
   * There is no transition graph: from any current status an admin can set any
   * of the four statuses, and a subsequent read shows the new one.
   */
  lemma AnyStatusToAnyStatus(st: Store, admin: Caller, id: int, target: AppStatus, now: int)
    requires Valid(st)
    requires IsAdmin(admin) && id in st.apps.rows
    ensures UpdateStatus(st, admin, id, AppStatusName(target), now).Success?
    ensures var st' := UpdateStatus(st, admin, id, AppStatusName(target), now).value;
            Get(st', admin, id).Success? && Get(st', admin, id).value.status == target
  {
    EnumNamesRoundTrip(User, FullTime, Active, target);
  }

  /** A non-admin's status change is refused before the value or the id is even looked at. */
  lemma NonAdminCannotChangeStatus(st: Store, caller: Caller, id: int, status: string, now: int)
    requires Valid(st)
    requires !IsAdmin(caller)
    ensures UpdateStatus(st, caller, id, status, now) == Failure(AdminRequired)
  {
  }

  lemma DeleteFollowsGates(st: Store, caller: Caller, id: int)
    requires Valid(st)
    ensures Verdict(Delete(st, caller, id)) == FirstFailure(DeleteGates(st, caller, id))
  {
    var g := DeleteGates(st, caller, id);
    if !g[0].pass { FirstFailureAt(g, 0); }
    else if !g[1].pass { FirstFailureAt(g, 1); }
  }

  /**
   * After a delete the application is gone: reading it gives 404, and it is no
   * longer in its former owner's list.
   */
  lemma DeletedApplicationIsGone(st: Store, caller: Caller, id: int, q: ListQuery)
    requires Valid(st)
    requires Delete(st, caller, id).Success?
    ensures var st' := Delete(st, caller, id).value;
            && Get(st', caller, id) == Failure(ApplicationNotFound)
            && forall owner: Caller :: owner.id == st.apps.rows[id].userId && List(st', owner, q).Success?
                 ==> id !in List(st', owner, q).value
  {
  }

  /** A non-admin's list holds only the caller's own applications. */
  lemma ListShowsOnlyOwnApplications(st: Store, caller: Caller, q: ListQuery)
    requires !IsAdmin(caller)
    requires List(st, caller, q).Success?
    ensures forall k :: k in List(st, caller, q).value ==> List(st, caller, q).value[k].userId == caller.id
  {
  }

  /**
   * A valid query succeeds, and its list holds exactly the stored applications
   * for the requested job whose status has the requested name, restricted to
   * the caller's own applications unless the caller is an admin.
   */
  lemma ListIsComplete(st: Store, caller: Caller, q: ListQuery, id: int)
    requires ListQueryErrors(q) == {}
    ensures List(st, caller, q).Success?
    ensures id in st.apps.rows
            && (q.jobId.Some? ==> st.apps.rows[id].jobId == q.jobId.value)
            && (q.status.Some? ==> ParseAppStatus(q.status.value) == Some(st.apps.rows[id].status))
            && (IsAdmin(caller) || st.apps.rows[id].userId == caller.id)
            <==> id in List(st, caller, q).value
  {
    if id in st.apps.rows && q.status.Some? {
      var a := st.apps.rows[id];
      EnumNamesRoundTrip(User, FullTime, Active, a.status);
    }
  }

  /**
   * The `job_id` and `status` filters combine conjunctively: the list with both
   * is the intersection of the lists with each alone.
   */
  lemma ListFiltersAreConjunctive(st: Store, caller: Caller, jobId: int, status: string,
                                  page: Option<int>, limit: Option<int>)
    requires List(st, caller, ListQuery(Some(jobId), Some(status), page, limit)).Success?
    ensures var both := List(st, caller, ListQuery(Some(jobId), Some(status), page, limit));
            var byJob := List(st, caller, ListQuery(Some(jobId), None, page, limit));
            var byStatus := List(st, caller, ListQuery(None, Some(status), page, limit));
            byJob.Success? && byStatus.Success?
            && both.value.Keys == byJob.value.Keys * byStatus.value.Keys
  {
    var q := ListQuery(Some(jobId), Some(status), page, limit);
    var qj := ListQuery(Some(jobId), None, page, limit);
    var qs := ListQuery(None, Some(status), page, limit);
    assert ListQueryErrors(qj) == {};
    assert ListQueryErrors(qs) == {};
    forall k | k in st.apps.rows
      ensures Listed(caller, q, st.apps.rows[k]) <==> Listed(caller, qj, st.apps.rows[k]) && Listed(caller, qs, st.apps.rows[k])
    {
    }
  }

  /**
   * A non-admin's list is exactly the part of an admin's list (same query) that
   * the caller owns.
   */
  lemma UserListIsOwnedPartOfAdminList(st: Store, user: Caller, admin: Caller, q: ListQuery)
    requires !IsAdmin(user) && IsAdmin(admin)
    requires List(st, admin, q).Success?
    ensures List(st, user, q).Success?
    ensures forall k :: k in List(st, user, q).value
                        <==> k in List(st, admin, q).value && st.apps.rows[k].userId == user.id
  {
  }

  /** A request to one of the writing routes of this module. */
  datatype Request =
    | SubmitRequest(caller: Caller, sub: Submission, now: int)
    | StatusRequest(caller: Caller, id: int, status: string, now: int)
    | DeleteRequest(caller: Caller, id: int)

  /** The store after one request: the handler's new store, or the old one when it answers with an error. */
  function Handle(st: Store, req: Request, isUrl: string -> bool): (r: Store)
    requires Valid(st)
    ensures Valid(r) && r.jobs == st.jobs
  {
    match req
    case SubmitRequest(c, sub, now) =>
      (match Submit(st, c, sub, isUrl, now) case Success((st', _)) => st' case Failure(_) => st)
    case StatusRequest(c, id, status, now) =>
      (match UpdateStatus(st, c, id, status, now) case Success(st') => st' case Failure(_) => st)
    case DeleteRequest(c, id) =>
      (match Delete(st, c, id) case Success(st') => st' case Failure(_) => st)
  }

  /** The store after serving the requests one at a time, in order. */
  function Serve(st: Store, reqs: seq<Request>, isUrl: string -> bool): Store
    requires Valid(st)
    decreases |reqs|
  {
    if reqs == [] then st else Serve(Handle(st, reqs[0], isUrl), reqs[1..], isUrl)
  }

  /**
   * Whatever requests arrive, in whatever order, the application routes keep
   * the UNIQUE(job_id, user_id) pair, the id counters and the job references
   * valid, and never touch the jobs table.
   */
  lemma {:induction false} ServeKeepsStoreValid(st: Store, reqs: seq<Request>, isUrl: string -> bool)
    requires Valid(st)
    ensures Valid(Serve(st, reqs, isUrl))
    ensures Serve(st, reqs, isUrl).jobs == st.jobs
    decreases |reqs|
  {
    if reqs != [] {
      ServeKeepsStoreValid(Handle(st, reqs[0], isUrl), reqs[1..], isUrl);
    }
  }
}
