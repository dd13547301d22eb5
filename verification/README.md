# Job board: a Dafny model of the application workflow, the job guards and the client validators

This project models the decision logic of a small job board. The board is an
Express/SQLite back end with a React/Redux front end. The model covers six parts:

- **Schema** (`schema.dfy`): the `users`, `jobs` and `applications` tables as
  `initDatabase` declares them. This includes the role, job type, job status and
  application status enumerations, the column defaults, the NOT NULL columns and
  the AUTOINCREMENT ids. It also includes the `UNIQUE(job_id, user_id)` constraint,
  which every handler keeps as a store invariant (`Schema.Valid`).
- **Application routes** (`applications.js` → `applications.dfy`):
  - submission;
  - the admin-only status change;
  - owner-or-admin read and delete;
  - the per-caller list.

  Each handler is a chain of fail-fast guards ending in at most one write. `Api.FirstFailure` over the
  handler's list of guards is the independent reference each handler is proved against.
- **Job routes** (`jobs.js` → `jobs.dfy`):
  - the `jobValidation` rules;
  - list and detail visibility for non-admins;
  - the duplicate-title rule that ignores closed jobs;
  - the truthiness-based salary check;
  - the partial update;
  - the delete that is refused while applications reference the job.
- **Client slices** (`applicationsSlice.js`, `jobsSlice.js` → `idlists.dfy`,
  `clientslice.dfy`, `applicationsslice.dfy`, `jobsslice.dfy`). Each reducer is a pure function from
  state to state over `seq`-based lists of id-tagged records.
- **Client form validators** (`JobForm.js`, `ApplicationForm.js`, `Register.js`, and `Login.js`, which
  reuses the register rules):
  - `validateForm`, where "required" takes precedence over the length message;
  - the payload `handleSubmit` builds;
  - the `/\S+@\S+\.\S+/` e-mail pattern, with a search procedure proved equivalent to it.
- **Cross-layer** (`crosslayer.dfy`): what the client forms accept compared with what the routes then
  check.

`trim`, `\s` and `parseInt` follow their ECMAScript definitions (`text.dfy`), over code points and
unbounded integers rather than UTF-16 code units and doubles (see "Left out"):
- the ECMAScript white-space set;
- `parseInt` with sign, leading white space, leading zeros, the `0x` prefix and trailing text;
- `NaN` modelled as `None`.

Three functions are passed in as parameters:
- URL parsing (`new URL` on the client, validator.js `isURL` on the server);
- SQLite `LIKE`;
- the clock (`now`).

Where the specification and the code disagree, the model follows the code:
- **Cover-letter bounds.** The server trims the cover letter and requires 10 to 2000 characters; the
  applicant's form requires at least 50 and sets no maximum.
- **CV link.** The form requires a CV link; the route treats it as optional.
- **Empty create body.** A job body that leaves out every field passes `jobValidation`, because every
  rule there is `.optional()`. It then fails on the NOT NULL `title` column with a 500, not the 400
  that `tests/jobs.test.js` expects.

## Model

| member | source | states |
|---|---|---|
| Api.FirstFailure | routes/applications.js:206-242 | A guard chain's answer is the error of its first failing guard, and it has no error exactly when every guard passes |
| Schema.ParseRole | config/database.js:39 | A role string is accepted exactly when it names `user` or `admin`, and then reads back as that name |
| Schema.ParseJobType | config/database.js:55 | A job type is accepted exactly when it is one of the four CHECKed names |
| Schema.ParseJobStatus | config/database.js:56 | A job status is accepted exactly when it is `active`, `inactive` or `closed` |
| Schema.ParseAppStatus | config/database.js:72 | An application status is accepted exactly when it is one of the four names; there is no `withdrawn` |
| Schema.EnumNamesRoundTrip | config/database.js:33-78 | Every enumeration value's stored name parses back to that value |
| Schema.InsertUser | config/database.js:33-43 | The insert succeeds iff email, password and name are present, the role passes its CHECK and the email is unused. An omitted role becomes `user`, and email uniqueness is preserved |
| Schema.InsertJob | config/database.js:46-62 | The insert succeeds iff the four NOT NULL text columns are present and type and status pass their CHECKs. The new row gets a fresh id, defaults `full-time`/`active`, and no other row changes |
| Schema.InsertApplication | config/database.js:65-79 | The insert fails exactly when the (job, user) pair already exists. Otherwise it stores a `pending` row under a fresh id and keeps the pair invariant |
| Schema.EmptyStore | config/database.js:31-79 | A freshly initialised database satisfies the store invariant |
| Applications.Submit | routes/applications.js:206-248 | Submission succeeds iff validation passes, the job exists and is active, and the caller has not applied. It then adds exactly one `pending` row with the caller, job and trimmed letter, changes nothing else and keeps the invariant |
| Applications.SubmitFollowsGates | routes/applications.js:208-242 | Submission answers with the first failing guard in the order: validation, job id, existence, active status, duplicate |
| Applications.SubmitToNonActiveJob | routes/applications.js:230-232 | A well-formed submission to an inactive or closed job always gets "Cannot apply to inactive job" |
| Applications.SubmitTwiceIsDuplicate | routes/applications.js:235-242 | After U's successful submission for J, U's next submission for J is refused as a duplicate |
| Applications.SubmitLeavesOtherPairsAlone | routes/applications.js:235-248 | After a successful submission, a submission for any other (job, user) pair gets the same answer as before |
| Applications.SubmitAnswerDependsOnPair | routes/applications.js:220-242 | The answer to a submission depends on the store only through the jobs table and whether the caller's pair exists |
| Applications.PairsAfterSubmit | routes/applications.js:245-248 | The pairs stored after a submission are the old pairs plus exactly the new (job, caller) pair |
| Applications.UpdateStatus | routes/applications.js:315-341 | A status change succeeds iff the caller is admin, the status is one of the four names and the id exists. It sets only that row's `status` and `updated_at` and leaves every other row alone |
| Applications.UpdateStatusFollowsGates | routes/applications.js:315-335 | A status change answers with the first failing guard in the order: admin, value, existence |
| Applications.AnyStatusToAnyStatus | routes/applications.js:338-341 | An admin can move an application from any status to any status, and a later read shows the new one |
| Applications.NonAdminCannotChangeStatus | routes/applications.js:315 | A non-admin's status change is refused with "Admin access required" whatever the id or value |
| Applications.Delete | routes/applications.js:408-427 | A delete succeeds iff the id exists and the caller is admin or owner. It then removes exactly that row, whatever its status |
| Applications.DeleteFollowsGates | routes/applications.js:413-425 | A delete checks existence (404) before ownership (403) |
| Applications.DeletedApplicationIsGone | routes/applications.js:418-427 | After a delete, reading the id gives 404 and the former owner's list no longer holds it |
| Applications.Get | routes/applications.js:159-166 | A read gives 404 for a missing id and then 403 unless the caller is admin or owner; on success it returns the stored row |
| Applications.List | routes/applications.js:15-48 | An invalid query is refused with its failing fields; a valid one succeeds and returns stored rows unchanged |
| Applications.ListIsComplete | routes/applications.js:34-48 | A valid query lists a stored application exactly when it matches the job and status filters and, unless the caller is an admin, belongs to the caller |
| Applications.ListShowsOnlyOwnApplications | routes/applications.js:45-48 | A non-admin's list holds only the caller's own applications |
| Applications.ListFiltersAreConjunctive | routes/applications.js:34-43 | The list filtered by job and status is the intersection of the lists filtered by each |
| Applications.UserListIsOwnedPartOfAdminList | routes/applications.js:34-48 | A non-admin's list is exactly the caller-owned part of an admin's list for the same query |
| Applications.ServeKeepsStoreValid | config/database.js:65-78 | After any sequence of submissions, status changes and deletes the unique-pair, id and reference invariants still hold, and the jobs table is unchanged |
| Jobs.BodyErrorsEmptyIffValid | routes/jobs.js:9-18 | The field-error set of a job body is empty exactly when every supplied field meets its rule |
| Jobs.InsertNewJob | routes/jobs.js:173-177 | The create INSERT succeeds iff no NOT NULL column is missing. On success it adds exactly the new row under a fresh id; otherwise it is a 500 |
| Jobs.CreateJob | routes/jobs.js:134-177 | Create succeeds iff the caller is admin, the body is valid, no non-closed job has the trimmed title, the salaries are not inverted and the insert has all columns. Only the new job is added |
| Jobs.CreateFollowsGates | routes/jobs.js:134-171 | Create answers with the first failing guard in the order: admin, validation, duplicate title, salary range, then the database's NOT NULL check |
| Jobs.UpdateJob | routes/jobs.js:199-294 | A successful update changes only that job, keeps its owner and creation time, and stamps `updated_at` |
| Jobs.UpdateFollowsGates | routes/jobs.js:199-286 | Update answers with the first failing guard in the order: admin, validation, existence, duplicate title, salary range, then "no fields" |
| Jobs.DeleteJob | routes/jobs.js:316-336 | A job delete succeeds iff the caller is admin, the job exists and no application references it. It then removes exactly that job |
| Jobs.DeleteFollowsGates | routes/jobs.js:316-331 | A job delete checks admin, then existence (404), then references (400) |
| Jobs.GetJob | routes/jobs.js:102-123 | A job read succeeds iff the job exists and is active or the caller is admin; every failure is the same 404 |
| Jobs.ListJobs | routes/jobs.js:21-64 | An invalid query is refused with its failing fields; a valid one succeeds and returns stored rows unchanged |
| Jobs.JobWritesRequireAdmin | routes/jobs.js:134 | Create, update and delete by a non-admin all give 403 "Admin access required" |
| Jobs.CreateDefaults | routes/jobs.js:141-150 | A created job without type or status is `full-time` and `active` |
| Jobs.OpenTitleBlocksCreate | routes/jobs.js:152-166 | A non-closed job with the same trimmed title makes create fail with the duplicate-title error |
| Jobs.ClosedTitleDoesNotBlockCreate | routes/jobs.js:152-177 | When every job with that title is closed, a complete valid body is created |
| Jobs.EmptyCreateBodyFailsInDatabase | routes/jobs.js:9-18 | An admin's empty body passes validation and fails at the INSERT with a 500 |
| Jobs.UpdateChangesOnlySuppliedFields | routes/jobs.js:251-294 | Each supplied field takes its trimmed or parsed new value, and every other field keeps its stored value |
| Jobs.EmptyUpdateRefused | routes/jobs.js:284-286 | An update of an existing job with no fields gives "No valid fields to update" |
| Jobs.SalaryCheckIgnoresStoredValues | routes/jobs.js:243-245 | The salary check sees only the request, so an update can store a minimum above the stored maximum |
| Jobs.SalaryGuardBoundaries | routes/jobs.js:169-171 | On create, equal salaries or a zero on either side never trigger the salary-range error, because JavaScript truthiness skips the check for 0 |
| Jobs.ReferencedJobIsNotDeleted | routes/jobs.js:327-332 | A job that any application references cannot be deleted |
| Jobs.PublicListShowsOnlyActive | routes/jobs.js:57-64 | A non-admin or anonymous list without a status filter holds only active jobs |
| Jobs.StatusFilterIgnoresRole | routes/jobs.js:57-60 | With an explicit status filter the list is the same whoever asks |
| Jobs.StatusFilterAppliedAsGiven | routes/jobs.js:40-60 | With a status filter, a valid query lists a stored job exactly when it has that status and matches the title, location and type filters |
| Jobs.DefaultStatusFilter | routes/jobs.js:40-64 | Without a status filter, a valid query lists a stored job exactly when it matches the other filters and is active or the caller is an admin |
| Jobs.AdminUnfilteredListIsComplete | routes/jobs.js:40-66 | An admin's unfiltered list holds every job |
| Jobs.HiddenJobLooksMissing | routes/jobs.js:114-123 | For a non-admin, reading a non-active job answers exactly as if the job did not exist |
| IdLists.Unshift | frontend/src/store/reducers/applicationsSlice.js:55 | `unshift` puts the record first and shifts every old record one place, in order |
| IdLists.FindIndex | frontend/src/store/reducers/applicationsSlice.js:67 | `findIndex` is -1 exactly when no record has the id; otherwise it is the first index with that id |
| IdLists.ReplaceFirst | frontend/src/store/reducers/applicationsSlice.js:67-70 | Replace-by-id keeps the length, changes only the first match, and leaves the list as it was when nothing matches |
| IdLists.ReplaceFirstKeepsIds | frontend/src/store/reducers/jobsSlice.js:69-72 | Replace-by-id keeps the id at every position |
| IdLists.RemoveId | frontend/src/store/reducers/applicationsSlice.js:85 | `filter` by id leaves no record with the id, keeps every other record, and adds nothing |
| IdLists.RemoveIdLength | frontend/src/store/reducers/applicationsSlice.js:85 | The filtered list is shorter by exactly the number of records with the id |
| IdLists.RemoveIdKeepsOrder | frontend/src/store/reducers/jobsSlice.js:87 | Filtering distributes over concatenation, so the survivors keep their relative order |
| IdLists.RemoveAbsentId | frontend/src/store/reducers/jobsSlice.js:87 | Filtering by an id no record has leaves the list unchanged |
| ClientSlice.Begin | frontend/src/store/reducers/applicationsSlice.js:24-27 | A start reducer raises `loading`, clears `error`, and leaves lists, current record, pagination and filters as they were |
| ClientSlice.Fail | frontend/src/store/reducers/applicationsSlice.js:33-36 | A failure reducer lowers `loading`, stores the message, and leaves lists, current record, pagination and filters as they were |
| ClientSlice.LoadPage | frontend/src/store/reducers/applicationsSlice.js:28-32 | A page load replaces the list and pagination and keeps the current record, error and filters |
| ClientSlice.LoadList | frontend/src/store/reducers/applicationsSlice.js:98-101 | A job-applications load replaces the list but keeps the pagination |
| ClientSlice.LoadOne | frontend/src/store/reducers/applicationsSlice.js:41-44 | A single-record load sets the current record and keeps the list |
| ClientSlice.Prepend | frontend/src/store/reducers/applicationsSlice.js:53-56 | A created record goes first; the old list follows unchanged |
| ClientSlice.Replace | frontend/src/store/reducers/applicationsSlice.js:65-74 | An updated record replaces the first id match and, if it matches, the current record; everything else stays |
| ClientSlice.Remove | frontend/src/store/reducers/applicationsSlice.js:83-89 | A delete removes every record with the id, keeps the others, and clears the current record only on a match |
| ClientSlice.WithFilters | frontend/src/store/reducers/applicationsSlice.js:106-113 | New filters reset the page to 1 and change nothing else in the pagination block or the lists |
| ClientSlice.WithPage | frontend/src/store/reducers/applicationsSlice.js:114-116 | `setPage` changes `pagination.page` and nothing else |
| ApplicationsSlice.MergeFiltersLaws | frontend/src/store/reducers/applicationsSlice.js:107 | Merging an empty payload is the identity, a payload with every key gives exactly the payload, merging is idempotent, and two merges compose into one in which the later payload wins each key |
| ApplicationsSlice.StartReducers | frontend/src/store/reducers/applicationsSlice.js:24-27 | All six start actions set `loading`, clear `error`, and leave the data untouched |
| ApplicationsSlice.FailureReducers | frontend/src/store/reducers/applicationsSlice.js:57-60 | All six failure actions clear `loading`, store the message, and leave the data untouched |
| ApplicationsSlice.SubmitPrepends | frontend/src/store/reducers/applicationsSlice.js:53-56 | `submitApplicationSuccess` yields `[new] + old`, one longer with the old order kept |
| ApplicationsSlice.UpdateStatusReplacesById | frontend/src/store/reducers/applicationsSlice.js:65-74 | `updateApplicationStatusSuccess` keeps the length, changes only the first match, leaves the list alone without a match, and replaces the current record only on an id match |
| ApplicationsSlice.DeleteRemovesById | frontend/src/store/reducers/applicationsSlice.js:83-89 | `deleteApplicationSuccess` removes every match, keeps the order of the rest, shortens the list by the match count, and clears the current record only on a match |
| ApplicationsSlice.SetFiltersMerges | frontend/src/store/reducers/applicationsSlice.js:106-109 | `setFilters` overrides exactly the supplied keys and resets the page to 1 |
| ApplicationsSlice.ClearFiltersRestores | frontend/src/store/reducers/applicationsSlice.js:110-113 | `clearFilters` restores `{job_id: '', status: ''}` and page 1 |
| ApplicationsSlice.SetPageOnlyPage | frontend/src/store/reducers/applicationsSlice.js:114-116 | `setPage` changes only the page |
| JobsSlice.MergeFiltersLaws | frontend/src/store/reducers/jobsSlice.js:96-97 | Merging an empty payload is the identity, a payload with every key gives exactly the payload, merging is idempotent, and two merges compose into one in which the later payload wins each key |
| JobsSlice.StartAndFailureReducers | frontend/src/store/reducers/jobsSlice.js:26-38 | Start and failure actions toggle `loading` and `error` as in the applications slice and leave the data untouched |
| JobsSlice.CreatePrepends | frontend/src/store/reducers/jobsSlice.js:55-58 | `createJobSuccess` prepends the job, growing the list by one |
| JobsSlice.UpdateReplacesById | frontend/src/store/reducers/jobsSlice.js:67-76 | `updateJobSuccess` keeps length and ids, changes only the first match, and updates `currentJob` only on an id match |
| JobsSlice.DeleteRemovesById | frontend/src/store/reducers/jobsSlice.js:85-91 | `deleteJobSuccess` removes every match, shortens the list by the match count, and clears `currentJob` only on a match |
| JobsSlice.FilterReducers | frontend/src/store/reducers/jobsSlice.js:96-103 | `setFilters` merges and resets the page; `clearFilters` brings back status `active` and page 1 |
| JobsSlice.PageAndCurrentReducers | frontend/src/store/reducers/jobsSlice.js:104-112 | `setPage` changes only the page; `clearCurrentJob` only nulls `currentJob` |
| FormRules.TrimmedMinLength | frontend/src/components/jobs/JobForm.js:81-85 | "Required" exactly for a blank value, the length message exactly for a non-blank value that is too short after trimming, and no error otherwise |
| FormRules.NonBlank | frontend/src/components/jobs/JobForm.js:93-99 | The only error is "required", given exactly when the trimmed value is empty |
| FormRules.RequiredTakesPrecedence | frontend/src/components/auth/Register.js:73-77 | A blank value gets "required" whatever the minimum length |
| JobForm.SalaryError | frontend/src/components/jobs/JobForm.js:101-107 | A salary error exactly when both inputs are non-empty, both parse, and the minimum exceeds the maximum |
| JobForm.SalaryField | frontend/src/components/jobs/JobForm.js:123-124 | An empty salary input is `null`; any other is its `parseInt` |
| JobForm.Submit | frontend/src/components/jobs/JobForm.js:113-127 | A payload is built iff title ≥ 3, description ≥ 10, company and location ≥ 1 (all trimmed) and there is no salary error. Each text field is its input with the white-space margins stripped, each salary is `SalaryField` of its input, and type and status are copied |
| JobForm.TitlePrecedence | frontend/src/components/jobs/JobForm.js:81-85 | A blank title shows "Job title is required"; a short one shows the length message |
| JobForm.DescriptionPrecedence | frontend/src/components/jobs/JobForm.js:87-91 | The description's messages follow the same precedence, and it is error-free iff its trimmed length is at least 10 |
| JobForm.EqualSalariesAllowed | frontend/src/components/jobs/JobForm.js:104 | Equal salaries never raise the salary error |
| JobForm.OneCharacterCompanyPasses | frontend/src/components/jobs/JobForm.js:93-99 | A one-character company and location pass the form |
| JobForm.EmptySalaryIsNull | frontend/src/components/jobs/JobForm.js:101-124 | An empty salary input never blocks the form and becomes `null` in the payload |
| JobForm.SalaryFieldReadsNumber | frontend/src/components/jobs/JobForm.js:123-124 | A salary typed as the decimal digits of a number is sent as that number |
| ApplicationForm.CvLinkError | frontend/src/components/applications/ApplicationForm.js:60-64 | The CV link gets "required" iff it is blank and "invalid" iff it is non-blank and does not parse |
| ApplicationForm.Submit | frontend/src/components/applications/ApplicationForm.js:79-88 | A payload is built iff the trimmed letter has at least 50 characters and the link is non-blank and parses. It carries `parseInt` of the route id and the trimmed letter and link |
| ApplicationForm.CoverLetterPrecedence | frontend/src/components/applications/ApplicationForm.js:54-58 | A blank letter shows "Cover letter is required"; a short one shows the 50-character message |
| ApplicationForm.EmptyCvLinkRefused | frontend/src/components/applications/ApplicationForm.js:60-61 | An empty CV link is "required" and blocks submission |
| RegisterForm.SearchEmailPattern | frontend/src/components/auth/Register.js:81 | The search for an `@` and a following dot finds a match exactly when `/\S+@\S+\.\S+/` matches |
| RegisterForm.EmailError | frontend/src/components/auth/Register.js:79-83 | "Required" exactly for the empty string, and no error exactly when the pattern matches |
| RegisterForm.PasswordError | frontend/src/components/auth/Register.js:85-89 | "Required" exactly for the empty password, and no error exactly when the untrimmed length is at least 6 |
| RegisterForm.ConfirmError | frontend/src/components/auth/Register.js:91-95 | "Required" exactly for an empty confirmation, and no error exactly when it equals the password |
| RegisterForm.LoginErrors | frontend/src/components/auth/Login.js:74-91 | The sign-in form is error-free iff the e-mail matches the pattern and the password has at least 6 characters |
| RegisterForm.Submit | frontend/src/components/auth/Register.js:101-111 | A payload is built iff trimmed name ≥ 2, the e-mail matches, password ≥ 6 and the confirmation equals it. It carries the raw name, e-mail and password and the role `user` |
| RegisterForm.PatternIsUnanchored | frontend/src/components/auth/Register.js:81 | Text before or after a matching address does not stop the pattern from matching |
| RegisterForm.PatternExamples | frontend/src/components/auth/Register.js:81 | `a@b.c` matches, while `a @b.c` and `a@b` do not |
| RegisterForm.NameRequiredFirst | frontend/src/components/auth/Register.js:73-77 | A blank name shows "Name is required"; a one-character one shows the length message |
| RegisterForm.MismatchMessage | frontend/src/components/auth/Register.js:91-95 | A non-empty confirmation that differs from the password shows "Passwords do not match" |
| RegisterForm.SpacesCountInPassword | frontend/src/components/auth/Register.js:85-89 | Six spaces are an acceptable password, because the length is not trimmed |
| Text.Trim | frontend/src/components/jobs/JobForm.js:81 | `trim` leaves no white space at either end and is empty exactly for an all-white-space string |
| Text.TrimIsTheOnlyTrimmedStrip | frontend/src/components/jobs/JobForm.js:81 | Cutting white-space margins off a string so that no white space is left at either end always gives exactly `trim`'s result |
| Text.TrimIdempotent | routes/applications.js:10 | Trimming an already trimmed payload changes nothing |
| Text.ParseInt | frontend/src/components/jobs/JobForm.js:102-103 | `parseInt` is a number exactly when, after white space, sign and `0x`, a digit follows; its sign follows the leading `-` |
| Text.ParseIntOfDecimal | frontend/src/components/applications/ApplicationForm.js:85 | `parseInt` of an integer's canonical decimal rendering gives back that integer |
| Text.ParseIntSkipsLeadingWhitespace | frontend/src/components/jobs/JobForm.js:102-103 | White space before the number does not change what `parseInt` returns |
| Text.ParseIntSign | frontend/src/components/jobs/JobForm.js:102-103 | A leading `-` negates the value of the rest, and a leading `+` changes nothing |
| Text.ParseIntReadsDecimalDigits | frontend/src/components/jobs/JobForm.js:102-103 | A run of decimal digits followed by a non-digit parses to the run's positional value, unless it is `0x` |
| Text.ParseIntReadsHexDigits | frontend/src/components/jobs/JobForm.js:102-103 | `0x` or `0X` and a run of hexadecimal digits parse to the run's base-16 value, whatever non-digit follows |
| Text.ParseIntIgnoresTail | frontend/src/components/jobs/JobForm.js:123-124 | An integer's decimal rendering followed by text that does not continue the number parses back to that integer |
| Text.ParseIntIgnoresLeadingZeros | frontend/src/components/jobs/JobForm.js:123-124 | Zeros in front of a number's digits do not change its value |
| Text.ParseIntHexExample | frontend/src/components/jobs/JobForm.js:102-103 | `parseInt("0x1A")` is 26 |
| CrossLayer.AcceptedLetterMeetsServerMinimum | frontend/src/components/applications/ApplicationForm.js:54-58 | A letter the form accepts is already trimmed and meets the server's 10-character minimum |
| CrossLayer.AcceptedFormPassesServerValidation | routes/applications.js:9-12 | An accepted form passes the route's validators iff the letter is within 2000 characters and `isURL` accepts the link |
| CrossLayer.OverlongLetterPassesClientOnly | frontend/src/components/applications/ApplicationForm.js:56 | A letter over 2000 non-space characters passes the form and fails the server's bound |
| CrossLayer.OneCharacterCompanyRefusedByServer | routes/jobs.js:12 | A one-character company the job form accepts fails the server's two-character minimum |
| CrossLayer.LongTitleRefusedByServer | routes/jobs.js:10 | A title over 100 characters the job form accepts fails the server's maximum |

## Left out

- SQL and persistence: the store is two maps with id counters. The SQL strings, `runQuery`/`getRow`/`getAll`, seeding and migration are I/O over SQLite.
- JSON reshaping of joined rows into nested objects: a projection with no decisions in it.
- The race between the duplicate check and the insert: handlers run one at a time, and the UNIQUE pair constraint is carried as a store invariant.
- Authentication (`authenticateToken`, `requireAdmin`, `optionalAuth`, JWT, bcrypt): the caller is a given `(id, role)`, or absent for `optionalAuth`.
- Pagination arithmetic (`offset`, `Math.ceil` on a float division) and `ORDER BY`: lists are modelled as the selected set of rows. Only the range checks on `page` and `limit` are kept.
- `GET /applications/job/:jobId`: its handler is outside the modelled routes.
- Sagas, the API client, routing, contexts and presentation components: effect orchestration and rendering with no decisions the model could state.
- The case-insensitive client search filters: they depend on Unicode `toLowerCase`.
- The `withdrawn` status: it appears only in client badge maps, and no route produces it.
- URL parsing (`new URL`, validator.js `isURL`) and SQLite `LIKE` are function parameters, not definitions.
- Explicit JSON `null` fields: a request body field is either present or absent. In particular, whether the route accepts the `null` salaries the job form sends for empty inputs is not stated.
- Salary comparison on JSON strings: salaries reach the routes as numbers. `salary_min > salary_max` on two strings would compare them as text.
- The id type in delete payloads: `deleteApplicationSuccess` and `deleteJobSuccess` compare ids with `===`, and a payload id of a different JavaScript type from the stored one is not modelled.
- Extra keys in a `setFilters` payload: only the slice's own filter keys are merged.
- The field-level messages of company, location and salary in the job form, and of the CV link beyond its two texts: only the texts that show a precedence are modelled.
- `Jobs.UpdateJob`: its own contract states only the frame of a successful update. When it succeeds is stated by `Jobs.UpdateFollowsGates`, and what it writes by `Jobs.UpdateChangesOnlySuppliedFields`.
- `Applications.List` and `Jobs.ListJobs`: their own contracts state validation, success of a valid query, and that rows are returned unchanged. Which rows are returned is stated by `Applications.ListIsComplete`, `Jobs.StatusFilterAppliedAsGiven` and `Jobs.DefaultStatusFilter`.
- String lengths count Unicode code points, not JavaScript's UTF-16 `.length`. A character outside the Basic Multilingual Plane counts once here and twice in the client's `.length` checks; validator.js `isLength` counts it once. So a client/server disagreement over such characters (a two-emoji title passes the form's 3-character minimum but fails the route's) is not modelled.
- Numbers are unbounded integers, not IEEE doubles. From 2^53 upward JavaScript's `parseInt` rounds (so `SalaryError` can differ from the form on such inputs), and `String(n)` switches to exponent notation from 10^21, which `Text.IntToDecimal` does not.
- `job_id` in a submission is a JSON number, as the application form sends it. A JSON string such as `"0"` or `" "` is truthy and passes `isNaN`, so the route looks it up and answers 404; the model, which has no string `job_id`, does not cover that path.
- The test that expects 400 for an empty job create body: the code gives a 500, and `Jobs.EmptyCreateBodyFailsInDatabase` states what the code does.
