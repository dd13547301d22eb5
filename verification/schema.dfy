/**
 * The relational schema created by `initDatabase`: the three tables, their
 * enumerated columns, defaults, NOT NULL columns and UNIQUE constraints.
 * Each table is a map from row id to row plus the AUTOINCREMENT counter;
 * each `Insert...` function is what SQLite does with one INSERT statement,
 * including the constraint violations it raises.
 */
module Schema {
  import opened Wrappers

  // ---------------------------------------------------------------------
  // Enumerated columns (the CHECK(... IN (...)) clauses)
  // ---------------------------------------------------------------------

  datatype Role = User | Admin

  datatype JobType = FullTime | PartTime | Contract | Internship

  datatype JobStatus = Active | Inactive | Closed

  /** No `withdrawn`: nothing on the server produces it and the CHECK clause forbids it. */
  datatype AppStatus = Pending | Reviewed | Accepted | Rejected

  function RoleName(r: Role): string {
    match r
    case User => "user"
    case Admin => "admin"
  }

  function JobTypeName(t: JobType): string {
    match t
    case FullTime => "full-time"
    case PartTime => "part-time"
    case Contract => "contract"
    case Internship => "internship"
  }

  function JobStatusName(s: JobStatus): string {
    match s
    case Active => "active"
    case Inactive => "inactive"
    case Closed => "closed"
  }

  function AppStatusName(s: AppStatus): string {
    match s
    case Pending => "pending"
    case Reviewed => "reviewed"
    case Accepted => "accepted"
    case Rejected => "rejected"
  }

  /** The CHECK on `users.role`: exactly the names of the two roles pass. */
  function ParseRole(s: string): (r: Option<Role>)
    ensures r.Some? ==> RoleName(r.value) == s
    ensures r.None? ==> forall x: Role :: RoleName(x) != s
  {
    if s == "user" then Some(User)
    else if s == "admin" then Some(Admin)
    else None
  }

  /** The CHECK on `jobs.type` (and express-validator's `isIn` over the same list). */
  function ParseJobType(s: string): (r: Option<JobType>)
    ensures r.Some? ==> JobTypeName(r.value) == s
    ensures r.None? ==> forall x: JobType :: JobTypeName(x) != s
  {
    if s == "full-time" then Some(FullTime)
    else if s == "part-time" then Some(PartTime)
    else if s == "contract" then Some(Contract)
    else if s == "internship" then Some(Internship)
    else None
  }

  /** The CHECK on `jobs.status`. */
  function ParseJobStatus(s: string): (r: Option<JobStatus>)
    ensures r.Some? ==> JobStatusName(r.value) == s
    ensures r.None? ==> forall x: JobStatus :: JobStatusName(x) != s
  {
    if s == "active" then Some(Active)
    else if s == "inactive" then Some(Inactive)
    else if s == "closed" then Some(Closed)
    else None
  }

  /** The CHECK on `applications.status`; `"withdrawn"` is rejected. */
  function ParseAppStatus(s: string): (r: Option<AppStatus>)
    ensures r.Some? ==> AppStatusName(r.value) == s
    ensures r.None? ==> forall x: AppStatus :: AppStatusName(x) != s
  {
    if s == "pending" then Some(Pending)
    else if s == "reviewed" then Some(Reviewed)
    else if s == "accepted" then Some(Accepted)
    else if s == "rejected" then Some(Rejected)
    else None
  }

  /** Every stored enumeration value reads back as itself. */
  lemma EnumNamesRoundTrip(r: Role, t: JobType, j: JobStatus, a: AppStatus)
    ensures ParseRole(RoleName(r)) == Some(r)
    ensures ParseJobType(JobTypeName(t)) == Some(t)
    ensures ParseJobStatus(JobStatusName(j)) == Some(j)
    ensures ParseAppStatus(AppStatusName(a)) == Some(a)
  {
  }

  /** The column DEFAULTs. */
  const DefaultRole: Role := User
  const DefaultJobType: JobType := FullTime
  const DefaultJobStatus: JobStatus := Active
  const DefaultAppStatus: AppStatus := Pending

  // ---------------------------------------------------------------------
  // Rows. A `string` column is NOT NULL; a nullable one is an `Option`.
  // Timestamps are abstract instants supplied by the caller (CURRENT_TIMESTAMP).
  // ---------------------------------------------------------------------

  datatype UserRow = UserRow(email: string, password: string, name: string, role: Role,
                             createdAt: int, updatedAt: int)

  datatype Job = Job(title: string, description: string, company: string, location: string,
                     salaryMin: Option<int>, salaryMax: Option<int>,
                     jobType: JobType, status: JobStatus, postedBy: int,
                     createdAt: int, updatedAt: int)

  datatype Application = Application(jobId: int, userId: int, coverLetter: string,
                                     cvLink: Option<string>, status: AppStatus,
                                     createdAt: int, updatedAt: int)

  /** A table with an INTEGER PRIMARY KEY AUTOINCREMENT column: ids start at 1 and are never reused. */
  datatype Table<T> = Table(rows: map<int, T>, nextId: int) {

    predicate Valid() {
      nextId >= 1 && forall id :: id in rows ==> 1 <= id < nextId
    }

    /** Stores `row` under a fresh id and returns that id. */
    function Insert(row: T): (r: (Table<T>, int))
      requires Valid()
      ensures r.0.Valid()
      ensures r.1 !in rows && r.1 >= 1
      ensures r.0.rows == rows[r.1 := row]
    {
      (Table(rows[nextId := row], nextId + 1), nextId)
    }

    /** `UPDATE t SET ... WHERE id = ?` on an existing row: the set of ids stays the same. */
    function Update(id: int, row: T): (r: Table<T>)
      requires Valid() && id in rows
      ensures r.Valid()
      ensures r.rows.Keys == rows.Keys
      ensures r.rows == rows[id := row]
    {
      Table(rows[id := row], nextId)
    }

    /** `DELETE FROM t WHERE id = ?`. */
    function Delete(id: int): (r: Table<T>)
      requires Valid()
      ensures r.Valid()
      ensures r.rows.Keys == rows.Keys - {id}
      ensures forall k :: k in r.rows ==> r.rows[k] == rows[k]
    {
      Table(rows - {id}, nextId)
    }
  }

  function EmptyTable<T>(): (t: Table<T>)
    ensures t.Valid() && t.rows == map[]
  {
    Table(map[], 1)
  }

  /** The SQLite errors an INSERT can raise. */
  datatype DbError = NotNullViolation(column: string) | CheckViolation(column: string) | UniqueViolation(columns: seq<string>)

  // ---------------------------------------------------------------------
  // users: email TEXT UNIQUE NOT NULL, role DEFAULT 'user' CHECK(role IN ('user','admin'))
  // ---------------------------------------------------------------------

  predicate EmailTaken(rows: map<int, UserRow>, email: string) {
    exists id :: id in rows && rows[id].email == email
  }

  predicate UniqueEmails(rows: map<int, UserRow>) {
    forall i, j :: i in rows && j in rows && i != j ==> rows[i].email != rows[j].email
  }

  /** `INSERT INTO users (email, password, name[, role])`; an omitted role takes the default. */
  function InsertUser(t: Table<UserRow>, email: Option<string>, password: Option<string>,
                      name: Option<string>, role: Option<string>, now: int)
    : (r: Result<(Table<UserRow>, int), DbError>)
    requires t.Valid()
    ensures r.Success? <==> (email.Some? && password.Some? && name.Some?
                             && (role.Some? ==> ParseRole(role.value).Some?)
                             && !EmailTaken(t.rows, email.value))
    ensures r.Success? ==> var (t', id) := r.value;
      && t'.Valid() && id !in t.rows
      && t'.rows.Keys == t.rows.Keys + {id}
      && (forall k :: k in t.rows ==> t'.rows[k] == t.rows[k])
      && t'.rows[id].email == email.value
      && t'.rows[id].role == (if role.None? then User else ParseRole(role.value).value)
      && (UniqueEmails(t.rows) ==> UniqueEmails(t'.rows))
  {
    if email.None? then Failure(NotNullViolation("email"))
    else if password.None? then Failure(NotNullViolation("password"))
    else if name.None? then Failure(NotNullViolation("name"))
    else if role.Some? && ParseRole(role.value).None? then Failure(CheckViolation("role"))
    else if EmailTaken(t.rows, email.value) then Failure(UniqueViolation(["email"]))
    else
      var row := UserRow(email.value, password.value, name.value,
                         if role.None? then DefaultRole else ParseRole(role.value).value, now, now);
      Success(t.Insert(row))
  }

  // ---------------------------------------------------------------------
  // jobs: title, description, company, location, posted_by NOT NULL;
  // type DEFAULT 'full-time', status DEFAULT 'active', both CHECKed.
  // ---------------------------------------------------------------------

  /** `INSERT INTO jobs (...)`; `None` is SQL NULL, or an omitted column for `type` and `status`. */
  function InsertJob(t: Table<Job>, title: Option<string>, description: Option<string>,
                     company: Option<string>, location: Option<string>,
                     salaryMin: Option<int>, salaryMax: Option<int>,
                     jobType: Option<string>, status: Option<string>, postedBy: int, now: int)
    : (r: Result<(Table<Job>, int), DbError>)
    requires t.Valid()
    ensures r.Success? <==> (title.Some? && description.Some? && company.Some? && location.Some?
                             && (jobType.Some? ==> ParseJobType(jobType.value).Some?)
                             && (status.Some? ==> ParseJobStatus(status.value).Some?))
    ensures r.Success? ==> var (t', id) := r.value;
      && t'.Valid() && id !in t.rows
      && t'.rows.Keys == t.rows.Keys + {id}
      && (forall k :: k in t.rows ==> t'.rows[k] == t.rows[k])
      && t'.rows[id] == Job(title.value, description.value, company.value, location.value,
                            salaryMin, salaryMax,
                            if jobType.None? then FullTime else ParseJobType(jobType.value).value,
                            if status.None? then Active else ParseJobStatus(status.value).value,
                            postedBy, now, now)
  {
    if title.None? then Failure(NotNullViolation("title"))
    else if description.None? then Failure(NotNullViolation("description"))
    else if company.None? then Failure(NotNullViolation("company"))
    else if location.None? then Failure(NotNullViolation("location"))
    else if jobType.Some? && ParseJobType(jobType.value).None? then Failure(CheckViolation("type"))
    else if status.Some? && ParseJobStatus(status.value).None? then Failure(CheckViolation("status"))
    else
      var row := Job(title.value, description.value, company.value, location.value,
                     salaryMin, salaryMax,
                     if jobType.None? then DefaultJobType else ParseJobType(jobType.value).value,
                     if status.None? then DefaultJobStatus else ParseJobStatus(status.value).value,
                     postedBy, now, now);
      Success(t.Insert(row))
  }

  // ---------------------------------------------------------------------
  // applications: job_id, user_id, cover_letter NOT NULL; cv_link nullable;
  // status DEFAULT 'pending'; UNIQUE(job_id, user_id).
  // ---------------------------------------------------------------------

  predicate HasPair(rows: map<int, Application>, jobId: int, userId: int) {
    exists id :: id in rows && rows[id].jobId == jobId && rows[id].userId == userId
  }

  /** The UNIQUE(job_id, user_id) constraint: no two applications share a (job, user) pair. */
  predicate UniquePairs(rows: map<int, Application>) {
    forall i, j :: i in rows && j in rows && i != j ==>
      rows[i].jobId != rows[j].jobId || rows[i].userId != rows[j].userId
  }

  /** `INSERT INTO applications (job_id, user_id, cover_letter, cv_link)`; status takes its default. */
  function InsertApplication(t: Table<Application>, jobId: int, userId: int,
                             coverLetter: string, cvLink: Option<string>, now: int)
    : (r: Result<(Table<Application>, int), DbError>)
    requires t.Valid()
    ensures r.Failure? <==> HasPair(t.rows, jobId, userId)
    ensures r.Success? ==> var (t', id) := r.value;
      && t'.Valid() && id !in t.rows
      && t'.rows == t.rows[id := Application(jobId, userId, coverLetter, cvLink, Pending, now, now)]
      && (UniquePairs(t.rows) ==> UniquePairs(t'.rows))
  {
    if HasPair(t.rows, jobId, userId) then Failure(UniqueViolation(["job_id", "user_id"]))
    else
      var row := Application(jobId, userId, coverLetter, cvLink, DefaultAppStatus, now, now);
      Success(t.Insert(row))
  }

  // ---------------------------------------------------------------------
  // The database as the route handlers see it.
  // ---------------------------------------------------------------------

  datatype Store = Store(jobs: Table<Job>, apps: Table<Application>)

  /** Every application refers to a job that exists. */
  predicate ReferencesResolve(st: Store) {
    forall id :: id in st.apps.rows ==> st.apps.rows[id].jobId in st.jobs.rows
  }

  /** What the schema and the handlers together keep true of every reachable database. */
  predicate Valid(st: Store) {
    && st.jobs.Valid()
    && st.apps.Valid()
    && UniquePairs(st.apps.rows)
    && ReferencesResolve(st)
  }

  /** `initDatabase` on a fresh file: the job and application tables start empty. */
  function EmptyStore(): (st: Store)
    ensures Valid(st)
  {
    Store(EmptyTable(), EmptyTable())
  }
}
