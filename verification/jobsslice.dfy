/**
 * The `jobs` slice of the client store: its initial state (whose status filter
 * is `active`), its actions, and the reducer that maps each action to one of
 * the shared steps. A listed job is its server row plus its id.
 */
module JobsSlice {
  import opened Wrappers
  import opened Schema
  import opened IdLists
  import opened ClientSlice

  /** `filters: { title, location, type, status }`; the empty string means "no filter". */
  datatype Filters = Filters(title: string, location: string, jobType: string, status: string)

  /** A `setFilters` payload: the keys it carries override, the others are kept. */
  datatype FilterPatch = FilterPatch(title: Option<string>, location: Option<string>,
                                     jobType: Option<string>, status: Option<string>)

  type JobState = State<Job, Filters>

  /** The list opens on active jobs only. */
  const InitialFilters := Filters("", "", "", "active")

  const InitialState: JobState := State([], None, false, None, Pagination(1, 12, 0, 0), InitialFilters)

  /** `{ ...filters, ...patch }`. */
  function MergeFilters(f: Filters, p: FilterPatch): Filters {
    Filters(p.title.GetOr(f.title), p.location.GetOr(f.location),
            p.jobType.GetOr(f.jobType), p.status.GetOr(f.status))
  }

  /** A payload with no keys. */
  const EmptyPatch := FilterPatch(None, None, None, None)

  /** A payload carrying every filter key, with the values of `f`. */
  function FullPatch(f: Filters): FilterPatch {
    FilterPatch(Some(f.title), Some(f.location), Some(f.jobType), Some(f.status))
  }

  /** The later of two payloads wins each key it carries. */
  function Later(earlier: Option<string>, later: Option<string>): Option<string> {
    if later.Some? then later else earlier
  }

  /** The payload `{ ...p, ...q }`. */
  function ThenPatch(p: FilterPatch, q: FilterPatch): FilterPatch {
    FilterPatch(Later(p.title, q.title), Later(p.location, q.location),
                Later(p.jobType, q.jobType), Later(p.status, q.status))
  }

  /**
   * The laws of object spread on the filters: an empty payload changes nothing,
   * a payload with every key replaces the filters outright, merging the same
   * payload twice is merging it once, and two merges in a row are one merge of
   * the combined payload, in which the later payload wins every key it carries.
   */
  lemma MergeFiltersLaws(f: Filters, g: Filters, p: FilterPatch, q: FilterPatch)
    ensures MergeFilters(f, EmptyPatch) == f
    ensures MergeFilters(f, FullPatch(g)) == g
    ensures MergeFilters(MergeFilters(f, p), p) == MergeFilters(f, p)
    ensures MergeFilters(MergeFilters(f, p), q) == MergeFilters(f, ThenPatch(p, q))
    ensures var r := MergeFilters(MergeFilters(f, p), q);
            && r.title == q.title.GetOr(p.title.GetOr(f.title))
            && r.location == q.location.GetOr(p.location.GetOr(f.location))
            && r.jobType == q.jobType.GetOr(p.jobType.GetOr(f.jobType))
            && r.status == q.status.GetOr(p.status.GetOr(f.status))
  {
  }

  /** The five requests whose Start and Failure reducers are written out identically. */
  datatype Request = FetchJobs | FetchJob | CreateJob | UpdateJob | DeleteJob

  datatype Action =
    | Started(request: Request)
    | Failed(request: Request, message: string)
    | FetchJobsSuccess(jobs: seq<Entry<Job>>, pagination: Pagination)
    | FetchJobSuccess(job: Entry<Job>)
    | CreateJobSuccess(job: Entry<Job>)
    | UpdateJobSuccess(job: Entry<Job>)
    | DeleteJobSuccess(id: int)
    | SetFilters(patch: FilterPatch)
    | ClearFilters
    | SetPage(page: int)
    | ClearError
    | ClearCurrentJob

  /** The slice reducer. */
  function Reduce(s: JobState, a: Action): JobState {
    match a
    case Started(_) => Begin(s)
    case Failed(_, m) => Fail(s, m)
    case FetchJobsSuccess(xs, p) => LoadPage(s, xs, p)
    case FetchJobSuccess(x) => LoadOne(s, x)
    case CreateJobSuccess(x) => Prepend(s, x)
    case UpdateJobSuccess(x) => Replace(s, x)
    case DeleteJobSuccess(id) => Remove(s, id)
    case SetFilters(p) => WithFilters(s, MergeFilters(s.filters, p))
    case ClearFilters => WithFilters(s, InitialFilters)
    case SetPage(n) => WithPage(s, n)
    case ClearError => s.(error := None)
    case ClearCurrentJob => s.(current := None)
  }

  // ---------------------------------------------------------------------
  // Properties of the reducer
  // ---------------------------------------------------------------------

  /** Start and Failure reducers toggle `loading` and `error` and leave the data alone. */
  lemma StartAndFailureReducers(s: JobState, req: Request, message: string)
    ensures var r := Reduce(s, Started(req));
            r.loading && r.error.None? && SameData(s, r)
    ensures var r := Reduce(s, Failed(req, message));
            !r.loading && r.error == Some(message) && SameData(s, r)
  {
  }

  /** A created job goes in front of the old list, which keeps its order. */
  lemma CreatePrepends(s: JobState, x: Entry<Job>)
    ensures var r := Reduce(s, CreateJobSuccess(x));
            |r.items| == |s.items| + 1 && r.items == [x] + s.items && r.current == s.current
  {
  }

  /**
   * An update replaces the first listed job with the same id, keeping length and
   * order; the job on display is replaced only on an id match.
   */
  lemma UpdateReplacesById(s: JobState, x: Entry<Job>)
    ensures var r := Reduce(s, UpdateJobSuccess(x));
            && |r.items| == |s.items|
            && (forall k :: 0 <= k < |s.items| ==> r.items[k].id == s.items[k].id)
            && (forall k :: 0 <= k < |s.items| && s.items[k] != r.items[k] ==>
                  k == FindIndex(s.items, x.id) && r.items[k] == x)
            && (!HasId(s.items, x.id) ==> r.items == s.items)
            && r.current == (if Shows(s, x.id) then Some(x) else s.current)
  {
    ReplaceFirstKeepsIds(s.items, x);
  }

  /** A delete removes every job with the id and clears the job on display if it matches. */
  lemma DeleteRemovesById(s: JobState, id: int)
    ensures var r := Reduce(s, DeleteJobSuccess(id));
            && !HasId(r.items, id)
            && |r.items| == |s.items| - CountId(s.items, id)
            && (!HasId(s.items, id) ==> r.items == s.items)
            && r.current == (if Shows(s, id) then None else s.current)
  {
    RemoveIdLength(s.items, id);
    if !HasId(s.items, id) {
      RemoveAbsentId(s.items, id);
    }
  }

  /** `setFilters` merges the payload and resets the page; `clearFilters` brings back `status: 'active'` and page 1. */
  lemma FilterReducers(s: JobState, p: FilterPatch)
    ensures var r := Reduce(s, SetFilters(p));
            r.filters == MergeFilters(s.filters, p) && r.pagination == s.pagination.(page := 1)
    ensures var r := Reduce(s, ClearFilters);
            r.filters.status == "active" && r.filters == InitialState.filters && r.pagination.page == 1
  {
  }

  /** `setPage` changes only the page, and `clearCurrentJob` only nulls the job on display. */
  lemma PageAndCurrentReducers(s: JobState, n: int)
    ensures var r := Reduce(s, SetPage(n));
            r.pagination.page == n && r.(pagination := s.pagination) == s
    ensures var r := Reduce(s, ClearCurrentJob);
            r.current.None? && r.(current := s.current) == s
  {
  }
}
