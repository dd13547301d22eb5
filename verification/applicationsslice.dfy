/**
 * The `applications` slice of the client store: its initial state, its
 * actions, and the reducer that maps each action to one of the shared steps.
 * A listed application is its server row plus its id.
 */
module ApplicationsSlice {
  import opened Wrappers
  import opened Schema
  import opened IdLists
  import opened ClientSlice

  /** `filters: { job_id, status }`; the empty string means "no filter". */
  datatype Filters = Filters(jobId: string, status: string)

  /** A `setFilters` payload: the keys it carries override, the others are kept. */
  datatype FilterPatch = FilterPatch(jobId: Option<string>, status: Option<string>)

  type AppState = State<Application, Filters>

  const InitialFilters := Filters("", "")

  const InitialState: AppState := State([], None, false, None, Pagination(1, 10, 0, 0), InitialFilters)

  /** `{ ...filters, ...patch }`. */
  function MergeFilters(f: Filters, p: FilterPatch): Filters {
    Filters(p.jobId.GetOr(f.jobId), p.status.GetOr(f.status))
  }

  /** A payload with no keys. */
  const EmptyPatch := FilterPatch(None, None)

  /** A payload carrying every filter key, with the values of `f`. */
  function FullPatch(f: Filters): FilterPatch {
    FilterPatch(Some(f.jobId), Some(f.status))
  }

  /** The payload `{ ...p, ...q }`: the keys of both, `q`'s value where both carry one. */
  function ThenPatch(p: FilterPatch, q: FilterPatch): FilterPatch {
    FilterPatch(if q.jobId.Some? then q.jobId else p.jobId, if q.status.Some? then q.status else p.status)
  }

  /**
   * The laws of object spread on the filters: an empty payload changes nothing,
   * a payload with every key replaces the filters outright, merging the same
   * payload twice is merging it once, and two merges in a row are one merge of
   * the combined payload, in which the later payload wins every key it carries.
   */
  lemma MergeFiltersLaws(f: Filters, g: Filters, p: FilterPatch, q: FilterPatch)
    ensures MergeFilters(f, EmptyPatch) == f
    ensures MergeFilters(f, FullPatch(g)) == g
    ensures MergeFilters(MergeFilters(f, p), p) == MergeFilters(f, p)
    ensures MergeFilters(MergeFilters(f, p), q) == MergeFilters(f, ThenPatch(p, q))
    ensures q.jobId.Some? ==> MergeFilters(MergeFilters(f, p), q).jobId == q.jobId.value
    ensures q.status.Some? ==> MergeFilters(MergeFilters(f, p), q).status == q.status.value
    ensures q.jobId.None? ==> MergeFilters(MergeFilters(f, p), q).jobId == MergeFilters(f, p).jobId
    ensures q.status.None? ==> MergeFilters(MergeFilters(f, p), q).status == MergeFilters(f, p).status
  {
  }

  /** The six requests whose Start and Failure reducers are written out identically. */
  datatype Request = FetchApplications | FetchApplication | SubmitApplication
                   | UpdateApplicationStatus | DeleteApplication | FetchJobApplications

  datatype Action =
    | Started(request: Request)
    | Failed(request: Request, message: string)
    | FetchApplicationsSuccess(applications: seq<Entry<Application>>, pagination: Pagination)
    | FetchApplicationSuccess(application: Entry<Application>)
    | SubmitApplicationSuccess(application: Entry<Application>)
    | UpdateApplicationStatusSuccess(application: Entry<Application>)
    | DeleteApplicationSuccess(id: int)
    | FetchJobApplicationsSuccess(applications: seq<Entry<Application>>)
    | SetFilters(patch: FilterPatch)
    | ClearFilters
    | SetPage(page: int)
    | ClearError
    | ClearCurrentApplication

  /** The slice reducer. */
  function Reduce(s: AppState, a: Action): AppState {
    match a
    case Started(_) => Begin(s)
    case Failed(_, m) => Fail(s, m)
    case FetchApplicationsSuccess(xs, p) => LoadPage(s, xs, p)
    case FetchApplicationSuccess(x) => LoadOne(s, x)
    case SubmitApplicationSuccess(x) => Prepend(s, x)
    case UpdateApplicationStatusSuccess(x) => Replace(s, x)
    case DeleteApplicationSuccess(id) => Remove(s, id)
    case FetchJobApplicationsSuccess(xs) => LoadList(s, xs)
    case SetFilters(p) => WithFilters(s, MergeFilters(s.filters, p))
    case ClearFilters => WithFilters(s, InitialFilters)
    case SetPage(n) => WithPage(s, n)
    case ClearError => s.(error := None)
    case ClearCurrentApplication => s.(current := None)
  }

  // ---------------------------------------------------------------------
  // Properties of the reducer
  // ---------------------------------------------------------------------

  /** Every Start reducer raises `loading`, clears `error` and leaves the lists and the current record alone. */
  lemma StartReducers(s: AppState, req: Request)
    ensures var r := Reduce(s, Started(req));
            r.loading && r.error.None? && SameData(s, r)
  {
  }

  /** Every Failure reducer lowers `loading`, keeps the message and leaves the lists alone. */
  lemma FailureReducers(s: AppState, req: Request, message: string)
    ensures var r := Reduce(s, Failed(req, message));
            !r.loading && r.error == Some(message) && SameData(s, r)
  {
  }

  /** A submitted application goes in front of the old list, whose elements keep their order. */
  lemma SubmitPrepends(s: AppState, x: Entry<Application>)
    ensures var r := Reduce(s, SubmitApplicationSuccess(x));
            |r.items| == |s.items| + 1 && r.items == [x] + s.items && r.current == s.current
  {
  }

  /**
   * A status update replaces the first listed application with the same id and
   * nothing else; with no such application the list is unchanged. The record on
   * display is replaced only when its id matches.
   */
  lemma UpdateStatusReplacesById(s: AppState, x: Entry<Application>)
    ensures var r := Reduce(s, UpdateApplicationStatusSuccess(x));
            && |r.items| == |s.items|
            && (forall k :: 0 <= k < |s.items| && s.items[k] != r.items[k] ==>
                  k == FindIndex(s.items, x.id) && r.items[k] == x)
            && (!HasId(s.items, x.id) ==> r.items == s.items)
            && (Shows(s, x.id) ==> r.current == Some(x))
            && (!Shows(s, x.id) ==> r.current == s.current)
  {
  }

  /**
   * A delete removes every listed application with the id, keeps the others in
   * their order (filtering distributes over any split of the list), and clears
   * the record on display only if it is the deleted one.
   */
  lemma DeleteRemovesById(s: AppState, id: int, front: seq<Entry<Application>>, back: seq<Entry<Application>>)
    requires s.items == front + back
    ensures var r := Reduce(s, DeleteApplicationSuccess(id));
            && !HasId(r.items, id)
            && r.items == RemoveId(front, id) + RemoveId(back, id)
            && |r.items| == |s.items| - CountId(s.items, id)
            && (Shows(s, id) ==> r.current.None?)
            && (!Shows(s, id) ==> r.current == s.current)
  {
    assert Reduce(s, DeleteApplicationSuccess(id)).items == RemoveId(s.items, id);
    RemoveIdKeepsOrder(front, back, id);
    RemoveIdLength(s.items, id);
  }

  /** `setFilters` overrides exactly the keys the payload carries and goes back to page 1. */
  lemma SetFiltersMerges(s: AppState, p: FilterPatch)
    ensures var r := Reduce(s, SetFilters(p));
            && (p.jobId.Some? ==> r.filters.jobId == p.jobId.value)
            && (p.jobId.None? ==> r.filters.jobId == s.filters.jobId)
            && (p.status.Some? ==> r.filters.status == p.status.value)
            && (p.status.None? ==> r.filters.status == s.filters.status)
            && r.pagination == s.pagination.(page := 1)
            && r.items == s.items
  {
  }

  /** `clearFilters` restores the initial filters (no job, no status) and page 1, whatever came before. */
  lemma ClearFiltersRestores(s: AppState)
    ensures var r := Reduce(s, ClearFilters);
            r.filters == Filters("", "") && r.pagination.page == 1 && r.items == s.items
  {
  }

  /** `setPage` changes `pagination.page` and nothing else. */
  lemma SetPageOnlyPage(s: AppState, n: int)
    ensures var r := Reduce(s, SetPage(n));
            r.pagination.page == n && r.(pagination := s.pagination) == s
            && r.pagination.(page := s.pagination.page) == s.pagination
  {
  }
}
