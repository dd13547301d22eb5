/**
 * The state shape and the reducer steps that the applications slice and the
 * jobs slice share. Both slices keep a list of records, the record on display,
 * a loading flag, the last error message, the pagination block and a filters
 * record; their reducers differ only in which of the steps below each action
 * performs. Immer's in-place updates become functions from state to state.
 */
module ClientSlice {
  import opened Wrappers
  import opened IdLists

  datatype Pagination = Pagination(page: int, limit: int, total: int, pages: int)

  /** A slice's state; `F` is the slice's own filters record. */
  datatype State<T, F> = State(items: seq<Entry<T>>, current: Option<Entry<T>>, loading: bool,
                               error: Option<string>, pagination: Pagination, filters: F)

  /** The parts of a state that a request's bookkeeping never touches. */
  predicate SameData<T(==), F(==)>(s: State<T, F>, t: State<T, F>) {
    s.items == t.items && s.current == t.current && s.pagination == t.pagination && s.filters == t.filters
  }

  /** Every `*Start` reducer: a request is in flight and the previous error is cleared. */
  function Begin<T(==), F(==)>(s: State<T, F>): (r: State<T, F>)
    ensures r.loading && r.error.None?
    ensures SameData(s, r)
  {
    s.(loading := true, error := None)
  }

  /** Every `*Failure` reducer: the request is over and its message is kept. */
  function Fail<T(==), F(==)>(s: State<T, F>, message: string): (r: State<T, F>)
    ensures !r.loading && r.error == Some(message)
    ensures SameData(s, r)
  {
    s.(loading := false, error := Some(message))
  }

  /** `fetch...Success` for a whole page: the list and the pagination block are replaced. */
  function LoadPage<T(==), F(==)>(s: State<T, F>, items: seq<Entry<T>>, p: Pagination): (r: State<T, F>)
    ensures !r.loading && r.items == items && r.pagination == p
    ensures r.current == s.current && r.error == s.error && r.filters == s.filters
  {
    s.(loading := false, items := items, pagination := p)
  }

  /** `fetchJobApplicationsSuccess`: the list is replaced but the pagination block is not. */
  function LoadList<T(==), F(==)>(s: State<T, F>, items: seq<Entry<T>>): (r: State<T, F>)
    ensures !r.loading && r.items == items
    ensures r.current == s.current && r.error == s.error && r.pagination == s.pagination && r.filters == s.filters
  {
    s.(loading := false, items := items)
  }

  /** `fetch...Success` for one record: it becomes the record on display. */
  function LoadOne<T(==), F(==)>(s: State<T, F>, x: Entry<T>): (r: State<T, F>)
    ensures !r.loading && r.current == Some(x)
    ensures r.items == s.items && r.error == s.error && r.pagination == s.pagination && r.filters == s.filters
  {
    s.(loading := false, current := Some(x))
  }

  /** `submitApplicationSuccess` and `createJobSuccess`: the new record goes to the front. */
  function Prepend<T(==), F(==)>(s: State<T, F>, x: Entry<T>): (r: State<T, F>)
    ensures !r.loading
    ensures |r.items| == |s.items| + 1 && r.items[0] == x && r.items[1..] == s.items
    ensures r.current == s.current && r.error == s.error && r.pagination == s.pagination && r.filters == s.filters
  {
    s.(loading := false, items := Unshift(x, s.items))
  }

  /** The record on display is `x`'s id: `current && current.id === x.id`. */
  predicate Shows<T(==), F(==)>(s: State<T, F>, id: int) {
    s.current.Some? && s.current.value.id == id
  }

  /**
   * `update...Success`: the first record with `x`'s id is replaced by `x`, and
   * so is the record on display when it has that id.
   */
  function Replace<T(==), F(==)>(s: State<T, F>, x: Entry<T>): (r: State<T, F>)
    ensures !r.loading
    ensures |r.items| == |s.items|
    ensures !HasId(s.items, x.id) ==> r.items == s.items
    ensures HasId(s.items, x.id) ==>
              && r.items[FindIndex(s.items, x.id)] == x
              && forall k :: 0 <= k < |s.items| && k != FindIndex(s.items, x.id) ==> r.items[k] == s.items[k]
    ensures r.current == if Shows(s, x.id) then Some(x) else s.current
    ensures r.error == s.error && r.pagination == s.pagination && r.filters == s.filters
  {
    s.(loading := false, items := ReplaceFirst(s.items, x),
       current := if Shows(s, x.id) then Some(x) else s.current)
  }

  /**
   * `delete...Success`: every record with the id leaves the list, the others
   * stay, and the record on display is dropped when it has that id.
   */
  function Remove<T(==), F(==)>(s: State<T, F>, id: int): (r: State<T, F>)
    ensures !r.loading
    ensures !HasId(r.items, id)
    ensures forall k :: 0 <= k < |s.items| && s.items[k].id != id ==> s.items[k] in r.items
    ensures forall k :: 0 <= k < |r.items| ==> r.items[k] in s.items
    ensures r.current == if Shows(s, id) then None else s.current
    ensures r.error == s.error && r.pagination == s.pagination && r.filters == s.filters
  {
    s.(loading := false, items := RemoveId(s.items, id),
       current := if Shows(s, id) then None else s.current)
  }

  /** `setFilters` and `clearFilters`: new filters, and back to the first page. */
  function WithFilters<T(==), F(==)>(s: State<T, F>, f: F): (r: State<T, F>)
    ensures r.filters == f && r.pagination.page == 1
    ensures r.pagination.(page := s.pagination.page) == s.pagination
    ensures r.items == s.items && r.current == s.current && r.loading == s.loading && r.error == s.error
  {
    s.(filters := f, pagination := s.pagination.(page := 1))
  }

  /** `setPage`: only `pagination.page` changes. */
  function WithPage<T(==), F(==)>(s: State<T, F>, page: int): (r: State<T, F>)
    ensures r.pagination.page == page
    ensures r.pagination.(page := s.pagination.page) == s.pagination
    ensures r.(pagination := s.pagination) == s
  {
    s.(pagination := s.pagination.(page := page))
  }
}
