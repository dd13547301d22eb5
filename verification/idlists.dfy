/**
 * The list operations the client reducers perform on arrays of records that
 * carry an `id`: `unshift`, `findIndex` followed by an indexed assignment, and
 * `filter` on a different id. A record is its id plus an uninterpreted body.
 */
module IdLists {

  /** A JSON record as the client keeps it: its `id` and everything else. */
  datatype Entry<T> = Entry(id: int, data: T)

  predicate HasId<T>(xs: seq<Entry<T>>, id: int) {
    exists k :: 0 <= k < |xs| && xs[k].id == id
  }

  /** `Array.prototype.unshift` of one element, on an immutable list. */
  function Unshift<T>(x: Entry<T>, xs: seq<Entry<T>>): (r: seq<Entry<T>>)
    ensures |r| == |xs| + 1
    ensures r[0] == x
    ensures forall k :: 0 <= k < |xs| ==> r[k + 1] == xs[k]
  {
    [x] + xs
  }

  /** `xs.findIndex(e => e.id === id)`: the first position holding `id`, or -1. */
  function FindIndex<T>(xs: seq<Entry<T>>, id: int): (r: int)
    ensures -1 <= r < |xs|
    ensures r == -1 <==> !HasId(xs, id)
    ensures r >= 0 ==> xs[r].id == id && forall k :: 0 <= k < r ==> xs[k].id != id
  {
    if |xs| == 0 then -1
    else if xs[0].id == id then 0
    else
      var r := FindIndex(xs[1..], id);
      assert HasId(xs, id) ==> HasId(xs[1..], id) by {
        if HasId(xs, id) {
          var k :| 0 <= k < |xs| && xs[k].id == id;
          assert xs[1..][k - 1].id == id;
        }
      }
      if r == -1 then -1 else r + 1
  }

  /**
   * `const i = xs.findIndex(e => e.id === x.id); if (i !== -1) xs[i] = x;`,
   * written as a walk down the list so that its contract is proved rather than
   * read off an index computation.
   */
  function ReplaceFirst<T>(xs: seq<Entry<T>>, x: Entry<T>): (r: seq<Entry<T>>)
    ensures |r| == |xs|
    ensures !HasId(xs, x.id) ==> r == xs
    ensures HasId(xs, x.id) ==> var i := FindIndex(xs, x.id);
              r[i] == x && forall k :: 0 <= k < |xs| && k != i ==> r[k] == xs[k]
  {
    if |xs| == 0 then []
    else if xs[0].id == x.id then [x] + xs[1..]
    else
      var rest := ReplaceFirst(xs[1..], x);
      assert HasId(xs, x.id) <==> HasId(xs[1..], x.id) by {
        if HasId(xs, x.id) {
          var k :| 0 <= k < |xs| && xs[k].id == x.id;
          assert xs[1..][k - 1].id == x.id;
        }
        if HasId(xs[1..], x.id) {
          var k :| 0 <= k < |xs| - 1 && xs[1..][k].id == x.id;
          assert xs[k + 1].id == x.id;
        }
      }
      [xs[0]] + rest
  }

  /** `xs.filter(e => e.id !== id)`. */
  function RemoveId<T>(xs: seq<Entry<T>>, id: int): (r: seq<Entry<T>>)
    ensures |r| <= |xs|
    ensures forall k :: 0 <= k < |r| ==> r[k].id != id
    ensures forall k :: 0 <= k < |r| ==> r[k] in xs
    ensures forall k :: 0 <= k < |xs| && xs[k].id != id ==> xs[k] in r
  {
    if |xs| == 0 then []
    else
      var rest := RemoveId(xs[1..], id);
      assert forall k :: 1 <= k < |xs| ==> xs[k] == xs[1..][k - 1];
      if xs[0].id == id then rest else [xs[0]] + rest
  }

  /** How many records of `xs` carry `id`. */
  function CountId<T>(xs: seq<Entry<T>>, id: int): nat {
    if |xs| == 0 then 0 else (if xs[0].id == id then 1 else 0) + CountId(xs[1..], id)
  }

  /** Removing an id shortens the list by exactly the number of records that carry it. */
  lemma {:induction false} RemoveIdLength<T>(xs: seq<Entry<T>>, id: int)
    ensures |RemoveId(xs, id)| == |xs| - CountId(xs, id)
  {
    if |xs| > 0 {
      RemoveIdLength(xs[1..], id);
    }
  }

  /**
   * Filtering distributes over concatenation: the records that survive keep the
   * relative order they had in the original list.
   */
  lemma {:induction false} RemoveIdKeepsOrder<T>(xs: seq<Entry<T>>, ys: seq<Entry<T>>, id: int)
    ensures RemoveId(xs + ys, id) == RemoveId(xs, id) + RemoveId(ys, id)
  {
    if |xs| == 0 {
      assert xs + ys == ys;
    } else {
      assert (xs + ys)[1..] == xs[1..] + ys;
      RemoveIdKeepsOrder(xs[1..], ys, id);
    }
  }

  /** A list without the id is left exactly as it was. */
  lemma {:induction false} RemoveAbsentId<T>(xs: seq<Entry<T>>, id: int)
    requires !HasId(xs, id)
    ensures RemoveId(xs, id) == xs
  {
    if |xs| > 0 {
      assert forall k :: 0 <= k < |xs| - 1 ==> xs[1..][k] == xs[k + 1];
      RemoveAbsentId(xs[1..], id);
      assert xs == [xs[0]] + xs[1..];
    }
  }

  /** Replacing by id keeps every id where it was, so the list's ids are unchanged. */
  lemma ReplaceFirstKeepsIds<T>(xs: seq<Entry<T>>, x: Entry<T>)
    ensures forall k :: 0 <= k < |xs| ==> ReplaceFirst(xs, x)[k].id == xs[k].id
  {
  }
}
