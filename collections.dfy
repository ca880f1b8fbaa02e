/**
 * Generic operations on a collection of records that carry an integer id: the
 * `map`, `Math.max`, `findIndex` and `filter` calls the route handlers make, and the
 * pairwise invariants the collections keep.
 */
module Collections {

  /** `xs.map(idOf)`: the ids of the records, in order. */
  function Ids<T>(xs: seq<T>, idOf: T -> int): (ids: seq<int>)
    ensures |ids| == |xs|
    ensures forall k :: 0 <= k < |xs| ==> ids[k] == idOf(xs[k])
  {
    seq(|xs|, k requires 0 <= k < |xs| => idOf(xs[k]))
  }

  /** `Math.max(...ids)` on a non-empty list: an element no smaller than any other. */
  function Max(ids: seq<int>): (m: int)
    requires ids != []
    ensures m in ids
    ensures forall k :: 0 <= k < |ids| ==> ids[k] <= m
  {
    if |ids| == 1 then ids[0]
    else
      var rest := Max(ids[1..]);
      if ids[0] < rest then rest else ids[0]
  }

  /**
   * `ids.length ? Math.max(...ids) + 1 : 1`: the id given to a new record. It is one
   * more than the largest id in use, hence larger than every one of them.
   */
  function NextId(ids: seq<int>): (n: int)
    ensures forall k :: 0 <= k < |ids| ==> ids[k] < n
    ensures ids == [] ==> n == 1
    ensures ids != [] ==> n - 1 in ids
  {
    if |ids| > 0 then Max(ids) + 1 else 1
  }

  /** `xs.findIndex(x => idOf(x) === id)`: the first position holding `id`, or -1. */
  function FindIndex<T>(xs: seq<T>, idOf: T -> int, id: int): (i: int)
    ensures -1 <= i < |xs|
    ensures i == -1 <==> forall k :: 0 <= k < |xs| ==> idOf(xs[k]) != id
    ensures 0 <= i ==> idOf(xs[i]) == id && forall k :: 0 <= k < i ==> idOf(xs[k]) != id
  {
    if xs == [] then -1
    else if idOf(xs[0]) == id then 0
    else
      var j := FindIndex(xs[1..], idOf, id);
      if j == -1 then -1 else j + 1
  }

  /**
   * `xs.filter(x => idOf(x) !== id)`: the records that do not hold `id`. The result is
   * shorter exactly when some record held `id`, and is `xs` itself otherwise.
   */
  function WithoutId<T>(xs: seq<T>, idOf: T -> int, id: int): (r: seq<T>)
    ensures forall k :: 0 <= k < |r| ==> r[k] in xs && idOf(r[k]) != id
    ensures |r| <= |xs|
    ensures |r| == |xs| <==> forall k :: 0 <= k < |xs| ==> idOf(xs[k]) != id
    ensures |r| == |xs| ==> r == xs
  {
    if xs == [] then []
    else (if idOf(xs[0]) != id then [xs[0]] else []) + WithoutId(xs[1..], idOf, id)
  }

  /** `findIndex` depends on the ids alone. */
  lemma {:induction false} FindIndexSameIds<T>(xs: seq<T>, ys: seq<T>, idOf: T -> int, id: int)
    requires |xs| == |ys| && forall k :: 0 <= k < |xs| ==> idOf(xs[k]) == idOf(ys[k])
    ensures FindIndex(xs, idOf, id) == FindIndex(ys, idOf, id)
  {
    if xs != [] {
      FindIndexSameIds(xs[1..], ys[1..], idOf, id);
    }
  }

  /** Every two records, the earlier one first, satisfy `apart`. */
  ghost predicate Pairwise<T>(xs: seq<T>, apart: (T, T) -> bool) {
    forall j, k :: 0 <= j < k < |xs| ==> apart(xs[j], xs[k])
  }

  /** Filtering keeps every record that does not hold `id`. */
  lemma {:induction false} WithoutIdKeepsOthers<T>(xs: seq<T>, idOf: T -> int, id: int)
    ensures forall k :: 0 <= k < |xs| && idOf(xs[k]) != id ==> xs[k] in WithoutId(xs, idOf, id)
  {
    if xs != [] {
      var tail := xs[1..];
      WithoutIdKeepsOthers(tail, idOf, id);
      forall k | 0 <= k < |xs| && idOf(xs[k]) != id ensures xs[k] in WithoutId(xs, idOf, id) {
        if k > 0 {
          assert xs[k] == tail[k - 1];
        }
      }
    }
  }

  /** Filtering distributes over concatenation, so it keeps the order of what it keeps. */
  lemma {:induction false} WithoutIdAppend<T>(xs: seq<T>, ys: seq<T>, idOf: T -> int, id: int)
    ensures WithoutId(xs + ys, idOf, id) == WithoutId(xs, idOf, id) + WithoutId(ys, idOf, id)
  {
    if xs == [] {
      assert xs + ys == ys;
    } else {
      assert (xs + ys)[1..] == xs[1..] + ys;
      WithoutIdAppend(xs[1..], ys, idOf, id);
    }
  }

  /** Filtering out the id of a record just appended with a fresh id gives back the old records. */
  lemma WithoutFreshAppended<T>(xs: seq<T>, x: T, idOf: T -> int)
    requires forall k :: 0 <= k < |xs| ==> idOf(xs[k]) < idOf(x)
    ensures WithoutId(xs + [x], idOf, idOf(x)) == xs
  {
    WithoutIdAppend(xs, [x], idOf, idOf(x));
    assert [x][1..] == [];
  }

  /**
   * The next id is computed from the ids still in use, so deleting the record just
   * appended with the next id and appending again hands out the same id.
   */
  lemma NextIdReusedAfterDelete<T>(xs: seq<T>, x: T, idOf: T -> int)
    requires idOf(x) == NextId(Ids(xs, idOf))
    ensures NextId(Ids(WithoutId(xs + [x], idOf, idOf(x)), idOf)) == idOf(x)
  {
    assert forall k :: 0 <= k < |xs| ==> Ids(xs, idOf)[k] == idOf(xs[k]);
    WithoutFreshAppended(xs, x, idOf);
  }

  /** When exactly one record holds `id`, filtering removes that record and nothing else. */
  lemma {:induction false} WithoutIdRemovesOnly<T>(xs: seq<T>, idOf: T -> int, id: int, k: int)
    requires 0 <= k < |xs| && idOf(xs[k]) == id
    requires forall j :: 0 <= j < |xs| && j != k ==> idOf(xs[j]) != id
    ensures WithoutId(xs, idOf, id) == xs[..k] + xs[k + 1..]
  {
    var tail := xs[1..];
    if k == 0 {
      assert forall j :: 0 <= j < |tail| ==> idOf(tail[j]) != id by {
        forall j | 0 <= j < |tail| ensures idOf(tail[j]) != id {
          assert tail[j] == xs[j + 1];
        }
      }
      assert WithoutId(xs, idOf, id) == [] + WithoutId(tail, idOf, id);
      assert xs[..0] + xs[1..] == tail;
    } else {
      assert WithoutId(xs, idOf, id) == [xs[0]] + WithoutId(tail, idOf, id);
      forall j | 0 <= j < |tail| && j != k - 1 ensures idOf(tail[j]) != id {
        assert tail[j] == xs[j + 1];
      }
      WithoutIdRemovesOnly(tail, idOf, id, k - 1);
      assert [xs[0]] + (tail[..k - 1] + tail[k..]) == xs[..k] + xs[k + 1..];
    }
  }

  /** Filtering keeps every pairwise invariant. */
  lemma {:induction false} WithoutIdKeepsPairwise<T>(xs: seq<T>, idOf: T -> int, id: int, apart: (T, T) -> bool)
    requires Pairwise(xs, apart)
    ensures Pairwise(WithoutId(xs, idOf, id), apart)
  {
    if xs != [] {
      var tail := xs[1..];
      var rest := WithoutId(tail, idOf, id);
      assert Pairwise(tail, apart) by {
        forall j, k | 0 <= j < k < |tail| ensures apart(tail[j], tail[k]) {
          assert tail[j] == xs[j + 1] && tail[k] == xs[k + 1];
        }
      }
      WithoutIdKeepsPairwise(tail, idOf, id, apart);
      if idOf(xs[0]) != id {
        var r := [xs[0]] + rest;
        forall j, k | 0 <= j < k < |r| ensures apart(r[j], r[k]) {
          if j == 0 {
            assert r[k] in tail;
            var m :| 0 <= m < |tail| && tail[m] == r[k];
            assert xs[m + 1] == r[k];
          } else {
            assert r[j] == rest[j - 1] && r[k] == rest[k - 1];
          }
        }
      }
    }
  }

  /** A record that pairs well with every earlier one can be appended. */
  lemma PairwiseAppend<T>(xs: seq<T>, x: T, apart: (T, T) -> bool)
    requires Pairwise(xs, apart)
    requires forall k :: 0 <= k < |xs| ==> apart(xs[k], x)
    ensures Pairwise(xs + [x], apart)
  {
  }

  /** A record that pairs well with its neighbours on both sides can replace position `i`. */
  lemma PairwiseReplace<T>(xs: seq<T>, i: int, y: T, apart: (T, T) -> bool)
    requires Pairwise(xs, apart) && 0 <= i < |xs|
    requires forall k :: 0 <= k < i ==> apart(xs[k], y)
    requires forall k :: i < k < |xs| ==> apart(y, xs[k])
    ensures Pairwise(xs[i := y], apart)
  {
  }
}
