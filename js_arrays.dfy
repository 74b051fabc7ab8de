/**
 * Array.prototype.filter, with the positions of the elements it keeps, and
 * what those positions say about the relation between an element's index in
 * the filtered array and its index in the original one.
 */
module JsArrays {

  /** No element appears twice. */
  predicate Distinct<T(==)>(items: seq<T>) {
    forall i, j :: 0 <= i < j < |items| ==> items[i] != items[j]
  }

  /** The positions in `items`, in increasing order, of the elements `keep` accepts. */
  function KeptPositions<T>(items: seq<T>, keep: T -> bool): (ps: seq<nat>)
    ensures |ps| <= |items|
    ensures forall k :: 0 <= k < |ps| ==> ps[k] < |items| && keep(items[ps[k]])
    ensures forall k, l :: 0 <= k < l < |ps| ==> ps[k] < ps[l]
    ensures forall j :: 0 <= j < |items| && keep(items[j]) ==> j in ps
  {
    if items == [] then
      []
    else
      var last := |items| - 1;
      var ps := KeptPositions(items[..last], keep);
      if keep(items[last]) then ps + [last] else ps
  }

  /**
   * `items.filter(keep)`: the accepted elements in their original order, the
   * k-th of them being the element at the k-th kept position.
   */
  function Filter<T>(items: seq<T>, keep: T -> bool): (r: seq<T>)
    ensures |r| == |KeptPositions(items, keep)|
    ensures forall k :: 0 <= k < |r| ==> r[k] == items[KeptPositions(items, keep)[k]]
  {
    if items == [] then
      []
    else
      var last := |items| - 1;
      var r := Filter(items[..last], keep);
      if keep(items[last]) then r + [items[last]] else r
  }

  /** The filtered array holds exactly the accepted elements of the array. */
  lemma FilterMembers<T>(items: seq<T>, keep: T -> bool)
    ensures forall k :: 0 <= k < |Filter(items, keep)| ==>
      Filter(items, keep)[k] in items && keep(Filter(items, keep)[k])
    ensures forall j :: 0 <= j < |items| && keep(items[j]) ==> items[j] in Filter(items, keep)
  {
    var r := Filter(items, keep);
    var ps := KeptPositions(items, keep);
    forall j | 0 <= j < |items| && keep(items[j])
      ensures items[j] in r
    {
      var k :| 0 <= k < |ps| && ps[k] == j;
      assert r[k] == items[j];
    }
  }

  /** In a strictly increasing sequence of naturals the k-th element is at least k. */
  lemma {:induction false} IncreasingAtLeastIndex(ps: seq<nat>, k: nat)
    requires forall i, j :: 0 <= i < j < |ps| ==> ps[i] < ps[j]
    requires k < |ps|
    ensures ps[k] >= k
  {
    if k > 0 {
      IncreasingAtLeastIndex(ps, k - 1);
    }
  }

  /** ... and from j to k it grows by at least k - j. */
  lemma {:induction false} IncreasingGap(ps: seq<nat>, j: nat, k: nat)
    requires forall i, l :: 0 <= i < l < |ps| ==> ps[i] < ps[l]
    requires j <= k < |ps|
    ensures ps[k] - ps[j] >= k - j
  {
    if j < k {
      IncreasingGap(ps, j, k - 1);
    }
  }

  /** When the first k+1 elements are all accepted, they are the first k+1 kept ones. */
  lemma {:induction false} KeptPrefix<T>(items: seq<T>, keep: T -> bool, k: nat)
    requires k < |items|
    requires forall j :: 0 <= j <= k ==> keep(items[j])
    ensures k < |KeptPositions(items, keep)|
    ensures forall j :: 0 <= j <= k ==> KeptPositions(items, keep)[j] == j
  {
    var ps := KeptPositions(items, keep);
    if k > 0 {
      KeptPrefix(items, keep, k - 1);
    }
    assert keep(items[k]);
    assert k in ps;
    var m :| 0 <= m < |ps| && ps[m] == k;
    assert m >= k;
    IncreasingAtLeastIndex(ps, k);
  }

  /**
   * Element k of the filtered array is element k of the original array
   * exactly when none of the elements up to it was filtered out.
   */
  lemma {:induction false} FilteredIndexIsOriginalIndex<T>(items: seq<T>, keep: T -> bool, k: nat)
    requires Distinct(items)
    requires k < |Filter(items, keep)|
    ensures Filter(items, keep)[k] == items[k] <==> forall j :: 0 <= j <= k ==> keep(items[j])
  {
    var ps := KeptPositions(items, keep);
    IncreasingAtLeastIndex(ps, k);
    if ps[k] == k {
      forall j | 0 <= j <= k
        ensures keep(items[j])
      {
        IncreasingAtLeastIndex(ps, j);
        IncreasingGap(ps, j, k);
        assert ps[j] == j;
      }
    } else if forall j :: 0 <= j <= k ==> keep(items[j]) {
      KeptPrefix(items, keep, k);
    }
  }
}
