/** Python's `min(s, key=k)` and `sorted(s, key=k)[0]`.

    Both pick the same element: the first one, in the order of `s`, whose
    key is least.  `min` keeps the current best and replaces it only by a
    strictly smaller key; `sorted` is stable, so among equal keys the
    earliest comes first. */
module Ordering {

  /** `k` is the position of the first element of `s` with the least key. */
  ghost predicate IsFirstMin<T>(s: seq<T>, key: T -> real, k: int)
  {
    && 0 <= k < |s|
    && (forall j :: 0 <= j < |s| ==> key(s[k]) <= key(s[j]))
    && (forall j :: 0 <= j < k ==> key(s[k]) < key(s[j]))
  }

  /** The position `min(s, key=key)` returns the element of. */
  function FirstMinIndex<T>(s: seq<T>, key: T -> real): (k: nat)
    requires |s| > 0
    ensures IsFirstMin(s, key, k)
  {
    if |s| == 1 then 0
    else
      var k := FirstMinIndex(s[..|s| - 1], key);
      if key(s[k]) <= key(s[|s| - 1]) then k else |s| - 1
  }

  /** There is only one first position with the least key. */
  lemma FirstMinUnique<T>(s: seq<T>, key: T -> real, k: int)
    requires IsFirstMin(s, key, k)
    ensures k == FirstMinIndex(s, key)
  {
  }

  /** `perm` lists the positions of `s` in the order a stable ascending
      sort by `key` puts them: a permutation of the positions, keys
      non-decreasing along it, and equal keys kept in their original order. */
  ghost predicate IsStableSortOrder<T>(s: seq<T>, key: T -> real, perm: seq<nat>)
  {
    && |perm| == |s|
    && (forall i :: 0 <= i < |perm| ==> perm[i] < |s|)
    && (forall i, j :: 0 <= i < j < |perm| ==> perm[i] != perm[j])
    && (forall j :: 0 <= j < |s| ==> j in perm)
    && (forall i, j :: 0 <= i < j < |perm| ==> key(s[perm[i]]) <= key(s[perm[j]]))
    && (forall i, j :: 0 <= i < j < |perm| && key(s[perm[i]]) == key(s[perm[j]]) ==> perm[i] < perm[j])
  }

  /** The head of a stable sort is the element `min` returns. */
  lemma StableSortHeadIsFirstMin<T>(s: seq<T>, key: T -> real, perm: seq<nat>)
    requires |s| > 0
    requires IsStableSortOrder(s, key, perm)
    ensures perm[0] == FirstMinIndex(s, key)
  {
    var h := perm[0];
    forall j | 0 <= j < |s|
      ensures key(s[h]) <= key(s[j])
    {
      assert j in perm;
      var i :| 0 <= i < |perm| && perm[i] == j;
      if i != 0 {
        assert key(s[perm[0]]) <= key(s[perm[i]]);
      }
    }
    forall j | 0 <= j < h
      ensures key(s[h]) < key(s[j])
    {
      assert j in perm;
      var i :| 0 <= i < |perm| && perm[i] == j;
      assert i != 0;
      assert key(s[perm[0]]) <= key(s[perm[i]]);
    }
    FirstMinUnique(s, key, h);
  }
}
