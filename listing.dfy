/** Newest-first order of documents. Ids are allocated in creation order, so sorting by
    creation time descending is sorting ids descending. */
module Listing {

  /** The ids of `s` from newest to oldest; `bound` is any number above every id in `s`. */
  function NewestFirst(s: set<nat>, bound: nat): (r: seq<nat>)
    requires forall x :: x in s ==> x < bound
    ensures |r| == |s|
    ensures forall x :: x in r <==> x in s
    ensures forall i, j :: 0 <= i < j < |r| ==> r[i] > r[j]
    decreases bound
  {
    if bound == 0 then
      assert s == {};
      []
    else if bound - 1 in s then
      var older := NewestFirst(s - {bound - 1}, bound - 1);
      var r := [bound - 1] + older;
      assert |s - {bound - 1}| == |s| - 1;
      assert forall k :: 0 <= k < |older| ==> older[k] in s - {bound - 1};
      r
    else
      NewestFirst(s, bound - 1)
  }

  /** The first `n` entries of `s`, or all of them when there are fewer. */
  function Take<T>(s: seq<T>, n: nat): (r: seq<T>)
    ensures |r| == if |s| < n then |s| else n
    ensures r == s[..|r|]
  {
    if |s| <= n then s else s[..n]
  }

  /** Taking the `n` newest ids keeps exactly the ids newer than every one left out. */
  lemma {:induction false} TakeNewest(s: set<nat>, bound: nat, n: nat)
    requires forall x :: x in s ==> x < bound
    ensures var r := Take(NewestFirst(s, bound), n);
      && (forall x :: x in r ==> x in s)
      && (forall x, y :: x in s && x !in r && y in r ==> x < y)
  {
    var all := NewestFirst(s, bound);
    var r := Take(all, n);
    forall x, y | x in s && x !in r && y in r
      ensures x < y
    {
      var i :| 0 <= i < |all| && all[i] == x;
      var j :| 0 <= j < |r| && r[j] == y;
      assert r[j] == all[j];
      assert j < i;
    }
  }
}
