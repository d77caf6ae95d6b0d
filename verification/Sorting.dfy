/** `sorted(range(n), key=..., reverse=True)`: a stable order of indices, largest key first. */
module Sorting {
  import opened Sums

  /** Insert index `i` after every index whose key is at least `keys[i]`. */
  function InsertDescending(order: seq<nat>, keys: seq<int>, i: nat): seq<nat>
    requires i < |keys| && forall k :: 0 <= k < |order| ==> order[k] < |keys|
  {
    if order == [] then [i]
    else
      var last := |order| - 1;
      if keys[order[last]] >= keys[i] then order + [i]
      else InsertDescending(order[..last], keys, i) + [order[last]]
  }

  /** Indices 0..n-1, largest key first, equal keys in index order. */
  function DescendingOrder(keys: seq<int>, n: nat): (order: seq<nat>)
    requires n <= |keys|
    ensures IsStableDescending(order, keys, n)
  {
    if n == 0 then []
    else
      var before := DescendingOrder(keys, n - 1);
      InsertKeepsMembers(before, keys, n - 1);
      InsertKeepsRanked(before, keys, n - 1);
      var order := InsertDescending(before, keys, n - 1);
      assert forall k :: 0 <= k < n ==> order[k] in order;
      order
  }

  /** Every index below `n` exactly once, by key descending and by index among equals. */
  ghost predicate IsStableDescending(order: seq<nat>, keys: seq<int>, n: nat)
  {
    && n <= |keys|
    && |order| == n
    && (forall k :: 0 <= k < n ==> order[k] < n)
    && (forall i :: 0 <= i < n ==> i in order)
    && Ranked(order, keys)
  }

  predicate Precedes(keys: seq<int>, i: nat, j: nat)
  {
    i < |keys| && j < |keys| && (keys[i] > keys[j] || (keys[i] == keys[j] && i < j))
  }

  ghost predicate Ranked(order: seq<nat>, keys: seq<int>)
  {
    forall a, b :: 0 <= a < b < |order| ==> Precedes(keys, order[a], order[b])
  }

  lemma {:induction false} InsertKeepsMembers(order: seq<nat>, keys: seq<int>, i: nat)
    requires i < |keys| && forall k :: 0 <= k < |order| ==> order[k] < |keys|
    ensures |InsertDescending(order, keys, i)| == |order| + 1
    ensures forall x :: x in InsertDescending(order, keys, i) <==> x == i || x in order
  {
    if order != [] {
      var last := |order| - 1;
      assert order == order[..last] + [order[last]];
      InsertKeepsMembers(order[..last], keys, i);
    }
  }

  lemma RankedAppend(order: seq<nat>, keys: seq<int>, x: nat)
    requires Ranked(order, keys)
    requires forall y :: y in order ==> Precedes(keys, y, x)
    ensures Ranked(order + [x], keys)
  {}

  lemma {:induction false} InsertKeepsRanked(order: seq<nat>, keys: seq<int>, i: nat)
    requires i < |keys|
    requires forall k :: 0 <= k < |order| ==> order[k] < i
    requires Ranked(order, keys)
    ensures Ranked(InsertDescending(order, keys, i), keys)
  {
    if order != [] {
      var last := |order| - 1;
      var front, end := order[..last], order[last];
      forall y | y in front ensures Precedes(keys, y, end) {
        var k :| 0 <= k < last && order[k] == y;
      }
      if keys[end] >= keys[i] {
        forall y | y in order ensures Precedes(keys, y, i) {
          if y != end { assert y in front; }
        }
        RankedAppend(order, keys, i);
      } else {
        InsertKeepsRanked(front, keys, i);
        InsertKeepsMembers(front, keys, i);
        RankedAppend(InsertDescending(front, keys, i), keys, end);
      }
    }
  }

  /** The values of `v` read in the given order. */
  function Gather(order: seq<nat>, v: seq<int>): (r: seq<int>)
    requires forall k :: 0 <= k < |order| ==> order[k] < |v|
    ensures |r| == |order| && forall k :: 0 <= k < |order| ==> r[k] == v[order[k]]
  {
    seq(|order|, k requires 0 <= k < |order| => v[order[k]])
  }

  lemma {:induction false} InsertGather(order: seq<nat>, keys: seq<int>, i: nat, v: seq<int>)
    requires i < |keys| == |v| && forall k :: 0 <= k < |order| ==> order[k] < |keys|
    ensures forall k :: 0 <= k < |InsertDescending(order, keys, i)| ==> InsertDescending(order, keys, i)[k] < |v|
    ensures Sum(Gather(InsertDescending(order, keys, i), v)) == Sum(Gather(order, v)) + v[i]
  {
    hide Sum;
    if order == [] {
      assert Gather([i], v) == [] + [v[i]] && Gather(order, v) == [];
      SumAppend([], [v[i]]);
      SumOfOne(v[i]);
    } else {
      var last := |order| - 1;
      var front := order[..last];
      if keys[order[last]] >= keys[i] {
        assert Gather(order + [i], v) == Gather(order, v) + [v[i]];
        SumAppend(Gather(order, v), [v[i]]);
        SumOfOne(v[i]);
      } else {
        InsertGather(front, keys, i, v);
        var r := InsertDescending(front, keys, i);
        assert Gather(r + [order[last]], v) == Gather(r, v) + [v[order[last]]];
        assert Gather(order, v) == Gather(front, v) + [v[order[last]]];
        SumAppend(Gather(r, v), [v[order[last]]]);
        SumAppend(Gather(front, v), [v[order[last]]]);
      }
    }
  }

  /** Reordering does not change a sum. */
  lemma {:induction false} GatherSum(keys: seq<int>, n: nat, v: seq<int>)
    requires n <= |keys| == |v|
    ensures forall k :: 0 <= k < n ==> DescendingOrder(keys, n)[k] < |v|
    ensures Sum(Gather(DescendingOrder(keys, n), v)) == Sum(v[..n])
  {
    hide Sum, InsertDescending, Ranked, Gather;
    assert n == 0 ==> Gather(DescendingOrder(keys, n), v) == v[..n];
    if n > 0 {
      SumOfOne(v[n - 1]);
      GatherSum(keys, n - 1, v);
      InsertGather(DescendingOrder(keys, n - 1), keys, n - 1, v);
      assert v[..n] == v[..n - 1] + [v[n - 1]];
      SumAppend(v[..n - 1], [v[n - 1]]);
    }
  }
}
