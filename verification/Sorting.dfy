// The standard library's stable sort, as insertion sort: indices of a list ordered by key,
// largest first, equal keys in their original order.
module Sorting {
  import opened Common

  ghost predicate InBounds(order: seq<nat>, keys: seq<real>) {
    forall x :: x in order ==> x < |keys|
  }

  /** Put `i` after the indices whose key is at least its own. */
  function Insert(order: seq<nat>, i: nat, keys: seq<real>): (r: seq<nat>)
    requires i < |keys| && InBounds(order, keys)
    ensures |r| == |order| + 1 && forall x :: x in r <==> x == i || x in order
  {
    if order == [] then [i]
    else
      FrontLast(order);
      assert Last(order) in order;
      assert forall x :: x in order <==> x in Front(order) || x == Last(order);
      if keys[Last(order)] >= keys[i] then order + [i]
      else Insert(Front(order), i, keys) + [Last(order)]
  }

  /** The first n indices, sorted by descending key. */
  function SortedPrefix(keys: seq<real>, n: nat): (r: seq<nat>)
    requires n <= |keys|
    ensures |r| == n && (forall i :: i in r <==> 0 <= i < n)
  {
    if n == 0 then [] else Insert(SortedPrefix(keys, n - 1), n - 1, keys)
  }

  function SortDescending(keys: seq<real>): (r: seq<nat>)
    ensures |r| == |keys| && (forall i :: i in r <==> 0 <= i < |keys|)
  {
    SortedPrefix(keys, |keys|)
  }

  /** Descending keys and no index twice. */
  ghost predicate Ordered(order: seq<nat>, keys: seq<real>) {
    && InBounds(order, keys) && Distinct(order)
    && forall a, b :: 0 <= a < b < |order| ==> KeyAt(order, keys, a) >= KeyAt(order, keys, b)
  }

  function KeyAt(order: seq<nat>, keys: seq<real>, a: nat): real {
    if a < |order| && order[a] < |keys| then keys[order[a]] else 0.0
  }

  lemma OrderedAppend(order: seq<nat>, i: nat, keys: seq<real>)
    requires Ordered(order, keys) && i < |keys| && i !in order
    requires forall x :: x in order ==> x < |keys| && keys[x] >= keys[i]
    ensures Ordered(order + [i], keys)
  {
    var r := order + [i];
    forall a, b | 0 <= a < b < |r|
      ensures KeyAt(r, keys, a) >= KeyAt(r, keys, b)
    {
      assert r[a] in order && r[a] < |keys|;
      if b < |order| {
        assert KeyAt(order, keys, a) >= KeyAt(order, keys, b);
        assert r[b] in order;
      }
    }
  }

  lemma OrderedFront(order: seq<nat>, keys: seq<real>)
    requires order != [] && Ordered(order, keys)
    ensures Ordered(Front(order), keys) && Last(order) !in Front(order) && Last(order) < |keys|
    ensures forall x :: x in Front(order) ==> x < |keys| && keys[x] >= keys[Last(order)]
  {
    var front, n := Front(order), |order| - 1;
    assert Last(order) in order;
    forall a, b | 0 <= a < b < |front|
      ensures KeyAt(front, keys, a) >= KeyAt(front, keys, b)
    {
      assert KeyAt(order, keys, a) >= KeyAt(order, keys, b);
    }
    forall x | x in front
      ensures x in order && x < |keys| && keys[x] >= keys[Last(order)]
    {
      var a :| 0 <= a < |front| && front[a] == x;
      assert order[a] == x;
      assert KeyAt(order, keys, a) >= KeyAt(order, keys, n);
    }
  }

  lemma {:induction false} InsertOrdered(order: seq<nat>, i: nat, keys: seq<real>)
    requires i < |keys| && i !in order && Ordered(order, keys)
    ensures Ordered(Insert(order, i, keys), keys)
    decreases |order|
  {
    if order == [] {
    } else {
      hide Ordered;
      OrderedFront(order, keys);
      var front, last := Front(order), Last(order);
      assert order == front + [last];
      if keys[last] >= keys[i] {
        OrderedAppend(order, i, keys);
      } else {
        InsertOrdered(front, i, keys);
        OrderedAppend(Insert(front, i, keys), last, keys);
      }
    }
  }

  lemma {:induction false} PrefixOrdered(keys: seq<real>, n: nat)
    requires n <= |keys|
    ensures Ordered(SortedPrefix(keys, n), keys)
  {
    if n > 0 {
      PrefixOrdered(keys, n - 1);
      InsertOrdered(SortedPrefix(keys, n - 1), n - 1, keys);
    }
  }

  /** Equal keys keep the order of their indices. */
  ghost predicate Stable(order: seq<nat>, keys: seq<real>) {
    InBounds(order, keys)
    && forall a, b :: 0 <= a < b < |order| && KeyAt(order, keys, a) == KeyAt(order, keys, b) ==> order[a] < order[b]
  }

  lemma StableAppend(order: seq<nat>, i: nat, keys: seq<real>)
    requires Stable(order, keys) && i < |keys|
    requires forall x :: x in order && x < |keys| && keys[x] == keys[i] ==> x < i
    ensures Stable(order + [i], keys)
  {
    var r := order + [i];
    forall a, b | 0 <= a < b < |r| && KeyAt(r, keys, a) == KeyAt(r, keys, b)
      ensures r[a] < r[b]
    {
      assert r[a] in order && r[a] < |keys|;
      if b < |order| {
        assert r[b] in order;
        assert KeyAt(order, keys, a) == KeyAt(order, keys, b);
      }
    }
  }

  lemma StableFront(order: seq<nat>, keys: seq<real>)
    requires order != [] && Stable(order, keys)
    ensures Stable(Front(order), keys)
    ensures forall x :: x in Front(order) && x < |keys| && Last(order) < |keys| && keys[x] == keys[Last(order)] ==> x < Last(order)
  {
    var front, n := Front(order), |order| - 1;
    assert forall x :: x in front ==> x in order;
    forall a, b | 0 <= a < b < |front| && KeyAt(front, keys, a) == KeyAt(front, keys, b)
      ensures front[a] < front[b]
    {
      assert KeyAt(order, keys, a) == KeyAt(order, keys, b);
    }
    forall x | x in front && x < |keys| && Last(order) < |keys| && keys[x] == keys[Last(order)]
      ensures x < Last(order)
    {
      var a :| 0 <= a < |front| && front[a] == x;
      assert KeyAt(order, keys, a) == KeyAt(order, keys, n);
    }
  }

  lemma {:induction false} InsertStable(order: seq<nat>, i: nat, keys: seq<real>)
    requires i < |keys| && Stable(order, keys) && forall x :: x in order ==> x < i
    ensures Stable(Insert(order, i, keys), keys)
    decreases |order|
  {
    StableBounds(order, keys);
    hide Stable, Insert;
    InsertIs(order, i, keys);
    if order == [] {
      StableOne(i, keys);
    } else {
      StableFront(order, keys);
      var front, last := Front(order), Last(order);
      if keys[last] >= keys[i] {
        StableAppend(order, i, keys);
      } else {
        InsertStable(front, i, keys);
        StableAppend(Insert(front, i, keys), last, keys);
      }
    }
  }

  lemma StableBounds(order: seq<nat>, keys: seq<real>)
    requires Stable(order, keys)
    ensures InBounds(order, keys)
  {
  }

  lemma StableOne(i: nat, keys: seq<real>)
    requires i < |keys|
    ensures Stable([i], keys)
  {
  }

  /** One step of the insertion. */
  lemma InsertIs(order: seq<nat>, i: nat, keys: seq<real>)
    requires i < |keys| && InBounds(order, keys)
    ensures order == [] ==> Insert(order, i, keys) == [i]
    ensures order != [] ==>
      && InBounds(Front(order), keys) && Last(order) < |keys| && Last(order) in order
      && (forall x :: x in Front(order) ==> x in order)
      && Insert(order, i, keys) == if keys[Last(order)] >= keys[i] then order + [i]
                                   else Insert(Front(order), i, keys) + [Last(order)]
  {
    if order != [] {
      FrontLast(order);
      assert Last(order) in order;
      assert forall x :: x in order <==> x in Front(order) || x == Last(order);
    }
  }

  lemma {:induction false} PrefixStable(keys: seq<real>, n: nat)
    requires n <= |keys|
    ensures Stable(SortedPrefix(keys, n), keys)
  {
    if n > 0 {
      PrefixStable(keys, n - 1);
      InsertStable(SortedPrefix(keys, n - 1), n - 1, keys);
    }
  }

  /** The sort is stable: of equal keys the smaller index comes first. */
  lemma {:induction false} SortIsStable(keys: seq<real>)
    ensures Stable(SortDescending(keys), keys)
  {
    PrefixStable(keys, |keys|);
  }

  /** The result lists every index exactly once, in descending order of its key. */
  lemma {:induction false} SortSorts(keys: seq<real>)
    ensures Ordered(SortDescending(keys), keys)
  {
    PrefixOrdered(keys, |keys|);
  }
}
