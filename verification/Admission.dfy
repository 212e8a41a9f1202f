// The admission estimate's working set: persistent segments plus the largest window of
// layer segments (compute_image.rs).
module Admission {
  import opened Common
  import opened ImageBuilder
  import opened Sorting

  /** The sizes of the segments that a residency list names; unknown ids are skipped. */
  function SizesOf(segments: seq<Segment>, ids: seq<string>): (r: seq<nat>)
    ensures |r| <= |ids|
  {
    if ids == [] then []
    else
      SizesOf(segments, Front(ids))
      + match FindSegment(segments, Last(ids)) case None => [] case Some(s) => [s.byteSize]
  }

  function Total(sizes: seq<nat>): nat {
    if sizes == [] then 0 else Total(Front(sizes)) + Last(sizes)
  }

  function Keys(sizes: seq<nat>): seq<real> {
    seq(|sizes|, i requires 0 <= i < |sizes| => sizes[i] as real)
  }

  /** The sizes at a list of positions, added up. */
  function SumAt(sizes: seq<nat>, order: seq<nat>): nat {
    if order == [] then 0 else SizeAt(sizes, order[0]) + SumAt(sizes, order[1..])
  }

  function SizeAt(sizes: seq<nat>, i: nat): nat {
    if i < |sizes| then sizes[i] else 0
  }

  function WindowOf(declared: nat): (w: nat)
    ensures w >= 1
  {
    if declared == 0 then 1 else declared
  }

  /** `max_layer_window_bytes`: sort by size, largest first, and add up the first `window`. */
  function MaxLayerWindow(sizes: seq<nat>, declared: nat): nat {
    var order := SortDescending(Keys(sizes));
    SumAt(sizes, order[..Min(WindowOf(declared), |order|)])
  }

  // ---------------------------------------------------------------------
  // Choices of layers
  // ---------------------------------------------------------------------

  /** The bytes of a set of layer positions. */
  ghost function Chosen(sizes: seq<nat>, positions: set<nat>): nat {
    if positions == {} then 0
    else
      var i :| i in positions;
      SizeAt(sizes, i) + Chosen(sizes, positions - {i})
  }

  lemma {:induction false} ChosenAt(sizes: seq<nat>, positions: set<nat>, i: nat)
    requires i in positions
    ensures Chosen(sizes, positions) == SizeAt(sizes, i) + Chosen(sizes, positions - {i})
    decreases |positions|
  {
    var first :|
      first in positions && Chosen(sizes, positions) == SizeAt(sizes, first) + Chosen(sizes, positions - {first});
    if first != i {
      ChosenAt(sizes, positions - {first}, i);
      ChosenAt(sizes, positions - {i}, first);
      assert positions - {first} - {i} == positions - {i} - {first};
    }
  }

  ghost predicate Choice(sizes: seq<nat>, positions: set<nat>) {
    forall i :: i in positions ==> i < |sizes|
  }

  ghost predicate Descending(sizes: seq<nat>, order: seq<nat>) {
    && Distinct(order)
    && forall a, b :: 0 <= a < b < |order| ==> SizeAt(sizes, order[a]) >= SizeAt(sizes, order[b])
  }

  lemma DescendingTail(sizes: seq<nat>, order: seq<nat>)
    requires order != [] && Descending(sizes, order)
    ensures Descending(sizes, order[1..]) && order[0] !in order[1..]
    ensures forall i :: i in order ==> SizeAt(sizes, i) <= SizeAt(sizes, order[0])
    ensures forall i :: i in order <==> i == order[0] || i in order[1..]
  {
    hide SizeAt;
    var tail := order[1..];
    assert order == [order[0]] + tail;
    forall a, b | 0 <= a < b < |tail|
      ensures tail[a] != tail[b] && SizeAt(sizes, tail[a]) >= SizeAt(sizes, tail[b])
    {
      assert order[a + 1] != order[b + 1];
    }
  }

  lemma SumAtHead(sizes: seq<nat>, order: seq<nat>, w: nat)
    requires order != [] && w > 0
    ensures SumAt(sizes, order[..Min(w, |order|)])
         == SizeAt(sizes, order[0]) + SumAt(sizes, order[1..][..Min(w - 1, |order| - 1)])
  {
    assert order[..Min(w, |order|)][1..] == order[1..][..Min(w - 1, |order| - 1)];
  }

  /** No choice of `w` positions from a descending list outweighs its first `w`: give up the
      head of the list for the head, or for any member, of the choice. */
  lemma {:induction false} PrefixOutweighs(sizes: seq<nat>, order: seq<nat>, positions: set<nat>, w: nat)
    requires Descending(sizes, order) && |positions| <= w
    requires forall i :: i in positions ==> i in order
    ensures Chosen(sizes, positions) <= SumAt(sizes, order[..Min(w, |order|)])
    decreases |order|
  {
    if positions == {} {
      hide SumAt, Descending, SizeAt, Min;
    } else {
      hide *;
      var any :| any in positions;
      assert any in order;
      DescendingTail(sizes, order);
      var given := if order[0] in positions then order[0] else any;
      assert SizeAt(sizes, given) <= SizeAt(sizes, order[0]) && given in order;
      ChosenAt(sizes, positions, given);
      assert |positions - {given}| <= w - 1;
      PrefixOutweighs(sizes, order[1..], positions - {given}, w - 1);
      SumAtHead(sizes, order, w);
    }
  }

  ghost function Members(order: seq<nat>): (r: set<nat>)
    ensures forall i :: i in r <==> i in order
  {
    set i | i in order
  }

  lemma {:induction false} PrefixIsChoice(sizes: seq<nat>, order: seq<nat>)
    requires Descending(sizes, order)
    ensures Chosen(sizes, Members(order)) == SumAt(sizes, order) && |Members(order)| == |order|
  {
    var all := Members(order);
    if order == [] {
      assert all == {};
    } else {
      hide Chosen, Members, Descending, SizeAt;
      DescendingTail(sizes, order);
      PrefixIsChoice(sizes, order[1..]);
      ChosenAt(sizes, all, order[0]);
      assert all - {order[0]} == Members(order[1..]);
    }
  }

  lemma DescendingPrefix(sizes: seq<nat>, order: seq<nat>, n: nat)
    requires Descending(sizes, order) && n <= |order|
    ensures Descending(sizes, order[..n])
    ensures forall i :: i in order[..n] ==> i in order
  {
  }

  lemma SortedSizes(sizes: seq<nat>)
    ensures Descending(sizes, SortDescending(Keys(sizes)))
  {
    var keys := Keys(sizes);
    var order := SortDescending(keys);
    SortSorts(keys);
    forall a, b | 0 <= a < b < |order|
      ensures SizeAt(sizes, order[a]) >= SizeAt(sizes, order[b])
    {
      assert KeyAt(order, keys, a) >= KeyAt(order, keys, b);
      assert order[a] in order && order[b] in order;
    }
  }

  /** The window bound is a true maximum: no choice of as many layers as declared, or of one, is
      larger, and some such choice is exactly that large. */
  lemma {:induction false} WindowIsMaximum(sizes: seq<nat>, declared: nat)
    ensures forall s: set<nat> :: (|s| <= declared || |s| <= 1) && Choice(sizes, s)
              ==> Chosen(sizes, s) <= MaxLayerWindow(sizes, declared)
    ensures exists s: set<nat> :: (|s| <= declared || |s| <= 1) && Choice(sizes, s)
              && Chosen(sizes, s) == MaxLayerWindow(sizes, declared)
  {
    hide Chosen, SumAt, Descending, Members, SortDescending, Keys;
    var order := SortDescending(Keys(sizes));
    assert |Keys(sizes)| == |sizes| by { KeysLength(sizes); }
    SortedSizes(sizes);
    forall s: set<nat> | (|s| <= declared || |s| <= 1) && Choice(sizes, s)
      ensures Chosen(sizes, s) <= MaxLayerWindow(sizes, declared)
    {
      PrefixOutweighs(sizes, order, s, WindowOf(declared));
    }
    var n := Min(WindowOf(declared), |order|);
    DescendingPrefix(sizes, order, n);
    PrefixIsChoice(sizes, order[..n]);
    assert Choice(sizes, Members(order[..n]));
  }

  lemma KeysLength(sizes: seq<nat>)
    ensures |Keys(sizes)| == |sizes|
  {
  }

  // ---------------------------------------------------------------------
  // The working set of a built image
  // ---------------------------------------------------------------------

  ghost function Below(n: nat): (r: set<nat>)
    ensures |r| == n && forall i: nat :: i in r <==> i < n
  {
    if n == 0 then {} else Below(n - 1) + {n - 1}
  }

  lemma {:induction false} AllChosen(sizes: seq<nat>, n: nat)
    requires n <= |sizes|
    ensures Chosen(sizes, Below(n)) == Total(sizes[..n])
  {
    var all := Below(n);
    if n == 0 {
      assert sizes[..0] == [];
    } else {
      AllChosen(sizes, n - 1);
      ChosenAt(sizes, all, n - 1);
      assert all - {n - 1} == Below(n - 1);
      assert Front(sizes[..n]) == sizes[..n - 1];
    }
  }

  lemma {:induction false} ChosenAtMost(sizes: seq<nat>, positions: set<nat>, more: set<nat>)
    requires positions <= more
    ensures Chosen(sizes, positions) <= Chosen(sizes, more)
    decreases |positions|
  {
    if positions != {} {
      var i :| i in positions;
      ChosenAt(sizes, positions, i);
      ChosenAt(sizes, more, i);
      ChosenAtMost(sizes, positions - {i}, more - {i});
    }
  }

  /** A window never exceeds all layers together, and reaches them when it is as long. */
  lemma {:induction false} WindowWithinTotal(sizes: seq<nat>, declared: nat)
    ensures MaxLayerWindow(sizes, declared) <= Total(sizes)
    ensures |sizes| <= declared || |sizes| <= 1 ==> MaxLayerWindow(sizes, declared) == Total(sizes)
  {
    WindowIsMaximum(sizes, declared);
    AllChosen(sizes, |sizes|);
    assert sizes[..|sizes|] == sizes;
    var all := Below(|sizes|);
    hide Chosen, MaxLayerWindow, Total;
    var s: set<nat> :| (|s| <= declared || |s| <= 1) && Choice(sizes, s) && Chosen(sizes, s) == MaxLayerWindow(sizes, declared);
    assert s <= all;
    ChosenAtMost(sizes, s, all);
    assert Choice(sizes, all);
  }

  lemma {:induction false} SizesAppend(segments: seq<Segment>, ids: seq<string>, s: Segment)
    requires FindSegment(segments, s.id) == Some(s)
    ensures SizesOf(segments, ids + [s.id]) == SizesOf(segments, ids) + [s.byteSize]
    ensures Total(SizesOf(segments, ids + [s.id])) == Total(SizesOf(segments, ids)) + s.byteSize
  {
    AppendFrontLast(ids, s.id);
    AppendFrontLast(SizesOf(segments, ids), s.byteSize);
  }

  lemma {:induction false} ResidentSizes(segments: seq<Segment>, n: nat)
    requires n <= |segments| && Distinct(SegmentNames(segments))
    ensures Total(SizesOf(segments, Residents(segments[..n], false)))
          + Total(SizesOf(segments, Residents(segments[..n], true))) == SumSizes(segments[..n])
    ensures |SizesOf(segments, Residents(segments[..n], false))| == |Residents(segments[..n], false)|
    ensures |SizesOf(segments, Residents(segments[..n], true))| == |Residents(segments[..n], true)|
  {
    var prefix := segments[..n];
    if n > 0 {
      ResidentSizes(segments, n - 1);
      assert Front(prefix) == segments[..n - 1] && Last(prefix) == segments[n - 1];
      FindsOwn(segments, n - 1);
      assert SumSizes(prefix) == SumSizes(Front(prefix)) + Last(prefix).byteSize;
      ResidentsStep(prefix);
      var layer := segments[n - 1].kind.Layer?;
      hide *;
      SizesAppend(segments, Residents(segments[..n - 1], layer), segments[n - 1]);
    }
  }

  /** For every image the builder makes, each residency list resolves in full, and the estimated
      working set is at most the image, and all of it when the window covers the layers. */
  lemma {:induction false} WorkingSetWithinImage(ops: seq<Op>, declared: nat)
    requires RunOps(ops).Some? && Distinct(Begun(ops))
    ensures var m := ManifestOf(RunOps(ops).value);
      var persistent, layers := SizesOf(m.segments, m.persistentIds), SizesOf(m.segments, m.layerIds);
      && |persistent| == |m.persistentIds| && |layers| == |m.layerIds|
      && Total(persistent) + MaxLayerWindow(layers, declared) <= SumLengths(Given(ops))
      && (|m.layerIds| <= declared || |m.layerIds| <= 1 ==>
            Total(persistent) + MaxLayerWindow(layers, declared) == SumLengths(Given(ops)))
  {
    var img := RunOps(ops).value;
    RunKeeps(ops);
    ImageRoundTrip(ops);
    FlushKeeps(img, Given(ops));
    FlushViews(img);
    var m := ManifestOf(img);
    NamesOfFinished(Flush(img));
    ManifestTables(img);
    ResidentSizes(m.segments, |m.segments|);
    assert m.segments[..|m.segments|] == m.segments;
    WindowWithinTotal(SizesOf(m.segments, m.layerIds), declared);
  }
}
