// The top-k and top-p filters of the sampler and its fallback (executor.rs), over exact reals.
module Sampler {
  import opened Common
  import opened Sorting

  /** A logit, or negative infinity for an entry that has been filtered out. */
  datatype Logit = Fin(v: real) | NegInf

  predicate Less(a: Logit, b: Logit) {
    b.Fin? && (a.NegInf? || a.v < b.v)
  }

  ghost predicate AllFinite(s: seq<Logit>) {
    forall i :: 0 <= i < |s| ==> s[i].Fin?
  }

  function Values(s: seq<Logit>): (r: seq<real>)
    ensures |r| == |s| && forall i :: 0 <= i < |s| ==> r[i] == if s[i].Fin? then s[i].v else 0.0
  {
    seq(|s|, i requires 0 <= i < |s| => if s[i].Fin? then s[i].v else 0.0)
  }

  /** The indices that are still candidates. */
  function Kept(s: seq<Logit>): set<nat> {
    set i: nat | i < |s| && s[i].Fin?
  }

  // ---------------------------------------------------------------------
  // Top-k
  // ---------------------------------------------------------------------

  /** The k-th largest value. */
  function Threshold(keys: seq<real>, k: nat): real
    requires 0 < k <= |keys|
  {
    var order := SortDescending(keys);
    assert order[k - 1] in order;
    keys[order[k - 1]]
  }

  function TopK(s: seq<Logit>, k: nat): seq<Logit> {
    var k' := Min(k, |s|);
    if k' == 0 || k' == |s| then s
    else
      var t := Threshold(Values(s), k');
      seq(|s|, i requires 0 <= i < |s| => if Less(s[i], Fin(t)) then NegInf else s[i])
  }

  method FilterTopK(a: array<Logit>, k: nat)
    requires AllFinite(a[..])
    modifies a
    ensures a[..] == TopK(old(a[..]), k)
  {
    var k' := Min(k, a.Length);
    if k' > 0 && k' < a.Length {
      ghost var s := a[..];
      var threshold := Threshold(Values(a[..]), k');
      for i := 0 to a.Length
        invariant forall j :: 0 <= j < i ==> a[j] == if Less(s[j], Fin(threshold)) then NegInf else s[j]
        invariant forall j :: i <= j < a.Length ==> a[j] == s[j]
      {
        if Less(a[i], Fin(threshold)) {
          a[i] := NegInf;
        }
      }
      assert a[..] == TopK(s, k);
    }
  }

  /** The first k indices of an ordering, as a set. */
  function Prefix(order: seq<nat>, k: nat): set<nat>
    requires k <= |order|
  {
    set i | i in order[..k]
  }

  lemma PrefixStep(order: seq<nat>, k: nat)
    requires 0 < k <= |order|
    ensures Prefix(order, k) == Prefix(order, k - 1) + {order[k - 1]}
    ensures Distinct(order) ==> order[k - 1] !in Prefix(order, k - 1)
  {
    assert order[..k] == order[..k - 1] + [order[k - 1]];
  }

  lemma {:induction false} PrefixSize(order: seq<nat>, k: nat)
    requires k <= |order| && Distinct(order)
    ensures |Prefix(order, k)| == k
  {
    if k > 0 {
      hide Prefix, Distinct;
      PrefixSize(order, k - 1);
      PrefixStep(order, k);
    } else {
      assert Prefix(order, 0) == {};
    }
  }

  lemma SubsetSize(a: set<nat>, b: set<nat>)
    requires a <= b
    ensures |a| <= |b|
  {
    assert b == a + (b - a);
  }

  /** Where a rank stands relative to the k-th largest value. */
  lemma RankAndThreshold(keys: seq<real>, k: nat, a: nat)
    requires 0 < k <= |keys| && a < |keys|
    ensures var order := SortDescending(keys);
      && order[a] < |keys|
      && (a < k ==> keys[order[a]] >= Threshold(keys, k))
      && (a >= k - 1 ==> keys[order[a]] <= Threshold(keys, k))
  {
    var order := SortDescending(keys);
    SortSorts(keys);
    assert order[a] in order && order[k - 1] in order;
    assert a < k - 1 ==> KeyAt(order, keys, a) >= KeyAt(order, keys, k - 1);
    assert a > k - 1 ==> KeyAt(order, keys, k - 1) >= KeyAt(order, keys, a);
  }

  lemma RankOf(keys: seq<real>, i: nat) returns (a: nat)
    requires i < |keys|
    ensures a < |keys| && SortDescending(keys)[a] == i
  {
    var order := SortDescending(keys);
    assert i in order;
    a :| 0 <= a < |order| && order[a] == i;
  }

  /** Top-k keeps at least k entries (all of them when k is 0 or too large), everything kept is at
      least everything dropped, values are unchanged, and fewer than k entries exceed the smallest kept. */
  lemma {:induction false} TopKKeepsLargest(s: seq<Logit>, k: nat)
    requires AllFinite(s) && 0 < k < |s|
    ensures var r := TopK(s, k);
      && |r| == |s| && (forall i :: 0 <= i < |s| && r[i].Fin? ==> r[i] == s[i])
      && |Kept(r)| >= k
      && (forall i, j :: 0 <= i < |s| && 0 <= j < |s| && r[i].Fin? && r[j].NegInf? ==> s[i].v > s[j].v)
      && (exists t :: |AtLeast(s, t)| >= k > |Above(s, t)| && Kept(r) == AtLeast(s, t))
  {
    var keys, r := Values(s), TopK(s, k);
    var t, order := Threshold(keys, k), SortDescending(keys);
    SortSorts(keys);
    PrefixSize(order, k);
    PrefixSize(order, k - 1);
    assert Kept(r) == AtLeast(s, t);
    forall i | i in Prefix(order, k)
      ensures i in AtLeast(s, t)
    {
      var a :| 0 <= a < k && order[..k][a] == i;
      RankAndThreshold(keys, k, a);
    }
    SubsetSize(Prefix(order, k), AtLeast(s, t));
    forall i | i in Above(s, t)
      ensures i in Prefix(order, k - 1)
    {
      var a := RankOf(keys, i);
      RankAndThreshold(keys, k, a);
      assert order[..k - 1][a] == i;
    }
    SubsetSize(Above(s, t), Prefix(order, k - 1));
  }

  function AtLeast(s: seq<Logit>, t: real): set<nat> {
    set i: nat | i < |s| && s[i].Fin? && s[i].v >= t
  }

  function Above(s: seq<Logit>, t: real): set<nat> {
    set i: nat | i < |s| && s[i].Fin? && s[i].v > t
  }

  // ---------------------------------------------------------------------
  // Top-p
  // ---------------------------------------------------------------------

  function Sum(xs: seq<real>): real {
    if xs == [] then 0.0 else Sum(Front(xs)) + Last(xs)
  }

  /** The largest finite logit; `max_by` over an all-infinite vector stays infinite. */
  function MaxLogit(s: seq<Logit>): Logit {
    if s == [] then NegInf
    else
      var m := MaxLogit(Front(s));
      if Less(m, Last(s)) then Last(s) else m
  }

  /** Softmax weights relative to the largest logit: filtered entries weigh nothing. */
  function Weights(s: seq<Logit>, exp: real -> real): (r: seq<real>)
    requires MaxLogit(s).Fin?
    ensures |r| == |s|
  {
    seq(|s|, i requires 0 <= i < |s| => if s[i].Fin? then exp(s[i].v - MaxLogit(s).v) else 0.0)
  }

  function Probabilities(s: seq<Logit>, exp: real -> real): (r: seq<real>)
    requires MaxLogit(s).Fin?
    ensures |r| == |s|
  {
    var w := Weights(s, exp);
    if Sum(w) > 0.0 then seq(|s|, i requires 0 <= i < |s| => w[i] / Sum(w)) else w
  }

  /** The mass of the r most probable entries. */
  function Mass(order: seq<nat>, probs: seq<real>, r: nat): real
    requires r <= |order|
  {
    if r == 0 then 0.0 else Mass(order, probs, r - 1) + KeyAt(order, probs, r - 1)
  }

  /** The first rank at which the cumulative mass exceeds p, or the length if none does. */
  function Cut(order: seq<nat>, probs: seq<real>, p: real, r: nat): (c: nat)
    requires r <= |order|
    ensures r <= c <= |order|
    ensures c < |order| ==> Mass(order, probs, c + 1) > p
    ensures forall x :: r < x <= c ==> Mass(order, probs, x) <= p
    decreases |order| - r
  {
    if r == |order| then r else if Mass(order, probs, r + 1) > p then r else Cut(order, probs, p, r + 1)
  }

  /** Everything from rank c on is filtered out. */
  function MaskFrom(s: seq<Logit>, order: seq<nat>, c: nat): seq<Logit>
    requires c <= |order|
  {
    seq(|s|, i requires 0 <= i < |s| => if i in order[c..] then NegInf else s[i])
  }

  function TopP(s: seq<Logit>, p: real, exp: real -> real): seq<Logit>
    requires MaxLogit(s).Fin?
  {
    if !(0.0 < p < 1.0) then s
    else
      var probs := Probabilities(s, exp);
      var order := SortDescending(probs);
      MaskFrom(s, order, Cut(order, probs, p, 0))
  }

  /** The loops that turn logits into probabilities: the largest logit, the weights and their sum,
      and the division. */
  method ComputeProbabilities(a: array<Logit>, exp: real -> real) returns (probs: seq<real>)
    requires MaxLogit(a[..]).Fin?
    ensures probs == Probabilities(a[..], exp)
  {
    ghost var s := a[..];
    var m := NegInf;
    for i := 0 to a.Length
      invariant m == MaxLogit(s[..i])
    {
      assert Front(s[..i + 1]) == s[..i];
      if Less(m, a[i]) {
        m := a[i];
      }
    }
    assert s[..a.Length] == s;
    var max := m.v;
    probs := [];
    var sum := 0.0;
    for i := 0 to a.Length
      invariant probs == Weights(s, exp)[..i] && sum == Sum(probs)
    {
      var e := if a[i].Fin? then exp(a[i].v - max) else 0.0;
      AppendFrontLast(probs, e);
      assert probs + [e] == Weights(s, exp)[..i + 1];
      probs, sum := probs + [e], sum + e;
    }
    ghost var w := probs;
    assert w == Weights(s, exp);
    if sum > 0.0 {
      for i := 0 to a.Length
        invariant |probs| == a.Length
        invariant forall j :: 0 <= j < i ==> probs[j] == w[j] / sum
        invariant forall j :: i <= j < a.Length ==> probs[j] == w[j]
      {
        probs := probs[i := probs[i] / sum];
      }
    }
  }

  method FilterTopP(a: array<Logit>, p: real, exp: real -> real)
    requires MaxLogit(a[..]).Fin?
    modifies a
    ensures a[..] == TopP(old(a[..]), p, exp)
  {
    if !(0.0 < p < 1.0) {
      return;
    }
    ghost var s := a[..];
    var probs := ComputeProbabilities(a, exp);
    var order := SortDescending(probs);
    var cumulative := 0.0;
    var rank := 0;
    while rank < |order|
      invariant rank <= |order| && a[..] == s && cumulative == Mass(order, probs, rank)
      invariant Cut(order, probs, p, 0) == Cut(order, probs, p, rank)
    {
      assert order[rank] in order;
      cumulative := cumulative + probs[order[rank]];
      if cumulative > p {
        MaskTail(a, order, rank);
        return;
      }
      rank := rank + 1;
    }
    assert MaskFrom(s, order, |order|) == s;
  }

  method MaskTail(a: array<Logit>, order: seq<nat>, rank: nat)
    requires rank <= |order| && forall x :: x in order ==> x < a.Length
    modifies a
    ensures a[..] == MaskFrom(old(a[..]), order, rank)
  {
    ghost var s := a[..];
    for r := rank to |order|
      invariant forall i :: 0 <= i < a.Length ==> a[i] == if i in order[rank..r] then NegInf else s[i]
    {
      assert order[rank..r + 1] == order[rank..r] + [order[r]];
      assert order[r] in order;
      a[order[r]] := NegInf;
    }
    assert order[rank..|order|] == order[rank..];
    assert a[..] == MaskFrom(s, order, rank);
  }

  // ---------------------------------------------------------------------
  // Masses add up to one
  // ---------------------------------------------------------------------

  function SumAt(order: seq<nat>, keys: seq<real>): real {
    if order == [] then 0.0 else SumAt(Front(order), keys) + KeyAt(order, keys, |order| - 1)
  }

  lemma {:induction false} SumAtInsert(order: seq<nat>, i: nat, keys: seq<real>)
    requires i < |keys| && InBounds(order, keys)
    ensures SumAt(Insert(order, i, keys), keys) == SumAt(order, keys) + keys[i]
    decreases |order|
  {
    if order == [] {
    } else {
      assert Last(order) in order && order == Front(order) + [Last(order)];
      assert forall x :: x in Front(order) ==> x in order;
      if keys[Last(order)] >= keys[i] {
        AppendFrontLast(order, i);
      } else {
        SumAtInsert(Front(order), i, keys);
        AppendFrontLast(Insert(Front(order), i, keys), Last(order));
      }
    }
  }

  lemma {:induction false} SumAtPrefix(keys: seq<real>, n: nat)
    requires n <= |keys|
    ensures SumAt(SortedPrefix(keys, n), keys) == Sum(keys[..n])
  {
    if n > 0 {
      hide SumAt, Insert;
      SumAtPrefix(keys, n - 1);
      SumAtInsert(SortedPrefix(keys, n - 1), n - 1, keys);
      assert Front(keys[..n]) == keys[..n - 1];
    } else {
      hide Insert;
    }
  }

  lemma {:induction false} MassIsSumAt(order: seq<nat>, keys: seq<real>, r: nat)
    requires r <= |order|
    ensures Mass(order, keys, r) == SumAt(order[..r], keys)
  {
    if r > 0 {
      MassIsSumAt(order, keys, r - 1);
      assert Front(order[..r]) == order[..r - 1];
    }
  }

  lemma TotalMass(keys: seq<real>)
    ensures Mass(SortDescending(keys), keys, |keys|) == Sum(keys)
  {
    var order := SortDescending(keys);
    MassIsSumAt(order, keys, |keys|);
    SumAtPrefix(keys, |keys|);
    assert order[..|keys|] == order && keys[..|keys|] == keys;
  }

  lemma {:induction false} SumScaled(w: seq<real>, total: real, q: seq<real>)
    requires total > 0.0 && |q| == |w| && forall i :: 0 <= i < |w| ==> q[i] == w[i] / total
    ensures Sum(q) == Sum(w) / total
  {
    if w != [] {
      SumScaled(Front(w), total, Front(q));
    }
  }

  lemma {:induction false} SumNonNegative(w: seq<real>, i: nat)
    requires i < |w| && forall j :: 0 <= j < |w| ==> w[j] >= 0.0
    ensures Sum(w) >= w[i]
  {
    if i < |w| - 1 {
      SumNonNegative(Front(w), i);
    } else if |w| > 1 {
      SumNonNegative(Front(w), 0);
      assert Front(w)[0] == w[0];
    }
  }

  lemma {:induction false} MaxIsReached(s: seq<Logit>)
    requires MaxLogit(s).Fin?
    ensures exists i :: 0 <= i < |s| && s[i] == MaxLogit(s)
  {
    var m := MaxLogit(Front(s));
    if Less(m, Last(s)) {
      assert s[|s| - 1] == MaxLogit(s);
    } else {
      MaxIsReached(Front(s));
      var i :| 0 <= i < |Front(s)| && Front(s)[i] == m;
      assert s[i] == MaxLogit(s);
    }
  }

  /** Probabilities are positive exactly on the candidates, and add up to one. */
  lemma ProbabilitiesSumToOne(s: seq<Logit>, exp: real -> real)
    requires MaxLogit(s).Fin? && forall x :: exp(x) > 0.0
    ensures var q := Probabilities(s, exp);
      Sum(q) == 1.0 && forall i :: 0 <= i < |s| ==> q[i] >= 0.0 && (q[i] > 0.0 <==> s[i].Fin?)
  {
    hide *;
    var w, q := Weights(s, exp), Probabilities(s, exp);
    WeightsPositive(s, exp);
    ProbabilitiesAre(s, exp);
    SumScaled(w, Sum(w), q);
    SelfQuotient(Sum(w));
    forall j | 0 <= j < |s|
      ensures q[j] >= 0.0 && (q[j] > 0.0 <==> s[j].Fin?)
    {
      QuotientSign(w[j], Sum(w));
    }
  }

  lemma SelfQuotient(a: real)
    requires a > 0.0
    ensures a / a == 1.0
  {
  }

  lemma ProbabilitiesAre(s: seq<Logit>, exp: real -> real)
    requires MaxLogit(s).Fin? && Sum(Weights(s, exp)) > 0.0
    ensures var w, q := Weights(s, exp), Probabilities(s, exp);
      forall i :: 0 <= i < |s| ==> q[i] == w[i] / Sum(w)
  {
    hide Weights, Sum, MaxLogit;
  }

  lemma WeightsPositive(s: seq<Logit>, exp: real -> real)
    requires MaxLogit(s).Fin? && forall x :: exp(x) > 0.0
    ensures var w := Weights(s, exp);
      Sum(w) > 0.0 && forall i :: 0 <= i < |s| ==> w[i] >= 0.0 && (w[i] > 0.0 <==> s[i].Fin?)
  {
    var w := Weights(s, exp);
    MaxIsReached(s);
    var i :| 0 <= i < |s| && s[i] == MaxLogit(s);
    assert w[i] > 0.0;
    SumNonNegative(w, i);
  }

  lemma QuotientSign(a: real, b: real)
    requires a >= 0.0 && b > 0.0
    ensures a / b >= 0.0 && (a / b > 0.0 <==> a > 0.0)
  {
    assert a / b * b == a;
  }

  // ---------------------------------------------------------------------
  // Probabilities and logits
  // ---------------------------------------------------------------------

  ghost predicate Increasing(exp: real -> real) {
    forall x, y :: x < y ==> exp(x) < exp(y)
  }

  /** What makes a positive function an exponential. */
  ghost predicate Exponential(exp: real -> real) {
    (forall x :: exp(x) > 0.0) && forall x, y :: exp(x + y) == exp(x) * exp(y)
  }

  lemma QuotientOrder(a: real, b: real, total: real)
    requires total > 0.0
    ensures a / total >= b / total <==> a >= b
  {
    var x, y := a / total, b / total;
    assert x * total == a && y * total == b;
    assert x * total - y * total == (x - y) * total;
  }

  lemma WeightAt(s: seq<Logit>, exp: real -> real, i: nat)
    requires MaxLogit(s).Fin? && i < |s|
    ensures Weights(s, exp)[i] == if s[i].Fin? then exp(s[i].v - MaxLogit(s).v) else 0.0
  {
  }

  /** The more probable of two candidates is the one with the larger logit. */
  lemma {:induction false} ProbabilityOrder(s: seq<Logit>, exp: real -> real, i: nat, j: nat)
    requires MaxLogit(s).Fin? && (forall x :: exp(x) > 0.0) && Increasing(exp)
    requires i < |s| && j < |s| && s[i].Fin? && s[j].Fin?
    ensures var q := Probabilities(s, exp); q[i] >= q[j] <==> s[i].v >= s[j].v
  {
    hide Weights, MaxLogit, Sum, Probabilities;
    WeightsPositive(s, exp);
    ProbabilitiesAre(s, exp);
    WeightAt(s, exp, i);
    WeightAt(s, exp, j);
    var w, m := Weights(s, exp), MaxLogit(s).v;
    QuotientOrder(w[i], w[j], Sum(w));
    assert s[i].v < s[j].v ==> exp(s[i].v - m) < exp(s[j].v - m);
    assert s[j].v < s[i].v ==> exp(s[j].v - m) < exp(s[i].v - m);
  }

  /** Softmax as it is defined: no shift by the largest logit. */
  function Exps(s: seq<Logit>, exp: real -> real): (r: seq<real>)
    ensures |r| == |s|
  {
    seq(|s|, i requires 0 <= i < |s| => if s[i].Fin? then exp(s[i].v) else 0.0)
  }

  function Times(a: real, factor: real): real {
    a * factor
  }

  lemma {:induction false} SumTimes(w: seq<real>, e: seq<real>, factor: real)
    requires |e| == |w| && forall i :: 0 <= i < |w| ==> e[i] == Times(w[i], factor)
    ensures Sum(e) == Times(Sum(w), factor)
  {
    if w != [] {
      hide Times;
      SumTimes(Front(w), Front(e), factor);
      TimesSum(Sum(Front(w)), Last(w), factor);
    } else {
      assert Times(0.0, factor) == 0.0;
    }
  }

  lemma TimesSum(a: real, b: real, factor: real)
    ensures Times(a, factor) + Times(b, factor) == Times(a + b, factor)
  {
  }

  lemma SameQuotient(a: real, b: real, factor: real)
    requires b > 0.0 && factor > 0.0
    ensures Times(b, factor) > 0.0 && Times(a, factor) / Times(b, factor) == a / b
  {
    var q := a / b;
    assert q * b == a;
    assert q * (b * factor) == a * factor;
  }

  lemma ExpOfSum(exp: real -> real, x: real, y: real)
    requires Exponential(exp)
    ensures exp(x + y) == Times(exp(x), exp(y)) && exp(x) > 0.0
  {
  }

  lemma Positive(exp: real -> real)
    requires Exponential(exp)
    ensures forall x :: exp(x) > 0.0
  {
  }

  /** Shifting by the largest logit divides every weight by the same factor. */
  lemma ShiftedWeights(s: seq<Logit>, exp: real -> real)
    requires MaxLogit(s).Fin? && Exponential(exp)
    ensures var w, e, factor := Weights(s, exp), Exps(s, exp), exp(MaxLogit(s).v);
      factor > 0.0 && forall i :: 0 <= i < |s| ==> e[i] == Times(w[i], factor)
  {
    hide MaxLogit, Exponential, Weights, Times;
    var w, e, m := Weights(s, exp), Exps(s, exp), MaxLogit(s).v;
    ExpOfSum(exp, m, m);
    forall i: nat | i < |s|
      ensures e[i] == Times(w[i], exp(m))
    {
      WeightAt(s, exp, i);
      if s[i].Fin? {
        ExpOfSum(exp, s[i].v - m, m);
        assert (s[i].v - m) + m == s[i].v;
      } else {
        ZeroTimes(exp(m));
      }
    }
  }

  lemma ZeroTimes(factor: real)
    ensures Times(0.0, factor) == 0.0
  {
  }

  /** The shifted form gives the softmax of the logits: each probability is the exponential of its
      logit over the sum of all of them. */
  lemma {:induction false} ProbabilitiesAreSoftmax(s: seq<Logit>, exp: real -> real)
    requires MaxLogit(s).Fin? && Exponential(exp)
    ensures var q, e := Probabilities(s, exp), Exps(s, exp);
      Sum(e) > 0.0 && forall i :: 0 <= i < |s| ==> q[i] == e[i] / Sum(e)
  {
    hide *;
    Positive(exp);
    WeightsPositive(s, exp);
    ProbabilitiesAre(s, exp);
    ShiftedWeights(s, exp);
    var w, e, q, factor := Weights(s, exp), Exps(s, exp), Probabilities(s, exp), exp(MaxLogit(s).v);
    SumTimes(w, e, factor);
    SameQuotient(Sum(w), Sum(w), factor);
    forall i: nat | i < |s|
      ensures q[i] == e[i] / Sum(e)
    {
      SameQuotient(w[i], Sum(w), factor);
    }
  }

  /** Two candidates' probabilities differ by the exponential of the difference of their logits. */
  lemma {:induction false} ProbabilityRatio(s: seq<Logit>, exp: real -> real, i: nat, j: nat)
    requires MaxLogit(s).Fin? && Exponential(exp) && i < |s| && j < |s| && s[i].Fin? && s[j].Fin?
    ensures var q := Probabilities(s, exp); q[i] == q[j] * exp(s[i].v - s[j].v)
  {
    hide *;
    ProbabilitiesAreSoftmax(s, exp);
    ExpsAt(s, exp, i);
    ExpsAt(s, exp, j);
    ExpRatio(exp, s[i].v, s[j].v, Sum(Exps(s, exp)));
  }

  lemma ExpsAt(s: seq<Logit>, exp: real -> real, i: nat)
    requires i < |s| && s[i].Fin?
    ensures Exps(s, exp)[i] == exp(s[i].v)
  {
  }

  lemma ExpRatio(exp: real -> real, x: real, y: real, total: real)
    requires Exponential(exp) && total > 0.0
    ensures exp(x) / total == exp(y) / total * exp(x - y)
  {
    hide *;
    ExpOfSum(exp, x - y, y);
    assert (x - y) + y == x;
    TimesQuotient(exp(x - y), exp(y), total);
  }

  lemma TimesQuotient(x: real, y: real, total: real)
    requires total > 0.0
    ensures Times(x, y) / total == y / total * x
  {
    var q := y / total;
    assert q * total == y;
    assert q * x * total == x * y;
  }

  /** Every logit that top-p keeps is at least every logit that it drops, and is unchanged. */
  lemma {:induction false} TopPKeepsLargest(s: seq<Logit>, p: real, exp: real -> real)
    requires MaxLogit(s).Fin? && (forall x :: exp(x) > 0.0) && Increasing(exp)
    ensures var r := TopP(s, p, exp);
      && |r| == |s|
      && (forall i :: 0 <= i < |s| && r[i].Fin? ==> r[i] == s[i])
      && (forall i, j :: 0 <= i < |s| && 0 <= j < |s| && r[i].Fin? && r[j].NegInf? && s[j].Fin? ==> s[i].v >= s[j].v)
      && (!(0.0 < p < 1.0) ==> r == s)
  {
    var r := TopP(s, p, exp);
    if 0.0 < p < 1.0 {
      TopPKeepsPrefix(s, p, exp);
      hide Probabilities, Cut, Mass, MaxLogit;
      forall i, j | 0 <= i < |s| && 0 <= j < |s| && r[i].Fin? && r[j].NegInf? && s[j].Fin?
        ensures s[i].v >= s[j].v
      {
        assert i in Kept(r) && j !in Kept(r);
        ProbabilityOrder(s, exp, i, j);
      }
    }
  }

  lemma {:induction false} SomeFinite(s: seq<Logit>, i: nat)
    requires i < |s| && s[i].Fin?
    ensures MaxLogit(s).Fin?
  {
    if i < |s| - 1 {
      SomeFinite(Front(s), i);
    }
  }

  /** Top-k always leaves a candidate, so top-p is applicable after it. */
  lemma TopKLeavesCandidate(s: seq<Logit>, k: nat)
    requires AllFinite(s) && s != []
    ensures MaxLogit(TopK(s, k)).Fin?
  {
    var r := TopK(s, k);
    if 0 < k < |s| {
      TopKKeepsLargest(s, k);
      assert Kept(r) != {};
      var i :| i in Kept(r);
      SomeFinite(r, i);
    } else {
      assert r == s;
      SomeFinite(s, 0);
    }
  }

  // ---------------------------------------------------------------------
  // What top-p keeps
  // ---------------------------------------------------------------------

  /** Top-p keeps exactly the c most probable entries, where c is the length of the longest
      prefix of mass at most p, and it always drops something. */
  lemma {:induction false} TopPKeepsPrefix(s: seq<Logit>, p: real, exp: real -> real)
    requires MaxLogit(s).Fin? && (forall x :: exp(x) > 0.0) && 0.0 < p < 1.0
    ensures var probs := Probabilities(s, exp);
      var order := SortDescending(probs);
      var c, r := Cut(order, probs, p, 0), TopP(s, p, exp);
      && c < |s| && Mass(order, probs, c) <= p < Mass(order, probs, c + 1)
      && Kept(r) == Prefix(order, c) && |Kept(r)| == c
      && (forall i, j :: 0 <= i < |s| && 0 <= j < |s| && i in Kept(r) && j !in Kept(r) ==> probs[i] >= probs[j])
  {
    var probs := Probabilities(s, exp);
    var order := SortDescending(probs);
    var c, r := Cut(order, probs, p, 0), TopP(s, p, exp);
    ProbabilitiesSumToOne(s, exp);
    TotalMass(probs);
    SortSorts(probs);
    PrefixSize(order, c);
    assert c < |order|;
    KeptIsPrefix(s, p, exp);
    forall i, j | 0 <= i < |s| && 0 <= j < |s| && i in Kept(r) && j !in Kept(r)
      ensures probs[i] >= probs[j]
    {
      PrefixAbove(order, probs, c, i, j);
    }
  }

  lemma PrefixAbove(order: seq<nat>, keys: seq<real>, c: nat, i: nat, j: nat)
    requires Ordered(order, keys) && c <= |order| && i in Prefix(order, c) && j !in Prefix(order, c) && j in order
    ensures i < |keys| && j < |keys| && keys[i] >= keys[j]
  {
    var a :| 0 <= a < c && order[..c][a] == i;
    var b :| 0 <= b < |order| && order[b] == j;
    assert i in order;
    assert forall x :: 0 <= x < c ==> order[..c][x] == order[x];
    assert forall x :: 0 <= x < c ==> order[x] in order[..c];
    assert b >= c;
    assert KeyAt(order, keys, a) >= KeyAt(order, keys, b);
  }

  lemma KeptIsPrefix(s: seq<Logit>, p: real, exp: real -> real)
    requires MaxLogit(s).Fin? && (forall x :: exp(x) > 0.0) && 0.0 < p < 1.0
    ensures var probs := Probabilities(s, exp);
      var order := SortDescending(probs);
      var c := Cut(order, probs, p, 0);
      c < |order| ==> Kept(TopP(s, p, exp)) == Prefix(order, c)
  {
    var probs := Probabilities(s, exp);
    var order := SortDescending(probs);
    var c, r := Cut(order, probs, p, 0), TopP(s, p, exp);
    ProbabilitiesSumToOne(s, exp);
    SortSorts(probs);
    if c < |order| {
      forall i: nat
        ensures i in Kept(r) <==> i in Prefix(order, c)
      {
        if i < |s| {
          PrefixOrTail(order, c, i);
          if i in Prefix(order, c) {
            PrefixIsFinite(s, exp, p, i);
          }
        } else {
          assert i in Prefix(order, c) ==> i in order;
        }
      }
    }
  }

  lemma PrefixOrTail(order: seq<nat>, c: nat, i: nat)
    requires c <= |order| && Distinct(order) && i in order
    ensures i in Prefix(order, c) <==> i !in order[c..]
  {
    var a :| 0 <= a < |order| && order[a] == i;
    if a < c {
      assert order[..c][a] == i;
      assert forall b :: 0 <= b < |order[c..]| ==> order[c..][b] != i;
    } else {
      assert order[c..][a - c] == i;
      assert forall b :: 0 <= b < c ==> order[..c][b] != i;
    }
  }

  /** An entry of the kept prefix has positive probability, hence was a candidate. */
  lemma PrefixIsFinite(s: seq<Logit>, exp: real -> real, p: real, i: nat)
    requires MaxLogit(s).Fin? && (forall x :: exp(x) > 0.0) && i < |s|
    requires var probs := Probabilities(s, exp);
      var order := SortDescending(probs);
      var c := Cut(order, probs, p, 0);
      0.0 < p && c < |order| && i in Prefix(order, c)
    ensures s[i].Fin?
  {
    var probs := Probabilities(s, exp);
    var order := SortDescending(probs);
    var c := Cut(order, probs, p, 0);
    ProbabilitiesSumToOne(s, exp);
    SortSorts(probs);
    var a :| 0 <= a < c && order[..c][a] == i;
    assert Mass(order, probs, c) <= p < Mass(order, probs, c + 1);
    assert KeyAt(order, probs, c) > 0.0;
    assert KeyAt(order, probs, a) >= KeyAt(order, probs, c);
    assert order[a] == i;
  }

  // ---------------------------------------------------------------------
  // The fallback
  // ---------------------------------------------------------------------

  /** `max_by`: of equal maxima the last one wins. */
  method ArgMaxLast(a: seq<Logit>) returns (token: nat)
    ensures a == [] ==> token == 0
    ensures a != [] ==> token < |a|
    ensures a != [] ==> forall i :: 0 <= i < |a| ==> !Less(a[token], a[i])
    ensures a != [] ==> forall i :: token < i < |a| ==> Less(a[i], a[token])
  {
    token := 0;
    for i := 0 to |a|
      invariant i > 0 ==> token < i
      invariant i == 0 ==> token == 0
      invariant forall j :: 0 <= j < i ==> !Less(a[token], a[j])
      invariant forall j :: token < j < i ==> Less(a[j], a[token])
    {
      if !Less(a[i], a[token]) {
        token := i;
      }
    }
  }

  /** Everything is filtered out exactly when the most probable entry alone exceeds p. */
  lemma {:induction false} EmptyIffTopExceeds(s: seq<Logit>, p: real, exp: real -> real)
    requires MaxLogit(s).Fin? && (forall x :: exp(x) > 0.0) && 0.0 < p < 1.0
    ensures var probs := Probabilities(s, exp);
      Kept(TopP(s, p, exp)) == {} <==> exists i :: 0 <= i < |s| && probs[i] > p
  {
    var probs := Probabilities(s, exp);
    var order := SortDescending(probs);
    TopPKeepsPrefix(s, p, exp);
    SortSorts(probs);
    var c := Cut(order, probs, p, 0);
    assert Mass(order, probs, 1) == Mass(order, probs, 0) + KeyAt(order, probs, 0);
    assert order[0] in order;
    if c == 0 {
      assert probs[order[0]] > p;
      assert |Kept(TopP(s, p, exp))| == 0;
    } else {
      forall i | 0 <= i < |s|
        ensures probs[i] <= p
      {
        var a := RankOf(probs, i);
        assert a > 0 ==> KeyAt(order, probs, 0) >= KeyAt(order, probs, a);
      }
    }
  }

  /** The fallback sees a vector that is already all masked, so it picks the last token of the
      vocabulary, whatever the logits were. */
  method FallbackToken(a: array<Logit>) returns (token: Option<nat>)
    ensures token.None? <==> Kept(a[..]) != {}
    ensures token.Some? && a.Length > 0 ==> token.value == a.Length - 1
  {
    var allInf := true;
    for i := 0 to a.Length
      invariant allInf <==> forall j :: 0 <= j < i ==> a[j].NegInf?
    {
      if a[i].Fin? {
        assert i in Kept(a[..]);
        allInf := false;
      }
    }
    if allInf {
      var logits := a[..];
      var t := ArgMaxLast(logits);
      assert a.Length > 0 ==> logits[a.Length - 1].NegInf?;
      token := Some(t);
    } else {
      var j :| 0 <= j < a.Length && a[j].Fin?;
      assert j in Kept(a[..]);
      token := None;
    }
  }

  /** The documented nucleus, the smallest prefix whose mass exceeds p, has exactly one entry
      more than what is kept. */
  lemma DocumentedNucleusIsLarger(order: seq<nat>, probs: seq<real>, p: real, n: nat)
    requires n <= |order| && Mass(order, probs, n) > p && 0.0 < p
    requires forall m :: 0 <= m < n ==> Mass(order, probs, m) <= p
    ensures n == Cut(order, probs, p, 0) + 1
  {
    var c := Cut(order, probs, p, 0);
    assert c < n ==> Mass(order, probs, c + 1) > p;
  }
}
