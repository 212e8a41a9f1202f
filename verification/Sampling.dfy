// The sampler's stages one after another (executor.rs): temperature, top-k, top-p, fallback.
module Sampling {
  import opened Common
  import opened Sorting
  import opened Sampler

  /** f32::EPSILON, the distance from 1.0 below which a temperature is ignored. */
  const EPSILON: real := 1.0 / 8388608.0

  predicate Rescales(temperature: Option<real>) {
    temperature.Some? && temperature.value > 0.0
    && (temperature.value - 1.0 > EPSILON || 1.0 - temperature.value > EPSILON)
  }

  function Scaled(l: Logit, scale: real): Logit {
    if l.Fin? then Fin(l.v * scale) else NegInf
  }

  function Tempered(s: seq<Logit>, temperature: Option<real>): (r: seq<Logit>)
    ensures |r| == |s| && (AllFinite(s) ==> AllFinite(r))
  {
    if Rescales(temperature) then
      seq(|s|, i requires 0 <= i < |s| => Scaled(s[i], 1.0 / temperature.value))
    else s
  }

  function TopKOf(s: seq<Logit>, k: Option<nat>): seq<Logit> {
    if k.Some? then TopK(s, k.value) else s
  }

  function TopPOf(s: seq<Logit>, p: Option<real>, exp: real -> real): seq<Logit>
    requires MaxLogit(s).Fin?
  {
    if p.Some? then TopP(s, p.value, exp) else s
  }

  /** What is left after temperature and top-k always has a candidate. */
  lemma CandidateBeforeTopP(s: seq<Logit>, temperature: Option<real>, k: Option<nat>)
    requires AllFinite(s) && s != []
    ensures MaxLogit(TopKOf(Tempered(s, temperature), k)).Fin?
    ensures |TopKOf(Tempered(s, temperature), k)| == |s| && Kept(TopKOf(Tempered(s, temperature), k)) != {}
  {
    var t := Tempered(s, temperature);
    if k.Some? {
      TopKLeavesCandidate(t, k.value);
    } else {
      SomeFinite(t, 0);
    }
    var r := TopKOf(t, k);
    MaxIsReached(r);
    var i :| 0 <= i < |r| && r[i] == MaxLogit(r);
    assert i in Kept(r);
  }

  method ApplyTemperature(a: array<Logit>, temperature: Option<real>)
    modifies a
    ensures a[..] == Tempered(old(a[..]), temperature)
  {
    if Rescales(temperature) {
      ghost var s := a[..];
      var scale := 1.0 / temperature.value;
      for i := 0 to a.Length
        invariant forall j :: 0 <= j < i ==> a[j] == Scaled(s[j], scale)
        invariant forall j :: i <= j < a.Length ==> a[j] == s[j]
      {
        a[i] := Scaled(a[i], scale);
      }
    }
  }

  /** All stages. The fallback is taken exactly when top-p is on and one entry alone has more
      than its mass; it is the last token of the vocabulary whatever the logits are. Otherwise
      the token is drawn from the entries left in `a`. */
  method FilterLogits(a: array<Logit>, temperature: Option<real>, topK: Option<nat>, topP: Option<real>, exp: real -> real)
    returns (fallback: Option<nat>)
    requires AllFinite(a[..]) && a.Length > 0 && forall x :: exp(x) > 0.0
    modifies a
    ensures MaxLogit(TopKOf(Tempered(old(a[..]), temperature), topK)).Fin?
    ensures a[..] == TopPOf(TopKOf(Tempered(old(a[..]), temperature), topK), topP, exp)
    ensures fallback.Some? <==>
      topP.Some? && 0.0 < topP.value < 1.0
      && Exceeds(Probabilities(TopKOf(Tempered(old(a[..]), temperature), topK), exp), topP.value)
    ensures fallback.Some? ==> fallback.value == a.Length - 1
    ensures Increasing(exp) ==> BestLeft(old(a[..]), a[..], temperature)
  {
    ghost var s := a[..];
    hide Tempered, TopK, TopP, Probabilities;
    CandidateBeforeTopP(s, temperature, topK);
    ApplyTemperature(a, temperature);
    if topK.Some? {
      FilterTopK(a, topK.value);
    }
    ghost var r := a[..];
    assert r == TopKOf(Tempered(s, temperature), topK);
    if topP.Some? {
      FilterTopP(a, topP.value, exp);
    }
    LeftIff(r, topP, exp);
    if Increasing(exp) {
      StagesKeepLargest(s, temperature, topK, topP, exp);
    }
    fallback := FallbackToken(a);
  }

  /** What sampling may still draw: logits over the temperature, unless that is off or within an
      epsilon of one; and none of them below a logit that has been filtered out. */
  ghost predicate BestLeft(s: seq<Logit>, r: seq<Logit>, temperature: Option<real>) {
    && AllFinite(s) && |r| == |s|
    && (forall i :: 0 <= i < |s| && r[i].Fin? ==>
         r[i].v == match temperature
                   case None => s[i].v
                   case Some(t) => if t <= 0.0 || 1.0 - EPSILON <= t <= 1.0 + EPSILON then s[i].v else s[i].v / t)
    && (forall i, j :: 0 <= i < |s| && 0 <= j < |s| && r[i].Fin? && r[j].NegInf? ==> s[i].v >= s[j].v)
  }

  lemma TemperedIs(s: seq<Logit>, temperature: Option<real>)
    requires AllFinite(s)
    ensures BestLeft(s, Tempered(s, temperature), temperature)
  {
    if Rescales(temperature) {
      forall i | 0 <= i < |s|
        ensures s[i].v * (1.0 / temperature.value) == s[i].v / temperature.value
      {
        TimesReciprocal(s[i].v, temperature.value);
      }
    }
  }

  lemma TimesReciprocal(a: real, t: real)
    requires t > 0.0
    ensures a * (1.0 / t) == a / t
  {
    var x, y := 1.0 / t, a / t;
    assert x * t == 1.0 && y * t == a;
    assert a * x * t == a;
  }

  lemma TemperedOrder(s: seq<Logit>, temperature: Option<real>)
    requires AllFinite(s)
    ensures var t := Tempered(s, temperature);
      forall i, j :: 0 <= i < |s| && 0 <= j < |s| ==> (t[i].v >= t[j].v <==> s[i].v >= s[j].v)
  {
    var t := Tempered(s, temperature);
    if Rescales(temperature) {
      TemperedKeys(s, temperature);
      hide Times, Rescales, Tempered;
      var scale := 1.0 / temperature.value;
      forall i, j | 0 <= i < |s| && 0 <= j < |s|
        ensures t[i].v >= t[j].v <==> s[i].v >= s[j].v
      {
        TimesOrder(s[i].v, s[j].v, scale);
        assert Values(s)[i] == s[i].v && Values(t)[i] == t[i].v && Values(s)[j] == s[j].v && Values(t)[j] == t[j].v;
      }
    }
  }

  /** What top-k leaves. */
  lemma TopKLeavesLargest(t: seq<Logit>, k: Option<nat>)
    requires AllFinite(t)
    ensures var r := TopKOf(t, k);
      && |r| == |t| && (forall i :: 0 <= i < |t| && r[i].Fin? ==> r[i] == t[i])
      && (forall i, j :: 0 <= i < |t| && 0 <= j < |t| && r[i].Fin? && r[j].NegInf? ==> t[i].v >= t[j].v)
  {
    if k.Some? && 0 < k.value < |t| {
      TopKKeepsLargest(t, k.value);
    }
  }

  /** No stage drops a larger logit than one it keeps, and the stages together change logits only
      by the temperature. */
  lemma {:induction false} StagesKeepLargest(s: seq<Logit>, temperature: Option<real>, topK: Option<nat>,
                                             topP: Option<real>, exp: real -> real)
    requires AllFinite(s) && s != [] && (forall x :: exp(x) > 0.0) && Increasing(exp)
    ensures MaxLogit(TopKOf(Tempered(s, temperature), topK)).Fin?
    ensures BestLeft(s, TopPOf(TopKOf(Tempered(s, temperature), topK), topP, exp), temperature)
  {
    hide Tempered, TopK, TopP, MaxLogit, Increasing, TopKOf;
    CandidateBeforeTopP(s, temperature, topK);
    var t := Tempered(s, temperature);
    var u := TopKOf(t, topK);
    var r := TopPOf(u, topP, exp);
    TemperedIs(s, temperature);
    TemperedOrder(s, temperature);
    TopKLeavesLargest(t, topK);
    if topP.Some? {
      TopPKeepsLargest(u, topP.value, exp);
    }
    forall i, j | 0 <= i < |s| && 0 <= j < |s| && r[i].Fin? && r[j].NegInf?
      ensures s[i].v >= s[j].v
    {
      assert u[i].Fin? && u[i] == t[i];
      assert u[j].Fin? ==> u[j] == t[j];
    }
  }

  ghost predicate Exceeds(probs: seq<real>, p: real) {
    exists i :: 0 <= i < |probs| && probs[i] > p
  }

  lemma LeftIff(r: seq<Logit>, topP: Option<real>, exp: real -> real)
    requires MaxLogit(r).Fin? && Kept(r) != {} && forall x :: exp(x) > 0.0
    ensures Kept(TopPOf(r, topP, exp)) == {} <==>
      topP.Some? && 0.0 < topP.value < 1.0 && Exceeds(Probabilities(r, exp), topP.value)
  {
    if topP.Some? && 0.0 < topP.value < 1.0 {
      EmptyIffTopExceeds(r, topP.value, exp);
      hide TopP, Probabilities, Kept;
    }
  }

  // ---------------------------------------------------------------------
  // Temperature and top-k
  // ---------------------------------------------------------------------

  /** Two lists of keys that order the indices alike. */
  ghost predicate SameOrder(one: seq<real>, two: seq<real>) {
    |one| == |two| && forall x, y :: 0 <= x < |one| && 0 <= y < |one| ==> (one[x] >= one[y] <==> two[x] >= two[y])
  }

  lemma {:induction false} InsertSame(order: seq<nat>, i: nat, one: seq<real>, two: seq<real>)
    requires SameOrder(one, two) && i < |one| && InBounds(order, one)
    ensures InBounds(order, two) && Insert(order, i, one) == Insert(order, i, two)
    decreases |order|
  {
    if order != [] {
      FrontLast(order);
      assert Last(order) in order;
      assert forall x :: x in Front(order) ==> x in order;
      InsertSame(Front(order), i, one, two);
    }
  }

  lemma {:induction false} PrefixSame(one: seq<real>, two: seq<real>, n: nat)
    requires SameOrder(one, two) && n <= |one|
    ensures SortedPrefix(one, n) == SortedPrefix(two, n)
  {
    if n > 0 {
      PrefixSame(one, two, n - 1);
      InsertSame(SortedPrefix(one, n - 1), n - 1, one, two);
    }
  }

  lemma TimesOrder(a: real, b: real, scale: real)
    requires scale > 0.0
    ensures Times(a, scale) >= Times(b, scale) <==> a >= b
  {
    assert a * scale - b * scale == (a - b) * scale;
  }

  ghost predicate ScaledBy(one: seq<real>, two: seq<real>, scale: real) {
    |one| == |two| && forall i :: 0 <= i < |one| ==> two[i] == Times(one[i], scale)
  }

  lemma ScaledThreshold(one: seq<real>, two: seq<real>, scale: real, k: nat)
    requires scale > 0.0 && ScaledBy(one, two, scale) && 0 < k <= |one|
    ensures Threshold(two, k) == Times(Threshold(one, k), scale)
  {
    hide Times;
    forall x, y | 0 <= x < |one| && 0 <= y < |one|
      ensures one[x] >= one[y] <==> two[x] >= two[y]
    {
      TimesOrder(one[x], one[y], scale);
    }
    PrefixSame(one, two, |one|);
    var order := SortDescending(one);
    hide SortedPrefix, Insert;
    assert order[k - 1] in order;
  }

  lemma KeptByTopK(s: seq<Logit>, k: nat)
    requires AllFinite(s)
    ensures var k', keys := Min(k, |s|), Values(s);
      forall i: nat :: i in Kept(TopK(s, k)) <==> i < |s| && (0 < k' < |s| ==> keys[i] >= Threshold(keys, k'))
  {
    hide Threshold;
  }

  lemma TemperedKeys(s: seq<Logit>, temperature: Option<real>)
    requires AllFinite(s) && Rescales(temperature)
    ensures 1.0 / temperature.value > 0.0
    ensures ScaledBy(Values(s), Values(Tempered(s, temperature)), 1.0 / temperature.value)
  {
  }

  /** No temperature changes which entries top-k keeps. */
  lemma {:induction false} TemperatureKeepsTopK(s: seq<Logit>, temperature: Option<real>, k: nat)
    requires AllFinite(s)
    ensures Kept(TopK(Tempered(s, temperature), k)) == Kept(TopK(s, k))
  {
    if Rescales(temperature) {
      var scale := 1.0 / temperature.value;
      TemperedKeys(s, temperature);
      hide *;
      var t, k' := Tempered(s, temperature), Min(k, |s|);
      KeptByTopK(s, k);
      KeptByTopK(t, k);
      if 0 < k' < |s| {
        SameSide(Values(s), Values(t), scale, k');
      }
    }
  }

  lemma SameSide(one: seq<real>, two: seq<real>, scale: real, k: nat)
    requires scale > 0.0 && ScaledBy(one, two, scale) && 0 < k <= |one|
    ensures |two| == |one|
    ensures forall i :: 0 <= i < |one| ==> (one[i] >= Threshold(one, k) <==> two[i] >= Threshold(two, k))
  {
    hide Times, Threshold;
    ScaledThreshold(one, two, scale, k);
    forall i | 0 <= i < |one|
      ensures one[i] >= Threshold(one, k) <==> two[i] >= Threshold(two, k)
    {
      TimesOrder(one[i], Threshold(one, k), scale);
    }
  }
}
