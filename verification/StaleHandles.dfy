// How long a removed handle is rejected (bridge.rs): the released slots are a stack, so the
// handle comes back with the first insert that is not paid for by a later release.
module StaleHandles {
  import opened Common
  import opened Registry

  /** What an operation takes from the released slots: an insert takes one, a successful remove
      gives one back. */
  function Weight<A>(r: Registry<A>, op: Op<A>): int {
    match op
    case DoInsert(_) => 1
    case DoRemove(g) => if Get(r, g).Some? then -1 else 0
    case DoDrain => 0
  }

  /** Inserts less successful removes, from operation n on. */
  ghost function Net<A>(ops: seq<Op<A>>, n: nat): int
    requires n <= |ops| && Run(ops).Some?
  {
    if |ops| == n then 0 else Net(Front(ops), n) + Weight(Run(Front(ops)).value.0, Last(ops))
  }

  /** At no point since operation n have there been more inserts than successful removes. */
  ghost predicate PaidFor<A>(ops: seq<Op<A>>, n: nat)
    requires n <= |ops| && Run(ops).Some?
  {
    Net(ops, n) <= 0 && (|ops| > n ==> PaidFor(Front(ops), n))
  }

  /** At no point since operation n has the handle resolved. */
  ghost predicate Rejected<A>(ops: seq<Op<A>>, n: nat, h: Handle)
    requires n <= |ops| && Run(ops).Some?
  {
    Get(Run(ops).value.0, h).None? && (|ops| > n ==> Rejected(Front(ops), n, h))
  }

  ghost predicate NoDrain<A>(ops: seq<Op<A>>, n: nat) {
    forall k :: n <= k < |ops| ==> !ops[k].DoDrain?
  }

  /** A handle whose slot is on the freelist does not resolve. */
  lemma FreeIsRejected<A>(r: Registry<A>, h: Handle, k: nat)
    requires Valid(r) && k < |r.freelist| && r.freelist[k] == Unpack(h).0
    ensures Get(r, h).None?
  {
    HandleIff(r, h);
  }

  /** What a step does to the released slots. */
  lemma FreelistStep<A>(r: Registry<A>, op: Op<A>)
    requires Guard(r, op) && !op.DoDrain? && r.freelist != []
    ensures |Step(r, op).freelist| == |r.freelist| - Weight(r, op)
    ensures op.DoInsert? ==> Step(r, op).freelist == Front(r.freelist)
    ensures op.DoRemove? ==> r.freelist <= Step(r, op).freelist
  {
    hide Pack, Unpack;
  }

  /** The insert that pops h's slot makes h resolve. */
  lemma PopRevives<A>(r: Registry<A>, h: Handle, a: A)
    requires Valid(r) && Room(r) && Indexable(r) && r.freelist != []
    requires Last(r.freelist) == Unpack(h).0 && Unpack(h).1 == 1
    ensures Get(Insert(r, a).0, h).Some?
  {
    ValidIndexable(r);
    InsertShape(r, a);
    UnpackPack(h);
    InsertSpec(r, a);
    hide *;
    HandleIff(Insert(r, a).0, h);
    ContentsHas(r, h, a);
  }

  lemma ContentsHas<A>(r: Registry<A>, h: Handle, a: A)
    requires Indexable(r) && Shaped(Insert(r, a).0) && Shaped(r)
    requires Insert(r, a).1 == h && Contents(Insert(r, a).0) == Contents(r)[h := a]
    ensures h in Contents(Insert(r, a).0)
  {
  }

  /** One step from a registry whose released slots begin with `base`, which ends with h's slot. */
  lemma StackStep<A>(r: Registry<A>, base: seq<nat>, h: Handle, op: Op<A>)
    requires Valid(r) && Guard(r, op) && !op.DoDrain?
    requires base != [] && base <= r.freelist && Last(base) == Unpack(h).0 && Unpack(h).1 == 1
    requires Valid(Step(r, op))
    ensures |Step(r, op).freelist| == |r.freelist| - Weight(r, op)
    ensures Weight(r, op) <= |r.freelist| - |base| ==> base <= Step(r, op).freelist && Get(Step(r, op), h).None?
    ensures Weight(r, op) > |r.freelist| - |base| ==> Get(Step(r, op), h).Some?
  {
    hide *;
    StepInsert(r, op);
    FreelistStep(r, op);
    WeightBound(r, op);
    BaseKept(r.freelist, Step(r, op).freelist, base, Weight(r, op));
    if Weight(r, op) > |r.freelist| - |base| {
      PopRevives(r, h, op.a);
    } else {
      FreeIsRejected(Step(r, op), h, |base| - 1);
    }
  }

  /** A stack that loses at most its top keeps everything below. */
  lemma BaseKept(free: seq<nat>, next: seq<nat>, base: seq<nat>, weight: int)
    requires base != [] && base <= free && |next| == |free| - weight && weight <= 1
    requires if weight == 1 then next == Front(free) else free <= next
    ensures weight <= |free| - |base| ==> base <= next && next[|base| - 1] == Last(base)
    ensures weight > |free| - |base| ==> free == base && weight == 1
  {
  }

  lemma WeightBound<A>(r: Registry<A>, op: Op<A>)
    ensures Weight(r, op) <= 1 && (op.DoInsert? ==> Weight(r, op) == 1) && (op.DoRemove? ==> Weight(r, op) <= 0)
  {
    hide Get;
  }

  lemma StepInsert<A>(r: Registry<A>, op: Op<A>)
    requires Guard(r, op)
    ensures op.DoInsert? ==> Indexable(r) && Room(r) && Step(r, op) == Insert(r, op.a).0
  {
  }

  lemma {:induction false} StackRun<A>(ops: seq<Op<A>>, n: nat, base: seq<nat>, h: Handle)
    requires n <= |ops| && Run(ops).Some? && Run(ops[..n]).Some? && NoDrain(ops, n)
    requires base != [] && Run(ops[..n]).value.0.freelist == base && Last(base) == Unpack(h).0 && Unpack(h).1 == 1
    ensures Rejected(ops, n, h) <==> PaidFor(ops, n)
    ensures var r := Run(ops).value.0;
      PaidFor(ops, n) ==> base <= r.freelist && |r.freelist| == |base| - Net(ops, n)
  {
    hide Insert, Remove, Drain, Get, Valid, Unpack, Weight;
    RegistryRefinesMap(ops);
    if |ops| == n {
      assert ops[..n] == ops;
      FreeIsRejected(Run(ops).value.0, h, |base| - 1);
    } else {
      assert Front(ops)[..n] == ops[..n];
      assert Last(ops) == ops[|ops| - 1];
      RunStep(ops);
      StackRun(Front(ops), n, base, h);
      RegistryRefinesMap(Front(ops));
      if PaidFor(Front(ops), n) {
        StackStep(Run(Front(ops)).value.0, base, h, Last(ops));
      }
    }
  }

  /** The promised rejection, over runs: after any operations, remove a live handle; from then on
      (until a drain) it is rejected for exactly as long as no more arrays have been inserted
      than removed. */
  lemma {:induction false} StaleUntilReuse<A>(before: seq<Op<A>>, h: Handle, more: seq<Op<A>>)
    requires Run(before).Some? && h in Run(before).value.1
    requires Run(before + [DoRemove(h)] + more).Some? && NoDrain(more, 0)
    ensures var ops, n := before + [DoRemove(h)] + more, |before| + 1;
      Rejected(ops, n, h) <==> PaidFor(ops, n)
  {
    var removed, ops, n := before + [DoRemove(h)], before + [DoRemove(h)] + more, |before| + 1;
    AppendFrontLast(before, DoRemove(h));
    RegistryRefinesMap(before);
    var r := Run(before).value.0;
    assert Run(removed).Some? && Run(removed).value.0 == Remove(r, h).0;
    assert ops[..n] == removed;
    HandleIff(r, h);
    hide Run, Valid;
    assert NoDrain(ops, n) by {
      assert forall k :: n <= k < |ops| ==> ops[k] == more[k - n];
    }
    StackRun(ops, n, Remove(r, h).0.freelist, h);
  }

  // ---------------------------------------------------------------------
  // After a drain
  // ---------------------------------------------------------------------

  /** At no point since operation n have the inserts less the successful removes reached `bound`. */
  ghost predicate Below<A>(ops: seq<Op<A>>, n: nat, bound: nat)
    requires n <= |ops| && Run(ops).Some?
  {
    Net(ops, n) < bound && (|ops| > n ==> Below(Front(ops), n, bound))
  }

  /** The number of live entries. */
  function InUse<A>(r: Registry<A>): int {
    |r.slots| - 1 - |r.freelist|
  }

  lemma InUseStep<A>(r: Registry<A>, op: Op<A>)
    requires Guard(r, op) && !op.DoDrain?
    ensures InUse(Step(r, op)) == InUse(r) + Weight(r, op)
    ensures |r.slots| <= |Step(r, op).slots| <= |r.slots| + 1
    ensures |Step(r, op).slots| > |r.slots| ==> op.DoInsert? && r.freelist == []
  {
    hide Pack, Unpack;
  }

  /** A handle beyond the slots does not resolve. */
  lemma BeyondIsRejected<A>(r: Registry<A>, h: Handle)
    requires |r.slots| <= Unpack(h).0
    ensures Get(r, h).None?
  {
    hide Unpack;
  }

  /** The insert that adds h's slot makes h resolve. */
  lemma GrowthRevives<A>(r: Registry<A>, h: Handle, a: A)
    requires Valid(r) && Room(r) && Indexable(r) && r.freelist == []
    requires |r.slots| == Unpack(h).0 && Unpack(h).1 == 1
    ensures Get(Insert(r, a).0, h).Some?
  {
    ValidIndexable(r);
    InsertShape(r, a);
    UnpackPack(h);
    InsertSpec(r, a);
    hide *;
    HandleIff(Insert(r, a).0, h);
    ContentsHas(r, h, a);
  }

  lemma GrowthStep<A>(r: Registry<A>, h: Handle, op: Op<A>)
    requires Valid(r) && Guard(r, op) && !op.DoDrain? && |r.slots| <= Unpack(h).0 && Unpack(h).1 == 1
    requires InUse(r) < Unpack(h).0
    ensures InUse(Step(r, op)) == InUse(r) + Weight(r, op)
    ensures InUse(Step(r, op)) < Unpack(h).0 ==> |Step(r, op).slots| <= Unpack(h).0 && Get(Step(r, op), h).None?
    ensures InUse(Step(r, op)) >= Unpack(h).0 ==> Get(Step(r, op), h).Some?
  {
    InUseStep(r, op);
    WeightBound(r, op);
    StepInsert(r, op);
    SlotsCount(r);
    hide Valid, Unpack, Get, Insert, Remove, Step, Weight, Guard, Indexable, Room;
    if InUse(Step(r, op)) >= Unpack(h).0 {
      GrowthRevives(r, h, op.a);
    } else {
      BeyondIsRejected(Step(r, op), h);
    }
  }

  lemma SlotsCount<A>(r: Registry<A>)
    requires Valid(r)
    ensures |r.slots| >= 1 && InUse(r) >= 0
  {
  }

  lemma {:induction false} GrowthRun<A>(ops: seq<Op<A>>, n: nat, h: Handle)
    requires n <= |ops| && Run(ops).Some? && Run(ops[..n]).Some? && NoDrain(ops, n)
    requires |Run(ops[..n]).value.0.slots| == 1 && Run(ops[..n]).value.0.freelist == []
    requires Unpack(h).0 >= 1 && Unpack(h).1 == 1
    ensures Rejected(ops, n, h) <==> Below(ops, n, Unpack(h).0)
    ensures Below(ops, n, Unpack(h).0) ==>
      InUse(Run(ops).value.0) == Net(ops, n) && |Run(ops).value.0.slots| <= Unpack(h).0
  {
    hide Insert, Remove, Drain, Get, Valid, Unpack, Weight;
    if |ops| == n {
      assert ops[..n] == ops;
      BeyondIsRejected(Run(ops).value.0, h);
    } else {
      assert Front(ops)[..n] == ops[..n];
      assert Last(ops) == ops[|ops| - 1];
      RunStep(ops);
      GrowthRun(Front(ops), n, h);
      RegistryRefinesMap(Front(ops));
      if Below(Front(ops), n, Unpack(h).0) {
        GrowthStep(Run(Front(ops)).value.0, h, Last(ops));
      }
    }
  }

  /** After a drain a handle of slot s (of the form of every handle that is issued) is rejected for
      exactly as long as fewer than s entries are in use: inserts less successful removes. */
  lemma {:induction false} DrainedUntilReissued<A>(before: seq<Op<A>>, h: Handle, more: seq<Op<A>>)
    requires Unpack(h).0 >= 1 && Unpack(h).1 == 1
    requires Run(before).Some? && Run(before + [DoDrain] + more).Some? && NoDrain(more, 0)
    ensures var ops, n := before + [DoDrain] + more, |before| + 1;
      Rejected(ops, n, h) <==> Below(ops, n, Unpack(h).0)
  {
    var drained, ops, n := before + [DoDrain], before + [DoDrain] + more, |before| + 1;
    AppendFrontLast(before, DoDrain);
    var r := Run(before).value.0;
    assert Run(drained).Some? && Run(drained).value.0 == Drain(r);
    assert ops[..n] == drained;
    hide Run, Valid, Unpack;
    assert NoDrain(ops, n) by {
      assert forall k :: n <= k < |ops| ==> ops[k] == more[k - n];
    }
    GrowthRun(ops, n, h);
  }
}
