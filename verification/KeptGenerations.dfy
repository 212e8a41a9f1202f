// The registry's handle promise, kept: a variant of bridge.rs that remembers the
// generation of a released slot never lets a stale handle resolve again.
module KeptGenerations {
  import opened Common
  import opened Registry

  /** A slot and the generation of its latest use, which release does not forget. */
  datatype Slot<A> = Slot(item: Option<A>, generation: nat)

  datatype Kept<A> = Kept(slots: seq<Slot<A>>, freelist: seq<nat>)

  function NewKept<A>(): Kept<A> {
    Kept([Slot(None, 0)], [])
  }

  /** A fresh slot, or a released one whose generation still has a successor. */
  predicate CanInsert<A>(r: Kept<A>) {
    if r.freelist != [] then Last(r.freelist) < |r.slots| && r.slots[Last(r.freelist)].generation + 1 < U32_LIMIT
                             && Last(r.freelist) < U32_LIMIT
    else |r.slots| < U32_LIMIT
  }

  function InsertKept<A>(r: Kept<A>, a: A): (Kept<A>, Handle)
    requires CanInsert(r)
  {
    if r.freelist != [] then
      var slot := Last(r.freelist);
      var generation := r.slots[slot].generation + 1;
      (Kept(r.slots[slot := Slot(Some(a), generation)], Front(r.freelist)), Pack(slot, generation))
    else
      (Kept(r.slots + [Slot(Some(a), 1)], r.freelist), Pack(|r.slots|, 1))
  }

  function GetKept<A>(r: Kept<A>, h: Handle): Option<A> {
    var (slot, generation) := Unpack(h);
    if slot == 0 || slot >= |r.slots| || r.slots[slot].generation != generation then None else r.slots[slot].item
  }

  function RemoveKept<A>(r: Kept<A>, h: Handle): Kept<A> {
    var (slot, generation) := Unpack(h);
    if GetKept(r, h).None? then r
    else Kept(r.slots[slot := Slot(None, generation)], r.freelist + [slot])
  }

  /** Release every slot, but remember the generations. */
  function DrainKept<A>(r: Kept<A>): Kept<A> {
    Kept(seq(|r.slots|, i requires 0 <= i < |r.slots| => Slot(None, r.slots[i].generation)),
         if r.slots == [] then [] else seq(|r.slots| - 1, i => i + 1))
  }

  datatype KeptOp<A> = KeptInsert(a: A) | KeptRemove(h: Handle) | KeptDrain

  /** The registry, the arrays its handles own, and every handle ever issued. */
  datatype History<A> = History(r: Kept<A>, owner: map<Handle, A>, issued: set<Handle>)

  function RunKept<A>(ops: seq<KeptOp<A>>): Option<History<A>> {
    if ops == [] then Some(History(NewKept(), map[], {}))
    else
      match RunKept(Front(ops))
      case None => None
      case Some(s) =>
        match Last(ops)
        case KeptInsert(a) =>
          if !CanInsert(s.r) then None else
          var (n, h) := InsertKept(s.r, a);
          Some(History(n, s.owner[h := a], s.issued + {h}))
        case KeptRemove(h) => Some(History(RemoveKept(s.r, h), s.owner - {h}, s.issued))
        case KeptDrain => Some(History(DrainKept(s.r), map[], s.issued))
  }

  /** A released slot is empty, and no handle was issued beyond its slot's generation. */
  ghost predicate Ok<A>(s: History<A>) {
    && s.r.slots != [] && Distinct(s.r.freelist)
    && (forall k :: 0 <= k < |s.r.freelist| ==>
         1 <= s.r.freelist[k] < |s.r.slots| && s.r.slots[s.r.freelist[k]].item.None?)
    && (forall h :: h in s.issued ==>
         1 <= Unpack(h).0 < |s.r.slots| && Unpack(h).1 <= s.r.slots[Unpack(h).0].generation)
    && (forall h: Handle :: GetKept(s.r, h) == if h in s.owner then Some(s.owner[h]) else None)
    && s.owner.Keys <= s.issued
  }

  lemma OkInsert<A>(s: History<A>, a: A)
    requires Ok(s) && CanInsert(s.r)
    ensures var (n, h) := InsertKept(s.r, a);
      h !in s.issued && Ok(History(n, s.owner[h := a], s.issued + {h}))
  {
    var (n, h) := InsertKept(s.r, a);
    var slot := if s.r.freelist != [] then Last(s.r.freelist) else |s.r.slots|;
    var generation := if s.r.freelist != [] then s.r.slots[slot].generation + 1 else 1;
    assert s.r.freelist != [] ==> slot == s.r.freelist[|s.r.freelist| - 1];
    PackUnpack(slot, generation);
    hide Pack, Unpack;
    InsertLooks(s, a);
  }

  lemma InsertLooks<A>(s: History<A>, a: A)
    requires Ok(s) && CanInsert(s.r)
    ensures var (n, h) := InsertKept(s.r, a);
      forall g: Handle :: GetKept(n, g) == if g == h then Some(a) else GetKept(s.r, g)
  {
    var (n, h) := InsertKept(s.r, a);
    var slot := if s.r.freelist != [] then Last(s.r.freelist) else |s.r.slots|;
    assert s.r.freelist != [] ==> slot == s.r.freelist[|s.r.freelist| - 1];
    PackUnpack(slot, if s.r.freelist != [] then s.r.slots[slot].generation + 1 else 1);
    hide Pack, Unpack;
    forall g: Handle
      ensures GetKept(n, g) == if g == h then Some(a) else GetKept(s.r, g)
    {
      UnpackPack(g);
    }
  }

  lemma OkRemove<A>(s: History<A>, h: Handle)
    requires Ok(s)
    ensures Ok(History(RemoveKept(s.r, h), s.owner - {h}, s.issued))
  {
    var n := RemoveKept(s.r, h);
    hide Pack, Unpack;
    UnpackPack(h);
    forall g: Handle
      ensures GetKept(n, g) == if g == h then None else GetKept(s.r, g)
    {
      UnpackPack(g);
    }
  }

  lemma OkDrain<A>(s: History<A>)
    requires Ok(s)
    ensures Ok(History(DrainKept(s.r), map[], s.issued))
  {
    hide Pack, Unpack;
  }

  lemma {:induction false} RunOk<A>(ops: seq<KeptOp<A>>)
    requires RunKept(ops).Some?
    ensures Ok(RunKept(ops).value)
  {
    if ops != [] {
      RunOk(Front(ops));
      var s := RunKept(Front(ops)).value;
      hide Ok;
      match Last(ops)
      case KeptInsert(a) => OkInsert(s, a);
      case KeptRemove(h) => OkRemove(s, h);
      case KeptDrain => OkDrain(s);
    }
  }

  /** The documented promise, over all runs: once a handle has been issued and removed or drained,
      no later operation makes it resolve again. */
  lemma {:induction false} StaleForever<A>(ops: seq<KeptOp<A>>, more: seq<KeptOp<A>>, h: Handle)
    requires RunKept(ops).Some? && RunKept(ops + more).Some?
    requires h in RunKept(ops).value.issued && GetKept(RunKept(ops).value.r, h).None?
    ensures GetKept(RunKept(ops + more).value.r, h).None? && h in RunKept(ops + more).value.issued
    decreases |more|
  {
    if more == [] {
      assert ops + more == ops;
    } else {
      var all := ops + more;
      assert Front(all) == ops + Front(more) && Last(all) == Last(more);
      StaleForever(ops, Front(more), h);
      RunOk(Front(all));
      RunOk(all);
      var s := RunKept(Front(all)).value;
      if Last(all).KeptInsert? {
        OkInsert(s, Last(all).a);
      }
    }
  }
}
