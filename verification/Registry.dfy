// The array registry (bridge.rs): a slot allocator with a freelist and handles that pack
// a generation with a slot.
module Registry {
  import opened Common

  const U64_LIMIT: nat := U32_LIMIT * U32_LIMIT

  type Handle = h: nat | h < U64_LIMIT

  function Pack(slot: nat, generation: nat): Handle
    requires slot < U32_LIMIT && generation < U32_LIMIT
  {
    generation * U32_LIMIT + slot
  }

  /** (slot, generation) */
  function Unpack(h: Handle): (r: (nat, nat))
    ensures r.0 < U32_LIMIT && r.1 < U32_LIMIT
  {
    (h % U32_LIMIT, h / U32_LIMIT)
  }

  /** Packing and unpacking are inverse to each other. */
  lemma PackUnpack(slot: nat, generation: nat)
    requires slot < U32_LIMIT && generation < U32_LIMIT
    ensures Unpack(Pack(slot, generation)) == (slot, generation)
  {
  }

  lemma UnpackPack(h: Handle)
    ensures Pack(Unpack(h).0, Unpack(h).1) == h
  {
  }

  datatype Entry<A> = Entry(item: A, generation: nat)

  /** Slot 0 guards the null handle and is never used. */
  datatype Registry<A> = Registry(slots: seq<Option<Entry<A>>>, freelist: seq<nat>, totalAllocated: nat)

  function New<A>(): Registry<A> {
    Registry([None], [], 0)
  }

  /** The released slot numbers index the slots: otherwise `insert` would panic. */
  predicate Indexable<A>(r: Registry<A>) {
    forall k :: 0 <= k < |r.freelist| ==> r.freelist[k] < |r.slots| && r.freelist[k] < U32_LIMIT
  }

  /** A released slot is reused with the next generation of what is left in it, or 1;
      otherwise a slot is added, whose number is cut to 32 bits. */
  function Insert<A>(r: Registry<A>, a: A): (Registry<A>, Handle)
    requires Indexable(r)
  {
    if r.freelist != [] then
      var slot := Last(r.freelist);
      var existing := r.slots[slot];
      var generation := if existing.Some? then (existing.value.generation + 1) % U32_LIMIT else 1;
      (r.(slots := r.slots[slot := Some(Entry(a, generation))], freelist := Front(r.freelist),
          totalAllocated := r.totalAllocated + 1),
       Pack(slot, generation))
    else
      (r.(slots := r.slots + [Some(Entry(a, 1))], totalAllocated := r.totalAllocated + 1),
       Pack(|r.slots| % U32_LIMIT, 1))
  }

  function Get<A>(r: Registry<A>, h: Handle): Option<A> {
    var (slot, generation) := Unpack(h);
    if slot == 0 || slot >= |r.slots| || r.slots[slot].None? then None
    else if r.slots[slot].value.generation == generation then Some(r.slots[slot].value.item)
    else None
  }

  function Remove<A>(r: Registry<A>, h: Handle): (Registry<A>, Option<A>) {
    var (slot, generation) := Unpack(h);
    if slot == 0 || slot >= |r.slots| || r.slots[slot].None? then (r, None)
    else if r.slots[slot].value.generation == generation then
      (r.(slots := r.slots[slot := None], freelist := r.freelist + [slot]), Some(r.slots[slot].value.item))
    else (r, None)
  }

  function Drain<A>(r: Registry<A>): Registry<A> {
    r.(slots := [None], freelist := [])
  }

  // ---------------------------------------------------------------------
  // Invariant
  // ---------------------------------------------------------------------

  /** The live handles. */
  ghost function Handles<A>(r: Registry<A>): set<Handle>
    requires |r.slots| <= U32_LIMIT && forall s :: 0 <= s < |r.slots| && r.slots[s].Some? ==> r.slots[s].value.generation == 1
  {
    set s | 1 <= s < |r.slots| && r.slots[s].Some? :: Pack(s, 1)
  }

  /** What the registry stands for: a map from live handles to arrays. */
  ghost function Contents<A>(r: Registry<A>): map<Handle, A>
    requires Shaped(r)
  {
    map h: Handle | h in Handles(r) && Get(r, h).Some? :: Get(r, h).value
  }

  /** Every live entry has generation 1: `remove` forgets the generation of a slot. */
  ghost predicate Shaped<A>(r: Registry<A>) {
    && 1 <= |r.slots| <= U32_LIMIT && r.slots[0].None?
    && forall s :: 0 <= s < |r.slots| && r.slots[s].Some? ==> r.slots[s].value.generation == 1
  }

  /** The freelist is exactly the free slots other than 0, without repeats. */
  ghost predicate FreelistExact<A>(r: Registry<A>) {
    && Distinct(r.freelist)
    && (forall k :: 0 <= k < |r.freelist| ==> 1 <= r.freelist[k] < |r.slots| && r.slots[r.freelist[k]].None?)
    && (forall s :: 1 <= s < |r.slots| && r.slots[s].None? ==> s in r.freelist)
  }

  ghost predicate Valid<A>(r: Registry<A>) {
    && Shaped(r)
    && FreelistExact(r)
    && |r.slots| == 1 + |Contents(r)| + |r.freelist|
  }

  lemma HandleIff<A>(r: Registry<A>, h: Handle)
    requires Shaped(r)
    ensures h in Contents(r) <==> Get(r, h).Some?
    ensures h in Contents(r) ==> Contents(r)[h] == Get(r, h).value
    ensures Get(r, h).Some? <==> Unpack(h).1 == 1 && 1 <= Unpack(h).0 < |r.slots| && r.slots[Unpack(h).0].Some?
  {
    UnpackPack(h);
    if Get(r, h).Some? {
      assert h == Pack(Unpack(h).0, 1);
    }
  }

  lemma NewValid<A>()
    ensures Valid(New<A>()) && Contents(New<A>()) == map[]
  {
    assert Handles(New<A>()) == {};
  }

  /** There is a slot for one more array. */
  ghost predicate Room<A>(r: Registry<A>) {
    r.freelist != [] || |r.slots| < U32_LIMIT
  }

  lemma ValidIndexable<A>(r: Registry<A>)
    requires Valid(r)
    ensures Indexable(r) && Shaped(r) && FreelistExact(r) && |r.slots| == 1 + |Contents(r)| + |r.freelist|
  {
  }

  lemma ValidFrom<A>(r: Registry<A>)
    requires Shaped(r) && FreelistExact(r) && |r.slots| == 1 + |Contents(r)| + |r.freelist|
    ensures Valid(r)
  {
  }

  /** Insert adds one fresh handle, never the null handle, for the given array. */
  lemma InsertSpec<A>(r: Registry<A>, a: A)
    requires Valid(r) && Room(r)
    ensures Indexable(r)
    ensures var (n, h) := Insert(r, a);
      && Valid(n) && h !in Contents(r) && Contents(n) == Contents(r)[h := a] && Unpack(h).0 != 0
  {
    hide *;
    ValidIndexable(r);
    var (n, h) := Insert(r, a);
    InsertFreelist(r, a);
    InsertLookups(r, a);
    HandleIff(r, h);
    var m := Contents(r)[h := a];
    forall g: Handle
      ensures Get(n, g) == if g in m then Some(m[g]) else None
    {
      HandleIff(r, g);
    }
    ContentsFrom(r, n, m);
    InsertSizes(r, a);
    ValidFrom(n);
  }

  lemma InsertSizes<A>(r: Registry<A>, a: A)
    requires Indexable(r)
    ensures |Insert(r, a).0.slots| - |Insert(r, a).0.freelist| == |r.slots| - |r.freelist| + 1
  {
  }

  lemma InsertLookups<A>(r: Registry<A>, a: A)
    requires Shaped(r) && FreelistExact(r) && Indexable(r) && Room(r)
    ensures var (n, h) := Insert(r, a);
      && Unpack(h).0 != 0 && Get(r, h).None?
      && forall g: Handle :: Get(n, g) == if g == h then Some(a) else Get(r, g)
  {
    var (n, h) := Insert(r, a);
    var slot := if r.freelist != [] then Last(r.freelist) else |r.slots|;
    assert r.freelist != [] ==> slot == r.freelist[|r.freelist| - 1];
    hide Distinct, Pack, Unpack, Insert;
    assert h == Pack(slot, 1) && n.slots == (if slot < |r.slots| then r.slots[slot := Some(Entry(a, 1))] else r.slots + [Some(Entry(a, 1))]) by {
      InsertShape(r, a);
    }
    PackUnpack(slot, 1);
    forall g: Handle
      ensures Get(n, g) == if g == h then Some(a) else Get(r, g)
    {
      UnpackPack(g);
    }
  }

  lemma InsertShape<A>(r: Registry<A>, a: A)
    requires Shaped(r) && FreelistExact(r) && Indexable(r) && Room(r)
    ensures var (n, h) := Insert(r, a);
      var slot := if r.freelist != [] then Last(r.freelist) else |r.slots|;
      && slot <= |r.slots| && slot < U32_LIMIT && h == Pack(slot, 1)
      && n.slots == (if slot < |r.slots| then r.slots[slot := Some(Entry(a, 1))] else r.slots + [Some(Entry(a, 1))])
  {
    if r.freelist != [] {
      assert r.slots[r.freelist[|r.freelist| - 1]].None?;
    }
  }

  lemma InsertFreelist<A>(r: Registry<A>, a: A)
    requires Shaped(r) && FreelistExact(r) && Indexable(r) && Room(r)
    ensures Shaped(Insert(r, a).0) && FreelistExact(Insert(r, a).0)
  {
    var n := Insert(r, a).0;
    if r.freelist != [] {
      var slot := Last(r.freelist);
      forall s | 1 <= s < |n.slots| && n.slots[s].None?
        ensures s in n.freelist
      {
        var k :| 0 <= k < |r.freelist| && r.freelist[k] == s;
        assert n.freelist[k] == s;
      }
    }
  }

  /** A registry whose lookups are those of a map stands for that map. */
  lemma ContentsFrom<A>(r: Registry<A>, n: Registry<A>, m: map<Handle, A>)
    requires Shaped(n)
    requires forall h: Handle :: Get(n, h) == if h in m then Some(m[h]) else None
    ensures Contents(n) == m
  {
    forall h: Handle
      ensures h in Contents(n) <==> h in m
      ensures h in m ==> Contents(n)[h] == m[h]
    {
      HandleIff(n, h);
    }
  }

  /** Remove takes exactly the given handle out, and answers what it stood for. */
  lemma RemoveSpec<A>(r: Registry<A>, h: Handle)
    requires Valid(r)
    ensures var (n, out) := Remove(r, h);
      && Valid(n) && Contents(n) == Contents(r) - {h}
      && (h in Contents(r) ==> out == Some(Contents(r)[h]))
      && (h !in Contents(r) ==> out == None && n == r)
  {
    hide *;
    ValidIndexable(r);
    var (n, out) := Remove(r, h);
    HandleIff(r, h);
    RemoveLookups(r, h);
    if h in Contents(r) {
      RemoveFreelist(r, h);
      var m := Contents(r) - {h};
      forall g: Handle
        ensures Get(n, g) == if g in m then Some(m[g]) else None
      {
        HandleIff(r, g);
      }
      ContentsFrom(r, n, m);
      assert Contents(r) == m[h := Contents(r)[h]];
      ValidFrom(n);
    } else {
      assert Contents(r) - {h} == Contents(r);
    }
  }

  lemma RemoveLookups<A>(r: Registry<A>, h: Handle)
    requires Shaped(r)
    ensures var (n, out) := Remove(r, h);
      && out == Get(r, h)
      && (out.None? ==> n == r)
      && (out.Some? ==> |n.slots| == |r.slots| && |n.freelist| == |r.freelist| + 1)
      && forall g: Handle :: Get(n, g) == if g == h then None else Get(r, g)
  {
    var (n, out) := Remove(r, h);
    hide Pack, Unpack;
    UnpackPack(h);
    forall g: Handle
      ensures Get(n, g) == if g == h then None else Get(r, g)
    {
      UnpackPack(g);
    }
  }

  lemma RemoveFreelist<A>(r: Registry<A>, h: Handle)
    requires Shaped(r) && FreelistExact(r) && Get(r, h).Some?
    ensures Shaped(Remove(r, h).0) && FreelistExact(Remove(r, h).0)
  {
    var n := Remove(r, h).0;
    var slot := Unpack(h).0;
    assert slot !in r.freelist;
    forall s | 1 <= s < |n.slots| && n.slots[s].None?
      ensures s in n.freelist
    {
      if s == slot {
        assert n.freelist[|r.freelist|] == s;
      } else {
        var k :| 0 <= k < |r.freelist| && r.freelist[k] == s;
        assert n.freelist[k] == s;
      }
    }
  }

  lemma DrainSpec<A>(r: Registry<A>)
    ensures Valid(Drain(r)) && Contents(Drain(r)) == map[]
  {
    assert Handles(Drain(r)) == {};
  }

  // ---------------------------------------------------------------------
  // Whole runs
  // ---------------------------------------------------------------------

  datatype Op<A> = DoInsert(a: A) | DoRemove(h: Handle) | DoDrain

  ghost predicate Guard<A>(r: Registry<A>, op: Op<A>) {
    op.DoInsert? ==> Indexable(r) && Room(r)
  }

  function Step<A>(r: Registry<A>, op: Op<A>): Registry<A>
    requires op.DoInsert? ==> Indexable(r)
  {
    match op
    case DoInsert(a) => Insert(r, a).0
    case DoRemove(h) => Remove(r, h).0
    case DoDrain => Drain(r)
  }

  /** The owner of each handle: the array stored by its own insert, until it is removed. */
  function OwnerStep<A>(owner: map<Handle, A>, r: Registry<A>, op: Op<A>): map<Handle, A>
    requires op.DoInsert? ==> Indexable(r)
  {
    match op
    case DoInsert(a) => owner[Insert(r, a).1 := a]
    case DoRemove(h) => owner - {h}
    case DoDrain => map[]
  }

  ghost function Run<A>(ops: seq<Op<A>>): Option<(Registry<A>, map<Handle, A>)> {
    if ops == [] then Some((New(), map[]))
    else
      match Run(Front(ops))
      case None => None
      case Some((r, owner)) =>
        if Guard(r, Last(ops)) then Some((Step(r, Last(ops)), OwnerStep(owner, r, Last(ops)))) else None
  }

  /** After every run: the freelist is exactly the free slots, slots = 1 + live + free, and a
      lookup succeeds exactly for the handles that were inserted and not removed since, with
      the array their own insert stored. No live handle is the null handle. */
  lemma {:induction false} RegistryRefinesMap<A>(ops: seq<Op<A>>)
    requires Run(ops).Some?
    ensures var (r, owner) := Run(ops).value;
      && Valid(r) && Contents(r) == owner
      && |r.slots| == 1 + |owner| + |r.freelist|
      && (forall h: Handle :: Get(r, h) == if h in owner then Some(owner[h]) else None)
      && 0 !in owner
  {
    if ops == [] {
      NewValid<A>();
    } else {
      RegistryRefinesMap(Front(ops));
      var (r, owner) := Run(Front(ops)).value;
      hide *;
      RunStep(ops);
      match Last(ops)
      case DoInsert(a) => InsertSpec(r, a);
      case DoRemove(h) => RemoveSpec(r, h);
      case DoDrain => DrainSpec(r);
    }
    MapLookups(Run(ops).value.0);
  }

  lemma RunStep<A>(ops: seq<Op<A>>)
    requires ops != [] && Run(ops).Some?
    ensures Run(Front(ops)).Some?
    ensures var (r, owner) := Run(Front(ops)).value;
      && Guard(r, Last(ops)) && Run(ops) == Some((Step(r, Last(ops)), OwnerStep(owner, r, Last(ops))))
      && match Last(ops) {
           case DoInsert(a) => Indexable(r) && Room(r) && Run(ops).value == (Insert(r, a).0, owner[Insert(r, a).1 := a])
           case DoRemove(h) => Run(ops).value == (Remove(r, h).0, owner - {h})
           case DoDrain => Run(ops).value == (Drain(r), map[])
         }
  {
  }

  lemma MapLookups<A>(r: Registry<A>)
    requires Valid(r)
    ensures forall h: Handle :: Get(r, h) == if h in Contents(r) then Some(Contents(r)[h]) else None
    ensures 0 !in Contents(r) && |r.slots| == 1 + |Contents(r)| + |r.freelist|
  {
    forall h: Handle
      ensures Get(r, h) == if h in Contents(r) then Some(Contents(r)[h]) else None
    {
      HandleIff(r, h);
    }
    assert Unpack(0).0 == 0;
    HandleIff(r, 0);
  }

  /** A valid registry never panics: only running out of 32-bit slots can stop a run. */
  lemma {:induction false} OnlyRoomIsNeeded<A>(ops: seq<Op<A>>, op: Op<A>)
    requires Run(ops).Some?
    ensures Run(ops + [op]).Some? <==> op.DoInsert? ==> Room(Run(ops).value.0)
  {
    RegistryRefinesMap(ops);
    ValidIndexable(Run(ops).value.0);
    AppendFrontLast(ops, op);
  }

  // ---------------------------------------------------------------------
  // Stale handles
  // ---------------------------------------------------------------------

  /** The promised rejection of stale handles fails for every live handle: remove it, insert
      another array, and the same handle resolves to the new array. */
  lemma ReuseRevivesHandle<A>(r: Registry<A>, h: Handle, b: A)
    requires Valid(r) && h in Contents(r)
    ensures Indexable(Remove(r, h).0)
    ensures Get(Remove(r, h).0, h).None?
    ensures var (n, g) := Insert(Remove(r, h).0, b); g == h && Get(n, h) == Some(b)
  {
    RemoveSpec(r, h);
    HandleIff(r, h);
    UnpackPack(h);
    var m := Remove(r, h).0;
    HandleIff(m, h);
    assert Last(m.freelist) == Unpack(h).0;
    InsertSpec(m, b);
    var (n, g) := Insert(m, b);
    HandleIff(n, h);
  }
}
