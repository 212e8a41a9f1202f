// The image runtime (compute_image.rs): persistent tensors, a lease per layer, and the
// handles that are live at the boundaries of a model run.
module Runtime {
  import opened Common
  import opened Registry
  import opened Bridge

  /** A tensor of a segment. `loaded` is what finding, slicing and converting it gives. */
  datatype Tensor<A> = Tensor(name: string, loaded: Option<A>)

  function SetOf(hs: seq<Handle>): set<Handle> {
    set h | h in hs
  }

  ghost predicate AllLoad<A>(ts: seq<Tensor<A>>) {
    forall t :: t in ts ==> t.loaded.Some?
  }

  /** How many tensors come before the first one that does not load. */
  function Loadable<A>(ts: seq<Tensor<A>>): nat {
    if ts == [] || ts[0].loaded.None? then 0 else 1 + Loadable(ts[1..])
  }

  lemma {:induction false} LoadableIs<A>(ts: seq<Tensor<A>>, n: nat)
    requires n <= |ts| && forall k :: 0 <= k < n ==> ts[k].loaded.Some?
    requires n < |ts| ==> ts[n].loaded.None?
    ensures Loadable(ts) == n && (AllLoad(ts) <==> n == |ts|)
  {
    if n > 0 {
      LoadableIs(ts[1..], n - 1);
      assert ts == [ts[0]] + ts[1..];
    }
  }

  /** The layer at which a run from layer `l` stops, or the number of layers. */
  ghost function StopsAt<A>(layers: seq<seq<Tensor<A>>>, executes: nat -> bool, l: nat): (n: nat)
    requires l <= |layers|
    ensures l <= n <= |layers|
    ensures forall m :: l <= m < n ==> AllLoad(layers[m]) && executes(m)
    ensures n < |layers| ==> !(AllLoad(layers[n]) && executes(n))
    decreases |layers| - l
  {
    if l == |layers| || !AllLoad(layers[l]) || !executes(l) then l else StopsAt(layers, executes, l + 1)
  }

  /** The handles that a run leaves behind: those of the layer at which it stops, if a tensor
      of it does not load. */
  ghost function Leaks<A>(layers: seq<seq<Tensor<A>>>, executes: nat -> bool): nat {
    var n := StopsAt(layers, executes, 0);
    if n < |layers| && !AllLoad(layers[n]) then Loadable(layers[n]) else 0
  }

  /** `now` is `before` with all tensors of `ts`. */
  ghost predicate Holding<A>(before: map<Handle, A>, now: map<Handle, A>, ts: seq<Tensor<A>>) {
    exists hs: seq<Handle> :: |hs| == |ts| && Added(before, now, hs, ts)
  }

  /** `now` is `before` with the new handles `hs` for the first tensors of `ts`. */
  ghost predicate Added<A>(before: map<Handle, A>, now: map<Handle, A>, hs: seq<Handle>, ts: seq<Tensor<A>>) {
    && |hs| <= |ts| && Distinct(hs)
    && now.Keys == before.Keys + SetOf(hs) && before.Keys !! SetOf(hs)
    && (forall h :: h in before ==> now[h] == before[h])
    && (forall k :: 0 <= k < |hs| ==> ts[k].loaded == Some(now[hs[k]]))
  }

  lemma AddedNone<A>(before: map<Handle, A>, ts: seq<Tensor<A>>)
    ensures Added(before, before, [], ts) && SetOf([]) == {}
  {
  }

  lemma AddedLoads<A>(before: map<Handle, A>, now: map<Handle, A>, hs: seq<Handle>, ts: seq<Tensor<A>>)
    requires Added(before, now, hs, ts)
    ensures |hs| <= |ts| && forall k :: 0 <= k < |hs| ==> ts[k].loaded.Some?
  {
  }

  lemma AllLoadEmpty<A>(ts: seq<Tensor<A>>)
    ensures AllLoad(ts[..0])
  {
  }

  lemma AllLoadStep<A>(ts: seq<Tensor<A>>, i: nat)
    requires i < |ts|
    ensures AllLoad(ts[..i + 1]) <==> AllLoad(ts[..i]) && ts[i].loaded.Some?
    ensures AllLoad(ts) ==> ts[i].loaded.Some?
  {
    assert ts[..i + 1] == ts[..i] + [ts[i]];
  }

  lemma SetOfStep(hs: seq<Handle>, i: nat)
    requires i < |hs|
    ensures SetOf(hs[..i + 1]) == SetOf(hs[..i]) + {hs[i]}
  {
    assert hs[..i + 1] == hs[..i] + [hs[i]];
  }

  lemma AddedStep<A>(before: map<Handle, A>, now: map<Handle, A>, hs: seq<Handle>, ts: seq<Tensor<A>>, h: Handle, a: A)
    requires Added(before, now, hs, ts) && |hs| < |ts| && ts[|hs|].loaded == Some(a) && h !in now
    ensures Added(before, now[h := a], hs + [h], ts)
  {
    assert SetOf(hs + [h]) == SetOf(hs) + {h};
    forall k | 0 <= k < |hs|
      ensures hs[k] in now && hs[k] != h
    {
      assert hs[k] in SetOf(hs);
    }
  }

  lemma AddedSize<A>(before: map<Handle, A>, now: map<Handle, A>, hs: seq<Handle>, ts: seq<Tensor<A>>)
    requires Added(before, now, hs, ts)
    ensures |now| == |before| + |hs| && now - SetOf(hs) == before && Distinct(hs)
  {
    DistinctSize(hs);
    assert |now.Keys| == |before.Keys| + |SetOf(hs)|;
  }

  lemma {:induction false} DistinctSize(hs: seq<Handle>)
    requires Distinct(hs)
    ensures |SetOf(hs)| == |hs|
  {
    if hs != [] {
      DistinctSize(Front(hs));
      assert SetOf(hs) == SetOf(Front(hs)) + {Last(hs)};
      assert Last(hs) !in SetOf(Front(hs));
    }
  }

  /** The handle remembered for each name: that of the last tensor with the name. */
  function NameMap<A>(ts: seq<Tensor<A>>, hs: seq<Handle>): (m: map<string, Handle>)
    requires |ts| == |hs|
    ensures m.Values <= SetOf(hs)
  {
    if ts == [] then map[]
    else
      var front := NameMap(Front(ts), Front(hs));
      assert SetOf(Front(hs)) <= SetOf(hs) && Last(hs) in SetOf(hs);
      front[Last(ts).name := Last(hs)]
  }

  lemma NoNames<A>(ts: seq<Tensor<A>>, hs: seq<Handle>)
    requires |ts| == |hs|
    ensures NameMap(ts[..0], hs[..0]) == map[]
  {
  }

  lemma NameMapStep<A>(ts: seq<Tensor<A>>, hs: seq<Handle>, i: nat)
    requires |ts| == |hs| && i < |ts|
    ensures NameMap(ts[..i + 1], hs[..i + 1]) == NameMap(ts[..i], hs[..i])[ts[i].name := hs[i]]
  {
    assert Front(ts[..i + 1]) == ts[..i] && Front(hs[..i + 1]) == hs[..i];
  }

  ghost function Names<A>(ts: seq<Tensor<A>>): set<string> {
    set t | t in ts :: t.name
  }

  /** Different names keep different handles, so as many handles are remembered as there are names. */
  lemma {:induction false} NameMapSize<A>(ts: seq<Tensor<A>>, hs: seq<Handle>)
    requires |ts| == |hs| && Distinct(hs)
    ensures var m := NameMap(ts, hs); m.Keys == Names(ts) && |m.Values| == |Names(ts)|
    ensures var m := NameMap(ts, hs); forall x, y :: x in m && y in m && x != y ==> m[x] != m[y]
  {
    var m := NameMap(ts, hs);
    if ts == [] {
      assert Names(ts) == {} && m.Values == {};
    } else {
      NameMapSize(Front(ts), Front(hs));
      var front := NameMap(Front(ts), Front(hs));
      assert Names(ts) == Names(Front(ts)) + {Last(ts).name} by { NamesStep(ts); }
      assert Last(hs) !in SetOf(Front(hs));
      forall x, y | x in m && y in m && x != y
        ensures m[x] != m[y]
      {
        assert x in front ==> front[x] in front.Values;
        assert y in front ==> front[y] in front.Values;
      }
      InjectiveValues(m);
    }
  }

  lemma NamesStep<A>(ts: seq<Tensor<A>>)
    requires ts != []
    ensures Names(ts) == Names(Front(ts)) + {Last(ts).name}
  {
    assert ts == Front(ts) + [Last(ts)];
    assert forall t :: t in ts <==> t in Front(ts) || t == Last(ts);
  }

  lemma {:induction false} InjectiveValues(m: map<string, Handle>)
    requires forall x, y :: x in m && y in m && x != y ==> m[x] != m[y]
    ensures |m.Values| == |m.Keys|
    decreases |m|
  {
    if m.Keys == {} {
      assert m.Values == {};
    } else {
      var x :| x in m;
      var rest := m - {x};
      InjectiveValues(rest);
      assert m.Keys == rest.Keys + {x};
      assert m.Values == rest.Values + {m[x]} by { ValuesStep(m, x); }
      assert m[x] !in rest.Values;
    }
  }

  lemma ValuesStep(m: map<string, Handle>, x: string)
    requires x in m
    ensures m.Values == (m - {x}).Values + {m[x]}
  {
    var rest := m - {x};
    forall h | h in m.Values
      ensures h in rest.Values + {m[x]}
    {
      var y :| y in m && m[y] == h;
      if y != x {
        assert rest[y] == h;
      }
    }
    forall h | h in rest.Values + {m[x]}
      ensures h in m.Values
    {
      if h in rest.Values {
        var y :| y in rest && rest[y] == h;
        assert m[y] == h;
      }
    }
  }

  /** The members of a set as a vector, in some order. */
  method Collect(hs: set<Handle>) returns (v: seq<Handle>)
    ensures SetOf(v) == hs
  {
    v := [];
    var todo := hs;
    while todo != {}
      invariant SetOf(v) + todo == hs
    {
      var h :| h in todo;
      assert SetOf(v + [h]) == SetOf(v) + {h};
      v, todo := v + [h], todo - {h};
    }
  }

  class ImageRuntime<A> {
    const registry: ArrayRegistry<A>
    const persistent: seq<Tensor<A>>
    const layers: seq<seq<Tensor<A>>>
    var persistentHandles: map<string, Handle>
    var released: bool

    constructor (registry: ArrayRegistry<A>, persistent: seq<Tensor<A>>, layers: seq<seq<Tensor<A>>>)
      ensures this.registry == registry && this.persistent == persistent && this.layers == layers
      ensures persistentHandles == map[] && !released
    {
      this.registry, this.persistent, this.layers := registry, persistent, layers;
      persistentHandles, released := map[], false;
    }

    /** Register the tensors of one segment; on a tensor that does not load, the handles
        registered before it stay behind. */
    method RegisterAll(ts: seq<Tensor<A>>) returns (ok: bool, hs: seq<Handle>)
      requires registry.Valid() && |registry.Live()| + |ts| < U32_LIMIT
      modifies registry
      ensures registry.Valid() && Added(old(registry.Live()), registry.Live(), hs, ts)
      ensures ok <==> AllLoad(ts)
      ensures ok ==> |hs| == |ts|
      ensures |hs| == Loadable(ts)
    {
      hide *;
      hs := [];
      ghost var before := registry.Live();
      AddedNone(before, ts);
      AllLoadEmpty(ts);
      for i := 0 to |ts|
        invariant registry.Valid() && |hs| == i && Added(before, registry.Live(), hs, ts)
        invariant AllLoad(ts[..i])
      {
        AllLoadStep(ts, i);
        if ts[i].loaded.None? {
          AddedLoads(before, registry.Live(), hs, ts);
          LoadableIs(ts, i);
          return false, hs;
        }
        AddedSize(before, registry.Live(), hs, ts);
        ghost var now := registry.Live();
        var h := registry.Insert(ts[i].loaded.value);
        AddedStep(before, now, hs, ts, h, ts[i].loaded.value);
        hs := hs + [h];
      }
      assert ts[..|ts|] == ts;
      AddedLoads(before, registry.Live(), hs, ts);
      LoadableIs(ts, |ts|);
      ok := true;
    }

    /** `activate_layer`: on success the lease owns exactly the handles of the layer. */
    method ActivateLayer(l: nat) returns (ok: bool, lease: seq<Handle>)
      requires registry.Valid() && l < |layers| && |registry.Live()| + |layers[l]| < U32_LIMIT
      modifies registry
      ensures registry.Valid() && Added(old(registry.Live()), registry.Live(), lease, layers[l])
      ensures ok <==> AllLoad(layers[l])
      ensures ok ==> |lease| == |layers[l]|
      ensures |lease| == Loadable(layers[l])
    {
      hide *;
      ok, lease := RegisterAll(layers[l]);
    }

    /** Dropping a lease frees its handles and nothing else. */
    method DropLease(lease: seq<Handle>)
      requires registry.Valid()
      modifies registry
      ensures registry.Valid() && registry.Live() == old(registry.Live()) - SetOf(lease)
    {
      hide *;
      AddedNone(registry.Live(), []);
      assert lease[..0] == [];
      for i := 0 to |lease|
        invariant registry.Valid() && registry.Live() == old(registry.Live()) - SetOf(lease[..i])
      {
        SetOfStep(lease, i);
        var _ := registry.Remove(lease[i]);
      }
      assert lease[..|lease|] == lease;
    }

    /** `activate_persistent`: a repeated name forgets the handle of the earlier tensor. */
    method ActivatePersistent() returns (ok: bool, ghost hs: seq<Handle>)
      requires registry.Valid() && |registry.Live()| + |persistent| < U32_LIMIT
      requires persistentHandles == map[]
      modifies this, registry
      ensures registry.Valid() && Added(old(registry.Live()), registry.Live(), hs, persistent)
      ensures released == old(released)
      ensures ok <==> AllLoad(persistent)
      ensures |hs| == Loadable(persistent)
      ensures ok ==> |hs| == |persistent| && persistentHandles == NameMap(persistent, hs)
    {
      hide *;
      var handles;
      ok, handles := RegisterAll(persistent);
      hs := handles;
      if !ok {
        return;
      }
      ghost var now := registry.Live();
      NoNames(persistent, handles);
      for i := 0 to |persistent|
        invariant registry.Valid() && registry.Live() == now
        invariant released == old(released)
        invariant persistentHandles == NameMap(persistent[..i], handles[..i])
      {
        NameMapStep(persistent, handles, i);
        persistentHandles := persistentHandles[persistent[i].name := handles[i]];
      }
      assert persistent[..|persistent|] == persistent && handles[..|persistent|] == handles;
    }

    /** `release`: free every persistent handle, once. */
    method Release()
      requires registry.Valid()
      modifies this, registry
      ensures registry.Valid() && released
      ensures !old(released) ==>
        persistentHandles == map[] && registry.Live() == old(registry.Live()) - old(persistentHandles).Values
      ensures old(released) ==> registry.Live() == old(registry.Live()) && persistentHandles == old(persistentHandles)
    {
      if released {
        return;
      }
      hide *;
      var handles := Collect(persistentHandles.Values);
      DropLease(handles);
      persistentHandles := map[];
      released := true;
    }

    /** The loop over the layers. `boundaries` are the live handles before the first layer and
        after each layer that is passed, `held` those while the lease of a layer is out, and
        `leaked` the handles that stay behind when a layer does not load. */
    method RunLayers(executes: nat -> bool)
      returns (ok: bool, ghost boundaries: seq<map<Handle, A>>, ghost held: seq<map<Handle, A>>, ghost leaked: seq<Handle>)
      requires registry.Valid() && forall l :: 0 <= l < |layers| ==> |registry.Live()| + |layers[l]| < U32_LIMIT
      modifies registry
      ensures registry.Valid()
      ensures ok <==> StopsAt(layers, executes, 0) == |layers|
      ensures |boundaries| == 1 + StopsAt(layers, executes, 0) && AllSame(boundaries, old(registry.Live()))
      ensures |boundaries| - 1 <= |held| <= |layers| && HeldInTurn(old(registry.Live()), held, layers)
      ensures |leaked| == Leaks(layers, executes) && LeftWith(old(registry.Live()), registry.Live(), leaked)
      ensures ok ==> registry.Live() == old(registry.Live())
    {
      hide *;
      held, leaked, ok := [], [], false;
      ghost var start := registry.Live();
      boundaries := [start];
      NothingLeft(start, layers);
      for l := 0 to |layers|
        invariant registry.Valid() && registry.Live() == start
        invariant StopsAt(layers, executes, 0) == StopsAt(layers, executes, l)
        invariant |boundaries| == l + 1 && AllSame(boundaries, start)
        invariant |held| == l && HeldInTurn(start, held, layers)
      {
        StopStep(layers, executes, l);
        var active, lease := ActivateLayer(l);
        AddedLeft(start, registry.Live(), lease, layers[l]);
        if !active {
          leaked := lease;
          return;
        }
        HeldMore(start, held, layers, registry.Live(), lease);
        held := held + [registry.Live()];
        DropLease(lease);
        if !executes(l) {
          return;
        }
        SameMore(boundaries, start);
        boundaries := boundaries + [registry.Live()];
      }
      StopEnd(layers, executes);
      ok := true;
    }

    /** `run_full_model`. `planOk`, `executes(l)` and `epilogueOk` are the outcomes of plan
        validation and of the executor, which see no handles. */
    method RunFullModel(planOk: bool, executes: nat -> bool, epilogueOk: bool)
      returns (ok: bool, ghost boundaries: seq<map<Handle, A>>, ghost held: seq<map<Handle, A>>, ghost leaked: seq<Handle>)
      requires registry.Valid() && forall l :: 0 <= l < |layers| ==> |registry.Live()| + |layers[l]| < U32_LIMIT
      modifies this, registry
      ensures registry.Valid()
      ensures ok <==> !old(released) && planOk && epilogueOk && StopsAt(layers, executes, 0) == |layers|
      ensures |boundaries| == (if old(released) || !planOk then 0 else 1 + StopsAt(layers, executes, 0))
      ensures AllSame(boundaries, old(registry.Live()))
      ensures |boundaries| - 1 <= |held| <= |layers| && HeldInTurn(old(registry.Live()), held, layers)
      ensures ok ==> released && registry.Live() == old(registry.Live()) - old(persistentHandles).Values
      ensures !ok ==> released == old(released) && persistentHandles == old(persistentHandles)
      ensures !ok ==> LeftWith(old(registry.Live()), registry.Live(), leaked)
      ensures |leaked| == if old(released) || !planOk then 0 else Leaks(layers, executes)
    {
      hide *;
      NothingLeft(registry.Live(), layers);
      if released || !planOk {
        return false, [], [], [];
      }
      ok, boundaries, held, leaked := RunLayers(executes);
      if ok && epilogueOk {
        Release();
      }
      ok := ok && epilogueOk;
    }
  }

  ghost predicate AllSame<A>(boundaries: seq<map<Handle, A>>, start: map<Handle, A>) {
    forall k :: 0 <= k < |boundaries| ==> boundaries[k] == start
  }

  lemma SameAs<A>(boundaries: seq<map<Handle, A>>, start: map<Handle, A>)
    requires AllSame(boundaries, start)
    ensures forall k :: 0 <= k < |boundaries| ==> boundaries[k] == start
  {
  }

  lemma SameMore<A>(boundaries: seq<map<Handle, A>>, start: map<Handle, A>)
    requires AllSame(boundaries, start)
    ensures AllSame(boundaries + [start], start)
  {
  }

  /** While the lease of layer `l` was out, its tensors were live beside those before. */
  ghost predicate HeldInTurn<A>(start: map<Handle, A>, held: seq<map<Handle, A>>, layers: seq<seq<Tensor<A>>>) {
    |held| <= |layers| && forall l :: 0 <= l < |held| ==> Holding(start, held[l], layers[l])
  }

  lemma HeldMore<A>(start: map<Handle, A>, held: seq<map<Handle, A>>, layers: seq<seq<Tensor<A>>>,
                    now: map<Handle, A>, lease: seq<Handle>)
    requires HeldInTurn(start, held, layers) && |held| < |layers|
    requires |lease| == |layers[|held|]| && Added(start, now, lease, layers[|held|])
    ensures HeldInTurn(start, held + [now], layers)
  {
    HoldingIs(start, now, lease, layers[|held|]);
  }

  /** Exactly `leaked` has been added to the live handles, and nothing has been changed. */
  ghost predicate LeftWith<A>(before: map<Handle, A>, now: map<Handle, A>, leaked: seq<Handle>) {
    && Distinct(leaked) && now.Keys == before.Keys + SetOf(leaked) && before.Keys !! SetOf(leaked)
    && forall h :: h in before ==> now[h] == before[h]
  }

  lemma NothingLeft<A>(live: map<Handle, A>, layers: seq<seq<Tensor<A>>>)
    ensures LeftWith(live, live, []) && AllSame([live], live) && AllSame([], live) && HeldInTurn(live, [], layers)
  {
  }

  lemma AddedLeft<A>(before: map<Handle, A>, now: map<Handle, A>, hs: seq<Handle>, ts: seq<Tensor<A>>)
    requires Added(before, now, hs, ts)
    ensures LeftWith(before, now, hs) && now - SetOf(hs) == before
  {
  }

  lemma LeftSize<A>(before: map<Handle, A>, now: map<Handle, A>, leaked: seq<Handle>)
    requires LeftWith(before, now, leaked)
    ensures |now| == |before| + |leaked| && before.Keys <= now.Keys
    ensures forall h :: h in before ==> now[h] == before[h]
  {
    DistinctSize(leaked);
    assert |now.Keys| == |before.Keys| + |SetOf(leaked)|;
  }

  lemma HoldingIs<A>(before: map<Handle, A>, now: map<Handle, A>, hs: seq<Handle>, ts: seq<Tensor<A>>)
    requires |hs| == |ts| && Added(before, now, hs, ts)
    ensures Holding(before, now, ts)
  {
    hide Added;
  }

  /** Layer `l` is where the run stops, or it is passed. */
  lemma StopStep<A>(layers: seq<seq<Tensor<A>>>, executes: nat -> bool, l: nat)
    requires l < |layers| && StopsAt(layers, executes, 0) == StopsAt(layers, executes, l)
    ensures AllLoad(layers[l]) && executes(l) ==> StopsAt(layers, executes, 0) == StopsAt(layers, executes, l + 1)
    ensures !AllLoad(layers[l]) || !executes(l) ==> StopsAt(layers, executes, 0) == l
    ensures !AllLoad(layers[l]) ==> Leaks(layers, executes) == Loadable(layers[l])
    ensures AllLoad(layers[l]) && !executes(l) ==> Leaks(layers, executes) == 0
  {
    hide AllLoad, Loadable;
  }

  lemma StopEnd<A>(layers: seq<seq<Tensor<A>>>, executes: nat -> bool)
    requires StopsAt(layers, executes, 0) == StopsAt(layers, executes, |layers|)
    ensures StopsAt(layers, executes, 0) == |layers| && Leaks(layers, executes) == 0
  {
    hide AllLoad, Loadable;
  }

  /** Handle conservation: open a runtime and run the whole model. At every layer boundary the live
      handles are those before with the persistent ones. On success every handle that was live
      before is live after, with the same array, and exactly one handle is left over for each
      persistent tensor whose name is repeated: with unique names, none. A failed open leaves the
      persistent tensors that had loaded; a failed run leaves all of them, and the tensors of a
      layer that had loaded before one that does not. */
  method OpenAndRun<A>(registry: ArrayRegistry<A>, persistent: seq<Tensor<A>>, layers: seq<seq<Tensor<A>>>,
                       planOk: bool, executes: nat -> bool, epilogueOk: bool)
    returns (ok: bool, ghost boundaries: seq<map<Handle, A>>)
    requires registry.Valid() && |registry.Live()| + |persistent| < U32_LIMIT
    requires forall l :: 0 <= l < |layers| ==> |registry.Live()| + |persistent| + |layers[l]| < U32_LIMIT
    modifies registry
    ensures registry.Valid()
    ensures ok <==> AllLoad(persistent) && planOk && epilogueOk && StopsAt(layers, executes, 0) == |layers|
    ensures |boundaries| == if AllLoad(persistent) && planOk then 1 + StopsAt(layers, executes, 0) else 0
    ensures forall k :: 0 <= k < |boundaries| ==> Holding(old(registry.Live()), boundaries[k], persistent)
    ensures old(registry.Live()).Keys <= registry.Live().Keys
    ensures forall h :: h in old(registry.Live()) ==> registry.Live()[h] == old(registry.Live())[h]
    ensures ok ==> |registry.Live()| == |old(registry.Live())| + |persistent| - |Names(persistent)|
    ensures ok ==> (registry.Live() == old(registry.Live()) <==> |Names(persistent)| == |persistent|)
    ensures !AllLoad(persistent) ==> |registry.Live()| == |old(registry.Live())| + Loadable(persistent)
    ensures AllLoad(persistent) && !ok ==>
      |registry.Live()| == |old(registry.Live())| + |persistent| + if planOk then Leaks(layers, executes) else 0
  {
    hide *;
    ghost var before := registry.Live();
    boundaries := [];
    var runtime := new ImageRuntime(registry, persistent, layers);
    var opened_, hs := runtime.ActivatePersistent();
    ghost var resident := registry.Live();
    AddedLeft(before, resident, hs, persistent);
    LeftSize(before, resident, hs);
    if !opened_ {
      return false, [];
    }
    ghost var kept := runtime.persistentHandles.Values;
    AddedSize(before, resident, hs, persistent);
    NameMapSize(persistent, hs);
    HoldingIs(before, resident, hs, persistent);
    ghost var held, leaked;
    ok, boundaries, held, leaked := runtime.RunFullModel(planOk, executes, epilogueOk);
    SameAs(boundaries, resident);
    if ok {
      Leftover(before, resident, hs, persistent, kept);
    } else {
      LeftSize(resident, registry.Live(), leaked);
    }
  }

  lemma Leftover<A>(before: map<Handle, A>, resident: map<Handle, A>, hs: seq<Handle>, ts: seq<Tensor<A>>, kept: set<Handle>)
    requires Added(before, resident, hs, ts) && kept <= SetOf(hs)
    ensures var after := resident - kept;
      && before.Keys <= after.Keys && (forall h :: h in before ==> after[h] == before[h])
      && |after| == |before| + |hs| - |kept|
      && (after == before <==> |kept| == |hs|)
  {
    var after := resident - kept;
    AddedSize(before, resident, hs, ts);
    assert resident.Keys == after.Keys + kept && after.Keys !! kept;
    assert |resident.Keys| == |after.Keys| + |kept|;
    if |kept| == |hs| {
      assert |after.Keys| == |before.Keys| && before.Keys <= after.Keys;
      SubsetSameSize(before.Keys, after.Keys);
    }
  }

  lemma SubsetSameSize(a: set<Handle>, b: set<Handle>)
    requires a <= b && |a| == |b|
    ensures a == b
  {
    assert |b - a| == |b| - |a|;
  }
}
