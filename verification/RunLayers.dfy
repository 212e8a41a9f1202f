// What a run makes of the plan of a layer (executor.rs, compute_image.rs): the shapes it asks of the
// layer's tensors, the cache and the mask it gives the layer, and its rotary frequencies.
module RunLayers {
  import opened Common
  import opened Naming
  import opened Config
  import opened Shapes
  import C = Compiler
  import E = EntryNames
  import K = KvCache
  import M = Masks

  // ---------------------------------------------------------------------
  // Shapes
  // ---------------------------------------------------------------------

  /** The binding of that name, of which there is one, has that logical shape. */
  ghost predicate Shaped(ts: seq<TensorBinding>, name: string, shape: seq<nat>) {
    (exists b :: b in ts && b.name == name) && forall b :: b in ts && b.name == name ==> b.logicalShape == shape
  }

  lemma ShapedAt(ts: seq<TensorBinding>, k: nat)
    requires k < |ts| && Distinct(E.OwnNames(ts))
    ensures Shaped(ts, ts[k].name, ts[k].logicalShape)
  {
    assert ts[k] in ts;
    forall b | b in ts && b.name == ts[k].name
      ensures b.logicalShape == ts[k].logicalShape
    {
      var j :| 0 <= j < |ts| && ts[j] == b;
      assert E.OwnNames(ts)[j] == b.name && E.OwnNames(ts)[k] == ts[k].name;
      assert j == k;
    }
  }

  /** The shapes that the executor relies on in layer i, keys and values aside: queries are reshaped
      to heads of the head dimension, attention leaves as many columns to the output projection, and
      both residual sums are over the hidden size. */
  ghost predicate QueriesFit(ts: seq<TensorBinding>, root: string, p: LayerPlan) {
    var hidden, heads, dim := p.hiddenSize, p.nHeads, ExecutorKv(p).1;
    && p.headDim == dim && p.nKvHeads == ExecutorKv(p).0
    && Shaped(ts, LayerName(root, p.index, Suffix(InputNormId)), [hidden])
    && Shaped(ts, LayerName(root, p.index, Suffix(PostNormId)), [hidden])
    && Shaped(ts, LayerName(root, p.index, Suffix(QNormId)), [dim])
    && Shaped(ts, LayerName(root, p.index, Suffix(KNormId)), [dim])
    && Shaped(ts, LayerName(root, p.index, Suffix(QProjId)), [heads * dim, hidden])
    && Shaped(ts, LayerName(root, p.index, Suffix(OProjId)), [hidden, heads * dim])
  }

  ghost predicate MlpFits(ts: seq<TensorBinding>, root: string, p: LayerPlan, inner: nat) {
    && Shaped(ts, LayerName(root, p.index, Suffix(GateId)), [inner, p.hiddenSize])
    && Shaped(ts, LayerName(root, p.index, Suffix(UpId)), [inner, p.hiddenSize])
    && Shaped(ts, LayerName(root, p.index, Suffix(DownId)), [p.hiddenSize, inner])
  }

  /** Keys and values are reshaped to the KV heads; full attention has no v_proj. */
  ghost predicate KeysFit(ts: seq<TensorBinding>, root: string, p: LayerPlan) {
    var width := ExecutorKv(p).0 * ExecutorKv(p).1;
    && Shaped(ts, LayerName(root, p.index, Suffix(KProjId)), [width, p.hiddenSize])
    && (p.kind == SLIDING ==> Shaped(ts, LayerName(root, p.index, Suffix(VProjId)), [width, p.hiddenSize]))
  }

  /** What the compiler gives layer i, number by number. */
  lemma CompiledShapes(arch: TextArchitecture, root: string, i: nat, kind: AttentionKind, groupSize: nat, bits: nat)
    requires Packable(bits, groupSize)
    ensures var ts := LayerTensors(arch, root, i, kind, groupSize, bits);
      var h, m := arch.hiddenSize, arch.intermediateSize;
      var dim := if kind.FullAttention? then arch.globalHeadDim.GetOr(arch.headDim) else arch.headDim;
      var kv := if kind.FullAttention? then arch.numGlobalKvHeads.GetOr(1) else arch.numKvHeads;
      && Distinct(E.OwnNames(ts)) && ShapesAre(ts, root, i, h, m, arch.numHeads * dim, kv * dim, dim)
      && (kind.SlidingAttention? ==> Shaped(ts, LayerName(root, i, Suffix(VProjId)), [kv * dim, h]))
  {
    var ts := LayerTensors(arch, root, i, kind, groupSize, bits);
    E.LayerOwnNames(arch, root, i, kind, groupSize, bits);
    LayerTensorsAt(arch, root, i, kind, groupSize, bits);
    hide LayerTensors, Packed, LayerName, Suffix, Distinct, E.OwnNames, Shaped, E.AllWeights;
    var n := |ts|;
    ShapedAt(ts, 0);
    ShapedAt(ts, 1);
    ShapedAt(ts, 2);
    ShapedAt(ts, 3);
    ShapedAt(ts, 4);
    ShapedAt(ts, 5);
    if kind.SlidingAttention? {
      ShapedAt(ts, 6);
    }
    ShapedAt(ts, n - 4);
    ShapedAt(ts, n - 3);
    ShapedAt(ts, n - 2);
    ShapedAt(ts, n - 1);
  }

  ghost predicate ShapesAre(ts: seq<TensorBinding>, root: string, i: nat, h: nat, m: nat, q: nat, kv: nat, dim: nat) {
    && Shaped(ts, LayerName(root, i, Suffix(InputNormId)), [h]) && Shaped(ts, LayerName(root, i, Suffix(PostNormId)), [h])
    && Shaped(ts, LayerName(root, i, Suffix(QNormId)), [dim]) && Shaped(ts, LayerName(root, i, Suffix(KNormId)), [dim])
    && Shaped(ts, LayerName(root, i, Suffix(QProjId)), [q, h]) && Shaped(ts, LayerName(root, i, Suffix(KProjId)), [kv, h])
    && Shaped(ts, LayerName(root, i, Suffix(OProjId)), [h, q]) && Shaped(ts, LayerName(root, i, Suffix(GateId)), [m, h])
    && Shaped(ts, LayerName(root, i, Suffix(UpId)), [m, h]) && Shaped(ts, LayerName(root, i, Suffix(DownId)), [h, m])
  }

  lemma ShapedOnce(ts: seq<TensorBinding>, name: string, one: seq<nat>, two: seq<nat>)
    requires Shaped(ts, name, one)
    ensures Shaped(ts, name, two) <==> one == two
  {
    var b :| b in ts && b.name == name;
  }

  /** The numbers of layer i's plan that shapes depend on. */
  lemma PlanNumbers(arch: TextArchitecture, root: string, ids: map<string, nat>, i: nat)
    requires i < |arch.layerTypes|
    ensures var p := LayerPlanOf(arch, root, ids, i);
      && p.index == i && p.hiddenSize == arch.hiddenSize && p.nHeads == arch.numHeads
      && p.headDim == ExecutorKv(p).1 && p.nKvHeads == ExecutorKv(p).0
      && (p.kind == SLIDING <==> arch.layerTypes[i].SlidingAttention?)
      && (p.kind == FULL <==> arch.layerTypes[i].FullAttention?)
  {
    hide LayerSegment, FindId;
    KindsDiffer();
  }

  /** For every architecture, the tensors that the compiler asks for fit what the executor does with
      them: queries, output, norms and the MLP always; keys and values exactly when the layer is a
      sliding one, or the global KV head count is declared, or there is one KV head, or no head dimension. */
  lemma {:induction false} LayerFitsIff(arch: TextArchitecture, root: string, ids: map<string, nat>, i: nat,
                                        groupSize: nat, bits: nat)
    requires Packable(bits, groupSize) && i < |arch.layerTypes|
    ensures var p, ts := LayerPlanOf(arch, root, ids, i), LayerOf(arch, root, i, groupSize, bits).tensors;
      && QueriesFit(ts, root, p) && MlpFits(ts, root, p, arch.intermediateSize)
      && (KeysFit(ts, root, p) <==>
           arch.layerTypes[i].SlidingAttention? || arch.numGlobalKvHeads.Some? || arch.numKvHeads == 1
           || arch.globalHeadDim.GetOr(arch.headDim) == 0)
  {
    hide *;
    var kind := arch.layerTypes[i];
    var p, ts := LayerPlanOf(arch, root, ids, i), LayerOf(arch, root, i, groupSize, bits).tensors;
    LayerOfTensors(arch, root, i, groupSize, bits);
    CompiledShapes(arch, root, i, kind, groupSize, bits);
    PlanNumbers(arch, root, ids, i);
    PlanKv(arch, root, ids, i);
    FullDim(arch);
    KindsDiffer();
    var dim := if kind.FullAttention? then arch.globalHeadDim.GetOr(arch.headDim) else arch.headDim;
    var kv := if kind.FullAttention? then arch.numGlobalKvHeads.GetOr(1) else arch.numKvHeads;
    FitsFrom(ts, root, p, arch.intermediateSize, kv, dim);
    SameWidth(arch.numKvHeads, dim);
    GlobalHeads(arch);
  }

  lemma LayerOfTensors(arch: TextArchitecture, root: string, i: nat, groupSize: nat, bits: nat)
    requires Packable(bits, groupSize) && i < |arch.layerTypes|
    ensures LayerOf(arch, root, i, groupSize, bits).tensors
         == LayerTensors(arch, root, i, arch.layerTypes[i], groupSize, bits)
  {
  }

  lemma FullDim(arch: TextArchitecture)
    ensures arch.FullHeadDim() == arch.globalHeadDim.GetOr(arch.headDim)
  {
  }

  lemma GlobalHeads(arch: TextArchitecture)
    ensures arch.numGlobalKvHeads.Some? ==> arch.numGlobalKvHeads.GetOr(1) == arch.numGlobalKvHeads.GetOr(arch.numKvHeads)
    ensures arch.numGlobalKvHeads.None? ==>
      arch.numGlobalKvHeads.GetOr(1) == 1 && arch.numGlobalKvHeads.GetOr(arch.numKvHeads) == arch.numKvHeads
  {
  }

  lemma FitsFrom(ts: seq<TensorBinding>, root: string, p: LayerPlan, inner: nat, kv: nat, dim: nat)
    requires ShapesAre(ts, root, p.index, p.hiddenSize, inner, p.nHeads * dim, kv * dim, dim) && ExecutorKv(p).1 == dim
    requires p.headDim == ExecutorKv(p).1 && p.nKvHeads == ExecutorKv(p).0
    ensures QueriesFit(ts, root, p) && MlpFits(ts, root, p, inner)
    ensures (p.kind == SLIDING && ExecutorKv(p).0 == kv
             && Shaped(ts, LayerName(root, p.index, Suffix(VProjId)), [kv * dim, p.hiddenSize]))
            ==> KeysFit(ts, root, p)
    ensures p.kind != SLIDING ==> (KeysFit(ts, root, p) <==> kv * dim == ExecutorKv(p).0 * dim)
  {
    hide Shaped, LayerName, Suffix, ExecutorKv;
    var have, want, h := kv * dim, ExecutorKv(p).0 * dim, p.hiddenSize;
    ShapedOnce(ts, LayerName(root, p.index, Suffix(KProjId)), [have, h], [want, h]);
    assert [have, h] == [want, h] <==> have == want;
  }

  lemma SameWidth(heads: nat, dim: nat)
    ensures heads * dim == 1 * dim <==> heads == 1 || dim == 0
  {
    if dim != 0 && heads * dim == 1 * dim {
      assert (heads - 1) * dim == 0;
    }
  }

  /** Outside the layers: the embedding has a row of the hidden size for every token, and so has an
      output head; the final norm has the hidden size. The plan names them, and repeats the shape of the
      embedding, the vocabulary and the soft cap. */
  lemma {:induction false} PlanEndsFit(arch: TextArchitecture, ns: NamespaceBinding, q: Option<QuantizationMeta>,
                                       ids: map<string, nat>)
    ensures var p, ts := ExecutionPlanOf(arch, ns, ids), GlobalTensors(arch, ns.root, q);
      var table := [arch.vocabSize, arch.hiddenSize];
      && p.prologue.embeddingShape == table && Shaped(ts, p.prologue.embeddingName, table)
      && p.hiddenSize == arch.hiddenSize && Shaped(ts, p.epilogue.finalNormName, [p.hiddenSize])
      && (!arch.tieWordEmbeddings ==> Shaped(ts, GlobalName(ns.root, LM_HEAD), table))
      && p.prologue.segmentId == p.epilogue.segmentId == PERSISTENT
      && p.epilogue.vocabSize == arch.vocabSize && p.epilogue.softcapping == arch.finalLogitSoftcapping
  {
    var ts := GlobalTensors(arch, ns.root, q);
    E.GlobalOwnNames(arch, ns.root, q);
    hide GlobalName, Packed, LayerPlanOf, Shaped, Distinct, E.OwnNames, E.AllWeights, C.OfLayer;
    ShapedAt(ts, 0);
    ShapedAt(ts, 1);
    if !arch.tieWordEmbeddings {
      ShapedAt(ts, 2);
    }
  }

  /** What the spec of a layer says beside its tensors agrees with the plan. */
  lemma {:induction false} SpecAgrees(arch: TextArchitecture, root: string, ids: map<string, nat>, i: nat,
                                      groupSize: nat, bits: nat)
    requires Packable(bits, groupSize) && i < |arch.layerTypes|
    ensures var p, l := LayerPlanOf(arch, root, ids, i), LayerOf(arch, root, i, groupSize, bits);
      && l.index == p.index && l.kind == arch.layerTypes[i]
      && l.qOut == p.nHeads * ExecutorKv(p).1 && Shaped(l.tensors, LayerName(root, i, Suffix(KProjId)), [l.kvOut, p.hiddenSize])
      && l.rope.theta == p.ropeTheta && l.rope.partialRotaryFactor == p.partialRotaryFactor
  {
    var kind := arch.layerTypes[i];
    CompiledShapes(arch, root, i, kind, groupSize, bits);
    PlanNumbers(arch, root, ids, i);
    PlanKv(arch, root, ids, i);
    hide LayerTensors, Shaped, LayerName, Suffix, LayerSegment, FindId;
  }

  // ---------------------------------------------------------------------
  // Packing
  // ---------------------------------------------------------------------

  /** A packed matrix has its rows, and words and groups that cover its columns: nothing is lost when
      the columns are a multiple of both. */
  lemma {:induction false} PackedCovers(outDim: nat, inDim: nat, groupSize: nat, bits: nat)
    requires Packable(bits, groupSize)
    ensures var p := Packed(outDim, inDim, groupSize, bits).value;
      var perWord := if bits < 16 then 4 else if bits < 24 then 2 else 1;
      && |p.weight| == |p.scales| == |p.biases| == 2
      && p.weight[0] == p.scales[0] == p.biases[0] == outDim && p.biases[1] == p.scales[1] == p.groups
      && p.bits == bits && p.groupSize == groupSize
      && p.weight[1] * perWord <= inDim < p.weight[1] * perWord + perWord
      && p.groups * groupSize <= inDim < p.groups * groupSize + groupSize
  {
    PackRatio(bits);
    var perWord := 4 / (bits / 8);
    assert inDim == inDim / perWord * perWord + inDim % perWord;
    assert inDim == inDim / groupSize * groupSize + inDim % groupSize;
  }

  /** A matrix packed as the metadata says, or as 16-bit values in groups of 64 without any. */
  predicate PackedAs(b: TensorBinding, q: Option<QuantizationMeta>) {
    && b.packed.Some? && |b.logicalShape| == 2
    && b.packed == match q
                   case None => Packed(b.logicalShape[0], b.logicalShape[1], 64, 16)
                   case Some(m) => Packed(b.logicalShape[0], b.logicalShape[1], m.groupSize, m.bits)
  }

  lemma LinearPacked(root: string, i: nat, f: Field, role: TensorRole, outDim: nat, inDim: nat, q: Option<QuantizationMeta>)
    requires Packable(Bits(q), GroupSize(q))
    ensures PackedAs(QuantizedLinear(root, i, f, role, outDim, inDim, GroupSize(q), Bits(q)), q)
  {
    hide LayerName, Suffix;
  }

  lemma NormUnpacked(root: string, i: nat, f: Field, role: TensorRole, dim: nat)
    ensures NormBinding(root, i, f, role, dim).packed.None?
  {
    hide LayerName, Suffix;
  }

  /** The four norms of a layer are not packed; its projections are, with metadata or without. */
  lemma {:induction false} LayersPacked(arch: TextArchitecture, root: string, q: Option<QuantizationMeta>, i: nat)
    requires Packable(Bits(q), GroupSize(q)) && i < |arch.layerTypes|
    ensures var ts := LayerOf(arch, root, i, GroupSize(q), Bits(q)).tensors;
      forall k :: 0 <= k < |ts| ==> if k < 4 then ts[k].packed.None? else PackedAs(ts[k], q)
  {
    hide *;
    LayerOfTensors(arch, root, i, GroupSize(q), Bits(q));
    forall k: nat | k < |LayerTensors(arch, root, i, arch.layerTypes[i], GroupSize(q), Bits(q))|
      ensures var b := LayerTensors(arch, root, i, arch.layerTypes[i], GroupSize(q), Bits(q))[k];
        if k < 4 then b.packed.None? else PackedAs(b, q)
    {
      LayerPackedAt(arch, root, q, i, arch.layerTypes[i], k);
    }
  }

  lemma LayerPackedAt(arch: TextArchitecture, root: string, q: Option<QuantizationMeta>, i: nat, kind: AttentionKind, k: nat)
    requires Packable(Bits(q), GroupSize(q))
    requires k < |LayerTensors(arch, root, i, kind, GroupSize(q), Bits(q))|
    ensures var b := LayerTensors(arch, root, i, kind, GroupSize(q), Bits(q))[k];
      if k < 4 then b.packed.None? else PackedAs(b, q)
  {
    var h, m, n := arch.hiddenSize, arch.intermediateSize, |LayerTensors(arch, root, i, kind, GroupSize(q), Bits(q))|;
    hide *;
    LayerTensorsAt(arch, root, i, kind, GroupSize(q), Bits(q));
    if k < 2 {
      NormUnpacked(root, i, InputNormId, AttentionNorm, h);
      NormUnpacked(root, i, PostNormId, FfnNorm, h);
    } else if k < 4 {
      NormUnpacked(root, i, QNormId, QNorm, arch.LayerHeadDim(kind));
      NormUnpacked(root, i, KNormId, KNorm, arch.LayerHeadDim(kind));
    } else if k == 4 {
      LinearPacked(root, i, QProjId, QProj, QWidth(arch, kind), h, q);
    } else if k == 5 {
      LinearPacked(root, i, KProjId, KProj, KvWidth(arch, kind), h, q);
    } else if k == n - 4 {
      LinearPacked(root, i, OProjId, OProj, h, QWidth(arch, kind), q);
    } else if k == n - 3 {
      LinearPacked(root, i, GateId, GateProj, m, h, q);
    } else if k == n - 2 {
      LinearPacked(root, i, UpId, UpProj, m, h, q);
    } else if k == n - 1 {
      LinearPacked(root, i, DownId, DownProj, h, m, q);
    } else {
      LinearPacked(root, i, VProjId, VProj, KvWidth(arch, kind), h, q);
    }
  }

  // ---------------------------------------------------------------------
  // Cache, mask and rotary frequencies
  // ---------------------------------------------------------------------

  // The most positions that a run gives the cache of a full-attention layer.
  const MAX_RUN_LENGTH: nat := 8192

  /** The cache that a run makes for a layer. */
  function RunCache<T>(p: LayerPlan, maxPositions: nat): K.Cache<T> {
    K.New(if p.kind == SLIDING then p.slidingWindow else Min(maxPositions, MAX_RUN_LENGTH), p.kind == SLIDING)
  }

  /** The keys that row i of a layer attends to, through the masks that the executor adds. */
  function RunAttend<T>(p: LayerPlan, keys: seq<T>, offset: nat, i: nat): seq<T> {
    if p.kind == SLIDING then M.Attend(keys, p.slidingWindow, offset, i)
    else M.Select(keys, M.CausalRow(|keys|, offset, i))
  }

  /** Cache and mask of a sliding layer have the window of the architecture. */
  lemma RunWindow<T>(arch: TextArchitecture, root: string, ids: map<string, nat>, i: nat)
    requires i < |arch.layerTypes|
    ensures var p := LayerPlanOf(arch, root, ids, i);
      && p.slidingWindow == arch.slidingWindow
      && (arch.layerTypes[i].SlidingAttention? ==>
           RunCache<T>(p, arch.maxPositionEmbeddings) == K.New(arch.slidingWindow, true) && p.kind == SLIDING)
      && (arch.layerTypes[i].FullAttention? ==>
           RunCache<T>(p, arch.maxPositionEmbeddings) == K.New(Min(arch.maxPositionEmbeddings, MAX_RUN_LENGTH), false)
           && p.kind != SLIDING)
  {
    hide LayerSegment, FindId;
    KindsDiffer();
  }

  /** One pass of a run over n tokens, as every compiled plan makes it: a sliding layer attends in every
      row to the last `slidingWindow` positions of the architecture if and only if the tokens fit
      the window, and a full layer to all positions so far. */
  lemma {:induction false} RunAttendsIff<T>(arch: TextArchitecture, root: string, ids: map<string, nat>, i: nat,
                                            x: K.Kv<T>, filler: T)
    requires i < |arch.layerTypes| && arch.slidingWindow > 0 && x.Paired() && |x.k| > 0
    ensures var p := LayerPlanOf(arch, root, ids, i);
      var c0 := RunCache<T>(p, arch.maxPositionEmbeddings);
      && K.Valid(c0) && K.CanAppend(c0, |x.k|)
      && var c := K.Append(c0, x, filler);
      && K.Valid(c) && K.ReadWindow(c).Some?
      && var keys := K.ReadWindow(c).value.k;
      && (arch.layerTypes[i].SlidingAttention? ==>
           ((forall r: nat :: r < |x.k| ==> RunAttend(p, keys, 0, r) == M.FullAttention(x.k, arch.slidingWindow, r))
            <==> |x.k| <= arch.slidingWindow))
      && (arch.layerTypes[i].FullAttention? ==> forall r: nat :: r < |x.k| ==> RunAttend(p, keys, 0, r) == x.k[..r + 1])
  {
    var p := LayerPlanOf(arch, root, ids, i);
    RunWindow<T>(arch, root, ids, i);
    hide LayerPlanOf, K.Append, K.Valid, K.ReadWindow, K.CanAppend, M.Attend, M.FullAttention, M.Select, M.CausalRow, RunCache;
    if arch.layerTypes[i].SlidingAttention? {
      M.SinglePassExactIff(arch.slidingWindow, x, filler);
    } else {
      M.GlobalPassExact(Min(arch.maxPositionEmbeddings, MAX_RUN_LENGTH), x, filler);
    }
  }

  /** As long as the window of the architecture has not been exceeded, every row of a sliding layer is
      exact, if its offset is the number of tokens cached before. */
  lemma {:induction false} RunRowExact<T>(arch: TextArchitecture, root: string, ids: map<string, nat>, i: nat,
                                          c: K.Cache<T>, h: K.Kv<T>, offset: nat, r: nat)
    requires i < |arch.layerTypes| && arch.layerTypes[i].SlidingAttention?
    requires K.Represents(c, h) && !K.IsFirst(c) && |h.k| <= arch.slidingWindow && offset + r < |h.k|
    requires c.isSliding && c.capacity == RunCache<T>(LayerPlanOf(arch, root, ids, i), arch.maxPositionEmbeddings).capacity
    ensures K.Valid(c) && K.ReadWindow(c).Some?
    ensures RunAttend(LayerPlanOf(arch, root, ids, i), K.ReadWindow(c).value.k, offset, r)
         == M.FullAttention(h.k, arch.slidingWindow, offset + r)
  {
    RunWindow<T>(arch, root, ids, i);
    M.NoEvictionExact(c, h, arch.slidingWindow, offset, r);
    M.ShownKeys(c, h);
    hide LayerPlanOf, K.Valid, K.ReadWindow, K.Represents, M.Attend, M.FullAttention;
  }

  /** Later one-token steps of a sliding layer, with the offset rebased to the window: exact. */
  lemma {:induction false} RunStepExact<T>(arch: TextArchitecture, root: string, ids: map<string, nat>, i: nat,
                                           c: K.Cache<T>, h: K.Kv<T>)
    requires i < |arch.layerTypes| && arch.layerTypes[i].SlidingAttention? && arch.slidingWindow > 0
    requires K.Represents(c, h) && !K.IsFirst(c) && |h.k| > 0
    requires c.isSliding && c.capacity == RunCache<T>(LayerPlanOf(arch, root, ids, i), arch.maxPositionEmbeddings).capacity
    ensures K.Valid(c) && K.ReadWindow(c).Some? && |K.ReadWindow(c).value.k| <= |h.k|
    ensures var p, keys, last := LayerPlanOf(arch, root, ids, i), K.ReadWindow(c).value.k, |h.k| - 1;
      var start := |h.k| - |keys|;
      start <= last && RunAttend(p, keys, last - start, 0) == M.FullAttention(h.k, arch.slidingWindow, last)
  {
    RunWindow<T>(arch, root, ids, i);
    M.RebasedStepExact(c, h);
    M.ShownKeys(c, h);
    hide LayerPlanOf, K.Valid, K.ReadWindow, K.Represents, M.Attend, M.FullAttention;
  }

  /** The rotary frequencies that a run computes for a layer, from the architecture alone. */
  function RunTheta(arch: TextArchitecture, full: bool): real {
    if full && arch.ropeGlobal.Some? then arch.ropeGlobal.value.theta else arch.ropeLocal.theta
  }

  /** The plan of a layer names the frequencies that a run uses for it, and the rotated part of a head:
      the global ones on full attention where they are declared, else the local ones. */
  lemma {:induction false} PlanRope(arch: TextArchitecture, root: string, ids: map<string, nat>, i: nat)
    requires i < |arch.layerTypes|
    ensures var p := LayerPlanOf(arch, root, ids, i);
      && p.ropeTheta == RunTheta(arch, p.kind == FULL)
      && (arch.layerTypes[i].FullAttention? && arch.ropeGlobal.Some? ==>
           p.partialRotaryFactor == arch.ropeGlobal.value.partialRotaryFactor)
      && (arch.layerTypes[i].SlidingAttention? || arch.ropeGlobal.None? ==>
           p.partialRotaryFactor == arch.ropeLocal.partialRotaryFactor)
  {
    hide LayerSegment, FindId;
    KindsDiffer();
  }

  /** Only full attention takes its keys for values, and then the plan names one tensor for both. */
  lemma {:induction false} KeysForValues(arch: TextArchitecture, root: string, ids: map<string, nat>, i: nat)
    requires i < |arch.layerTypes|
    ensures var p := LayerPlanOf(arch, root, ids, i);
      && (p.attentionKEqV <==> arch.attentionKEqV && arch.layerTypes[i].FullAttention?)
      && (arch.layerTypes[i].FullAttention? ==> p.vProj == p.kProj)
  {
    hide LayerSegment, FindId;
  }
}
