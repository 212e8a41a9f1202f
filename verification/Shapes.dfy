// Shapes from the compiler to the executor: the group size recovered from packed shapes, and
// the KV head counts of projection, plan and cache (config.rs, executor.rs, compute_image.rs).
module Shapes {
  import opened Common
  import opened Naming
  import opened Config

  // ---------------------------------------------------------------------
  // Group size
  // ---------------------------------------------------------------------

  /** What `qmatmul` computes from the shapes of weight and scales; None is a division by zero. */
  function RecoveredGroupSize(p: PackedShapes): Option<nat>
    requires |p.weight| == 2
  {
    if p.scales == [] then Some(64)
    else if Last(p.scales) == 0 then None
    else Some(p.weight[1] * 4 / Last(p.scales))
  }

  /** An input width whose 8-bit packing hides no group size. */
  predicate Recoverable(inDim: nat, groupSize: nat)
    requires groupSize != 0
  {
    inDim >= groupSize && inDim % 4 <= inDim % groupSize && inDim % groupSize - inDim % 4 < inDim / groupSize
  }

  lemma DivisibleIsRecoverable(inDim: nat, groupSize: nat)
    requires groupSize != 0 && inDim > 0 && inDim % 4 == 0 && inDim % groupSize == 0
    ensures Recoverable(inDim, groupSize)
  {
    if inDim < groupSize {
      DivModUnique(inDim, groupSize, 0, inDim);
      assert false;
    }
    var g := inDim / groupSize;
    assert inDim == g * groupSize;
    assert g != 0;
  }

  lemma QuotientIff(x: nat, d: nat, q: nat, slack: int)
    requires d > 0 && x == d * q + slack
    ensures x / d == q <==> 0 <= slack < d
  {
    assert x == d * (x / d) + x % d;
    if 0 <= slack < d {
      DivModUnique(x, d, q, slack);
    }
  }

  /** With 8-bit packing `qmatmul` recovers the compiled group size exactly for recoverable
      input widths, which include every positive multiple of both 4 and the group size. */
  lemma {:induction false} GroupSizeRecoveredIff(outDim: nat, inDim: nat, groupSize: nat, bits: nat)
    requires Packable(bits, groupSize) && bits < 16
    ensures RecoveredGroupSize(Packed(outDim, inDim, groupSize, bits).value) == Some(groupSize)
       <==> Recoverable(inDim, groupSize)
    ensures inDim > 0 && inDim % 4 == 0 && inDim % groupSize == 0 ==> Recoverable(inDim, groupSize)
  {
    var g := inDim / groupSize;
    assert bits / 8 == 1;
    var p := Packed(outDim, inDim, groupSize, bits).value;
    assert p.weight[1] == inDim / 4 && Last(p.scales) == g;
    if inDim < groupSize {
      DivModUnique(inDim, groupSize, 0, inDim);
    } else {
      assert g > 0 by {
        assert inDim == g * groupSize + inDim % groupSize;
      }
      QuotientIff(inDim / 4 * 4, g, groupSize, inDim % groupSize - inDim % 4);
    }
    if inDim > 0 && inDim % 4 == 0 && inDim % groupSize == 0 {
      DivisibleIsRecoverable(inDim, groupSize);
    }
  }

  /** Wider values are misread: the recovered size is too large by the packing ratio. */
  lemma {:induction false} WiderBitsMisread(outDim: nat, inDim: nat, groupSize: nat, bits: nat)
    requires Packable(bits, groupSize) && inDim > 0 && inDim % 4 == 0 && inDim % groupSize == 0
    ensures RecoveredGroupSize(Packed(outDim, inDim, groupSize, bits).value)
         == Some(groupSize * if bits < 16 then 1 else if bits < 24 then 2 else 4)
  {
    var g, ratio := inDim / groupSize, if bits < 16 then 1 else if bits < 24 then 2 else 4;
    DivisibleIsRecoverable(inDim, groupSize);
    PackRatio(bits);
    PackedWidth(inDim, 4 / (bits / 8), ratio);
    var p := Packed(outDim, inDim, groupSize, bits).value;
    assert p.weight[1] == inDim / (4 / (bits / 8)) && Last(p.scales) == g;
    GroupQuotient(inDim, groupSize, ratio);
  }

  lemma PackRatio(bits: nat)
    requires 8 <= bits < 40
    ensures 4 / (bits / 8) == if bits < 16 then 4 else if bits < 24 then 2 else 1
  {
  }

  lemma PackedWidth(inDim: nat, pack: nat, ratio: nat)
    requires inDim % 4 == 0 && ((pack == 4 && ratio == 1) || (pack == 2 && ratio == 2) || (pack == 1 && ratio == 4))
    ensures inDim / pack * 4 == inDim * ratio
  {
  }

  lemma GroupQuotient(inDim: nat, groupSize: nat, ratio: nat)
    requires groupSize > 0 && inDim >= groupSize && inDim % groupSize == 0
    ensures inDim / groupSize > 0 && inDim * ratio / (inDim / groupSize) == groupSize * ratio
  {
    var g := inDim / groupSize;
    assert inDim == g * groupSize;
    assert g > 0;
    assert inDim * ratio == g * (groupSize * ratio) by {
      assert g * groupSize * ratio == g * (groupSize * ratio);
    }
    QuotientIff(inDim * ratio, g, groupSize * ratio, 0);
  }

  /** The tensors of a layer by position, the last four counted from the end. */
  lemma LayerTensorsAt(arch: TextArchitecture, root: string, i: nat, kind: AttentionKind, groupSize: nat, bits: nat)
    requires Packable(bits, groupSize)
    ensures var h, m, ts := arch.hiddenSize, arch.intermediateSize, LayerTensors(arch, root, i, kind, groupSize, bits);
      var n := |ts|;
      && n == (if kind.FullAttention? then 10 else 11)
      && ts[0] == NormBinding(root, i, InputNormId, AttentionNorm, h)
      && ts[1] == NormBinding(root, i, PostNormId, FfnNorm, h)
      && ts[2] == NormBinding(root, i, QNormId, QNorm, arch.LayerHeadDim(kind))
      && ts[3] == NormBinding(root, i, KNormId, KNorm, arch.LayerHeadDim(kind))
      && ts[4] == QuantizedLinear(root, i, QProjId, QProj, QWidth(arch, kind), h, groupSize, bits)
      && ts[5] == QuantizedLinear(root, i, KProjId, KProj, KvWidth(arch, kind), h, groupSize, bits)
      && (kind.SlidingAttention? ==>
           ts[6] == QuantizedLinear(root, i, VProjId, VProj, KvWidth(arch, kind), h, groupSize, bits))
      && ts[n - 4] == QuantizedLinear(root, i, OProjId, OProj, h, QWidth(arch, kind), groupSize, bits)
      && ts[n - 3] == QuantizedLinear(root, i, GateId, GateProj, m, h, groupSize, bits)
      && ts[n - 2] == QuantizedLinear(root, i, UpId, UpProj, m, h, groupSize, bits)
      && ts[n - 1] == QuantizedLinear(root, i, DownId, DownProj, h, m, groupSize, bits)
  {
    hide NormBinding, QuantizedLinear, QWidth, KvWidth, Packed;
  }

  /** A packed tensor is read with the group size it was packed with. */
  ghost predicate ReadRight(t: TensorBinding, groupSize: nat) {
    t.packed.Some? ==> |t.packed.value.weight| == 2 && RecoveredGroupSize(t.packed.value) == Some(groupSize)
  }

  lemma LinearReads(root: string, i: nat, f: Field, role: TensorRole, outDim: nat, inDim: nat, groupSize: nat, bits: nat)
    requires Packable(bits, groupSize) && bits < 16
    ensures ReadRight(QuantizedLinear(root, i, f, role, outDim, inDim, groupSize, bits), groupSize)
       <==> Recoverable(inDim, groupSize)
  {
    hide LayerName, Recoverable;
    GroupSizeRecoveredIff(outDim, inDim, groupSize, bits);
  }

  lemma NormReads(root: string, i: nat, f: Field, role: TensorRole, dim: nat, groupSize: nat)
    ensures ReadRight(NormBinding(root, i, f, role, dim), groupSize)
  {
    hide LayerName;
  }

  /** All quantized matrices of a layer are read with the compiled group size iff its three
      input widths are recoverable. */
  lemma {:induction false} LayerGroupSizes(arch: TextArchitecture, root: string, i: nat, kind: AttentionKind,
                                           groupSize: nat, bits: nat)
    requires Packable(bits, groupSize) && bits < 16
    ensures var ts := LayerTensors(arch, root, i, kind, groupSize, bits);
      (forall k :: 0 <= k < |ts| ==> ReadRight(ts[k], groupSize))
      <==> Recoverable(arch.hiddenSize, groupSize) && Recoverable(arch.intermediateSize, groupSize)
           && Recoverable(QWidth(arch, kind), groupSize)
  {
    var h, m, q, kv := arch.hiddenSize, arch.intermediateSize, QWidth(arch, kind), KvWidth(arch, kind);
    hide *;
    LayerTensorsAt(arch, root, i, kind, groupSize, bits);
    NormReads(root, i, InputNormId, AttentionNorm, h, groupSize);
    NormReads(root, i, PostNormId, FfnNorm, h, groupSize);
    NormReads(root, i, QNormId, QNorm, arch.LayerHeadDim(kind), groupSize);
    NormReads(root, i, KNormId, KNorm, arch.LayerHeadDim(kind), groupSize);
    LinearReads(root, i, QProjId, QProj, q, h, groupSize, bits);
    LinearReads(root, i, KProjId, KProj, kv, h, groupSize, bits);
    LinearReads(root, i, VProjId, VProj, kv, h, groupSize, bits);
    LinearReads(root, i, OProjId, OProj, h, q, groupSize, bits);
    LinearReads(root, i, GateId, GateProj, m, h, groupSize, bits);
    LinearReads(root, i, UpId, UpProj, m, h, groupSize, bits);
    LinearReads(root, i, DownId, DownProj, h, m, groupSize, bits);
  }

  // ---------------------------------------------------------------------
  // KV heads
  // ---------------------------------------------------------------------

  /** The KV heads and head dimension that the executor reshapes keys and values to. */
  function ExecutorKv(p: LayerPlan): (nat, nat) {
    if p.kind == SLIDING then (p.nKvHeads, p.headDim)
    else (p.nGlobalKvHeads.GetOr(p.nKvHeads), p.globalHeadDim.GetOr(p.headDim))
  }

  /** The KV heads and head dimension that the model run gives the layer's cache. */
  function CacheKv(p: LayerPlan): (nat, nat) {
    if p.kind == SLIDING then (p.nKvHeads, p.headDim)
    else (p.nGlobalKvHeads.GetOr(1), p.globalHeadDim.GetOr(p.headDim))
  }

  function KvElements(p: LayerPlan): nat {
    ExecutorKv(p).0 * ExecutorKv(p).1
  }

  /** The sixth tensor of a layer is its k_proj, of that output width. */
  predicate KProjWidth(ts: seq<TensorBinding>, width: nat) {
    |ts| > 5 && ts[5].role == KProj && |ts[5].logicalShape| == 2 && ts[5].logicalShape[0] == width
  }

  /** Projection, executor and cache agree on a layer iff it is a sliding one, or the global KV
      head count is declared, or there is a single KV head. */
  lemma {:induction false} KvShapesAgreeIff(arch: TextArchitecture, root: string, ids: map<string, nat>, i: nat,
                                            groupSize: nat, bits: nat)
    requires Packable(bits, groupSize) && i < |arch.layerTypes|
    ensures var p, ts := LayerPlanOf(arch, root, ids, i), LayerOf(arch, root, i, groupSize, bits).tensors;
      (KProjWidth(ts, KvElements(p)) && CacheKv(p) == ExecutorKv(p))
      <==> arch.layerTypes[i].SlidingAttention? || arch.numGlobalKvHeads.Some? || arch.numKvHeads == 1
  {
    hide LayerTensors, LayerPlanOf;
    var kind := arch.layerTypes[i];
    KProjHas(arch, root, i, kind, groupSize, bits);
    PlanKv(arch, root, ids, i);
  }

  /** The projection alone fits iff that holds or the head dimension is zero. */
  lemma {:induction false} ProjectionFitsIff(arch: TextArchitecture, root: string, ids: map<string, nat>, i: nat,
                                             groupSize: nat, bits: nat)
    requires Packable(bits, groupSize) && i < |arch.layerTypes|
    ensures var p, ts := LayerPlanOf(arch, root, ids, i), LayerOf(arch, root, i, groupSize, bits).tensors;
      KProjWidth(ts, KvElements(p))
      <==> arch.layerTypes[i].SlidingAttention? || arch.numGlobalKvHeads.Some? || arch.numKvHeads == 1
           || arch.FullHeadDim() == 0
  {
    hide LayerTensors, LayerPlanOf;
    var kind, d := arch.layerTypes[i], arch.FullHeadDim();
    KProjHas(arch, root, i, kind, groupSize, bits);
    PlanKv(arch, root, ids, i);
    if kind.FullAttention? && arch.numGlobalKvHeads.None? && d != 0 {
      assert arch.numKvHeads * d == 1 * d <==> arch.numKvHeads == 1;
    }
  }

  lemma KProjHas(arch: TextArchitecture, root: string, i: nat, kind: AttentionKind, groupSize: nat, bits: nat)
    requires Packable(bits, groupSize)
    ensures forall w: nat :: KProjWidth(LayerTensors(arch, root, i, kind, groupSize, bits), w) <==> w == KvWidth(arch, kind)
  {
    hide LayerTensors, LayerName, Packed;
    LayerTensorsAt(arch, root, i, kind, groupSize, bits);
  }

  lemma PlanKv(arch: TextArchitecture, root: string, ids: map<string, nat>, i: nat)
    requires i < |arch.layerTypes|
    ensures var p := LayerPlanOf(arch, root, ids, i);
      if arch.layerTypes[i].SlidingAttention? then
        ExecutorKv(p) == CacheKv(p) == (arch.numKvHeads, arch.headDim)
      else
        && ExecutorKv(p) == (arch.numGlobalKvHeads.GetOr(arch.numKvHeads), arch.FullHeadDim())
        && CacheKv(p) == (arch.numGlobalKvHeads.GetOr(1), arch.FullHeadDim())
  {
  }

  /** `repeat_kv`: how many heads attention sees after the KV heads are repeated. */
  function RepeatedHeads(heads: nat, kvHeads: nat): nat
    requires kvHeads != 0
  {
    var repeats := heads / kvHeads;
    if repeats <= 1 then kvHeads else kvHeads * repeats
  }

  /** Repeated keys line up with the queries iff the KV heads divide the (nonzero) query heads. */
  lemma {:induction false} RepeatedHeadsIff(heads: nat, kvHeads: nat)
    requires kvHeads != 0
    ensures RepeatedHeads(heads, kvHeads) == heads <==> heads != 0 && heads % kvHeads == 0
  {
    assert heads == kvHeads * (heads / kvHeads) + heads % kvHeads;
  }
}
