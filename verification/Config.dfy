// Architecture to tensor bindings, and emitted ids to an execution plan that
// is judged by the plan validator (config.rs).
module Config {
  import opened Common
  import opened Naming

  datatype AttentionKind = SlidingAttention | FullAttention

  datatype RopeSpec = RopeSpec(theta: real, ropeType: string, partialRotaryFactor: Option<real>)

  datatype TextArchitecture = TextArchitecture(
    hiddenSize: nat, intermediateSize: nat, numHeads: nat, numKvHeads: nat, headDim: nat,
    globalHeadDim: Option<nat>, numGlobalKvHeads: Option<nat>, vocabSize: nat, slidingWindow: nat,
    maxPositionEmbeddings: nat, rmsNormEps: real, tieWordEmbeddings: bool, attentionKEqV: bool,
    finalLogitSoftcapping: Option<real>, layerTypes: seq<AttentionKind>,
    ropeLocal: RopeSpec, ropeGlobal: Option<RopeSpec>)
  {
    /** The head dimension of full-attention layers. */
    function FullHeadDim(): nat {
      globalHeadDim.GetOr(headDim)
    }

    function Rope(kind: AttentionKind): RopeSpec {
      if kind.FullAttention? then ropeGlobal.GetOr(ropeLocal) else ropeLocal
    }

    function LayerHeadDim(kind: AttentionKind): nat {
      if kind.FullAttention? then FullHeadDim() else headDim
    }
  }

  datatype QuantizationMeta = QuantizationMeta(bits: nat, groupSize: nat)

  datatype NamespaceBinding = NamespaceBinding(root: string, lmHeadKey: string, lmHeadAliased: bool)

  datatype TensorRole =
    | Embedding | FinalNorm | LmHead | AttentionNorm | FfnNorm | QProj | KProj | VProj | OProj
    | GateProj | UpProj | DownProj | QNorm | KNorm

  datatype PackedShapes = PackedShapes(
    weight: seq<nat>, scales: seq<nat>, biases: seq<nat>, bits: nat, groupSize: nat, groups: nat)

  datatype TensorBinding = TensorBinding(
    name: string, role: TensorRole, logicalShape: seq<nat>, packed: Option<PackedShapes>)

  datatype LayerSpec = LayerSpec(
    index: nat, kind: AttentionKind, qOut: nat, kvOut: nat, rope: RopeSpec, tensors: seq<TensorBinding>)

  datatype ExecutionSpec = ExecutionSpec(
    globalTensors: seq<TensorBinding>, layers: seq<LayerSpec>, quantization: Option<QuantizationMeta>)

  /** The tensors of a layer that its plan refers to, and their names within the layer. */
  datatype Field =
    | InputNormId | PostNormId | QNormId | KNormId | QProjId | KProjId | VProjId | OProjId | GateId | UpId | DownId

  function Suffix(f: Field): string {
    match f
    case InputNormId => "input_layernorm.weight"
    case PostNormId => "post_attention_layernorm.weight"
    case QNormId => "self_attn.q_norm.weight"
    case KNormId => "self_attn.k_norm.weight"
    case QProjId => "self_attn.q_proj.weight"
    case KProjId => "self_attn.k_proj.weight"
    case VProjId => "self_attn.v_proj.weight"
    case OProjId => "self_attn.o_proj.weight"
    case GateId => "mlp.gate_proj.weight"
    case UpId => "mlp.up_proj.weight"
    case DownId => "mlp.down_proj.weight"
  }

  // ---------------------------------------------------------------------
  // compile
  // ---------------------------------------------------------------------

  /** The divisions of the packing code are defined: `bits / 8` is between 1 and 4. */
  predicate Packable(bits: nat, groupSize: nat) {
    8 <= bits < 40 && groupSize != 0
  }

  lemma PackableDivides(bits: nat, groupSize: nat)
    ensures Packable(bits, groupSize) <==> bits / 8 != 0 && 4 / (bits / 8) != 0 && groupSize != 0
  {
    if bits / 8 != 0 {
      var q := 4 / (bits / 8);
      assert bits / 8 > 4 ==> q == 0 by {
        if bits / 8 > 4 { DivModUnique(4, bits / 8, 0, 4); }
      }
      assert bits / 8 == 1 || bits / 8 == 2 || bits / 8 == 3 || bits / 8 == 4 || bits / 8 > 4;
    }
  }

  /** Shapes of a packed `outDim` by `inDim` matrix; None is a division by zero. */
  function Packed(outDim: nat, inDim: nat, groupSize: nat, bits: nat): (r: Option<PackedShapes>)
    ensures r.Some? <==> Packable(bits, groupSize)
  {
    PackableDivides(bits, groupSize);
    if bits / 8 == 0 then None else
    var pack := 4 / (bits / 8);
    if pack == 0 || groupSize == 0 then None else
    var groups := inDim / groupSize;
    Some(PackedShapes([outDim, inDim / pack], [outDim, groups], [outDim, groups], bits, groupSize, groups))
  }

  function NormBinding(root: string, layer: nat, f: Field, role: TensorRole, dim: nat): TensorBinding {
    TensorBinding(LayerName(root, layer, Suffix(f)), role, [dim], None)
  }

  function QuantizedLinear(root: string, layer: nat, f: Field, role: TensorRole,
                           outDim: nat, inDim: nat, groupSize: nat, bits: nat): TensorBinding
    requires Packable(bits, groupSize)
  {
    TensorBinding(LayerName(root, layer, Suffix(f)), role, [outDim, inDim], Packed(outDim, inDim, groupSize, bits))
  }

  function QWidth(arch: TextArchitecture, kind: AttentionKind): nat {
    arch.numHeads * arch.LayerHeadDim(kind)
  }

  function KvWidth(arch: TextArchitecture, kind: AttentionKind): nat {
    if kind.FullAttention? then arch.numGlobalKvHeads.GetOr(1) * arch.FullHeadDim()
    else arch.numKvHeads * arch.headDim
  }

  /** The bindings of one layer in the order in which they are emitted. */
  function LayerTensors(arch: TextArchitecture, root: string, i: nat, kind: AttentionKind,
                        groupSize: nat, bits: nat): seq<TensorBinding>
    requires Packable(bits, groupSize)
  {
    var h, m := arch.hiddenSize, arch.intermediateSize;
    [ NormBinding(root, i, InputNormId, AttentionNorm, h),
      NormBinding(root, i, PostNormId, FfnNorm, h),
      NormBinding(root, i, QNormId, QNorm, arch.LayerHeadDim(kind)),
      NormBinding(root, i, KNormId, KNorm, arch.LayerHeadDim(kind)),
      QuantizedLinear(root, i, QProjId, QProj, QWidth(arch, kind), h, groupSize, bits),
      QuantizedLinear(root, i, KProjId, KProj, KvWidth(arch, kind), h, groupSize, bits) ]
    + (if kind.FullAttention? then []
       else [QuantizedLinear(root, i, VProjId, VProj, KvWidth(arch, kind), h, groupSize, bits)])
    + [ QuantizedLinear(root, i, OProjId, OProj, h, QWidth(arch, kind), groupSize, bits),
        QuantizedLinear(root, i, GateId, GateProj, m, h, groupSize, bits),
        QuantizedLinear(root, i, UpId, UpProj, m, h, groupSize, bits),
        QuantizedLinear(root, i, DownId, DownProj, h, m, groupSize, bits) ]
  }

  function LayerFields(kind: AttentionKind): seq<Field> {
    [InputNormId, PostNormId, QNormId, KNormId, QProjId, KProjId]
    + (if kind.FullAttention? then [] else [VProjId])
    + [OProjId, GateId, UpId, DownId]
  }

  lemma LayerFieldsComplete(kind: AttentionKind)
    ensures forall f: Field :: f in LayerFields(kind) <==> f != VProjId || kind.SlidingAttention?
  {
    var fs := LayerFields(kind);
    var n := |fs|;
    assert fs[0] == InputNormId && fs[1] == PostNormId && fs[2] == QNormId && fs[3] == KNormId;
    assert fs[4] == QProjId && fs[5] == KProjId && (kind.SlidingAttention? ==> fs[6] == VProjId);
    assert fs[n - 4] == OProjId && fs[n - 3] == GateId && fs[n - 2] == UpId && fs[n - 1] == DownId;
  }

  /** A layer emits one tensor per field, except that full attention has no v_proj. */
  lemma LayerTensorNames(arch: TextArchitecture, root: string, i: nat, kind: AttentionKind, groupSize: nat, bits: nat)
    requires Packable(bits, groupSize)
    ensures var ts, fs := LayerTensors(arch, root, i, kind, groupSize, bits), LayerFields(kind);
      |ts| == |fs| && forall k :: 0 <= k < |ts| ==> ts[k].name == LayerName(root, i, Suffix(fs[k]))
  {
    hide LayerName, Suffix, Packed, Packable;
  }

  const EMBED := "embed_tokens.weight"
  const NORM := "norm.weight"
  const LM_HEAD := "lm_head.weight"

  // The names every text model has under its root, and the roots that are tried.
  const ANCHORS := [EMBED, NORM, "layers.0.input_layernorm.weight", "layers.0.self_attn.q_proj.weight"]
  const ROOTS := ["language_model.model", "model"]

  predicate Anchored(root: string, names: set<string>) {
    forall a :: a in ANCHORS ==> GlobalName(root, a) in names
  }

  function NamespaceAt(root: string, names: set<string>): NamespaceBinding {
    var head := GlobalName(root, LM_HEAD);
    NamespaceBinding(root, if head in names then head else GlobalName(root, EMBED), head !in names)
  }

  /** `resolve_namespace`: the first root under which all anchors exist. */
  function ResolveNamespace(names: set<string>): Option<NamespaceBinding> {
    if Anchored(ROOTS[0], names) then Some(NamespaceAt(ROOTS[0], names))
    else if Anchored(ROOTS[1], names) then Some(NamespaceAt(ROOTS[1], names))
    else None
  }

  function GlobalTensors(arch: TextArchitecture, root: string, q: Option<QuantizationMeta>): seq<TensorBinding> {
    var table := [arch.vocabSize, arch.hiddenSize];
    [ TensorBinding(GlobalName(root, EMBED), Embedding, table,
                    if q.Some? then Packed(arch.vocabSize, arch.hiddenSize, q.value.groupSize, q.value.bits) else None),
      TensorBinding(GlobalName(root, NORM), FinalNorm, [arch.hiddenSize], None) ]
    + if arch.tieWordEmbeddings then []
      else [TensorBinding(GlobalName(root, LM_HEAD), LmHead, table, None)]
  }

  function LayerOf(arch: TextArchitecture, root: string, i: nat, groupSize: nat, bits: nat): LayerSpec
    requires i < |arch.layerTypes| && Packable(bits, groupSize)
  {
    var kind := arch.layerTypes[i];
    LayerSpec(i, kind, QWidth(arch, kind), KvWidth(arch, kind), arch.Rope(kind),
              LayerTensors(arch, root, i, kind, groupSize, bits))
  }

  function Bits(q: Option<QuantizationMeta>): nat {
    if q.Some? then q.value.bits else 16
  }

  function GroupSize(q: Option<QuantizationMeta>): nat {
    if q.Some? then q.value.groupSize else 64
  }

  /** The compiled spec, layer by layer. */
  function SpecOf(arch: TextArchitecture, root: string, q: Option<QuantizationMeta>): ExecutionSpec
    requires Packable(Bits(q), GroupSize(q))
  {
    ExecutionSpec(
      GlobalTensors(arch, root, q),
      seq(|arch.layerTypes|, i requires 0 <= i < |arch.layerTypes| => LayerOf(arch, root, i, GroupSize(q), Bits(q))),
      q)
  }

  /** None is the division-by-zero panic of the packing code. It happens exactly
      for metadata outside `Packable`: a checkpoint without metadata never fails here. */
  method Compile(arch: TextArchitecture, namespace: NamespaceBinding, q: Option<QuantizationMeta>)
    returns (r: Option<ExecutionSpec>)
    ensures r.Some? <==> Packable(Bits(q), GroupSize(q))
    ensures r.Some? ==> r.value == SpecOf(arch, namespace.root, q)
  {
    hide LayerTensors, GlobalTensors, Packed;
    var root, bits, gs := namespace.root, Bits(q), GroupSize(q);
    if q.Some? {
      var table := Packed(arch.vocabSize, arch.hiddenSize, gs, bits);
      if table.None? {
        return None;
      }
    }
    var layers := [];
    for i := 0 to |arch.layerTypes|
      invariant Packable(bits, gs)
      invariant |layers| == i && forall j :: 0 <= j < i ==> layers[j] == LayerOf(arch, root, j, gs, bits)
    {
      layers := layers + [LayerOf(arch, root, i, gs, bits)];
    }
    r := Some(ExecutionSpec(GlobalTensors(arch, root, q), layers, q));
    assert layers == SpecOf(arch, root, q).layers;
  }

  // ---------------------------------------------------------------------
  // build_execution_plan
  // ---------------------------------------------------------------------

  datatype ProloguePlan = ProloguePlan(
    segmentId: string, embeddingId: nat, embeddingName: string, embeddingShape: seq<nat>)

  datatype EpiloguePlan = EpiloguePlan(
    segmentId: string, finalNormId: nat, finalNormName: string,
    outputId: Option<nat>, outputName: string, softcapping: Option<real>, vocabSize: nat)

  /** `kind` keeps the source's string: the validator also judges unknown kinds. */
  datatype LayerPlan = LayerPlan(
    index: nat, kind: string, segmentId: string, hiddenSize: nat, nHeads: nat, nKvHeads: nat, headDim: nat,
    globalHeadDim: Option<nat>, nGlobalKvHeads: Option<nat>, slidingWindow: nat, ropeTheta: real,
    partialRotaryFactor: Option<real>, attentionKEqV: bool,
    qProj: nat, kProj: nat, vProj: nat, oProj: nat, qNorm: Option<nat>, kNorm: Option<nat>,
    gateProj: nat, upProj: nat, downProj: nat, inputNorm: nat, postAttentionNorm: nat)

  datatype ModelExecutionPlan = ModelExecutionPlan(
    prologue: ProloguePlan, layers: seq<LayerPlan>, epilogue: EpiloguePlan, hiddenSize: nat)

  const SLIDING := "sliding_attention"
  const FULL := "full_attention"

  function Find(ids: map<string, nat>, name: string): Option<nat> {
    if name in ids then Some(ids[name]) else None
  }

  function FindId(ids: map<string, nat>, root: string, i: nat, f: Field): Option<nat> {
    Find(ids, LayerName(root, i, Suffix(f)))
  }

  function GetId(ids: map<string, nat>, root: string, i: nat, f: Field): nat {
    FindId(ids, root, i, f).GetOr(0)
  }

  function LayerPlanOf(arch: TextArchitecture, root: string, ids: map<string, nat>, i: nat): LayerPlan
    requires i < |arch.layerTypes|
  {
    var kind := arch.layerTypes[i];
    var full := kind.FullAttention?;
    LayerPlan(
      i, if full then FULL else SLIDING, LayerSegment(i), arch.hiddenSize, arch.numHeads,
      if full then arch.numGlobalKvHeads.GetOr(arch.numKvHeads) else arch.numKvHeads,
      arch.LayerHeadDim(kind),
      if full then arch.globalHeadDim else None,
      if full then arch.numGlobalKvHeads else None,
      arch.slidingWindow, arch.Rope(kind).theta, arch.Rope(kind).partialRotaryFactor,
      arch.attentionKEqV && full,
      GetId(ids, root, i, QProjId), GetId(ids, root, i, KProjId),
      GetId(ids, root, i, if full then KProjId else VProjId),  // full attention: K equals V
      GetId(ids, root, i, OProjId), FindId(ids, root, i, QNormId), FindId(ids, root, i, KNormId),
      GetId(ids, root, i, GateId), GetId(ids, root, i, UpId), GetId(ids, root, i, DownId),
      GetId(ids, root, i, InputNormId), GetId(ids, root, i, PostNormId))
  }

  function PrologueOf(arch: TextArchitecture, ns: NamespaceBinding, ids: map<string, nat>): ProloguePlan {
    var embed := GlobalName(ns.root, EMBED);
    ProloguePlan(PERSISTENT, Find(ids, embed).GetOr(0), embed, [arch.vocabSize, arch.hiddenSize])
  }

  function EpilogueOf(arch: TextArchitecture, ns: NamespaceBinding, ids: map<string, nat>): EpiloguePlan {
    var norm := GlobalName(ns.root, NORM);
    EpiloguePlan(PERSISTENT, Find(ids, norm).GetOr(0), norm, Find(ids, ns.lmHeadKey), ns.lmHeadKey,
                 arch.finalLogitSoftcapping, arch.vocabSize)
  }

  function ExecutionPlanOf(arch: TextArchitecture, ns: NamespaceBinding, ids: map<string, nat>): ModelExecutionPlan {
    ModelExecutionPlan(
      PrologueOf(arch, ns, ids),
      seq(|arch.layerTypes|, i requires 0 <= i < |arch.layerTypes| => LayerPlanOf(arch, ns.root, ids, i)),
      EpilogueOf(arch, ns, ids),
      arch.hiddenSize)
  }

  method BuildExecutionPlan(arch: TextArchitecture, ns: NamespaceBinding, ids: map<string, nat>)
    returns (plan: ModelExecutionPlan)
    ensures plan == ExecutionPlanOf(arch, ns, ids)
  {
    hide LayerPlanOf;
    var layers := [];
    for i := 0 to |arch.layerTypes|
      invariant |layers| == i && forall j :: 0 <= j < i ==> layers[j] == LayerPlanOf(arch, ns.root, ids, j)
    {
      layers := layers + [LayerPlanOf(arch, ns.root, ids, i)];
    }
    assert layers == ExecutionPlanOf(arch, ns, ids).layers;
    plan := ModelExecutionPlan(PrologueOf(arch, ns, ids), layers, EpilogueOf(arch, ns, ids), arch.hiddenSize);
  }

  // ---------------------------------------------------------------------
  // ModelExecutionPlan::validate
  // ---------------------------------------------------------------------

  datatype PlanError =
    | ZeroLayers
    | WrongIndex(layer: nat)
    | WrongHiddenSize(layer: nat)
    | ZeroId(layer: nat, field: Field)
    | MissingGlobalHeadDim(layer: nat)
    | UnknownKind(layer: nat)
    | WrongSegment(layer: nat)
    | ZeroEmbedding
    | ZeroFinalNorm
    | ZeroVocab

  function FieldId(p: LayerPlan, f: Field): nat {
    match f
    case QProjId => p.qProj
    case KProjId => p.kProj
    case OProjId => p.oProj
    case GateId => p.gateProj
    case UpId => p.upProj
    case DownId => p.downProj
    case InputNormId => p.inputNorm
    case PostNormId => p.postAttentionNorm
    case VProjId => p.vProj
    case QNormId => p.qNorm.GetOr(0)
    case KNormId => p.kNorm.GetOr(0)
  }

  /** What each complaint of the validator means. */
  predicate Violates(plan: ModelExecutionPlan, e: PlanError) {
    match e
    case ZeroLayers => plan.layers == []
    case WrongIndex(i) => i < |plan.layers| && plan.layers[i].index != i
    case WrongHiddenSize(i) => i < |plan.layers| && plan.layers[i].hiddenSize != plan.hiddenSize
    case ZeroId(i, f) =>
      i < |plan.layers| && FieldId(plan.layers[i], f) == 0 && f != QNormId && f != KNormId
      && (f == VProjId ==> plan.layers[i].kind == SLIDING)
    case MissingGlobalHeadDim(i) => i < |plan.layers| && plan.layers[i].kind == FULL && plan.layers[i].globalHeadDim.None?
    case UnknownKind(i) => i < |plan.layers| && plan.layers[i].kind != FULL && plan.layers[i].kind != SLIDING
    case WrongSegment(i) => i < |plan.layers| && plan.layers[i].segmentId != LayerSegment(i)
    case ZeroEmbedding => plan.prologue.embeddingId == 0
    case ZeroFinalNorm => plan.epilogue.finalNormId == 0
    case ZeroVocab => plan.epilogue.vocabSize == 0
  }

  predicate AboutLayer(e: PlanError, i: nat) {
    (e.WrongIndex? || e.WrongHiddenSize? || e.ZeroId? || e.MissingGlobalHeadDim? || e.UnknownKind? || e.WrongSegment?)
    && e.layer == i
  }

  /** The validator complains about exactly the violations the plan has. */
  method Validate(plan: ModelExecutionPlan) returns (errors: seq<PlanError>)
    ensures forall e :: e in errors <==> Violates(plan, e)
  {
    errors := [];
    if plan.layers == [] {
      errors := errors + [ZeroLayers];
    }
    for i := 0 to |plan.layers|
      invariant forall e :: e in errors <==>
        Violates(plan, e) && (e == ZeroLayers || exists j :: 0 <= j < i && AboutLayer(e, j))
    {
      var found := ValidateLayer(plan, i);
      errors := errors + found;
    }
    if plan.prologue.embeddingId == 0 {
      errors := errors + [ZeroEmbedding];
    }
    if plan.epilogue.finalNormId == 0 {
      errors := errors + [ZeroFinalNorm];
    }
    if plan.epilogue.vocabSize == 0 {
      errors := errors + [ZeroVocab];
    }
    forall e | Violates(plan, e)
      ensures e in errors
    {
      if !(e.ZeroLayers? || e.ZeroEmbedding? || e.ZeroFinalNorm? || e.ZeroVocab?) {
        assert AboutLayer(e, e.layer);
      }
    }
  }

  function When(b: bool, e: PlanError): seq<PlanError> {
    if b then [e] else []
  }

  /** The complaints about ids that are zero, field by field. */
  function ZeroIds(p: LayerPlan, i: nat, fields: seq<Field>): (r: seq<PlanError>)
    ensures forall e :: e in r <==> e.ZeroId? && e.layer == i && e.field in fields && FieldId(p, e.field) == 0
  {
    if fields == [] then [] else
    ZeroIds(p, i, Front(fields)) + When(FieldId(p, Last(fields)) == 0, ZeroId(i, Last(fields)))
  }

  const ALWAYS_CHECKED := [QProjId, KProjId, OProjId, GateId, UpId, DownId, InputNormId, PostNormId]

  function KindErrors(p: LayerPlan, i: nat): (r: seq<PlanError>)
    ensures forall e :: e in r <==>
      || (e == ZeroId(i, VProjId) && p.kind == SLIDING && p.vProj == 0)
      || (e == MissingGlobalHeadDim(i) && p.kind == FULL && p.globalHeadDim.None?)
      || (e == UnknownKind(i) && p.kind != FULL && p.kind != SLIDING)
  {
    KindsDiffer();
    if p.kind == SLIDING then When(p.vProj == 0, ZeroId(i, VProjId))
    else if p.kind == FULL then When(p.globalHeadDim.None?, MissingGlobalHeadDim(i))
    else [UnknownKind(i)]
  }

  function ShapeErrors(plan: ModelExecutionPlan, i: nat): (r: seq<PlanError>)
    requires i < |plan.layers|
    ensures forall e :: e in r <==>
      || (e == WrongIndex(i) && plan.layers[i].index != i)
      || (e == WrongHiddenSize(i) && plan.layers[i].hiddenSize != plan.hiddenSize)
      || (e == WrongSegment(i) && plan.layers[i].segmentId != LayerSegment(i))
  {
    var p := plan.layers[i];
    When(p.index != i, WrongIndex(i)) + When(p.hiddenSize != plan.hiddenSize, WrongHiddenSize(i))
    + When(p.segmentId != LayerSegment(i), WrongSegment(i))
  }

  method ValidateLayer(plan: ModelExecutionPlan, i: nat) returns (errors: seq<PlanError>)
    requires i < |plan.layers|
    ensures forall e :: e in errors <==> Violates(plan, e) && AboutLayer(e, i)
  {
    var p := plan.layers[i];
    errors := ShapeErrors(plan, i) + ZeroIds(p, i, ALWAYS_CHECKED) + KindErrors(p, i);
    forall e
      ensures e in errors <==> Violates(plan, e) && AboutLayer(e, i)
    {
      CheckedFields();
      hide ShapeErrors, ZeroIds, KindErrors, LayerSegment;
      assert e in errors <==> e in ShapeErrors(plan, i) || e in ZeroIds(p, i, ALWAYS_CHECKED) || e in KindErrors(p, i);
    }
  }

  lemma CheckedFields()
    ensures forall f: Field :: f in ALWAYS_CHECKED <==> f != VProjId && f != QNormId && f != KNormId
  {
    assert ALWAYS_CHECKED[0] == QProjId && ALWAYS_CHECKED[1] == KProjId && ALWAYS_CHECKED[2] == OProjId;
    assert ALWAYS_CHECKED[3] == GateId && ALWAYS_CHECKED[4] == UpId && ALWAYS_CHECKED[5] == DownId;
    assert ALWAYS_CHECKED[6] == InputNormId && ALWAYS_CHECKED[7] == PostNormId;
  }

  lemma KindsDiffer()
    ensures SLIDING != FULL
  {
    assert SLIDING[0] != FULL[0];
  }

  ghost predicate Accepted(plan: ModelExecutionPlan) {
    forall e :: !Violates(plan, e)
  }
}
