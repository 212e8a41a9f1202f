// From a compiled spec and a checkpoint to the finished image and its execution
// plan (compile_sequential and the emit_* functions of compute_image.rs).
module Emission {
  import opened Common
  import opened Naming
  import opened Config
  import opened ImageBuilder

  datatype SourceTensor = SourceTensor(
    dtype: string, shape: seq<nat>, data: Bytes, filename: string, offset: nat)

  type Sources = map<string, SourceTensor>

  // ---------------------------------------------------------------------
  // One binding
  // ---------------------------------------------------------------------

  const WEIGHT := ".weight"

  /** `strip_suffix(".weight")`, or the name itself when it has no such suffix. */
  function Stem(name: string): string {
    if |name| >= |WEIGHT| && name[|name| - |WEIGHT|..] == WEIGHT then name[..|name| - |WEIGHT|] else name
  }

  function RoleName(role: TensorRole): string {
    match role
    case Embedding => "Embedding"
    case FinalNorm => "FinalNorm"
    case LmHead => "LmHead"
    case AttentionNorm => "AttentionNorm"
    case FfnNorm => "FfnNorm"
    case QProj => "QProj"
    case KProj => "KProj"
    case VProj => "VProj"
    case OProj => "OProj"
    case GateProj => "GateProj"
    case UpProj => "UpProj"
    case DownProj => "DownProj"
    case QNorm => "QNorm"
    case KNorm => "KNorm"
  }

  function InfoOf(src: SourceTensor, name: string, role: string, layer: Option<nat>,
                  shape: seq<nat>, quantization: Option<QuantizationDesc>): TensorInfo {
    TensorInfo(name, role, layer, src.filename, src.offset, "F32", src.dtype, shape, src.shape, quantization)
  }

  /** None is the error "missing tensor"; otherwise the new tensor's id is `img.nextId`. */
  function EmitTensor(img: Image, sources: Sources, name: string, role: string, layer: Option<nat>,
                      shape: seq<nat>, quantization: Option<QuantizationDesc>): Option<Image>
  {
    if name !in sources then None
    else Add(img, InfoOf(sources[name], name, role, layer, shape, quantization), sources[name].data)
  }

  function EmitQuantized(img: Image, sources: Sources, name: string, role: string, layer: Option<nat>,
                         shape: seq<nat>, packed: PackedShapes): Option<Image>
  {
    match EmitTensor(img, sources, Stem(name) + ".scales", role + "::scales", layer, packed.scales, None)
    case None => None
    case Some(a) =>
      match EmitTensor(a, sources, Stem(name) + ".biases", role + "::biases", layer, packed.biases, None)
      case None => None
      case Some(b) =>
        EmitTensor(b, sources, name, role, layer, shape,
                   Some(QuantizationDesc(packed.bits, packed.groupSize, packed.groups, img.nextId, a.nextId)))
  }

  function EmitBinding(img: Image, sources: Sources, b: TensorBinding, layer: Option<nat>): Option<Image> {
    match b.packed
    case Some(packed) => EmitQuantized(img, sources, b.name, RoleName(b.role), layer, b.logicalShape, packed)
    case None => EmitTensor(img, sources, b.name, RoleName(b.role), layer, b.logicalShape, None)
  }

  /** The checkpoint tensors a binding needs, in emission order. */
  function NeededNames(b: TensorBinding): seq<string> {
    if b.packed.Some? then [Stem(b.name) + ".scales", Stem(b.name) + ".biases", b.name] else [b.name]
  }

  predicate Present(sources: Sources, b: TensorBinding) {
    forall n :: n in NeededNames(b) ==> n in sources
  }

  function Payloads(sources: Sources, b: TensorBinding): seq<Bytes>
    requires Present(sources, b)
  {
    if b.packed.Some? then
      assert NeededNames(b)[0] in sources && NeededNames(b)[1] in sources && NeededNames(b)[2] in sources;
      [sources[Stem(b.name) + ".scales"].data, sources[Stem(b.name) + ".biases"].data, sources[b.name].data]
    else
      assert NeededNames(b)[0] in sources;
      [sources[b.name].data]
  }

  /** What emitting one tensor does to an open image. */
  lemma EmitTensorKeeps(img: Image, given: seq<Bytes>, sources: Sources, name: string, role: string,
                        layer: Option<nat>, shape: seq<nat>, quantization: Option<QuantizationDesc>)
    requires Inv(img, given) && img.current.Some? && name in sources
    ensures var r := EmitTensor(img, sources, name, role, layer, shape, quantization);
      && r.Some?
      && Inv(r.value, given + [sources[name].data])
      && Follows(img, r.value)
      && r.value.current.Some?
      && r.value.nextId == img.nextId + 1 == |r.value.tensors|
      && r.value.tensors[img.nextId].info.name == name
      && r.value.tensors[img.nextId].info.quantization == quantization
      && r.value.tensors[img.nextId].segment == img.current.value.id
  {
    AddKeeps(img, given, InfoOf(sources[name], name, role, layer, shape, quantization), sources[name].data);
  }

  /** The image grew: same open segment, earlier tensors untouched. */
  ghost predicate Follows(img: Image, next: Image) {
    && img.current.Some? && next.current.Some?
    && next.current.value.id == img.current.value.id
    && SegmentIds(next) == SegmentIds(img)
    && img.nextId == |img.tensors| <= |next.tensors| == next.nextId
    && next.tensors[..|img.tensors|] == img.tensors
    && forall k :: |img.tensors| <= k < |next.tensors| ==> next.tensors[k].segment == img.current.value.id
  }

  lemma FollowsTransitive(a: Image, b: Image, c: Image)
    requires Follows(a, b) && Follows(b, c)
    ensures Follows(a, c)
  {
    assert c.tensors[..|a.tensors|] == c.tensors[..|b.tensors|][..|a.tensors|];
    forall k | |a.tensors| <= k < |c.tensors|
      ensures c.tensors[k].segment == a.current.value.id
    {
      if k < |b.tensors| {
        assert c.tensors[k] == c.tensors[..|b.tensors|][k] == b.tensors[k];
      }
    }
  }

  /** A binding is emitted exactly when the checkpoint has its tensors; its own id is
      the last one, and that entry holds the checkpoint's bytes under the binding's name. */
  lemma EmitBindingKeeps(img: Image, given: seq<Bytes>, sources: Sources, b: TensorBinding, layer: Option<nat>)
    requires Inv(img, given) && img.current.Some?
    ensures EmitBinding(img, sources, b, layer).Some? <==> Present(sources, b)
    ensures Present(sources, b) ==>
      var next := EmitBinding(img, sources, b, layer).value;
      && Inv(next, given + Payloads(sources, b))
      && Follows(img, next)
      && next.nextId == img.nextId + |NeededNames(b)|
      && next.tensors[next.nextId - 1].info.name == b.name
      && Last(Payloads(sources, b)) == sources[b.name].data
  {
    hide Inv, Add, Follows, Stem, RoleName;
    var role := RoleName(b.role);
    match b.packed {
      case None =>
        assert NeededNames(b)[0] == b.name;
        if b.name in sources {
          EmitTensorKeeps(img, given, sources, b.name, role, layer, b.logicalShape, None);
        }
      case Some(packed) =>
        assert NeededNames(b)[0] == Stem(b.name) + ".scales" && NeededNames(b)[1] == Stem(b.name) + ".biases";
        assert NeededNames(b)[2] == b.name;
        EmitQuantizedKeeps(img, given, sources, b, role, layer, packed);
    }
  }

  /** Entries `id`, `id + 1` and `id + 2` are the scales, the biases and the weight of a packed
      matrix, and the weight's descriptor names the other two. */
  predicate IsTriple(img: Image, id: nat, name: string, packed: PackedShapes) {
    && id + 2 < |img.tensors|
    && var scales, biases, weight := img.tensors[id].info, img.tensors[id + 1].info, img.tensors[id + 2].info;
    && scales.name == Stem(name) + ".scales" && scales.quantization == None
    && biases.name == Stem(name) + ".biases" && biases.quantization == None
    && weight.name == name
    && weight.quantization == Some(QuantizationDesc(packed.bits, packed.groupSize, packed.groups, id, id + 1))
  }

  lemma StillAt(img: Image, next: Image, k: nat)
    requires Follows(img, next) && k < |img.tensors|
    ensures k < |next.tensors| && next.tensors[k] == img.tensors[k]
  {
    assert next.tensors[k] == next.tensors[..|img.tensors|][k];
  }

  lemma EmitQuantizedKeeps(img: Image, given: seq<Bytes>, sources: Sources, b: TensorBinding, role: string,
                           layer: Option<nat>, packed: PackedShapes)
    requires Inv(img, given) && img.current.Some?
    ensures var scales, biases := Stem(b.name) + ".scales", Stem(b.name) + ".biases";
      var r := EmitQuantized(img, sources, b.name, role, layer, b.logicalShape, packed);
      && (r.Some? <==> scales in sources && biases in sources && b.name in sources)
      && (r.Some? ==>
           && Inv(r.value, given + [sources[scales].data, sources[biases].data, sources[b.name].data])
           && Follows(img, r.value)
           && r.value.nextId == img.nextId + 3 == |r.value.tensors|
           && IsTriple(r.value, img.nextId, b.name, packed))
  {
    hide Inv, Follows, Stem, EmitTensor;
    var scales, biases := Stem(b.name) + ".scales", Stem(b.name) + ".biases";
    if scales !in sources {
      NotEmitted(img, sources, scales, role + "::scales", layer, packed.scales, None);
      return;
    }
    EmitTensorKeeps(img, given, sources, scales, role + "::scales", layer, packed.scales, None);
    var s1 := EmitTensor(img, sources, scales, role + "::scales", layer, packed.scales, None).value;
    var g1 := given + [sources[scales].data];
    if biases !in sources {
      NotEmitted(s1, sources, biases, role + "::biases", layer, packed.biases, None);
      return;
    }
    EmitTensorKeeps(s1, g1, sources, biases, role + "::biases", layer, packed.biases, None);
    var s2 := EmitTensor(s1, sources, biases, role + "::biases", layer, packed.biases, None).value;
    var g2 := g1 + [sources[biases].data];
    var desc := Some(QuantizationDesc(packed.bits, packed.groupSize, packed.groups, img.nextId, s1.nextId));
    if b.name !in sources {
      NotEmitted(s2, sources, b.name, role, layer, b.logicalShape, desc);
      return;
    }
    EmitTensorKeeps(s2, g2, sources, b.name, role, layer, b.logicalShape, desc);
    var s3 := EmitTensor(s2, sources, b.name, role, layer, b.logicalShape, desc).value;
    FollowsTransitive(img, s1, s2);
    FollowsTransitive(img, s2, s3);
    assert g2 + [sources[b.name].data] == given + [sources[scales].data, sources[biases].data, sources[b.name].data];
    StillAt(s1, s2, img.nextId);
    StillAt(s2, s3, img.nextId);
    StillAt(s2, s3, s1.nextId);
  }

  lemma NotEmitted(img: Image, sources: Sources, name: string, role: string, layer: Option<nat>,
                   shape: seq<nat>, quantization: Option<QuantizationDesc>)
    requires name !in sources
    ensures EmitTensor(img, sources, name, role, layer, shape, quantization).None?
  {
  }

  // ---------------------------------------------------------------------
  // A list of bindings, then all layers
  // ---------------------------------------------------------------------

  /** The builder and the map of emitted ids. */
  datatype Emitted = Emitted(img: Image, ids: map<string, nat>)

  function EmitAll(e: Emitted, sources: Sources, bs: seq<TensorBinding>, layer: Option<nat>): Option<Emitted> {
    if bs == [] then Some(e)
    else
      match EmitAll(e, sources, Front(bs), layer)
      case None => None
      case Some(m) =>
        match EmitBinding(m.img, sources, Last(bs), layer)
        case None => None
        case Some(img) => Some(Emitted(img, m.ids[Last(bs).name := if img.nextId == 0 then 0 else img.nextId - 1]))
  }

  function OpenLayer(e: Emitted, l: LayerSpec): Emitted {
    e.(img := Begin(e.img, LayerSegment(l.index), Layer(l.index)))
  }

  function EmitLayers(e: Emitted, sources: Sources, layers: seq<LayerSpec>): Option<Emitted> {
    if layers == [] then Some(e)
    else
      match EmitLayers(e, sources, Front(layers))
      case None => None
      case Some(m) => EmitAll(OpenLayer(m, Last(layers)), sources, Last(layers).tensors, Some(Last(layers).index))
  }

  function Start(): Emitted {
    Emitted(Begin(EMPTY, PERSISTENT, Persistent), map[])
  }

  const LM_HEAD_ALIAS := "lm_head.weight"

  function WithAlias(e: Emitted, ns: NamespaceBinding): Option<Emitted> {
    if !ns.lmHeadAliased then Some(e)
    else
      match Find(e.ids, GlobalName(ns.root, EMBED))
      case None => None
      case Some(id) => Some(e.(img := e.img.(aliases := e.img.aliases + [AliasEntry(LM_HEAD_ALIAS, id)])))
  }

  function EmitSpec(spec: ExecutionSpec, ns: NamespaceBinding, sources: Sources): Option<Emitted> {
    match EmitAll(Start(), sources, spec.globalTensors, None)
    case None => None
    case Some(g) =>
      match WithAlias(g, ns)
      case None => None
      case Some(a) => EmitLayers(a, sources, spec.layers)
  }

  predicate AllPresent(sources: Sources, bs: seq<TensorBinding>) {
    forall b :: b in bs ==> Present(sources, b)
  }

  function GivenAll(sources: Sources, bs: seq<TensorBinding>): seq<Bytes>
    requires AllPresent(sources, bs)
  {
    if bs == [] then [] else GivenAll(sources, Front(bs)) + Payloads(sources, Last(bs))
  }

  /** `name` was emitted: its id names an entry with that name holding the checkpoint's bytes. */
  ghost predicate Recorded(e: Emitted, given: seq<Bytes>, sources: Sources, name: string) {
    && name in e.ids && name in sources
    && e.ids[name] < |given| == |e.img.tensors|
    && e.img.tensors[e.ids[name]].info.name == name
    && given[e.ids[name]] == sources[name].data
  }

  ghost predicate EInv(e: Emitted, given: seq<Bytes>, sources: Sources) {
    && Inv(e.img, given)
    && e.img.current.Some?
    && |given| == |e.img.tensors| == e.img.nextId
    && forall n :: n in e.ids ==> Recorded(e, given, sources, n)
  }

  ghost predicate Named(bs: seq<TensorBinding>, name: string) {
    exists b :: b in bs && b.name == name
  }

  /** What emitting `bs` does to the map of ids. */
  ghost predicate IdsGrow(e: Emitted, next: Emitted, bs: seq<TensorBinding>) {
    && (forall n :: n in next.ids <==> n in e.ids || Named(bs, n))
    && (forall n :: n in e.ids && !Named(bs, n) ==> next.ids[n] == e.ids[n])
    && (forall n :: n in next.ids && Named(bs, n) ==> e.img.nextId <= next.ids[n] < next.img.nextId)
  }

  lemma {:induction false} EmitAllKeeps(e: Emitted, given: seq<Bytes>, sources: Sources,
                                        bs: seq<TensorBinding>, layer: Option<nat>)
    requires EInv(e, given, sources)
    ensures EmitAll(e, sources, bs, layer).Some? <==> AllPresent(sources, bs)
    ensures AllPresent(sources, bs) ==>
      var next := EmitAll(e, sources, bs, layer).value;
      && EInv(next, given + GivenAll(sources, bs), sources)
      && Follows(e.img, next.img)
      && IdsGrow(e, next, bs)
  {
    hide Inv, Present, Payloads, EmitBinding;
    if bs == [] {
      assert given + [] == given;
      FollowsRefl(e.img);
    } else {
      var front, last := Front(bs), Last(bs);
      assert bs == front + [last];
      EmitAllKeeps(e, given, sources, front, layer);
      assert AllPresent(sources, bs) <==> AllPresent(sources, front) && Present(sources, last);
      if AllPresent(sources, front) {
        var m := EmitAll(e, sources, front, layer).value;
        var gm := given + GivenAll(sources, front);
        EmitBindingKeeps(m.img, gm, sources, last, layer);
        if Present(sources, last) {
          assert gm + Payloads(sources, last) == given + GivenAll(sources, bs);
          EmitOneMore(e, m, gm, sources, bs, layer);
        }
      }
    }
  }

  lemma FollowsRefl(img: Image)
    requires img.current.Some? && img.nextId == |img.tensors|
    ensures Follows(img, img)
  {
  }

  lemma EmitOneMore(e: Emitted, m: Emitted, gm: seq<Bytes>, sources: Sources, bs: seq<TensorBinding>, layer: Option<nat>)
    requires bs != [] && AllPresent(sources, bs) && Present(sources, Last(bs))
    requires EmitAll(e, sources, Front(bs), layer) == Some(m)
    requires EInv(m, gm, sources) && Follows(e.img, m.img) && IdsGrow(e, m, Front(bs))
    ensures EmitAll(e, sources, bs, layer).Some?
    ensures var next := EmitAll(e, sources, bs, layer).value;
      && EInv(next, gm + Payloads(sources, Last(bs)), sources)
      && Follows(e.img, next.img)
      && IdsGrow(e, next, bs)
  {
    hide *;
    var last := Last(bs);
    PresentName(sources, last);
    EInvSays(m, gm, sources);
    EmitBindingKeeps(m.img, gm, sources, last, layer);
    EmitAllStep(e, m, sources, bs, layer);
    var next, given := EmitAll(e, sources, bs, layer).value, gm + Payloads(sources, last);
    InvCounts(next.img, given);
    FollowsTransitive(e.img, m.img, next.img);
    FollowsSays(e.img, m.img);
    FollowsSays(m.img, next.img);
    StillRecorded(m, gm, next, given, sources, last);
    EInvFrom(next, given, sources);
    NamedStep(bs);
    IdsGrowStep(e, m, next, bs);
  }

  lemma EInvSays(e: Emitted, given: seq<Bytes>, sources: Sources)
    requires EInv(e, given, sources)
    ensures Inv(e.img, given) && e.img.current.Some? && |given| == |e.img.tensors| == e.img.nextId
    ensures forall n :: n in e.ids ==> Recorded(e, given, sources, n)
  {
    hide Inv, Recorded;
  }

  lemma EInvFrom(e: Emitted, given: seq<Bytes>, sources: Sources)
    requires Inv(e.img, given) && e.img.current.Some? && |given| == |e.img.tensors| == e.img.nextId
    requires forall n :: n in e.ids ==> Recorded(e, given, sources, n)
    ensures EInv(e, given, sources)
  {
    hide Inv, Recorded;
  }

  lemma FollowsSays(img: Image, next: Image)
    requires Follows(img, next)
    ensures next.current.Some? && |img.tensors| <= |next.tensors| && next.tensors[..|img.tensors|] == img.tensors
    ensures img.nextId <= next.nextId
  {
  }

  lemma IdsGrowStep(e: Emitted, m: Emitted, next: Emitted, bs: seq<TensorBinding>)
    requires bs != [] && IdsGrow(e, m, Front(bs)) && e.img.nextId <= m.img.nextId < next.img.nextId
    requires next.ids == m.ids[Last(bs).name := next.img.nextId - 1]
    requires forall n :: Named(bs, n) <==> Named(Front(bs), n) || n == Last(bs).name
    ensures IdsGrow(e, next, bs)
  {
    hide Named;
  }

  lemma StillRecorded(m: Emitted, gm: seq<Bytes>, next: Emitted, given: seq<Bytes>, sources: Sources, b: TensorBinding)
    requires (forall n :: n in m.ids ==> Recorded(m, gm, sources, n)) && Present(sources, b)
    requires |gm| == |m.img.tensors| && |given| == |next.img.tensors| == next.img.nextId > 0
    requires given == gm + Payloads(sources, b) && next.img.tensors[..|m.img.tensors|] == m.img.tensors
    requires |m.img.tensors| <= |next.img.tensors|
    requires next.ids == m.ids[b.name := next.img.nextId - 1]
    requires next.img.tensors[next.img.nextId - 1].info.name == b.name
    requires b.name in sources && Payloads(sources, b) != [] && Last(Payloads(sources, b)) == sources[b.name].data
    ensures forall n :: n in next.ids ==> Recorded(next, given, sources, n)
  {
    hide Present, Payloads;
    forall n | n in next.ids
      ensures Recorded(next, given, sources, n)
    {
      if n == b.name {
        assert given[|given| - 1] == Last(Payloads(sources, b));
      } else {
        assert Recorded(m, gm, sources, n);
        assert next.img.tensors[m.ids[n]] == next.img.tensors[..|m.img.tensors|][m.ids[n]];
      }
    }
  }

  lemma NamedStep(bs: seq<TensorBinding>)
    requires bs != []
    ensures forall n :: Named(bs, n) <==> Named(Front(bs), n) || n == Last(bs).name
  {
    assert bs == Front(bs) + [Last(bs)];
    assert Last(bs) in bs;
    forall n
      ensures Named(bs, n) <==> Named(Front(bs), n) || n == Last(bs).name
    {
      if Named(Front(bs), n) {
        var b :| b in Front(bs) && b.name == n;
        assert b in bs;
      }
    }
  }

  lemma EmitAllStep(e: Emitted, m: Emitted, sources: Sources, bs: seq<TensorBinding>, layer: Option<nat>)
    requires bs != [] && EmitAll(e, sources, Front(bs), layer) == Some(m)
    requires EmitBinding(m.img, sources, Last(bs), layer).Some?
    ensures var img := EmitBinding(m.img, sources, Last(bs), layer).value;
      EmitAll(e, sources, bs, layer)
      == Some(Emitted(img, m.ids[Last(bs).name := if img.nextId == 0 then 0 else img.nextId - 1]))
  {
    hide EmitBinding;
  }

  lemma InvCounts(img: Image, given: seq<Bytes>)
    requires Inv(img, given)
    ensures img.nextId == |img.tensors| == |given|
  {
  }

  lemma PresentName(sources: Sources, b: TensorBinding)
    requires Present(sources, b)
    ensures b.name in sources && Payloads(sources, b) != [] && |NeededNames(b)| == |Payloads(sources, b)|
  {
    assert Last(NeededNames(b)) == b.name;
    assert Last(NeededNames(b)) in NeededNames(b);
  }
}
