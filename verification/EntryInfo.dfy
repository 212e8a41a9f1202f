// What the entries of an emitted image say of their tensors (compute_image.rs): where they come
// from, how they are stored, and which binding they belong to.
module EntryInfo {
  import opened Common
  import opened Naming
  import opened Config
  import opened ImageBuilder
  import opened Emission
  import opened Compiler

  /** The entry keeps what the checkpoint says of the tensor of its name. */
  predicate FromCheckpoint(t: TensorEntry, sources: Sources) {
    && t.info.name in sources
    && var src := sources[t.info.name];
    && t.info.storageDtype == src.dtype && t.info.physicalShape == src.shape
    && t.info.sourceFilename == src.filename && t.info.sourceOffset == src.offset
    && t.byteLength == |src.data|
  }

  /** The entry is the own tensor of the binding, or the scales or the biases of a packed one, in the
      segment of the binding's layer. */
  predicate BelongsTo(t: TensorEntry, b: TensorBinding, layer: Option<nat>) {
    && t.info.layer == layer && t.segment == Home(layer) && t.info.logicalDtype == "F32"
    && (IsOwn(t.info, b) || (b.packed.Some? && (IsScales(t.info, b) || IsBiases(t.info, b))))
  }

  predicate IsOwn(t: TensorInfo, b: TensorBinding) {
    && t.name == b.name && t.role == RoleName(b.role) && t.logicalShape == b.logicalShape
    && (t.quantization.Some? <==> b.packed.Some?)
    && (b.packed.Some? ==>
         && t.quantization.value.bits == b.packed.value.bits
         && t.quantization.value.groupSize == b.packed.value.groupSize
         && t.quantization.value.groups == b.packed.value.groups)
  }

  predicate IsScales(t: TensorInfo, b: TensorBinding)
    requires b.packed.Some?
  {
    && t.name == Stem(b.name) + ".scales" && t.role == RoleName(b.role) + "::scales"
    && t.logicalShape == b.packed.value.scales && t.quantization.None?
  }

  predicate IsBiases(t: TensorInfo, b: TensorBinding)
    requires b.packed.Some?
  {
    && t.name == Stem(b.name) + ".biases" && t.role == RoleName(b.role) + "::biases"
    && t.logicalShape == b.packed.value.biases && t.quantization.None?
  }

  /** The role whose name this is. */
  function RoleOf(s: string): TensorRole {
    if |s| == 13 then AttentionNorm
    else if |s| == 7 then FfnNorm
    else if |s| == 9 then (if s[0] == 'E' then Embedding else FinalNorm)
    else if |s| == 8 then (if s[0] == 'G' then GateProj else DownProj)
    else if |s| == 6 then (if s[0] == 'L' then LmHead else UpProj)
    else if |s| < 2 then Embedding
    else if s[1] == 'N' then (if s[0] == 'Q' then QNorm else KNorm)
    else if s[0] == 'Q' then QProj
    else if s[0] == 'K' then KProj
    else if s[0] == 'V' then VProj
    else OProj
  }

  /** Roles are written under different names. */
  lemma RoleNameInjective(r: TensorRole, s: TensorRole)
    ensures RoleOf(RoleName(r)) == r
    ensures RoleName(r) == RoleName(s) ==> r == s
  {
    RoleDecodes(r);
    RoleDecodes(s);
    hide *;
  }

  lemma RoleDecodes(r: TensorRole)
    ensures RoleOf(RoleName(r)) == r
  {
  }

  /** Where the tensors of a layer go, and those outside the layers. */
  function Home(layer: Option<nat>): string {
    match layer
    case None => PERSISTENT
    case Some(i) => LayerSegment(i)
  }

  /** A binding of the globals, or of one of the layers. */
  ghost predicate OfSpec(globals: seq<TensorBinding>, layers: seq<LayerSpec>, b: TensorBinding, layer: Option<nat>) {
    match layer
    case None => b in globals
    case Some(i) => exists l :: l in layers && l.index == i && b in l.tensors
  }

  ghost predicate Explained(t: TensorEntry, sources: Sources, globals: seq<TensorBinding>, layers: seq<LayerSpec>) {
    FromCheckpoint(t, sources) && exists b, layer :: OfSpec(globals, layers, b, layer) && BelongsTo(t, b, layer)
  }

  ghost predicate AllExplained(img: Image, sources: Sources, globals: seq<TensorBinding>, layers: seq<LayerSpec>) {
    forall k :: 0 <= k < |img.tensors| ==> Explained(img.tensors[k], sources, globals, layers)
  }

  // ---------------------------------------------------------------------
  // Emission
  // ---------------------------------------------------------------------

  /** The open segment is that of the layer. */
  ghost predicate OpenAt(img: Image, layer: Option<nat>) {
    img.current.Some? && img.current.value.id == Home(layer)
  }

  /** `next` has more entries, all from the checkpoint and all of `b`. */
  ghost predicate Extends(img: Image, next: Image, sources: Sources, b: TensorBinding, layer: Option<nat>) {
    && |img.tensors| <= |next.tensors| && next.tensors[..|img.tensors|] == img.tensors
    && forall k :: |img.tensors| <= k < |next.tensors| ==>
         FromCheckpoint(next.tensors[k], sources) && BelongsTo(next.tensors[k], b, layer)
  }

  lemma TensorEntryIs(img: Image, sources: Sources, name: string, role: string, layer: Option<nat>,
                      shape: seq<nat>, quantization: Option<QuantizationDesc>)
    requires OpenAt(img, layer) && name in sources
    ensures var r := EmitTensor(img, sources, name, role, layer, shape, quantization);
      && r.Some? && OpenAt(r.value, layer)
      && |r.value.tensors| == |img.tensors| + 1 && r.value.tensors[..|img.tensors|] == img.tensors
      && var t := r.value.tensors[|img.tensors|];
      && FromCheckpoint(t, sources) && t.segment == Home(layer)
      && t.info.name == name && t.info.role == role && t.info.layer == layer && t.info.logicalShape == shape
      && t.info.quantization == quantization && t.info.logicalDtype == "F32"
  {
    hide Home;
  }

  lemma Step(a: Image, b: Image, c: Image, sources: Sources, binding: TensorBinding, layer: Option<nat>)
    requires Extends(a, b, sources, binding, layer)
    requires |c.tensors| == |b.tensors| + 1 && c.tensors[..|b.tensors|] == b.tensors
    requires FromCheckpoint(c.tensors[|b.tensors|], sources) && BelongsTo(c.tensors[|b.tensors|], binding, layer)
    ensures Extends(a, c, sources, binding, layer)
  {
    hide FromCheckpoint, BelongsTo;
    assert c.tensors[..|a.tensors|] == c.tensors[..|b.tensors|][..|a.tensors|];
    forall k | |a.tensors| <= k < |c.tensors|
      ensures FromCheckpoint(c.tensors[k], sources) && BelongsTo(c.tensors[k], binding, layer)
    {
      if k < |b.tensors| {
        assert c.tensors[k] == c.tensors[..|b.tensors|][k];
      }
    }
  }

  lemma ExtendsSelf(img: Image, sources: Sources, b: TensorBinding, layer: Option<nat>)
    ensures Extends(img, img, sources, b, layer)
  {
  }

  lemma BindingExtends(img: Image, sources: Sources, b: TensorBinding, layer: Option<nat>)
    requires OpenAt(img, layer) && Present(sources, b)
    ensures var r := EmitBinding(img, sources, b, layer);
      r.Some? && OpenAt(r.value, layer) && Extends(img, r.value, sources, b, layer)
  {
    hide Stem, RoleName, EmitTensor, OpenAt, Extends, FromCheckpoint, Home;
    var role := RoleName(b.role);
    ExtendsSelf(img, sources, b, layer);
    match b.packed {
      case None =>
        assert NeededNames(b)[0] == b.name;
        TensorEntryIs(img, sources, b.name, role, layer, b.logicalShape, None);
        Step(img, img, EmitTensor(img, sources, b.name, role, layer, b.logicalShape, None).value, sources, b, layer);
      case Some(packed) =>
        var scales, biases := Stem(b.name) + ".scales", Stem(b.name) + ".biases";
        assert NeededNames(b)[0] == scales && NeededNames(b)[1] == biases && NeededNames(b)[2] == b.name;
        TensorEntryIs(img, sources, scales, role + "::scales", layer, packed.scales, None);
        var i1 := EmitTensor(img, sources, scales, role + "::scales", layer, packed.scales, None).value;
        Step(img, img, i1, sources, b, layer);
        TensorEntryIs(i1, sources, biases, role + "::biases", layer, packed.biases, None);
        var i2 := EmitTensor(i1, sources, biases, role + "::biases", layer, packed.biases, None).value;
        Step(img, i1, i2, sources, b, layer);
        var desc := Some(QuantizationDesc(packed.bits, packed.groupSize, packed.groups, img.nextId, i1.nextId));
        TensorEntryIs(i2, sources, b.name, role, layer, b.logicalShape, desc);
        Step(img, i2, EmitTensor(i2, sources, b.name, role, layer, b.logicalShape, desc).value, sources, b, layer);
    }
  }

  lemma ExplainedMore(img: Image, next: Image, sources: Sources, globals: seq<TensorBinding>, layers: seq<LayerSpec>,
                      b: TensorBinding, layer: Option<nat>)
    requires AllExplained(img, sources, globals, layers) && Extends(img, next, sources, b, layer)
    requires OfSpec(globals, layers, b, layer)
    ensures AllExplained(next, sources, globals, layers)
  {
    hide FromCheckpoint, BelongsTo, OfSpec;
    forall k | 0 <= k < |next.tensors|
      ensures Explained(next.tensors[k], sources, globals, layers)
    {
      if k < |img.tensors| {
        assert next.tensors[k] == next.tensors[..|img.tensors|][k];
      }
    }
  }

  lemma {:induction false} AllExplain(e: Emitted, sources: Sources, bs: seq<TensorBinding>, layer: Option<nat>,
                                      globals: seq<TensorBinding>, layers: seq<LayerSpec>)
    requires OpenAt(e.img, layer) && AllPresent(sources, bs) && AllExplained(e.img, sources, globals, layers)
    requires forall b :: b in bs ==> OfSpec(globals, layers, b, layer)
    ensures var r := EmitAll(e, sources, bs, layer);
      r.Some? && OpenAt(r.value.img, layer) && AllExplained(r.value.img, sources, globals, layers)
    decreases |bs|
  {
    hide *;
    if bs == [] {
      NothingEmitted(e, sources, bs, layer);
    } else {
      PresentParts(sources, bs);
      assert bs == Front(bs) + [Last(bs)] by { FrontLast(bs); }
      AllExplain(e, sources, Front(bs), layer, globals, layers);
      var m := EmitAll(e, sources, Front(bs), layer).value;
      BindingExtends(m.img, sources, Last(bs), layer);
      var img := EmitBinding(m.img, sources, Last(bs), layer).value;
      ExplainedMore(m.img, img, sources, globals, layers, Last(bs), layer);
      EmitAllStep(e, m, sources, bs, layer);
    }
  }

  lemma OpenExplained(e: Emitted, l: LayerSpec, sources: Sources, globals: seq<TensorBinding>, layers: seq<LayerSpec>)
    requires AllExplained(e.img, sources, globals, layers)
    ensures OpenAt(OpenLayer(e, l).img, Some(l.index)) && AllExplained(OpenLayer(e, l).img, sources, globals, layers)
  {
    hide Explained, LayerSegment, SegmentFile;
  }

  lemma LayersMore(img: Image, sources: Sources, globals: seq<TensorBinding>, layers: seq<LayerSpec>)
    requires layers != [] && AllExplained(img, sources, globals, Front(layers))
    ensures AllExplained(img, sources, globals, layers)
    ensures forall b :: b in Last(layers).tensors ==> OfSpec(globals, layers, b, Some(Last(layers).index))
  {
    hide FromCheckpoint, BelongsTo;
    assert layers == Front(layers) + [Last(layers)];
    forall k | 0 <= k < |img.tensors|
      ensures Explained(img.tensors[k], sources, globals, layers)
    {
      assert Explained(img.tensors[k], sources, globals, Front(layers));
      var b, layer :| OfSpec(globals, Front(layers), b, layer) && BelongsTo(img.tensors[k], b, layer);
      assert OfSpec(globals, layers, b, layer);
    }
  }

  lemma {:induction false} LayersExplain(e: Emitted, sources: Sources, globals: seq<TensorBinding>, layers: seq<LayerSpec>)
    requires LayersPresent(sources, layers) && AllExplained(e.img, sources, globals, [])
    ensures EmitLayers(e, sources, layers).Some?
    ensures AllExplained(EmitLayers(e, sources, layers).value.img, sources, globals, layers)
    decreases |layers|
  {
    hide *;
    if layers == [] {
      NoLayersEmitted(e, sources, layers);
    } else {
      PresentStep(sources, layers);
      LayersExplain(e, sources, globals, Front(layers));
      EmitLayersStep(e, sources, layers);
      var m, last := EmitLayers(e, sources, Front(layers)).value, Last(layers);
      LayersMore(m.img, sources, globals, layers);
      OpenExplained(m, last, sources, globals, layers);
      AllExplain(OpenLayer(m, last), sources, last.tensors, Some(last.index), globals, layers);
    }
  }

  lemma NoLayersEmitted(e: Emitted, sources: Sources, layers: seq<LayerSpec>)
    requires layers == []
    ensures EmitLayers(e, sources, layers) == Some(e)
  {
  }

  lemma StartExplained(sources: Sources, globals: seq<TensorBinding>)
    ensures OpenAt(Start().img, None) && AllExplained(Start().img, sources, globals, [])
    ensures forall b :: b in globals ==> OfSpec(globals, [], b, None)
  {
  }

  lemma AliasExplained(g: Emitted, ns: NamespaceBinding, sources: Sources, globals: seq<TensorBinding>)
    requires WithAlias(g, ns).Some? && AllExplained(g.img, sources, globals, [])
    ensures AllExplained(WithAlias(g, ns).value.img, sources, globals, [])
  {
    AliasOnly(g, ns);
    hide Explained, WithAlias;
  }

  /** Every entry of an emitted image keeps its tensor's storage type, shape, file and offset as the
      checkpoint has them, and has layer, role, logical shape and packing of the binding it was
      emitted for. */
  lemma {:induction false} EntriesExplained(arch: TextArchitecture, ns: NamespaceBinding, q: Option<QuantizationMeta>,
                                            sources: Sources, e: Emitted)
    requires Packable(Bits(q), GroupSize(q))
    requires EmitSpec(SpecOf(arch, ns.root, q), ns, sources) == Some(e)
    ensures var spec := SpecOf(arch, ns.root, q);
      && ManifestOf(e.img).tensors == e.img.tensors
      && forall k :: 0 <= k < |e.img.tensors| ==> Explained(e.img.tensors[k], sources, spec.globalTensors, spec.layers)
  {
    var spec := SpecOf(arch, ns.root, q);
    hide *;
    var given := ImageEmitted(arch, ns, q, sources);
    EmittedParts(arch, ns.root, q, sources, e, given);
    EInvOpen(e, given, sources);
    FlushKeepsTensors(e.img, given);
    ManifestTables(e.img);
    var globals := GlobalsEmitted(arch, ns.root, q, sources);
    SpecParts(arch, ns.root, q);
    EmitSpecSteps(spec, ns, sources);
    StartExplained(sources, spec.globalTensors);
    AllExplain(Start(), sources, spec.globalTensors, None, spec.globalTensors, []);
    var g := EmitAll(Start(), sources, spec.globalTensors, None).value;
    AliasSucceeds(g, ns);
    AliasExplained(g, ns, sources, spec.globalTensors);
    LayersExplain(WithAlias(g, ns).value, sources, spec.globalTensors, spec.layers);
    AllSay(e.img, sources, spec.globalTensors, spec.layers);
  }

  lemma AllSay(img: Image, sources: Sources, globals: seq<TensorBinding>, layers: seq<LayerSpec>)
    requires AllExplained(img, sources, globals, layers)
    ensures forall k :: 0 <= k < |img.tensors| ==> Explained(img.tensors[k], sources, globals, layers)
  {
  }
}
