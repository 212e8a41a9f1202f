// Which checkpoints compile, and checkpoints at which the image, its plan or its run does not do
// what is documented.
module Checkpoints {
  import opened Common
  import opened Naming
  import opened Config
  import opened ImageBuilder
  import opened Emission
  import opened Compiler
  import opened EntryNames
  import opened RunLookups
  import opened PlannedSizes
  import opened OutputProjection
  import opened BindingCheck
  import opened Strides
  import P = Plan

  // ---------------------------------------------------------------------
  // Complete checkpoints
  // ---------------------------------------------------------------------

  ghost predicate Holds(sources: Sources, names: seq<string>) {
    forall n :: n in names ==> n in sources
  }

  lemma PresentIff(sources: Sources, bs: seq<TensorBinding>)
    ensures AllPresent(sources, bs) <==> Holds(sources, Needed(bs))
  {
    hide NeededNames, Needed;
    if AllPresent(sources, bs) {
      forall n | n in Needed(bs)
        ensures n in sources
      {
        var k := NeededFrom(bs, n);
        assert Present(sources, bs[k]);
      }
    }
    if Holds(sources, Needed(bs)) {
      forall b | b in bs
        ensures Present(sources, b)
      {
        var k :| 0 <= k < |bs| && bs[k] == b;
        forall n | n in NeededNames(b)
          ensures n in sources
        {
          NeededHas(bs, k, n);
        }
      }
    }
  }

  lemma {:induction false} LayersPresentIff(sources: Sources, layers: seq<LayerSpec>)
    ensures LayersPresent(sources, layers) <==> AllPresent(sources, LayerBindings(layers))
    decreases |layers|
  {
    if layers != [] {
      hide Present, LayersPresent;
      PresentStep(sources, layers);
      LayersPresentIff(sources, Front(layers));
      PresentConcat(sources, LayerBindings(Front(layers)), Last(layers).tensors);
    }
  }

  lemma PresentConcat(sources: Sources, a: seq<TensorBinding>, b: seq<TensorBinding>)
    ensures AllPresent(sources, a + b) <==> AllPresent(sources, a) && AllPresent(sources, b)
  {
    hide Present;
    assert AllPresent(sources, a + b) ==> forall x :: x in a || x in b ==> x in a + b;
  }

  /** A checkpoint compiles exactly when it has every name that the image will hold. */
  lemma {:induction false} CompilesIff(arch: TextArchitecture, ns: NamespaceBinding, q: Option<QuantizationMeta>, sources: Sources)
    requires Packable(Bits(q), GroupSize(q))
    ensures var spec := SpecOf(arch, ns.root, q);
      EmitSpec(spec, ns, sources).Some? <==> Holds(sources, Needed(AllBindings(spec)))
  {
    hide *;
    var spec := SpecOf(arch, ns.root, q);
    var given := ImageEmitted(arch, ns, q, sources);
    LayersPresentIff(sources, spec.layers);
    PresentConcat(sources, spec.globalTensors, LayerBindings(spec.layers));
    AllBindingsAre(spec);
    PresentIff(sources, AllBindings(spec));
  }

  /** The scales and biases of every packed matrix are there. */
  ghost predicate PartsPresent(spec: ExecutionSpec, sources: Sources) {
    forall b :: b in AllBindings(spec) && b.packed.Some? ==>
      Stem(b.name) + ".scales" in sources && Stem(b.name) + ".biases" in sources
  }

  lemma PresentConforming(sources: Sources, b: TensorBinding)
    requires b.name in sources
    ensures Present(sources, b)
       <==> (b.packed.Some? ==> Stem(b.name) + ".scales" in sources && Stem(b.name) + ".biases" in sources)
  {
    hide Stem;
    if b.packed.Some? {
      assert NeededNames(b)[0] == Stem(b.name) + ".scales" && NeededNames(b)[1] == Stem(b.name) + ".biases";
    }
  }

  /** A checkpoint that the binding check calls executable compiles exactly when it also has the
      scales and biases, which the check does not look for. */
  lemma {:induction false} CheckedCompilesIff(arch: TextArchitecture, ns: NamespaceBinding, q: Option<QuantizationMeta>, sources: Sources)
    requires Packable(Bits(q), GroupSize(q)) && Executable(SpecOf(arch, ns.root, q), sources)
    ensures var spec := SpecOf(arch, ns.root, q);
      EmitSpec(spec, ns, sources).Some? <==> PartsPresent(spec, sources)
  {
    var spec := SpecOf(arch, ns.root, q);
    CompilesIff(arch, ns, q, sources);
    PresentIff(sources, AllBindings(spec));
    hide SpecOf, AllBindings, Needed, EmitSpec, Present, Stem, Packable, Holds;
    forall b | b in AllBindings(spec)
      ensures Present(sources, b)
         <==> (b.packed.Some? ==> Stem(b.name) + ".scales" in sources && Stem(b.name) + ".biases" in sources)
    {
      assert Conforms(sources, b);
      PresentConforming(sources, b);
    }
  }

  // A tensor of zeros, one byte per element.
  function Blank(shape: seq<nat>): SourceTensor {
    SourceTensor("U8", shape, seq(Product(shape), _ => 0), "model.safetensors", 0)
  }

  /** The tensors of one binding, in the shapes that it asks for. */
  function BlankTensors(b: TensorBinding): Sources {
    match b.packed
    case None => map[b.name := Blank(b.logicalShape)]
    case Some(p) =>
      map[Stem(b.name) + ".scales" := Blank(p.scales), Stem(b.name) + ".biases" := Blank(p.biases)]
      [b.name := Blank(p.weight)]
  }

  lemma BlankNames(b: TensorBinding)
    ensures forall n :: n in BlankTensors(b) <==> n in NeededNames(b)
    ensures Conforms(BlankTensors(b), b)
  {
    hide Stem;
    var names := NeededNames(b);
    if b.packed.Some? {
      assert names[0] in names && names[1] in names && names[2] in names;
    }
    assert DTYPES[8] == "U8" && "U8" in DTYPES;
  }

  function BlankAll(bs: seq<TensorBinding>): Sources {
    if bs == [] then map[] else BlankAll(Front(bs)) + BlankTensors(Last(bs))
  }

  lemma {:induction false} BlankAllNames(bs: seq<TensorBinding>)
    ensures forall n :: n in BlankAll(bs) <==> n in Needed(bs)
  {
    hide NeededNames, BlankTensors;
    if bs != [] {
      BlankAllNames(Front(bs));
      BlankNames(Last(bs));
    }
  }

  /** Every binding finds its own tensors, as no name is needed twice. */
  lemma {:induction false} BlankAllAt(bs: seq<TensorBinding>, k: nat, n: string)
    requires Distinct(Needed(bs)) && k < |bs| && n in NeededNames(bs[k])
    ensures n in BlankAll(bs) && n in BlankTensors(bs[k]) && BlankAll(bs)[n] == BlankTensors(bs[k])[n]
    decreases |bs|
  {
    hide NeededNames, BlankTensors, Distinct;
    BlankNames(bs[k]);
    BlankNames(Last(bs));
    if k < |bs| - 1 {
      DistinctParts(Needed(Front(bs)), NeededNames(Last(bs)));
      BlankAllAt(Front(bs), k, n);
      NeededHas(Front(bs), k, n);
    }
  }

  /** A checkpoint with exactly the tensors that a spec needs. */
  function Complete(spec: ExecutionSpec): Sources {
    BlankAll(AllBindings(spec))
  }

  lemma CompleteNames(spec: ExecutionSpec)
    ensures forall n :: n in Complete(spec) <==> n in Needed(AllBindings(spec))
    ensures Holds(Complete(spec), Needed(AllBindings(spec)))
  {
    BlankAllNames(AllBindings(spec));
    hide BlankAll, AllBindings, Needed;
  }

  lemma ConformsAlike(sources: Sources, more: Sources, b: TensorBinding)
    requires Conforms(sources, b) && b.name in more && more[b.name] == sources[b.name]
    ensures Conforms(more, b)
  {
  }

  /** It passes the binding check, and so does every checkpoint that has its weights. */
  lemma CompleteExecutable(arch: TextArchitecture, root: string, q: Option<QuantizationMeta>, more: Sources)
    requires Packable(Bits(q), GroupSize(q))
    requires var sources := Complete(SpecOf(arch, root, q)); forall n :: n in sources && EndsInWeight(n) ==> n in more && more[n] == sources[n]
    ensures Executable(SpecOf(arch, root, q), more)
  {
    var spec := SpecOf(arch, root, q);
    var bs := AllBindings(spec);
    SpecNotEmpty(arch, root, q);
    BindingsDistinct(arch, root, q);
    hide SpecOf, AllBindings, NeededNames, BlankTensors, BlankAll, Needed, Distinct, Conforms, EndsInWeight;
    forall b | b in bs
      ensures Conforms(more, b)
    {
      var k :| 0 <= k < |bs| && bs[k] == b;
      OwnNeeded(b);
      BlankAllAt(bs, k, b.name);
      BlankNames(b);
      WeightsAt(bs, k);
      ConformsAlike(BlankTensors(b), more, b);
    }
  }

  lemma OwnNeeded(b: TensorBinding)
    ensures b.name in NeededNames(b)
  {
    hide Stem;
    assert Last(NeededNames(b)) in NeededNames(b);
  }

  lemma SpecNotEmpty(arch: TextArchitecture, root: string, q: Option<QuantizationMeta>)
    requires Packable(Bits(q), GroupSize(q))
    ensures AllBindings(SpecOf(arch, root, q)) != []
  {
    SpecParts(arch, root, q);
    hide SpecOf, GlobalTensors, LayerBindings;
    GlobalBindings(arch, root, q);
  }

  /** The complete checkpoint of a spec is loaded and compiled. */
  lemma CompleteLoads(arch: TextArchitecture, ns: NamespaceBinding, q: Option<QuantizationMeta>)
    requires Packable(Bits(q), GroupSize(q))
    ensures var spec := SpecOf(arch, ns.root, q);
      Executable(spec, Complete(spec)) && EmitSpec(spec, ns, Complete(spec)).Some?
  {
    hide *;
    var spec := SpecOf(arch, ns.root, q);
    CompleteExecutable(arch, ns.root, q, Complete(spec));
    CompleteNames(spec);
    CompleteCompiles(arch, ns, q, Complete(spec));
  }

  /** Every quantized model: without the scales of the embedding the checkpoint is still called
      executable, and does not compile. */
  lemma MissingScalesPass(arch: TextArchitecture, ns: NamespaceBinding, q: Option<QuantizationMeta>)
    requires Packable(Bits(q), GroupSize(q)) && q.Some?
    ensures var spec := SpecOf(arch, ns.root, q);
      var sources := Complete(spec) - {Stem(GlobalName(ns.root, EMBED)) + ".scales"};
      Executable(spec, sources) && EmitSpec(spec, ns, sources).None?
  {
    hide *;
    var spec := SpecOf(arch, ns.root, q);
    var scales := Stem(GlobalName(ns.root, EMBED)) + ".scales";
    var sources := Complete(spec) - {scales};
    ScalesAreNoWeight(GlobalName(ns.root, EMBED));
    CompleteExecutable(arch, ns.root, q, sources);
    CheckedCompilesIff(arch, ns, q, sources);
    SpecParts(arch, ns.root, q);
    GlobalBindings(arch, ns.root, q);
    AllBindingsAre(spec);
    assert AllBindings(spec)[0] == spec.globalTensors[0] && AllBindings(spec)[0] in AllBindings(spec);
    if PartsPresent(spec, sources) {
      PartsSay(spec, sources, spec.globalTensors[0]);
    }
  }

  lemma ScalesAreNoWeight(name: string)
    ensures !EndsInWeight(Stem(name) + ".scales")
  {
    hide Stem;
    var s := Stem(name) + ".scales";
    assert s[|s| - 7..] == ".scales" && ".scales"[6] != WEIGHT[6];
  }

  lemma PartsSay(spec: ExecutionSpec, sources: Sources, b: TensorBinding)
    requires PartsPresent(spec, sources) && b in AllBindings(spec) && b.packed.Some?
    ensures Stem(b.name) + ".scales" in sources
  {
    hide Stem, AllBindings;
  }

  lemma CompleteCompiles(arch: TextArchitecture, ns: NamespaceBinding, q: Option<QuantizationMeta>, sources: Sources)
    requires Packable(Bits(q), GroupSize(q)) && Holds(sources, Needed(AllBindings(SpecOf(arch, ns.root, q))))
    ensures EmitSpec(SpecOf(arch, ns.root, q), ns, sources).Some?
  {
    hide *;
    CompilesIff(arch, ns, q, sources);
  }

  /** The names of a complete checkpoint start as the root does. */
  lemma FirstLetter(arch: TextArchitecture, root: string, q: Option<QuantizationMeta>, n: string)
    requires Packable(Bits(q), GroupSize(q)) && root != [] && n in Needed(AllBindings(SpecOf(arch, root, q)))
    ensures n != [] && n[0] == root[0]
  {
    hide *;
    var spec := SpecOf(arch, root, q);
    var bs := AllBindings(spec);
    BindingsDistinct(arch, root, q);
    SpecParts(arch, root, q);
    SpecLayers(arch, root, q);
    SpecDistinct(arch, root, q);
    LayerBindingsDistinct(root, spec.layers);
    AllBindingsAre(spec);
    var k := NeededAreParts(bs, n);
    WeightsAt(bs, k);
    if k < |spec.globalTensors| {
      GlobalBindings(arch, root, q);
      RootedGlobals(root);
    } else {
      RootedLayers(root, |spec.layers|, LayerBindings(spec.layers), k - |spec.globalTensors|);
    }
    PartStarts(n, bs[k].name);
  }

  lemma RootedGlobals(root: string)
    requires root != []
    ensures var e, n, h := GlobalName(root, EMBED), GlobalName(root, NORM), GlobalName(root, LM_HEAD);
      |e| > 7 && |n| > 7 && |h| > 7 && e[0] == n[0] == h[0] == root[0]
  {
  }

  lemma RootedLayers(root: string, n: nat, bs: seq<TensorBinding>, k: nat)
    requires root != [] && NamedBelow(root, n, bs) && k < |bs|
    ensures |bs[k].name| > 7 && bs[k].name[0] == root[0]
  {
    hide Suffix, Decimal;
    assert bs[k] in bs;
    var j: nat :| j < n && OfLayer(root, j, bs[k].name);
    var f :| bs[k].name == LayerName(root, j, Suffix(f));
    hide LayerName;
    LayerNameEnds(root, j, f);
    LayerStarts(root, j, Suffix(f));
  }

  lemma LayerStarts(root: string, i: nat, s: string)
    requires root != []
    ensures LayerName(root, i, s) != [] && LayerName(root, i, s)[0] == root[0]
  {
    hide Decimal;
  }

  lemma PartStarts(n: string, name: string)
    requires EndsInWeight(name) && PartOf(n, name) && |name| > 7
    ensures n != [] && n[0] == name[0]
  {
    PartStem(n, name);
    hide *;
    assert n[0] == n[..|n| - 7][0];
  }

  // ---------------------------------------------------------------------
  // Roots
  // ---------------------------------------------------------------------

  /** The first root that has all anchors is taken, and none only if neither has; the head's name is that
      of a tensor, and is taken from the embedding exactly if there is no head. */
  lemma RootResolves(names: set<string>)
    ensures var r := ResolveNamespace(names);
      && (r.None? <==> !Anchored("language_model.model", names) && !Anchored("model", names))
      && (Anchored("language_model.model", names) ==> r.Some? && r.value.root == "language_model.model")
      && (r.Some? ==>
           && Anchored(r.value.root, names) && r.value.lmHeadKey in names
           && (r.value.lmHeadAliased <==> GlobalName(r.value.root, LM_HEAD) !in names)
           && (!r.value.lmHeadAliased ==> r.value.lmHeadKey == GlobalName(r.value.root, LM_HEAD)))
  {
    hide GlobalName;
    assert ANCHORS[0] in ANCHORS;
  }

  /** Under its own root, a complete checkpoint of a model with a layer has the anchors. */
  lemma CompleteAnchored(arch: TextArchitecture, root: string, q: Option<QuantizationMeta>, sources: Sources)
    requires Packable(Bits(q), GroupSize(q)) && arch.layerTypes != []
    requires Holds(sources, Needed(AllBindings(SpecOf(arch, root, q))))
    ensures Anchored(root, sources.Keys)
  {
    hide *;
    HoldsSays(sources, Needed(AllBindings(SpecOf(arch, root, q))));
    var spec := SpecOf(arch, root, q);
    SpecParts(arch, root, q);
    SpecLayers(arch, root, q);
    AllBindingsAre(spec);
    NeededConcat(spec.globalTensors, LayerBindings(spec.layers));
    GlobalBindings(arch, root, q);
    OwnFound(spec.globalTensors, 0);
    OwnFound(spec.globalTensors, 1);
    FirstLayerFields(arch);
    LayerNameFound(spec.layers, LayerName(root, 0, Suffix(InputNormId)));
    LayerNameFound(spec.layers, LayerName(root, 0, Suffix(QProjId)));
    AnchorsAre(root, sources.Keys);
  }

  lemma HoldsSays(sources: Sources, names: seq<string>)
    requires Holds(sources, names)
    ensures forall n :: n in names ==> n in sources
  {
  }

  lemma FirstLayerFields(arch: TextArchitecture)
    requires arch.layerTypes != []
    ensures HasTensor(arch, 0, InputNormId) && HasTensor(arch, 0, QProjId)
  {
  }

  lemma {:induction false} LayerNameFound(layers: seq<LayerSpec>, n: string)
    requires layers != [] && Named(layers[0].tensors, n)
    ensures n in Needed(LayerBindings(layers))
    decreases |layers|
  {
    hide Needed;
    LayerBindingsStep(layers);
    NeededConcat(LayerBindings(Front(layers)), Last(layers).tensors);
    if |layers| == 1 {
      var b :| b in layers[0].tensors && b.name == n;
      var k :| 0 <= k < |layers[0].tensors| && layers[0].tensors[k] == b;
      OwnFound(layers[0].tensors, k);
    } else {
      LayerNameFound(Front(layers), n);
    }
  }

  /** The anchors are the embedding, the final norm, and the input norm and the q_proj of the first layer. */
  lemma AnchorsAre(root: string, names: set<string>)
    ensures Anchored(root, names) <==>
      && GlobalName(root, EMBED) in names && GlobalName(root, NORM) in names
      && LayerName(root, 0, Suffix(InputNormId)) in names && LayerName(root, 0, Suffix(QProjId)) in names
  {
    ZeroLayerNames(root);
    hide GlobalName, LayerName, Suffix, EMBED, NORM;
    assert ANCHORS[0] in ANCHORS && ANCHORS[1] in ANCHORS && ANCHORS[2] in ANCHORS && ANCHORS[3] in ANCHORS;
  }

  lemma ZeroLayerNames(root: string)
    ensures GlobalName(root, "layers.0.input_layernorm.weight") == LayerName(root, 0, Suffix(InputNormId))
    ensures GlobalName(root, "layers.0.self_attn.q_proj.weight") == LayerName(root, 0, Suffix(QProjId))
  {
    assert Decimal(0) == "0";
    ZeroLayerName(root, "input_layernorm.weight");
    ZeroLayerName(root, "self_attn.q_proj.weight");
    assert "layers.0." + "input_layernorm.weight" == "layers.0.input_layernorm.weight";
    assert "layers.0." + "self_attn.q_proj.weight" == "layers.0.self_attn.q_proj.weight";
  }

  lemma ZeroLayerName(root: string, s: string)
    requires Decimal(0) == "0"
    ensures GlobalName(root, "layers.0." + s) == LayerName(root, 0, s)
  {
    assert ".layers." + "0" + "." == "." + "layers.0.";
    assert LayerName(root, 0, s) == root + (".layers." + "0" + ".") + s;
    assert GlobalName(root, "layers.0." + s) == root + ("." + "layers.0.") + s;
  }

  /** The namespace of a complete checkpoint under the second root. */
  lemma SecondRoot(arch: TextArchitecture, q: Option<QuantizationMeta>)
    requires Packable(Bits(q), GroupSize(q)) && arch.layerTypes != []
    ensures var sources := Complete(SpecOf(arch, ROOTS[1], q));
      ResolveNamespace(sources.Keys) == Some(NamespaceAt(ROOTS[1], sources.Keys))
  {
    var sources := Complete(SpecOf(arch, ROOTS[1], q));
    assert ROOTS[1] != [] && ROOTS[1][0] == 'm' && GlobalName(ROOTS[0], EMBED)[0] == 'l' && EMBED in ANCHORS;
    hide SpecOf, AllBindings, Needed, GlobalName, ANCHORS, Complete;
    CompleteNames(SpecOf(arch, ROOTS[1], q));
    CompleteAnchored(arch, ROOTS[1], q, sources);
    if GlobalName(ROOTS[0], EMBED) in sources {
      FirstLetter(arch, ROOTS[1], q, GlobalName(ROOTS[0], EMBED));
    }
  }

  /** Every model with a layer, under the root `model`: the checkpoint resolves, passes the check and
      compiles, and a run does not find the embedding. */
  lemma OtherRootNotFound(arch: TextArchitecture, q: Option<QuantizationMeta>)
    requires Packable(Bits(q), GroupSize(q)) && arch.layerTypes != []
    ensures var spec := SpecOf(arch, ROOTS[1], q);
      var sources := Complete(spec);
      var ns := NamespaceAt(ROOTS[1], sources.Keys);
      && ResolveNamespace(sources.Keys) == Some(ns) && ns.root == ROOTS[1]
      && Executable(spec, sources) && EmitSpec(spec, ns, sources).Some?
      && !AllFound(EmbeddingLookups(), Needed(spec.globalTensors))
  {
    RootsDiffer();
    hide *;
    var spec := SpecOf(arch, ROOTS[1], q);
    SecondRoot(arch, q);
    var ns := NamespaceAt(ROOTS[1], Complete(spec).Keys);
    NamespaceRoot(ROOTS[1], Complete(spec).Keys);
    CompleteLoads(arch, ns, q);
    LookupsSucceedIff(arch, ROOTS[1], q);
  }

  lemma RootsDiffer()
    ensures |ROOTS| == 2 && ROOTS[1] != RUN_ROOT == ROOTS[0]
  {
    assert ROOTS[1][0] != RUN_ROOT[0];
  }

  lemma NamespaceRoot(root: string, names: set<string>)
    ensures NamespaceAt(root, names).root == root
  {
    hide GlobalName;
  }

  // ---------------------------------------------------------------------
  // Metadata
  // ---------------------------------------------------------------------

  /** Every model without quantization metadata: the complete checkpoint passes the binding check and
      compiles, and its plan does not pass the plan validator. */
  lemma UnquantizedRejected(arch: TextArchitecture, ns: NamespaceBinding)
    ensures var spec := SpecOf(arch, ns.root, None);
      var e := EmitSpec(spec, ns, Complete(spec));
      Executable(spec, Complete(spec)) && e.Some? && !Accepted(ExecutionPlanOf(arch, ns, e.value.ids))
  {
    UnquantizedPackable();
    hide *;
    var spec := SpecOf(arch, ns.root, None);
    CompleteLoads(arch, ns, None);
    PlanAccepted(arch, ns, None, Complete(spec), EmitSpec(spec, ns, Complete(spec)).value);
    NoConditions(arch);
  }

  lemma UnquantizedPackable()
    ensures Packable(Bits(None), GroupSize(None))
  {
  }

  lemma NoConditions(arch: TextArchitecture)
    ensures !PlanConditions(arch, None)
  {
  }

  // ---------------------------------------------------------------------
  // Sizes
  // ---------------------------------------------------------------------

  function TableOf(sources: Sources, items: seq<P.Item>): seq<P.PlannedTensor> {
    if items == [] then []
    else
      var front := TableOf(sources, Front(items));
      front + [P.PlaceAt(sources, Last(items), |front|, P.SegmentBytes(front, Last(items).segment))]
  }

  lemma {:induction false} TablePlaces(sources: Sources, items: seq<P.Item>)
    ensures P.Places(TableOf(sources, items), items, sources)
  {
    if items != [] {
      hide P.Places, P.PlaceAt, P.SegmentBytes;
      TablePlaces(sources, Front(items));
      P.PlacesMore(TableOf(sources, Front(items)), Front(items), sources, Last(items));
      FrontLast(items);
    } else {
      hide P.PlaceAt, P.SegmentBytes;
    }
  }

  function PlannedFor(spec: ExecutionSpec, sources: Sources): P.CompilationPlan {
    var table := TableOf(sources, P.AllItems(spec));
    var segments := seq(1 + |spec.layers|, j requires 0 <= j < 1 + |spec.layers| =>
      var id := P.SegmentNames(spec)[j];
      P.PlannedSegment(id, SegmentFile(j), P.SegmentBytes(table, id), P.SegmentTensors(table, id)));
    P.CompilationPlan(table, segments, P.SumSizes(segments))
  }

  lemma PlannedForIs(spec: ExecutionSpec, sources: Sources)
    ensures P.PlanOf(PlannedFor(spec, sources), spec, sources)
  {
    TablePlaces(sources, P.AllItems(spec));
    hide P.Places, TableOf, P.AllItems, P.SegmentBytes, P.SegmentTensors, P.SumSizes, SegmentFile, LayerSegment;
  }

  /** Every quantized model whose embedding has a group to scale: for the complete checkpoint, the
      plan has a segment that is smaller than the emitted one. */
  lemma QuantizedPlanIsSmaller(arch: TextArchitecture, ns: NamespaceBinding, q: Option<QuantizationMeta>)
    requires Packable(Bits(q), GroupSize(q)) && q.Some? && arch.vocabSize > 0 && arch.hiddenSize >= q.value.groupSize
    ensures var spec := SpecOf(arch, ns.root, q);
      var sources := Complete(spec);
      var e := EmitSpec(spec, ns, sources);
      && Executable(spec, sources) && e.Some? && P.PlanOf(PlannedFor(spec, sources), spec, sources)
      && !SameSizes(PlannedFor(spec, sources), ManifestOf(e.value.img))
  {
    hide *;
    var spec := SpecOf(arch, ns.root, q);
    var sources := Complete(spec);
    CompleteLoads(arch, ns, q);
    PlannedForIs(spec, sources);
    PlanMatchesImageIff(arch, ns, q, sources, EmitSpec(spec, ns, sources).value, PlannedFor(spec, sources));
    SpecParts(arch, ns.root, q);
    GlobalBindings(arch, ns.root, q);
    BindingsDistinct(arch, ns.root, q);
    EmbeddingScales(arch, ns.root, q);
    GlobalsEndIn(ns.root);
    CompleteParts(spec);
  }

  lemma EmbeddingScales(arch: TextArchitecture, root: string, q: Option<QuantizationMeta>)
    requires Packable(Bits(q), GroupSize(q)) && q.Some? && arch.vocabSize > 0 && arch.hiddenSize >= q.value.groupSize
    ensures var b := GlobalTensors(arch, root, q)[0]; b.packed.Some? && Product(b.packed.value.scales) > 0
  {
    hide GlobalName;
    var n, size := arch.vocabSize, q.value.groupSize;
    var groups := arch.hiddenSize / size;
    GlobalBindings(arch, root, q);
    assert GlobalTensors(arch, root, q)[0].packed.value.scales == [n, groups];
    assert arch.hiddenSize == groups * size + arch.hiddenSize % size;
    TwoDimensions(n, groups);
  }

  lemma TwoDimensions(n: nat, groups: nat)
    requires n > 0 && groups > 0
    ensures Product([n, groups]) > 0
  {
    assert [n, groups][1..] == [groups] && [groups][1..] == [] && Product([]) == 1;
    assert Product([groups]) == groups;
    MulAtLeast(n, groups);
  }

  lemma CompleteParts(spec: ExecutionSpec)
    requires spec.globalTensors != [] && spec.globalTensors[0].packed.Some? && Distinct(Needed(AllBindings(spec)))
    requires Product(spec.globalTensors[0].packed.value.scales) > 0 && EndsInWeight(spec.globalTensors[0].name)
    ensures HasParts(spec, Complete(spec))
  {
    var b, bs := spec.globalTensors[0], AllBindings(spec);
    assert bs[0] == b && b in Group(spec, 0);
    PartsOfBinding(b);
    hide Stem, Needed, AllBindings, Group, BlankAll, Distinct;
    var scales := Stem(b.name) + ".scales";
    assert NeededNames(b)[0] == scales && NeededNames(b)[0] in NeededNames(b);
    BlankAllAt(bs, 0, scales);
    BlankScales(b);
    assert PartsOf(Complete(spec), b) > 0;
  }

  lemma BlankScales(b: TensorBinding)
    requires b.packed.Some? && EndsInWeight(b.name)
    ensures var scales := Stem(b.name) + ".scales";
      scales in BlankTensors(b) && BlankTensors(b)[scales] == Blank(b.packed.value.scales)
  {
    ScalesAreNoWeight(b.name);
    hide Stem, EndsInWeight;
    assert (Stem(b.name) + ".scales")[|Stem(b.name)| + 1] != (Stem(b.name) + ".biases")[|Stem(b.name)| + 1];
  }

  // ---------------------------------------------------------------------
  // The output head
  // ---------------------------------------------------------------------

  /** The complete checkpoint with an output head in it, of the shape of the embedding. */
  function WithHead(spec: ExecutionSpec, root: string, shape: seq<nat>): Sources {
    map[GlobalName(root, LM_HEAD) := Blank(shape)] + Complete(spec)
  }

  /** Every model with a layer whose configuration ties the embedding, from a checkpoint that has
      an output head: the plan has no output projection. */
  lemma TiedHeadLost(arch: TextArchitecture, q: Option<QuantizationMeta>)
    requires Packable(Bits(q), GroupSize(q)) && arch.layerTypes != [] && arch.tieWordEmbeddings
    ensures var spec := SpecOf(arch, ROOTS[0], q);
      var sources := WithHead(spec, ROOTS[0], [arch.vocabSize, arch.hiddenSize]);
      var ns := NamespaceAt(ROOTS[0], sources.Keys);
      var e := EmitSpec(spec, ns, sources);
      && ResolveNamespace(sources.Keys) == Some(ns) && Executable(spec, sources) && e.Some?
      && ExecutionPlanOf(arch, ns, e.value.ids).epilogue.outputId.None?
  {
    RootsDiffer();
    hide *;
    var spec := SpecOf(arch, ROOTS[0], q);
    var sources := WithHead(spec, ROOTS[0], [arch.vocabSize, arch.hiddenSize]);
    HeadAdded(spec, ROOTS[0], [arch.vocabSize, arch.hiddenSize]);
    CompleteExecutable(arch, ROOTS[0], q, sources);
    CompleteAnchored(arch, ROOTS[0], q, sources);
    FirstRoot(sources.Keys);
    var ns := NamespaceAt(ROOTS[0], sources.Keys);
    NamespaceRoot(ROOTS[0], sources.Keys);
    CompleteCompiles(arch, ns, q, sources);
    OutputProjectionIff(arch, ns, q, sources, EmitSpec(spec, ns, sources).value);
  }

  lemma HeadAdded(spec: ExecutionSpec, root: string, shape: seq<nat>)
    ensures var sources := WithHead(spec, root, shape);
      && Holds(sources, Needed(AllBindings(spec))) && GlobalName(root, LM_HEAD) in sources
      && forall n :: n in Complete(spec) ==> n in sources && sources[n] == Complete(spec)[n]
  {
    CompleteNames(spec);
    hide Complete, AllBindings, Needed, GlobalName;
  }

  lemma FirstRoot(names: set<string>)
    requires Anchored(ROOTS[0], names)
    ensures ResolveNamespace(names) == Some(NamespaceAt(ROOTS[0], names))
  {
    hide Anchored, NamespaceAt;
  }
}
