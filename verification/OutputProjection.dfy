// Which tensor the plan's output projection is (config.rs, compute_image.rs).
module OutputProjection {
  import opened Common
  import opened Naming
  import opened Config
  import opened ImageBuilder
  import opened Emission
  import opened Compiler

  lemma HeadNamed(arch: TextArchitecture, root: string, q: Option<QuantizationMeta>)
    ensures Named(GlobalTensors(arch, root, q), GlobalName(root, LM_HEAD)) <==> !arch.tieWordEmbeddings
    ensures forall i :: !OfLayer(root, i, GlobalName(root, LM_HEAD))
  {
    var bs, head := GlobalTensors(arch, root, q), GlobalName(root, LM_HEAD);
    assert EMBED[..2] == "em" && NORM[..2] == "no" && LM_HEAD[..2] == "lm";
    assert GlobalName(root, EMBED)[|root| + 1] == 'e' && GlobalName(root, NORM)[|root| + 1] == 'n';
    assert head[|root| + 1] == 'l';
    hide GlobalName, Packed;
    assert !arch.tieWordEmbeddings ==> |bs| == 3 && bs[2].name == head && bs[2] in bs;
    assert arch.tieWordEmbeddings ==> |bs| == 2;
    forall i
      ensures !OfLayer(root, i, head)
    {
      if OfLayer(root, i, head) {
        var f :| head == LayerName(root, i, Suffix(f));
        LayerNameNotGlobal(root, i, Suffix(f), LM_HEAD);
      }
    }
  }

  lemma GlobalIds(g: Emitted, sources: Sources, bs: seq<TensorBinding>)
    requires AllPresent(sources, bs) && EmitAll(Start(), sources, bs, None) == Some(g)
    ensures forall n :: n in g.ids <==> Named(bs, n)
  {
    hide *;
    StartKeeps(sources);
    StartShape();
    EmitAllKeeps(Start(), [], sources, bs, None);
    GrownFromNothing(g, bs);
  }

  lemma GrownFromNothing(g: Emitted, bs: seq<TensorBinding>)
    requires IdsGrow(Start(), g, bs) && Start().ids == map[]
    ensures forall n :: n in g.ids <==> Named(bs, n)
  {
    hide Start, Named;
  }

  lemma NeverAdded(root: string, a: Emitted, e: Emitted, layers: seq<LayerSpec>, n: string)
    requires LayersAdded(a, e, layers) && WellNamed(root, layers) && n !in a.ids
    requires forall i :: !OfLayer(root, i, n)
    ensures n !in e.ids
  {
    hide OfLayer, WellNamed, Named;
    if InLayers(layers, n) {
      var j :| 0 <= j < |layers| && Named(layers[j].tensors, n);
      NameOfLayer(root, layers, j, n);
      assert false;
    }
  }

  /** The output head is emitted exactly when the configuration does not tie it to the embedding. */
  lemma HeadEmitted(arch: TextArchitecture, ns: NamespaceBinding, q: Option<QuantizationMeta>, sources: Sources, e: Emitted)
    requires Packable(Bits(q), GroupSize(q))
    requires EmitSpec(SpecOf(arch, ns.root, q), ns, sources) == Some(e)
    ensures GlobalName(ns.root, LM_HEAD) in e.ids <==> !arch.tieWordEmbeddings
    ensures !arch.tieWordEmbeddings ==> SegmentOf(e, GlobalName(ns.root, LM_HEAD)) == Some(PERSISTENT)
  {
    hide *;
    var root, spec, head := ns.root, SpecOf(arch, ns.root, q), GlobalName(ns.root, LM_HEAD);
    var whole := ImageEmitted(arch, ns, q, sources);
    var given := GlobalsEmitted(arch, root, q, sources);
    SpecParts(arch, root, q);
    EmitSpecSteps(spec, ns, sources);
    var g := EmitAll(Start(), sources, spec.globalTensors, None).value;
    GlobalIds(g, sources, spec.globalTensors);
    HeadNamed(arch, root, q);
    AliasSucceeds(g, ns);
    AliasKeeps(g, given, sources, ns);
    var a := WithAlias(g, ns).value;
    SpecLayers(arch, root, q);
    var given' := EmitLayersKeeps(a, given, sources, root, spec.layers);
    SegmentUnaffected(g, a, head);
    if arch.tieWordEmbeddings {
      NeverAdded(root, a, e, spec.layers, head);
    } else {
      GlobalStays(root, a, e, spec.layers, head);
    }
  }

  lemma HeadPresent(arch: TextArchitecture, root: string, q: Option<QuantizationMeta>, sources: Sources)
    requires AllPresent(sources, GlobalTensors(arch, root, q)) && !arch.tieWordEmbeddings
    ensures GlobalName(root, LM_HEAD) in sources
  {
    hide GlobalName, Packed;
    var bs := GlobalTensors(arch, root, q);
    assert bs[2] in bs && bs[2].name == GlobalName(root, LM_HEAD);
    PresentName(sources, bs[2]);
  }

  lemma ResolvedKey(names: set<string>, ns: NamespaceBinding)
    requires ResolveNamespace(names) == Some(ns)
    ensures ns == NamespaceAt(ns.root, names) && Anchored(ns.root, names)
  {
    hide GlobalName;
  }

  lemma EpilogueOutput(arch: TextArchitecture, ns: NamespaceBinding, ids: map<string, nat>)
    ensures var p := ExecutionPlanOf(arch, ns, ids).epilogue;
      p.outputName == ns.lmHeadKey && p.outputId == Find(ids, ns.lmHeadKey)
  {
    hide GlobalName, LayerPlanOf;
  }

  /** For the namespace of the checkpoint, the plan has an output projection unless the
      checkpoint has an output head that the configuration ties away; and then it loads that
      head, or the embedding if there is no head, out of the persistent segment. */
  lemma {:induction false} OutputProjectionIff(arch: TextArchitecture, ns: NamespaceBinding, q: Option<QuantizationMeta>,
                                               sources: Sources, e: Emitted)
    requires Packable(Bits(q), GroupSize(q)) && ResolveNamespace(sources.Keys) == Some(ns)
    requires EmitSpec(SpecOf(arch, ns.root, q), ns, sources) == Some(e)
    ensures |Flush(e.img).payloads| == |Flush(e.img).segments|
    ensures !arch.tieWordEmbeddings ==> GlobalName(ns.root, LM_HEAD) in sources
    ensures var p, head := ExecutionPlanOf(arch, ns, e.ids).epilogue, GlobalName(ns.root, LM_HEAD);
      && (p.outputId.None? <==> arch.tieWordEmbeddings && head in sources)
      && p.outputName == (if head in sources then head else GlobalName(ns.root, EMBED))
      && (p.outputId.Some? ==> Loads(e.img, sources, p.outputId.value, p.outputName, PERSISTENT))
  {
    hide *;
    var root, head, embed := ns.root, GlobalName(ns.root, LM_HEAD), GlobalName(ns.root, EMBED);
    var given := ImageEmitted(arch, ns, q, sources);
    SpecParts(arch, root, q);
    EmittedParts(arch, root, q, sources, e, given);
    ImageSegmentsDistinct(|arch.layerTypes|);
    HeadEmitted(arch, ns, q, sources, e);
    ResolvedKey(sources.Keys, ns);
    KeyIs(root, sources.Keys);
    EpilogueOutput(arch, ns, e.ids);
    FindIs(e.ids, ns.lmHeadKey);
    RecordedLoads(e, given, sources, embed);
    SegmentOfId(e, embed);
    if !arch.tieWordEmbeddings {
      HeadPresent(arch, root, q, sources);
      HeadId(e, head);
      RecordedLoads(e, given, sources, head);
      SegmentOfId(e, head);
    }
  }

  lemma HeadId(e: Emitted, n: string)
    requires SegmentOf(e, n).Some?
    ensures n in e.ids
  {
  }

  lemma KeyIs(root: string, names: set<string>)
    ensures var ns, head := NamespaceAt(root, names), GlobalName(root, LM_HEAD);
      ns.lmHeadKey == if head in names then head else GlobalName(root, EMBED)
  {
    hide GlobalName;
  }

  lemma FindIs(ids: map<string, nat>, n: string)
    ensures Find(ids, n) == if n in ids then Some(ids[n]) else None
  {
  }
}
