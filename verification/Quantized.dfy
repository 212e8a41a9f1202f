// What an emitted image holds besides the entries that the plan names: every entry has the
// checkpoint's bytes for its name, and a packed matrix can be unpacked (compute_image.rs).
module Quantized {
  import opened Common
  import opened Naming
  import opened Config
  import opened ImageBuilder
  import opened Emission
  import opened Compiler

  /** Entry k, if packed, names the entries of its own scales and biases, in its own segment. */
  ghost predicate Described(img: Image, k: nat)
    requires k < |img.tensors|
  {
    var t := img.tensors[k];
    t.info.quantization.Some? ==>
      var q := t.info.quantization.value;
      && IsPart(img, q.scaleId, Stem(t.info.name) + ".scales", t.segment)
      && IsPart(img, q.biasId, Stem(t.info.name) + ".biases", t.segment)
  }

  ghost predicate IsPart(img: Image, id: nat, name: string, segment: string) {
    id < |img.tensors| && img.tensors[id].info.name == name && img.tensors[id].segment == segment
  }

  ghost predicate Labelled(img: Image, given: seq<Bytes>, sources: Sources) {
    && |given| == |img.tensors|
    && (forall k :: 0 <= k < |given| ==> HasBytes(img, given, sources, k))
    && forall k :: 0 <= k < |img.tensors| ==> Described(img, k)
  }

  /** Entry k has the checkpoint's bytes for its name. */
  ghost predicate HasBytes(img: Image, given: seq<Bytes>, sources: Sources, k: int)
    requires 0 <= k < |given| == |img.tensors|
  {
    img.tensors[k].info.name in sources && given[k] == sources[img.tensors[k].info.name].data
  }

  lemma DescribedKeeps(img: Image, next: Image, k: nat)
    requires k < |img.tensors| && Follows(img, next) && Described(img, k)
    ensures k < |next.tensors| && Described(next, k)
  {
    StillAt(img, next, k);
    var q := img.tensors[k].info.quantization;
    if q.Some? {
      StillAt(img, next, q.value.scaleId);
      StillAt(img, next, q.value.biasId);
    }
    hide Stem, Follows;
  }

  /** The new entries are the last ones, in the open segment. */
  lemma NewEntries(img: Image, given: seq<Bytes>, next: Image, more: seq<Bytes>, sources: Sources)
    requires Labelled(img, given, sources) && Follows(img, next) && |next.tensors| == |given + more|
    requires forall k :: |given| <= k < |next.tensors| ==> Described(next, k)
    requires forall k :: |given| <= k < |next.tensors| ==> HasBytes(next, given + more, sources, k)
    ensures Labelled(next, given + more, sources)
  {
    forall k: nat | k < |given|
      ensures Described(next, k) && HasBytes(next, given + more, sources, k)
    {
      assert HasBytes(img, given, sources, k);
      DescribedKeeps(img, next, k);
      StillAt(img, next, k);
    }
    hide Described, HasBytes;
  }

  lemma PlainLabels(img: Image, given: seq<Bytes>, sources: Sources, name: string, role: string,
                    layer: Option<nat>, shape: seq<nat>)
    requires Inv(img, given) && img.current.Some? && name in sources && Labelled(img, given, sources)
    ensures EmitTensor(img, sources, name, role, layer, shape, None).Some?
    ensures Labelled(EmitTensor(img, sources, name, role, layer, shape, None).value, given + [sources[name].data], sources)
  {
    EmitTensorKeeps(img, given, sources, name, role, layer, shape, None);
    InvCounts(img, given);
    var next := EmitTensor(img, sources, name, role, layer, shape, None).value;
    hide *;
    LabelledSize(img, given, sources);
    PlainEntry(next, given, name, sources);
    NewEntries(img, given, next, [sources[name].data], sources);
  }

  lemma PlainEntry(next: Image, given: seq<Bytes>, name: string, sources: Sources)
    requires |next.tensors| == |given| + 1 && name in sources
    requires next.tensors[|given|].info.name == name && next.tensors[|given|].info.quantization == None
    ensures forall k :: |given| <= k < |next.tensors| ==>
              Described(next, k) && HasBytes(next, given + [sources[name].data], sources, k)
  {
    hide Stem, IsPart;
    assert (given + [sources[name].data])[|given|] == sources[name].data;
  }

  lemma LabelledSize(img: Image, given: seq<Bytes>, sources: Sources)
    requires Labelled(img, given, sources)
    ensures |given| == |img.tensors|
  {
  }

  lemma TripleLabels(img: Image, given: seq<Bytes>, sources: Sources, b: TensorBinding, role: string,
                     layer: Option<nat>, packed: PackedShapes)
    requires Inv(img, given) && img.current.Some? && Labelled(img, given, sources)
    requires var r := EmitQuantized(img, sources, b.name, role, layer, b.logicalShape, packed); r.Some?
    ensures var scales, biases := Stem(b.name) + ".scales", Stem(b.name) + ".biases";
      scales in sources && biases in sources && b.name in sources
    ensures var scales, biases := Stem(b.name) + ".scales", Stem(b.name) + ".biases";
      Labelled(EmitQuantized(img, sources, b.name, role, layer, b.logicalShape, packed).value,
               given + [sources[scales].data, sources[biases].data, sources[b.name].data], sources)
  {
    var scales, biases := Stem(b.name) + ".scales", Stem(b.name) + ".biases";
    EmitQuantizedKeeps(img, given, sources, b, role, layer, packed);
    InvCounts(img, given);
    var next := EmitQuantized(img, sources, b.name, role, layer, b.logicalShape, packed).value;
    var more := [sources[scales].data, sources[biases].data, sources[b.name].data];
    hide *;
    LabelledSize(img, given, sources);
    OpenSegmentOf(img, next);
    TripleEntries(next, given, more, b.name, packed, sources, img.current.value.id);
    NewEntries(img, given, next, more, sources);
  }

  lemma TripleEntries(next: Image, given: seq<Bytes>, more: seq<Bytes>, name: string, packed: PackedShapes,
                      sources: Sources, segment: string)
    requires |next.tensors| == |given| + 3 && IsTriple(next, |given|, name, packed)
    requires forall k :: |given| <= k < |next.tensors| ==> next.tensors[k].segment == segment
    requires var scales, biases := Stem(name) + ".scales", Stem(name) + ".biases";
      && scales in sources && biases in sources && name in sources
      && more == [sources[scales].data, sources[biases].data, sources[name].data]
    ensures forall k :: |given| <= k < |next.tensors| ==> Described(next, k) && HasBytes(next, given + more, sources, k)
  {
    hide Stem;
    var n, all := |given|, given + more;
    assert all[n] == more[0] && all[n + 1] == more[1] && all[n + 2] == more[2];
    assert Described(next, n) && Described(next, n + 1) && Described(next, n + 2);
    assert HasBytes(next, all, sources, n) && HasBytes(next, all, sources, n + 1) && HasBytes(next, all, sources, n + 2);
    hide Described, HasBytes;
  }

  lemma OpenSegmentOf(img: Image, next: Image)
    requires Follows(img, next)
    ensures img.current.Some?
    ensures forall k :: |img.tensors| <= k < |next.tensors| ==> next.tensors[k].segment == img.current.value.id
  {
  }

  lemma BindingLabels(img: Image, given: seq<Bytes>, sources: Sources, b: TensorBinding, layer: Option<nat>)
    requires Inv(img, given) && img.current.Some? && Labelled(img, given, sources) && Present(sources, b)
    ensures EmitBinding(img, sources, b, layer).Some?
    ensures Labelled(EmitBinding(img, sources, b, layer).value, given + Payloads(sources, b), sources)
  {
    EmitBindingKeeps(img, given, sources, b, layer);
    hide Inv, Labelled, Stem, RoleName, EmitTensor, EmitQuantized;
    match b.packed {
      case None =>
        assert NeededNames(b)[0] == b.name;
        PlainLabels(img, given, sources, b.name, RoleName(b.role), layer, b.logicalShape);
      case Some(packed) =>
        TripleLabels(img, given, sources, b, RoleName(b.role), layer, packed);
    }
  }

  lemma {:induction false} AllLabels(e: Emitted, given: seq<Bytes>, sources: Sources,
                                     bs: seq<TensorBinding>, layer: Option<nat>)
    requires EInv(e, given, sources) && Labelled(e.img, given, sources) && AllPresent(sources, bs)
    ensures EmitAll(e, sources, bs, layer).Some?
    ensures Labelled(EmitAll(e, sources, bs, layer).value.img, given + GivenAll(sources, bs), sources)
    decreases |bs|
  {
    hide *;
    if bs == [] {
      NothingEmitted(e, sources, bs, layer);
      GivenNone(sources, bs);
      assert given + [] == given;
    } else {
      PresentParts(sources, bs);
      AllLabels(e, given, sources, Front(bs), layer);
      EmitAllKeeps(e, given, sources, Front(bs), layer);
      var m, gm := EmitAll(e, sources, Front(bs), layer).value, given + GivenAll(sources, Front(bs));
      EInvOpen(m, gm, sources);
      BindingLabels(m.img, gm, sources, Last(bs), layer);
      EmitAllStep(e, m, sources, bs, layer);
      GivenStep(sources, bs);
      assert gm + Payloads(sources, Last(bs)) == given + GivenAll(sources, bs);
    }
  }

  lemma GivenNone(sources: Sources, bs: seq<TensorBinding>)
    requires bs == [] && AllPresent(sources, bs)
    ensures GivenAll(sources, bs) == []
  {
  }

  lemma GivenStep(sources: Sources, bs: seq<TensorBinding>)
    requires bs != [] && AllPresent(sources, bs) && AllPresent(sources, Front(bs)) && Present(sources, Last(bs))
    ensures GivenAll(sources, bs) == GivenAll(sources, Front(bs)) + Payloads(sources, Last(bs))
  {
    hide Payloads, Present;
  }

  /** Emitting the layers on labelled tensors. */
  lemma {:induction false} LayersLabels(e: Emitted, given: seq<Bytes>, sources: Sources, layers: seq<LayerSpec>)
    returns (given': seq<Bytes>)
    requires EInv(e, given, sources) && Labelled(e.img, given, sources) && LayersPresent(sources, layers)
    ensures EmitLayers(e, sources, layers).Some?
    ensures var next := EmitLayers(e, sources, layers).value;
      EInv(next, given', sources) && Labelled(next.img, given', sources)
    decreases |layers|
  {
    hide *;
    given' := given;
    if layers == [] {
      NoLayers(e, given, sources, layers);
    } else {
      var front, last := Front(layers), Last(layers);
      PresentStep(sources, layers);
      var gm := LayersLabels(e, given, sources, front);
      EmitLayersStep(e, sources, layers);
      var m := EmitLayers(e, sources, front).value;
      var begun := OpenLayer(m, last);
      OpenKeeps(m, gm, sources, last);
      SameLabels(m.img, begun.img, gm, sources);
      AllLabels(begun, gm, sources, last.tensors, Some(last.index));
      EmitAllKeeps(begun, gm, sources, last.tensors, Some(last.index));
      given' := gm + GivenAll(sources, last.tensors);
    }
  }

  lemma SameLabels(img: Image, next: Image, given: seq<Bytes>, sources: Sources)
    requires Labelled(img, given, sources) && next.tensors == img.tensors
    ensures Labelled(next, given, sources)
  {
    hide Stem;
    forall k: nat | k < |img.tensors|
      ensures Described(next, k) && HasBytes(next, given, sources, k)
    {
      assert Described(img, k) && HasBytes(img, given, sources, k);
    }
  }

  lemma StartLabels(sources: Sources)
    ensures Labelled(Start().img, [], sources)
  {
    StartKeeps(sources);
    EInvOpen(Start(), [], sources);
    hide Start, EInv;
  }

  lemma SpecLabels(arch: TextArchitecture, ns: NamespaceBinding, q: Option<QuantizationMeta>, sources: Sources, e: Emitted)
    returns (given: seq<Bytes>)
    requires Packable(Bits(q), GroupSize(q))
    requires EmitSpec(SpecOf(arch, ns.root, q), ns, sources) == Some(e)
    ensures EInv(e, given, sources) && Labelled(e.img, given, sources)
    ensures Distinct(SegmentIds(e.img))
  {
    hide *;
    var spec := SpecOf(arch, ns.root, q);
    var whole := ImageEmitted(arch, ns, q, sources);
    var g1 := GlobalsEmitted(arch, ns.root, q, sources);
    SpecParts(arch, ns.root, q);
    EmitSpecSteps(spec, ns, sources);
    StartLabels(sources);
    StartKeeps(sources);
    AllLabels(Start(), [], sources, spec.globalTensors, None);
    EmitAllKeeps(Start(), [], sources, spec.globalTensors, None);
    var g, gg := EmitAll(Start(), sources, spec.globalTensors, None).value, [] + GivenAll(sources, spec.globalTensors);
    AliasSucceeds(g, ns);
    AliasKeeps(g, gg, sources, ns);
    var a := WithAlias(g, ns).value;
    SameLabels(g.img, a.img, gg, sources);
    given := LayersLabels(a, gg, sources, spec.layers);
    EmittedParts(arch, ns.root, q, sources, e, whole);
    ImageSegmentsDistinct(|arch.layerTypes|);
  }

  lemma EntryLoads(e: Emitted, given: seq<Bytes>, sources: Sources, k: nat)
    requires EInv(e, given, sources) && Labelled(e.img, given, sources) && Distinct(SegmentIds(e.img)) && k < |e.img.tensors|
    ensures |Flush(e.img).payloads| == |Flush(e.img).segments|
    ensures Loads(e.img, sources, k, e.img.tensors[k].info.name, e.img.tensors[k].segment)
  {
    EInvOpen(e, given, sources);
    assert HasBytes(e.img, given, sources, k);
    hide EInv, Labelled, ReadTensor, WriteFiles;
    ReadBack(e.img, given, k);
    FlushKeeps(e.img, given);
    FlushedIds(e.img, given, k);
  }

  lemma FlushedIds(img: Image, given: seq<Bytes>, k: nat)
    requires Inv(img, given) && k < |img.tensors|
    ensures k < |ManifestOf(img).tensors| && ManifestOf(img).tensors[k] == img.tensors[k] && img.tensors[k].id == k
  {
    ManifestTables(img);
    InvParts(img, given);
    hide ManifestOf;
  }

  /** Every entry of an emitted image loads the checkpoint's tensor of its name, and a packed one
      names the entries that load its own scales and biases. */
  lemma {:induction false} QuantizedTensorsLoad(arch: TextArchitecture, ns: NamespaceBinding,
                                                q: Option<QuantizationMeta>, sources: Sources, e: Emitted)
    requires Packable(Bits(q), GroupSize(q))
    requires EmitSpec(SpecOf(arch, ns.root, q), ns, sources) == Some(e)
    ensures |Flush(e.img).payloads| == |Flush(e.img).segments|
    ensures forall k: nat :: k < |e.img.tensors| ==> EntryComplete(e.img, sources, k)
  {
    hide *;
    var given := SpecLabels(arch, ns, q, sources, e);
    EInvOpen(e, given, sources);
    FlushKeeps(e.img, given);
    FlushedShape(Flush(e.img), given);
    forall k: nat | k < |e.img.tensors|
      ensures EntryComplete(e.img, sources, k)
    {
      Complete(e, given, sources, k);
    }
  }

  ghost predicate EntryComplete(img: Image, sources: Sources, k: nat)
    requires k < |img.tensors| && |Flush(img).payloads| == |Flush(img).segments|
  {
    var t := img.tensors[k];
    && Loads(img, sources, k, t.info.name, t.segment)
    && (t.info.quantization.Some? ==>
         && Loads(img, sources, t.info.quantization.value.scaleId, Stem(t.info.name) + ".scales", t.segment)
         && Loads(img, sources, t.info.quantization.value.biasId, Stem(t.info.name) + ".biases", t.segment))
  }

  lemma Complete(e: Emitted, given: seq<Bytes>, sources: Sources, k: nat)
    requires EInv(e, given, sources) && Labelled(e.img, given, sources) && Distinct(SegmentIds(e.img)) && k < |e.img.tensors|
    ensures |Flush(e.img).payloads| == |Flush(e.img).segments| && EntryComplete(e.img, sources, k)
  {
    assert Described(e.img, k);
    hide EInv, Labelled, Loads, Stem, Flush;
    EntryLoads(e, given, sources, k);
    var q := e.img.tensors[k].info.quantization;
    if q.Some? {
      EntryLoads(e, given, sources, q.value.scaleId);
      EntryLoads(e, given, sources, q.value.biasId);
    }
  }

  /** What reading a tensor of the image by its name gives. */
  ghost predicate ReadsAs(img: Image, name: string, r: Option<Bytes>)
    requires |Flush(img).payloads| == |Flush(img).segments|
  {
    TensorBytes(ManifestOf(img), WriteFiles(Flush(img).segments, Flush(img).payloads), name) == r
  }

  ghost predicate HasEntry(img: Image, name: string) {
    exists k :: 0 <= k < |img.tensors| && img.tensors[k].info.name == name
  }

  /** Reading by name gives the checkpoint's tensor of that name, for exactly the names that
      were emitted; a name that was emitted twice is no exception. */
  lemma {:induction false} NamesReadCheckpoint(arch: TextArchitecture, ns: NamespaceBinding,
                                               q: Option<QuantizationMeta>, sources: Sources, e: Emitted, name: string)
    requires Packable(Bits(q), GroupSize(q))
    requires EmitSpec(SpecOf(arch, ns.root, q), ns, sources) == Some(e)
    ensures |Flush(e.img).payloads| == |Flush(e.img).segments|
    ensures HasEntry(e.img, name) ==> name in sources && ReadsAs(e.img, name, Some(sources[name].data))
    ensures !HasEntry(e.img, name) ==> ReadsAs(e.img, name, None)
  {
    hide *;
    var given := SpecLabels(arch, ns, q, sources, e);
    EInvOpen(e, given, sources);
    var k := ReadByName(e.img, given, name);
    ReadsFrom(e.img, given, sources, name, k);
  }

  lemma ReadsFrom(img: Image, given: seq<Bytes>, sources: Sources, name: string, k: nat)
    requires |Flush(img).payloads| == |Flush(img).segments| && Labelled(img, given, sources)
    requires var r := TensorBytes(ManifestOf(img), WriteFiles(Flush(img).segments, Flush(img).payloads), name);
      && (r.None? <==> forall i :: 0 <= i < |img.tensors| ==> img.tensors[i].info.name != name)
      && (r.Some? ==> k < |img.tensors| == |given| && img.tensors[k].info.name == name && r == Some(given[k]))
    ensures HasEntry(img, name) ==> name in sources && ReadsAs(img, name, Some(sources[name].data))
    ensures !HasEntry(img, name) ==> ReadsAs(img, name, None)
  {
    hide TensorBytes, ManifestOf, WriteFiles, Flush, Described;
    assert HasEntry(img, name) ==> HasBytes(img, given, sources, k);
  }
}
