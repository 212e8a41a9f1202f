// The relocation plan against the image that is emitted in one go (compute_image.rs): the same
// segments under the same names, and when they have the same sizes.
module PlannedSizes {
  import opened Common
  import opened Naming
  import opened Config
  import opened ImageBuilder
  import opened Emission
  import opened Compiler
  import P = Plan

  // ---------------------------------------------------------------------
  // Emitted payloads
  // ---------------------------------------------------------------------

  /** The payloads, the open segment's last. */
  function Datas(img: Image): seq<Bytes>
    requires img.current.Some?
  {
    img.payloads + [img.current.value.data]
  }

  /** `next` is `img` with `data` appended to the open segment. */
  ghost predicate Fed(img: Image, next: Image, data: Bytes) {
    && img.current.Some? && next.current.Some? && next.payloads == img.payloads
    && next.current.value.data == img.current.value.data + data
  }

  lemma FedTwice(a: Image, b: Image, c: Image, x: Bytes, y: Bytes)
    requires Fed(a, b, x) && Fed(b, c, y)
    ensures Fed(a, c, x + y)
  {
  }

  lemma TensorFeeds(img: Image, sources: Sources, name: string, role: string, layer: Option<nat>,
                    shape: seq<nat>, quantization: Option<QuantizationDesc>)
    requires img.current.Some? && name in sources
    ensures var r := EmitTensor(img, sources, name, role, layer, shape, quantization);
      r.Some? && Fed(img, r.value, DataOf(sources, name))
  {
  }

  function DataOf(sources: Sources, name: string): (data: Bytes)
    ensures |data| == P.SourceLength(sources, name)
  {
    if name in sources then sources[name].data else []
  }

  /** The bytes of a packed binding besides its own tensor. */
  function PartsData(sources: Sources, b: TensorBinding): Bytes {
    if b.packed.None? then [] else DataOf(sources, Stem(b.name) + ".scales") + DataOf(sources, Stem(b.name) + ".biases")
  }

  /** What a list of bindings leaves in the image: own tensors, each after its scales and biases. */
  function Gathered(sources: Sources, bs: seq<TensorBinding>): Bytes {
    if bs == [] then []
    else Gathered(sources, Front(bs)) + PartsData(sources, Last(bs)) + DataOf(sources, Last(bs).name)
  }

  lemma BindingFeeds(img: Image, sources: Sources, b: TensorBinding, layer: Option<nat>)
    requires img.current.Some? && Present(sources, b)
    ensures var r := EmitBinding(img, sources, b, layer);
      r.Some? && Fed(img, r.value, PartsData(sources, b) + DataOf(sources, b.name))
  {
    hide Stem, RoleName, EmitTensor, DataOf;
    var role := RoleName(b.role);
    match b.packed {
      case None =>
        assert NeededNames(b)[0] == b.name;
        TensorFeeds(img, sources, b.name, role, layer, b.logicalShape, None);
        assert [] + DataOf(sources, b.name) == DataOf(sources, b.name);
      case Some(packed) =>
        var scales, biases := Stem(b.name) + ".scales", Stem(b.name) + ".biases";
        assert NeededNames(b)[0] == scales && NeededNames(b)[1] == biases && NeededNames(b)[2] == b.name;
        TensorFeeds(img, sources, scales, role + "::scales", layer, packed.scales, None);
        var i1 := EmitTensor(img, sources, scales, role + "::scales", layer, packed.scales, None).value;
        TensorFeeds(i1, sources, biases, role + "::biases", layer, packed.biases, None);
        var i2 := EmitTensor(i1, sources, biases, role + "::biases", layer, packed.biases, None).value;
        var desc := Some(QuantizationDesc(packed.bits, packed.groupSize, packed.groups, img.nextId, i1.nextId));
        TensorFeeds(i2, sources, b.name, role, layer, b.logicalShape, desc);
        var i3 := EmitTensor(i2, sources, b.name, role, layer, b.logicalShape, desc).value;
        FedTwice(img, i1, i2, DataOf(sources, scales), DataOf(sources, biases));
        FedTwice(img, i2, i3, DataOf(sources, scales) + DataOf(sources, biases), DataOf(sources, b.name));
    }
  }

  /** The size of that. */
  function Emitting(sources: Sources, bs: seq<TensorBinding>): nat {
    Own(sources, bs) + Parts(sources, bs)
  }

  /** Bytes of the bindings' own tensors. */
  function Own(sources: Sources, bs: seq<TensorBinding>): nat {
    if bs == [] then 0 else Own(sources, Front(bs)) + P.SourceLength(sources, Last(bs).name)
  }

  /** Bytes of the scales and biases of the packed ones. */
  function Parts(sources: Sources, bs: seq<TensorBinding>): nat {
    if bs == [] then 0 else Parts(sources, Front(bs)) + PartsOf(sources, Last(bs))
  }

  function PartsOf(sources: Sources, b: TensorBinding): nat {
    |PartsData(sources, b)|
  }

  lemma {:induction false} GatheredSize(sources: Sources, bs: seq<TensorBinding>)
    ensures |Gathered(sources, bs)| == Emitting(sources, bs)
  {
    if bs != [] {
      hide PartsData, DataOf;
      GatheredSize(sources, Front(bs));
      SourceBytes(sources, Last(bs).name);
    }
  }

  lemma SourceBytes(sources: Sources, name: string)
    ensures |DataOf(sources, name)| == P.SourceLength(sources, name)
  {
  }

  lemma {:induction false} AllFeed(e: Emitted, sources: Sources, bs: seq<TensorBinding>, layer: Option<nat>)
    requires e.img.current.Some? && AllPresent(sources, bs)
    ensures var r := EmitAll(e, sources, bs, layer);
      r.Some? && Fed(e.img, r.value.img, Gathered(sources, bs))
    decreases |bs|
  {
    hide EmitBinding, Present, AllPresent, PartsData, DataOf;
    if bs == [] {
      assert e.img.current.value.data + [] == e.img.current.value.data;
    } else {
      PresentParts(sources, bs);
      AllFeed(e, sources, Front(bs), layer);
      var m, last := EmitAll(e, sources, Front(bs), layer).value, Last(bs);
      BindingFeeds(m.img, sources, last, layer);
      EmitAllStep(e, m, sources, bs, layer);
      var before, more := Gathered(sources, Front(bs)), PartsData(sources, last) + DataOf(sources, last.name);
      FedTwice(e.img, m.img, EmitAll(e, sources, bs, layer).value.img, before, more);
      assert before + more == Gathered(sources, bs);
    }
  }

  lemma DatasFed(img: Image, next: Image, data: Bytes)
    requires Fed(img, next, data)
    ensures Datas(next) == Front(Datas(img)) + [Last(Datas(img)) + data]
  {
  }

  lemma DatasOpen(e: Emitted, l: LayerSpec)
    requires e.img.current.Some?
    ensures OpenLayer(e, l).img.current.Some? && Datas(OpenLayer(e, l).img) == Datas(e.img) + [[]]
  {
    hide LayerSegment, SegmentFile;
  }

  function LayerDatas(sources: Sources, layers: seq<LayerSpec>): seq<Bytes> {
    if layers == [] then [] else LayerDatas(sources, Front(layers)) + [Gathered(sources, Last(layers).tensors)]
  }

  lemma {:induction false} LayersFeed(e: Emitted, sources: Sources, layers: seq<LayerSpec>)
    requires e.img.current.Some? && LayersPresent(sources, layers)
    ensures EmitLayers(e, sources, layers).Some?
    ensures var next := EmitLayers(e, sources, layers).value.img;
      next.current.Some? && Datas(next) == Datas(e.img) + LayerDatas(sources, layers)
    decreases |layers|
  {
    hide EmitAll, Gathered, LayersPresent, AllPresent, OpenLayer, Datas;
    if layers == [] {
      assert Datas(e.img) + [] == Datas(e.img);
    } else {
      var front, last := Front(layers), Last(layers);
      PresentStep(sources, layers);
      LayersFeed(e, sources, front);
      EmitLayersStep(e, sources, layers);
      var m := EmitLayers(e, sources, front).value;
      var begun := OpenLayer(m, last);
      DatasOpen(m, last);
      AllFeed(begun, sources, last.tensors, Some(last.index));
      var next := EmitAll(begun, sources, last.tensors, Some(last.index)).value;
      var data := Gathered(sources, last.tensors);
      DatasFed(begun.img, next.img, data);
      AppendFrontLast(Datas(m.img), []);
      assert [] + data == data;
      assert Datas(next.img) == Datas(m.img) + [data];
    }
  }

  /** The bindings of segment j: the globals, then the layers. */
  function Group(spec: ExecutionSpec, j: nat): seq<TensorBinding>
    requires j < 1 + |spec.layers|
  {
    if j == 0 then spec.globalTensors else spec.layers[j - 1].tensors
  }

  lemma {:induction false} LayerDatasAt(sources: Sources, layers: seq<LayerSpec>, i: nat)
    requires i < |layers|
    ensures |LayerDatas(sources, layers)| == |layers| && LayerDatas(sources, layers)[i] == Gathered(sources, layers[i].tensors)
    decreases |layers|
  {
    LayerDatasCount(sources, layers);
    LayerDatasCount(sources, Front(layers));
    if i < |layers| - 1 {
      LayerDatasAt(sources, Front(layers), i);
    }
  }

  lemma {:induction false} LayerDatasCount(sources: Sources, layers: seq<LayerSpec>)
    ensures |LayerDatas(sources, layers)| == |layers|
  {
    if layers != [] {
      LayerDatasCount(sources, Front(layers));
    }
  }

  lemma StartDatas()
    ensures Start().img.current.Some? && Datas(Start().img) == [[]]
  {
  }

  lemma AliasDatas(g: Emitted, ns: NamespaceBinding)
    requires g.img.current.Some? && WithAlias(g, ns).Some?
    ensures WithAlias(g, ns).value.img.current.Some? && Datas(WithAlias(g, ns).value.img) == Datas(g.img)
  {
    AliasOnly(g, ns);
    hide WithAlias;
  }

  lemma ManifestSizes(img: Image, given: seq<Bytes>)
    requires Inv(img, given) && img.current.Some?
    ensures Flush(img).payloads == Datas(img)
    ensures var m := ManifestOf(img);
      && |m.segments| == |Datas(img)| == |SegmentIds(img)|
      && forall j :: 0 <= j < |m.segments| ==>
           m.segments[j].byteSize == |Datas(img)[j]| && m.segments[j].id == SegmentIds(img)[j]
           && m.segments[j].filename == SegmentFile(j)
  {
    FlushKeeps(img, given);
    InvParts(img, given);
    ManifestTables(img);
    InvParts(Flush(img), given);
    FilesNumbered(Flush(img));
    FlushedSizes(img);
  }

  lemma FlushedSizes(img: Image)
    requires Shape(img) && Shape(Flush(img)) && img.current.Some?
    ensures var f := Flush(img);
      && f.payloads == Datas(img) && |f.segments| == |Datas(img)| == |SegmentIds(img)|
      && forall j :: 0 <= j < |f.segments| ==> f.segments[j].byteSize == |Datas(img)[j]| && f.segments[j].id == SegmentIds(img)[j]
  {
    hide SegmentFile, Residents;
  }

  /** The segment table of an emitted image. */
  ghost predicate EmittedAs(m: Manifest, spec: ExecutionSpec, sources: Sources) {
    |m.segments| == 1 + |spec.layers| && forall j: nat :: j < |m.segments| ==> SegmentAs(m, spec, sources, j)
  }

  ghost predicate SegmentAs(m: Manifest, spec: ExecutionSpec, sources: Sources, j: nat)
    requires j < |m.segments| == 1 + |spec.layers|
  {
    && m.segments[j].byteSize == Emitting(sources, Group(spec, j))
    && m.segments[j].id == ([PERSISTENT] + LayerSegments(|spec.layers|))[j]
    && m.segments[j].filename == SegmentFile(j)
  }

  lemma EmittedSizes(arch: TextArchitecture, ns: NamespaceBinding, q: Option<QuantizationMeta>, sources: Sources, e: Emitted)
    requires Packable(Bits(q), GroupSize(q))
    requires EmitSpec(SpecOf(arch, ns.root, q), ns, sources) == Some(e)
    ensures EmittedAs(ManifestOf(e.img), SpecOf(arch, ns.root, q), sources)
  {
    var spec := SpecOf(arch, ns.root, q);
    hide *;
    var given := ImageEmitted(arch, ns, q, sources);
    EmittedParts(arch, ns.root, q, sources, e, given);
    SpecCount(arch, ns.root, q);
    EInvOpen(e, given, sources);
    ManifestSizes(e.img, given);
    SpecDatas(arch, ns, q, sources, e);
    GroupDatas(spec, sources, Datas(e.img));
    forall k: nat | k < |Datas(e.img)|
      ensures |Datas(e.img)[k]| == Emitting(sources, Group(spec, k))
    {
      GatheredSize(sources, Group(spec, k));
    }
    TableIs(ManifestOf(e.img), spec, sources, Datas(e.img), SegmentIds(e.img));
  }

  lemma SpecCount(arch: TextArchitecture, root: string, q: Option<QuantizationMeta>)
    requires Packable(Bits(q), GroupSize(q))
    ensures |SpecOf(arch, root, q).layers| == |arch.layerTypes|
  {
  }

  lemma TableIs(m: Manifest, spec: ExecutionSpec, sources: Sources, datas: seq<Bytes>, ids: seq<string>)
    requires |m.segments| == |datas| == |ids| == 1 + |spec.layers|
    requires forall j: nat :: j < |datas| ==> |datas[j]| == Emitting(sources, Group(spec, j))
    requires forall j :: 0 <= j < |m.segments| ==>
      m.segments[j].byteSize == |datas[j]| && m.segments[j].id == ids[j] && m.segments[j].filename == SegmentFile(j)
    requires ids == [PERSISTENT] + LayerSegments(|spec.layers|)
    ensures EmittedAs(m, spec, sources)
  {
    hide Emitting, Group, SegmentFile, PERSISTENT, LayerSegments;
  }

  lemma SpecDatas(arch: TextArchitecture, ns: NamespaceBinding, q: Option<QuantizationMeta>, sources: Sources, e: Emitted)
    requires Packable(Bits(q), GroupSize(q))
    requires EmitSpec(SpecOf(arch, ns.root, q), ns, sources) == Some(e) && e.img.current.Some?
    ensures var spec := SpecOf(arch, ns.root, q);
      Datas(e.img) == [Gathered(sources, spec.globalTensors)] + LayerDatas(sources, spec.layers)
  {
    var spec := SpecOf(arch, ns.root, q);
    hide *;
    var whole := ImageEmitted(arch, ns, q, sources);
    var given := GlobalsEmitted(arch, ns.root, q, sources);
    SpecParts(arch, ns.root, q);
    EmitSpecSteps(spec, ns, sources);
    var g := GlobalsFeed(spec, sources);
    AliasSucceeds(g, ns);
    AliasDatas(g, ns);
    LayersFeed(WithAlias(g, ns).value, sources, spec.layers);
  }

  lemma GlobalsFeed(spec: ExecutionSpec, sources: Sources) returns (g: Emitted)
    requires AllPresent(sources, spec.globalTensors)
    ensures EmitAll(Start(), sources, spec.globalTensors, None) == Some(g)
    ensures g.img.current.Some? && Datas(g.img) == [Gathered(sources, spec.globalTensors)]
  {
    hide *;
    StartDatas();
    AllFeed(Start(), sources, spec.globalTensors, None);
    g := EmitAll(Start(), sources, spec.globalTensors, None).value;
    var data := Gathered(sources, spec.globalTensors);
    FedOpen(Start().img, g.img, data);
    DatasFed(Start().img, g.img, data);
    OneData(Datas(Start().img), Datas(g.img), data);
  }

  lemma OneData(before: seq<Bytes>, after: seq<Bytes>, data: Bytes)
    requires before == [[]] && after == Front(before) + [Last(before) + data]
    ensures after == [data]
  {
    assert Front(before) == [] && Last(before) + data == data;
  }

  lemma FedOpen(img: Image, next: Image, data: Bytes)
    requires Fed(img, next, data)
    ensures next.current.Some?
  {
  }

  lemma GroupDatas(spec: ExecutionSpec, sources: Sources, datas: seq<Bytes>)
    requires datas == [Gathered(sources, spec.globalTensors)] + LayerDatas(sources, spec.layers)
    ensures |datas| == 1 + |spec.layers|
    ensures forall j: nat :: j < |datas| ==> datas[j] == Gathered(sources, Group(spec, j))
  {
    hide Gathered, LayerDatas;
    LayerDatasCount(sources, spec.layers);
    forall j: nat | 0 < j < |datas|
      ensures datas[j] == Gathered(sources, Group(spec, j))
    {
      LayerDatasAt(sources, spec.layers, j - 1);
    }
  }

  // ---------------------------------------------------------------------
  // Planned sizes
  // ---------------------------------------------------------------------

  /** The data of the items of one segment, in order. */
  function ItemData(items: seq<P.Item>, sources: Sources, id: string): Bytes {
    if items == [] then []
    else
      ItemData(Front(items), sources, id)
      + if Last(items).segment == id then DataOf(sources, Last(items).binding.name) else []
  }

  /** The data of the bindings' own tensors. */
  function OwnData(sources: Sources, bs: seq<TensorBinding>): Bytes {
    if bs == [] then [] else OwnData(sources, Front(bs)) + DataOf(sources, Last(bs).name)
  }

  lemma {:induction false} OwnSize(sources: Sources, bs: seq<TensorBinding>)
    ensures |OwnData(sources, bs)| == Own(sources, bs)
  {
    if bs != [] {
      OwnSize(sources, Front(bs));
    }
  }

  lemma {:induction false} TableBytes(table: seq<P.PlannedTensor>, items: seq<P.Item>, sources: Sources, id: string)
    requires P.Places(table, items, sources)
    ensures P.SegmentBytes(table, id) == |ItemData(items, sources, id)|
    decreases |table|
  {
    if table != [] {
      hide P.SegmentBytes, ItemData;
      FrontPlaces(table, items, sources);
      TableBytes(Front(table), Front(items), sources, id);
      TableStep(table, items, sources, id);
    }
  }

  lemma FrontPlaces(table: seq<P.PlannedTensor>, items: seq<P.Item>, sources: Sources)
    requires table != [] && P.Places(table, items, sources)
    ensures items != [] && P.Places(Front(table), Front(items), sources)
  {
    hide P.PlaceAt, P.SegmentBytes;
    assert forall k :: 0 <= k < |table| - 1 ==> Front(table)[..k] == table[..k];
  }

  lemma TableStep(table: seq<P.PlannedTensor>, items: seq<P.Item>, sources: Sources, id: string)
    requires table != [] && P.Places(table, items, sources) && items != []
    requires P.SegmentBytes(Front(table), id) == |ItemData(Front(items), sources, id)|
    ensures P.SegmentBytes(table, id) == |ItemData(items, sources, id)|
  {
    var k := |table| - 1;
    assert table[k] == P.PlaceAt(sources, items[k], k, P.SegmentBytes(table[..k], items[k].segment));
  }

  lemma {:induction false} ItemsConcat(a: seq<P.Item>, b: seq<P.Item>, sources: Sources, id: string)
    ensures ItemData(a + b, sources, id) == ItemData(a, sources, id) + ItemData(b, sources, id)
    decreases |b|
  {
    if b == [] {
      assert a + b == a;
    } else {
      assert Front(a + b) == a + Front(b);
      ItemsConcat(a, Front(b), sources, id);
    }
  }

  lemma {:induction false} GroupItems(bs: seq<TensorBinding>, segment: string, sources: Sources, id: string)
    ensures ItemData(P.ItemsOf(bs, segment), sources, id) == if segment == id then OwnData(sources, bs) else []
  {
    if bs != [] {
      assert Front(P.ItemsOf(bs, segment)) == P.ItemsOf(Front(bs), segment);
      GroupItems(Front(bs), segment, sources, id);
    }
  }

  /** A segment that is not a layer's has no item of a layer; layer i's has its own. */
  lemma {:induction false} LayerItemsData(layers: seq<LayerSpec>, sources: Sources, i: nat)
    requires forall k :: 0 <= k < |layers| ==> layers[k].index == k
    ensures ItemData(P.LayerItems(layers), sources, LayerSegment(i))
         == if i < |layers| then OwnData(sources, layers[i].tensors) else []
    ensures ItemData(P.LayerItems(layers), sources, PERSISTENT) == []
    decreases |layers|
  {
    if layers != [] {
      hide OwnData, ItemData, P.ItemsOf, LayerSegment;
      var front, last := Front(layers), Last(layers);
      LayerItemsData(front, sources, i);
      var own := P.ItemsOf(last.tensors, LayerSegment(last.index));
      ItemsConcat(P.LayerItems(front), own, sources, LayerSegment(i));
      ItemsConcat(P.LayerItems(front), own, sources, PERSISTENT);
      GroupItems(last.tensors, LayerSegment(last.index), sources, LayerSegment(i));
      GroupItems(last.tensors, LayerSegment(last.index), sources, PERSISTENT);
      LayerSegmentInjective(last.index, i);
    } else {
      assert ItemData([], sources, LayerSegment(i)) == [] && ItemData([], sources, PERSISTENT) == [];
    }
  }

  /** The items of segment j are the bindings of group j. */
  lemma GroupData(spec: ExecutionSpec, sources: Sources, j: nat)
    requires P.Numbered(spec) && j < 1 + |spec.layers|
    ensures |P.SegmentNames(spec)| == 1 + |spec.layers|
    ensures P.SegmentNames(spec)[j] == ([PERSISTENT] + LayerSegments(|spec.layers|))[j]
    ensures ItemData(P.AllItems(spec), sources, P.SegmentNames(spec)[j]) == OwnData(sources, Group(spec, j))
  {
    hide LayerSegment, OwnData;
    var id := P.SegmentNames(spec)[j];
    var globals := P.ItemsOf(spec.globalTensors, PERSISTENT);
    ItemsConcat(globals, P.LayerItems(spec.layers), sources, id);
    GroupItems(spec.globalTensors, PERSISTENT, sources, id);
    var i := if j == 0 then 0 else j - 1;
    LayerItemsData(spec.layers, sources, i);
    LayerSegmentInjective(i, i);
    hide ItemData, P.ItemsOf, P.LayerItems;
    assert j > 0 ==> id == LayerSegment(i);
  }

  lemma PlannedSizesAre(p: P.CompilationPlan, spec: ExecutionSpec, sources: Sources, j: nat)
    requires P.PlanOf(p, spec, sources) && P.Numbered(spec) && j < |p.segments|
    ensures |p.segments| == 1 + |spec.layers|
    ensures p.segments[j].byteSize == Own(sources, Group(spec, j))
    ensures p.segments[j].id == ([PERSISTENT] + LayerSegments(|spec.layers|))[j]
    ensures p.segments[j].filename == SegmentFile(j)
  {
    hide SegmentFile, P.SegmentNames, P.SegmentBytes, P.SegmentTensors, P.SumSizes, P.Places, Own, P.AllItems;
    GroupData(spec, sources, j);
    var id := P.SegmentNames(spec)[j];
    assert p.segments[j].byteSize == P.SegmentBytes(p.table, id);
    TableBytes(p.table, P.AllItems(spec), sources, id);
    OwnSize(sources, Group(spec, j));
  }

  // ---------------------------------------------------------------------
  // Main result
  // ---------------------------------------------------------------------

  lemma {:induction false} NoPartsIff(sources: Sources, bs: seq<TensorBinding>)
    ensures Parts(sources, bs) == 0 <==> forall b :: b in bs ==> PartsOf(sources, b) == 0
  {
    if bs != [] {
      hide PartsOf;
      NoPartsIff(sources, Front(bs));
      assert bs == Front(bs) + [Last(bs)];
      assert forall b :: b in bs <==> b in Front(bs) || b == Last(bs);
    }
  }

  /** Some packed matrix of the spec has scales or biases with bytes in them. */
  ghost predicate HasParts(spec: ExecutionSpec, sources: Sources) {
    exists j: nat, b :: j < 1 + |spec.layers| && b in Group(spec, j) && PartsOf(sources, b) > 0
  }

  /** The same segments in the same order, none larger in the plan. */
  ghost predicate SameSegments(p: P.CompilationPlan, m: Manifest) {
    |p.segments| == |m.segments| && forall j :: 0 <= j < |p.segments| ==>
      p.segments[j].id == m.segments[j].id && p.segments[j].filename == m.segments[j].filename
      && p.segments[j].byteSize <= m.segments[j].byteSize
  }

  ghost predicate SameSizes(p: P.CompilationPlan, m: Manifest) {
    |p.segments| == |m.segments| && forall j :: 0 <= j < |p.segments| ==> p.segments[j].byteSize == m.segments[j].byteSize
  }

  /** The plan has the emitted image's segments under the same ids and file names, never larger;
      and of the same sizes if and only if no packed matrix has scales or biases to store, which
      the plan leaves out. */
  lemma {:induction false} PlanMatchesImageIff(arch: TextArchitecture, ns: NamespaceBinding, q: Option<QuantizationMeta>,
                                               sources: Sources, e: Emitted, p: P.CompilationPlan)
    requires Packable(Bits(q), GroupSize(q))
    requires EmitSpec(SpecOf(arch, ns.root, q), ns, sources) == Some(e)
    requires P.PlanOf(p, SpecOf(arch, ns.root, q), sources)
    ensures SameSegments(p, ManifestOf(e.img))
    ensures SameSizes(p, ManifestOf(e.img)) <==> !HasParts(SpecOf(arch, ns.root, q), sources)
  {
    hide *;
    EmittedSizes(arch, ns, q, sources, e);
    SpecNumbered(arch, ns.root, q);
    TablesMatch(p, ManifestOf(e.img), SpecOf(arch, ns.root, q), sources);
  }

  lemma TablesMatch(p: P.CompilationPlan, m: Manifest, spec: ExecutionSpec, sources: Sources)
    requires P.PlanOf(p, spec, sources) && P.Numbered(spec) && EmittedAs(m, spec, sources)
    ensures SameSegments(p, m) && (SameSizes(p, m) <==> !HasParts(spec, sources))
  {
    PlanSegments(p, spec, sources);
    EmittedCount(m, spec, sources);
    hide P.PlanOf, P.Numbered, EmittedAs, Parts, Group, HasParts;
    forall j: nat | j < |p.segments|
      ensures p.segments[j].id == m.segments[j].id && p.segments[j].filename == m.segments[j].filename
      ensures m.segments[j].byteSize == p.segments[j].byteSize + Parts(sources, Group(spec, j))
    {
      SegmentMatches(p, m, spec, sources, j);
    }
    PartsSum(spec, sources);
  }

  lemma EmittedCount(m: Manifest, spec: ExecutionSpec, sources: Sources)
    requires EmittedAs(m, spec, sources)
    ensures |m.segments| == 1 + |spec.layers|
  {
  }

  lemma SegmentMatches(p: P.CompilationPlan, m: Manifest, spec: ExecutionSpec, sources: Sources, j: nat)
    requires P.PlanOf(p, spec, sources) && P.Numbered(spec) && EmittedAs(m, spec, sources)
    requires j < |p.segments| == |m.segments| == 1 + |spec.layers|
    ensures p.segments[j].id == m.segments[j].id && p.segments[j].filename == m.segments[j].filename
    ensures m.segments[j].byteSize == p.segments[j].byteSize + Parts(sources, Group(spec, j))
  {
    assert SegmentAs(m, spec, sources, j);
    hide P.PlanOf, P.Numbered, EmittedAs, Emitting, Group, Parts, Own, SegmentFile;
    PlannedSizesAre(p, spec, sources, j);
    EmittingIs(sources, Group(spec, j));
  }

  lemma EmittingIs(sources: Sources, bs: seq<TensorBinding>)
    ensures Emitting(sources, bs) == Own(sources, bs) + Parts(sources, bs)
  {
  }

  lemma SpecNumbered(arch: TextArchitecture, root: string, q: Option<QuantizationMeta>)
    requires Packable(Bits(q), GroupSize(q))
    ensures P.Numbered(SpecOf(arch, root, q))
  {
    hide LayerTensors, GlobalTensors;
  }

  lemma PlanSegments(p: P.CompilationPlan, spec: ExecutionSpec, sources: Sources)
    requires P.PlanOf(p, spec, sources)
    ensures |p.segments| == 1 + |spec.layers|
  {
  }

  lemma PartsSum(spec: ExecutionSpec, sources: Sources)
    ensures (forall j: nat :: j < 1 + |spec.layers| ==> Parts(sources, Group(spec, j)) == 0) <==> !HasParts(spec, sources)
  {
    hide PartsOf, Parts, Group;
    forall j: nat | j < 1 + |spec.layers|
      ensures Parts(sources, Group(spec, j)) == 0 <==> forall b :: b in Group(spec, j) ==> PartsOf(sources, b) == 0
    {
      NoPartsIff(sources, Group(spec, j));
    }
  }
}
