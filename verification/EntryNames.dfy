// The names that an emitted image holds (compute_image.rs): segment by segment in order, each
// once; and the catalog of such an image.
module EntryNames {
  import opened Common
  import opened Naming
  import opened Config
  import opened ImageBuilder
  import opened Emission
  import opened Compiler

  // ---------------------------------------------------------------------
  // The names of each segment
  // ---------------------------------------------------------------------

  function NamesOf(tensors: seq<TensorEntry>, ids: seq<nat>): seq<string> {
    seq(|ids|, i requires 0 <= i < |ids| => if ids[i] < |tensors| then tensors[ids[i]].info.name else "")
  }

  /** The names in each segment, the open one last. */
  function Groups(img: Image): (g: seq<seq<string>>)
    ensures |g| == Count(img)
  {
    seq(Count(img), j requires 0 <= j < Count(img) => NamesOf(img.tensors, TensorIds(img, j)))
  }

  ghost predicate Sound(img: Image) {
    && img.current.Some? && img.nextId == |img.tensors|
    && forall j :: 0 <= j < Count(img) ==> Owns(img.tensors, TensorIds(img, j), SegmentId(img, j))
  }

  /** The entries of `ids` say that they are in segment `id`. */
  ghost predicate Owns(tensors: seq<TensorEntry>, ids: seq<nat>, id: string) {
    forall i :: 0 <= i < |ids| ==> ids[i] < |tensors| && tensors[ids[i]].segment == id
  }

  function Kinds(img: Image): seq<SegmentKind> {
    seq(Count(img), j requires 0 <= j < Count(img) =>
      if j < |img.segments| then img.segments[j].kind else img.current.value.kind)
  }

  /** `next` is `img` with `names` appended to the open segment. */
  ghost predicate Grown(img: Image, next: Image, names: seq<string>) {
    && Sound(img) && Sound(next) && next.aliases == img.aliases && Kinds(next) == Kinds(img)
    && Groups(next) == Front(Groups(img)) + [Last(Groups(img)) + names]
  }

  lemma GrownTwice(a: Image, b: Image, c: Image, x: seq<string>, y: seq<string>)
    requires Grown(a, b, x) && Grown(b, c, y)
    ensures Grown(a, c, x + y)
  {
    hide Sound, Groups;
    var g := Groups(a);
    assert Front(Groups(b)) == Front(g) && Last(Groups(b)) == Last(g) + x;
    assert Last(g) + x + y == Last(g) + (x + y);
  }

  lemma TensorGrows(img: Image, sources: Sources, name: string, role: string, layer: Option<nat>,
                    shape: seq<nat>, quantization: Option<QuantizationDesc>)
    requires Sound(img) && name in sources
    ensures var r := EmitTensor(img, sources, name, role, layer, shape, quantization);
      r.Some? && Grown(img, r.value, [name])
  {
    var next := EmitTensor(img, sources, name, role, layer, shape, quantization).value;
    var n := |img.segments|;
    assert Count(next) == Count(img) == n + 1;
    forall j | 0 <= j < n
      ensures Owns(next.tensors, TensorIds(next, j), SegmentId(next, j)) && Groups(next)[j] == Groups(img)[j]
    {
      assert TensorIds(next, j) == TensorIds(img, j) && Owns(img.tensors, TensorIds(img, j), SegmentId(img, j));
    }
    assert Owns(img.tensors, TensorIds(img, n), SegmentId(img, n));
    assert TensorIds(next, n) == TensorIds(img, n) + [|img.tensors|];
    assert Groups(next)[n] == Groups(img)[n] + [name];
  }

  lemma BindingGrows(img: Image, sources: Sources, b: TensorBinding, layer: Option<nat>)
    requires Sound(img) && Present(sources, b)
    ensures var r := EmitBinding(img, sources, b, layer);
      r.Some? && Grown(img, r.value, NeededNames(b))
  {
    hide Stem, RoleName, EmitTensor, Sound, Grown;
    var role := RoleName(b.role);
    match b.packed {
      case None =>
        assert NeededNames(b)[0] == b.name;
        TensorGrows(img, sources, b.name, role, layer, b.logicalShape, None);
      case Some(packed) =>
        var scales, biases := Stem(b.name) + ".scales", Stem(b.name) + ".biases";
        assert NeededNames(b)[0] == scales && NeededNames(b)[1] == biases && NeededNames(b)[2] == b.name;
        TensorGrows(img, sources, scales, role + "::scales", layer, packed.scales, None);
        var i1 := EmitTensor(img, sources, scales, role + "::scales", layer, packed.scales, None).value;
        GrownSound(img, i1, [scales]);
        TensorGrows(i1, sources, biases, role + "::biases", layer, packed.biases, None);
        var i2 := EmitTensor(i1, sources, biases, role + "::biases", layer, packed.biases, None).value;
        GrownSound(i1, i2, [biases]);
        var desc := Some(QuantizationDesc(packed.bits, packed.groupSize, packed.groups, img.nextId, i1.nextId));
        TensorGrows(i2, sources, b.name, role, layer, b.logicalShape, desc);
        var i3 := EmitTensor(i2, sources, b.name, role, layer, b.logicalShape, desc).value;
        GrownTwice(img, i1, i2, [scales], [biases]);
        GrownTwice(img, i2, i3, [scales] + [biases], [b.name]);
        assert [scales] + [biases] + [b.name] == NeededNames(b);
    }
  }

  lemma GrownSound(img: Image, next: Image, names: seq<string>)
    requires Grown(img, next, names)
    ensures Sound(next) && next.aliases == img.aliases && Kinds(next) == Kinds(img)
    ensures |Groups(img)| > 0 && Groups(next) == Front(Groups(img)) + [Last(Groups(img)) + names]
  {
  }

  /** The names that a list of bindings is emitted under. */
  function Needed(bs: seq<TensorBinding>): seq<string> {
    if bs == [] then [] else Needed(Front(bs)) + NeededNames(Last(bs))
  }

  lemma {:induction false} AllGrows(e: Emitted, sources: Sources, bs: seq<TensorBinding>, layer: Option<nat>)
    requires Sound(e.img) && AllPresent(sources, bs)
    ensures var r := EmitAll(e, sources, bs, layer);
      r.Some? && Grown(e.img, r.value.img, Needed(bs))
    decreases |bs|
  {
    hide *;
    if bs == [] {
      NothingEmitted(e, sources, bs, layer);
      GrownNone(e.img, bs);
    } else {
      PresentParts(sources, bs);
      AllGrows(e, sources, Front(bs), layer);
      var m := EmitAll(e, sources, Front(bs), layer).value;
      GrownSound(e.img, m.img, Needed(Front(bs)));
      BindingGrows(m.img, sources, Last(bs), layer);
      EmitAllStep(e, m, sources, bs, layer);
      var next := EmitAll(e, sources, bs, layer).value;
      GrownTwice(e.img, m.img, next.img, Needed(Front(bs)), NeededNames(Last(bs)));
      NeededStep(bs);
    }
  }

  lemma GrownNone(img: Image, bs: seq<TensorBinding>)
    requires Sound(img) && bs == []
    ensures Grown(img, img, Needed(bs))
  {
    hide NamesOf;
    var g := Groups(img);
    assert Last(g) + [] == Last(g) && g == Front(g) + [Last(g)];
  }

  lemma NeededStep(bs: seq<TensorBinding>)
    requires bs != []
    ensures Needed(bs) == Needed(Front(bs)) + NeededNames(Last(bs))
  {
  }

  function LayerNeeds(layers: seq<LayerSpec>): seq<seq<string>> {
    seq(|layers|, i requires 0 <= i < |layers| => Needed(layers[i].tensors))
  }

  function LayerKinds(layers: seq<LayerSpec>): seq<SegmentKind> {
    seq(|layers|, i requires 0 <= i < |layers| => Layer(layers[i].index))
  }

  lemma OpenGroups(e: Emitted, l: LayerSpec)
    requires Sound(e.img)
    ensures var next := OpenLayer(e, l).img;
      && Sound(next) && next.aliases == e.img.aliases && Groups(next) == Groups(e.img) + [[]]
      && Kinds(next) == Kinds(e.img) + [Layer(l.index)]
  {
    hide LayerSegment, SegmentFile, NamesOf, Owns;
    var next := OpenLayer(e, l).img;
    var n := Count(e.img);
    assert Count(next) == n + 1 && next.tensors == e.img.tensors && TensorIds(next, n) == [];
    forall j | 0 <= j < n
      ensures TensorIds(next, j) == TensorIds(e.img, j) && SegmentId(next, j) == SegmentId(e.img, j)
    {
    }
    EmptyNames(next.tensors);
  }

  lemma EmptyNames(tensors: seq<TensorEntry>)
    ensures NamesOf(tensors, []) == [] && forall id :: Owns(tensors, [], id)
  {
  }

  lemma {:induction false} LayersGroups(e: Emitted, sources: Sources, layers: seq<LayerSpec>)
    requires Sound(e.img) && LayersPresent(sources, layers)
    ensures EmitLayers(e, sources, layers).Some?
    ensures var next := EmitLayers(e, sources, layers).value.img;
      && Sound(next) && next.aliases == e.img.aliases && Groups(next) == Groups(e.img) + LayerNeeds(layers)
      && Kinds(next) == Kinds(e.img) + LayerKinds(layers)
    decreases |layers|
  {
    hide EmitAll, Sound, Grown, Groups, Kinds, LayersPresent, AllPresent, OpenLayer, Needed;
    if layers == [] {
      assert Groups(e.img) + [] == Groups(e.img) && Kinds(e.img) + [] == Kinds(e.img);
    } else {
      var front, last := Front(layers), Last(layers);
      PresentStep(sources, layers);
      LayersGroups(e, sources, front);
      EmitLayersStep(e, sources, layers);
      var m := EmitLayers(e, sources, front).value;
      var begun := OpenLayer(m, last);
      OpenGroups(m, last);
      AllGrows(begun, sources, last.tensors, Some(last.index));
      var next := EmitAll(begun, sources, last.tensors, Some(last.index)).value;
      GrownSound(begun.img, next.img, Needed(last.tensors));
      AppendFrontLast(Groups(m.img), []);
      assert [] + Needed(last.tensors) == Needed(last.tensors);
      assert LayerNeeds(layers) == LayerNeeds(front) + [Needed(last.tensors)];
      assert LayerKinds(layers) == LayerKinds(front) + [Layer(last.index)];
    }
  }

  lemma StartGroups()
    ensures Sound(Start().img) && Groups(Start().img) == [[]] && Start().img.aliases == []
    ensures Kinds(Start().img) == [Persistent]
  {
  }

  lemma AliasGroups(g: Emitted, ns: NamespaceBinding)
    requires Sound(g.img) && WithAlias(g, ns).Some?
    ensures var a := WithAlias(g, ns).value;
      Sound(a.img) && Groups(a.img) == Groups(g.img) && Kinds(a.img) == Kinds(g.img)
  {
    AliasOnly(g, ns);
    hide WithAlias, NamesOf, Owns;
    var a := WithAlias(g, ns).value;
    assert forall j :: 0 <= j < Count(g.img) ==> TensorIds(a.img, j) == TensorIds(g.img, j) && SegmentId(a.img, j) == SegmentId(g.img, j);
  }

  /** The alias table of an emitted image. */
  function AliasTable(ns: NamespaceBinding, q: Option<QuantizationMeta>): seq<AliasEntry> {
    if ns.lmHeadAliased then [AliasEntry(LM_HEAD_ALIAS, EmbedId(q))] else []
  }

  function EmbedId(q: Option<QuantizationMeta>): nat {
    if q.Some? then 2 else 0
  }

  lemma AliasTableIs(g: Emitted, ns: NamespaceBinding, q: Option<QuantizationMeta>)
    requires WithAlias(g, ns).Some? && g.img.aliases == []
    requires GlobalName(ns.root, EMBED) in g.ids && g.ids[GlobalName(ns.root, EMBED)] == EmbedId(q)
    ensures WithAlias(g, ns).value.img.aliases == AliasTable(ns, q)
  {
    hide GlobalName;
  }

  /** An emitted image holds, segment by segment, the names of its bindings with their scales and
      biases; and its alias table names the embedding, if the head is aliased. */
  lemma {:induction false} EmittedGroups(arch: TextArchitecture, ns: NamespaceBinding, q: Option<QuantizationMeta>,
                                         sources: Sources, e: Emitted)
    requires Packable(Bits(q), GroupSize(q))
    requires EmitSpec(SpecOf(arch, ns.root, q), ns, sources) == Some(e)
    ensures var spec := SpecOf(arch, ns.root, q);
      && Sound(e.img) && Groups(e.img) == [Needed(spec.globalTensors)] + LayerNeeds(spec.layers)
      && e.img.aliases == AliasTable(ns, q) && Kinds(e.img) == [Persistent] + LayerKinds(spec.layers)
  {
    var spec := SpecOf(arch, ns.root, q);
    hide *;
    var whole := ImageEmitted(arch, ns, q, sources);
    var given := GlobalsEmitted(arch, ns.root, q, sources);
    SpecParts(arch, ns.root, q);
    EmitSpecSteps(spec, ns, sources);
    StartGroups();
    AllGrows(Start(), sources, spec.globalTensors, None);
    var g := EmitAll(Start(), sources, spec.globalTensors, None).value;
    var names := Needed(spec.globalTensors);
    GrownSound(Start().img, g.img, names);
    OneGroup(Groups(Start().img), Groups(g.img), names);
    AliasSucceeds(g, ns);
    AliasGroups(g, ns);
    EmbedIdIs(q);
    AliasTableIs(g, ns, q);
    LayersGroups(WithAlias(g, ns).value, sources, spec.layers);
  }

  lemma OneGroup(before: seq<seq<string>>, after: seq<seq<string>>, names: seq<string>)
    requires before == [[]] && after == Front(before) + [Last(before) + names]
    ensures after == [names]
  {
    assert Last(before) + names == names && Front(before) == [];
  }

  lemma EmbedIdIs(q: Option<QuantizationMeta>)
    ensures EmbedId(q) == if q.Some? then 2 else 0
  {
  }

  // ---------------------------------------------------------------------
  // No name twice
  // ---------------------------------------------------------------------

  predicate EndsInWeight(name: string) {
    |name| >= |WEIGHT| && name[|name| - |WEIGHT|..] == WEIGHT
  }

  /** `n` is the own tensor of the binding `name`, or its scales, or its biases. */
  predicate PartOf(n: string, name: string) {
    n == name || n == Stem(name) + ".scales" || n == Stem(name) + ".biases"
  }

  /** All three have the stem of the binding before their last seven characters. */
  lemma PartStem(n: string, name: string)
    requires EndsInWeight(name) && PartOf(n, name)
    ensures |n| == |name| && n[..|n| - 7] == name[..|name| - 7] == Stem(name) && name == Stem(name) + WEIGHT
  {
  }

  lemma PartOwner(n: string, x: string, y: string)
    requires EndsInWeight(x) && EndsInWeight(y) && PartOf(n, x) && PartOf(n, y)
    ensures x == y
  {
    PartStem(n, x);
    PartStem(n, y);
    hide *;
  }

  function OwnNames(bs: seq<TensorBinding>): seq<string> {
    seq(|bs|, i requires 0 <= i < |bs| => bs[i].name)
  }

  ghost predicate AllWeights(bs: seq<TensorBinding>) {
    forall b :: b in bs ==> EndsInWeight(b.name)
  }

  lemma PartsOfBinding(b: TensorBinding)
    requires EndsInWeight(b.name)
    ensures Distinct(NeededNames(b)) && forall n :: n in NeededNames(b) ==> PartOf(n, b.name)
  {
    var scales, biases := Stem(b.name) + ".scales", Stem(b.name) + ".biases";
    PartStem(b.name, b.name);
    var k := |Stem(b.name)| + 1;
    assert scales[k] == 's' && biases[k] == 'b' && (Stem(b.name) + WEIGHT)[k] == 'w';
    hide Stem;
    assert Distinct([scales, biases, b.name]) && Distinct([b.name]);
  }

  lemma {:induction false} NeededAreParts(bs: seq<TensorBinding>, n: string) returns (k: nat)
    requires AllWeights(bs) && n in Needed(bs)
    ensures k < |bs| && PartOf(n, bs[k].name)
  {
    hide PartOf, EndsInWeight;
    assert Last(bs) in bs;
    PartsOfBinding(Last(bs));
    if n in NeededNames(Last(bs)) {
      k := |bs| - 1;
    } else {
      k := NeededAreParts(Front(bs), n);
    }
  }

  lemma DistinctJoin<T(!new)>(a: seq<T>, b: seq<T>)
    requires Distinct(a) && Distinct(b) && forall x :: x in a ==> x !in b
    ensures Distinct(a + b)
  {
    forall i, j | 0 <= i < j < |a + b|
      ensures (a + b)[i] != (a + b)[j]
    {
      if i < |a| <= j {
        assert a[i] in a && b[j - |a|] in b;
      }
    }
  }

  lemma DistinctParts<T(!new)>(a: seq<T>, b: seq<T>)
    requires Distinct(a + b)
    ensures Distinct(a) && Distinct(b) && forall x :: x in a ==> x !in b
  {
    var c := a + b;
    forall i, j | 0 <= i < |a| && 0 <= j < |b|
      ensures a[i] != b[j]
    {
      assert c[i] != c[|a| + j];
    }
    forall i, j | 0 <= i < j < |b|
      ensures b[i] != b[j]
    {
      assert c[|a| + i] != c[|a| + j];
    }
    forall i, j | 0 <= i < j < |a|
      ensures a[i] != a[j]
    {
      assert c[i] != c[j];
    }
  }

  /** Bindings under different names need different tensors. */
  lemma {:induction false} NeededDistinct(bs: seq<TensorBinding>)
    requires AllWeights(bs) && Distinct(OwnNames(bs))
    ensures Distinct(Needed(bs))
  {
    hide EndsInWeight, PartOf, Distinct;
    if bs == [] {
      NoneDistinct<string>();
    } else {
      var last := Last(bs);
      assert last in bs;
      assert OwnNames(bs) == OwnNames(Front(bs)) + [last.name];
      DistinctParts(OwnNames(Front(bs)), [last.name]);
      assert last.name in [last.name];
      NeededDistinct(Front(bs));
      PartsOfBinding(last);
      forall n | n in Needed(Front(bs))
        ensures n !in NeededNames(last)
      {
        if n in NeededNames(last) {
          var k := NeededAreParts(Front(bs), n);
          assert OwnNames(Front(bs))[k] == bs[k].name && bs[k].name in OwnNames(Front(bs)) && bs[k] in bs;
          PartOwner(n, bs[k].name, last.name);
          assert false;
        }
      }
      DistinctJoin(Needed(Front(bs)), NeededNames(last));
    }
  }

  lemma NoneDistinct<T(!new)>()
    ensures Distinct<T>([])
  {
  }

  /** The field whose suffix this is. */
  function FieldOf(s: string): Field {
    if |s| == 22 then InputNormId
    else if |s| == 31 then PostNormId
    else if |s| == 18 then UpId
    else if |s| == 20 then (if s[4] == 'g' then GateId else DownId)
    else if |s| <= 12 then InputNormId
    else if s[12] == 'n' then (if s[10] == 'q' then QNormId else KNormId)
    else if s[10] == 'q' then QProjId
    else if s[10] == 'k' then KProjId
    else if s[10] == 'v' then VProjId
    else OProjId
  }

  lemma SuffixDecodes(f: Field)
    ensures FieldOf(Suffix(f)) == f
  {
  }

  lemma SuffixEnds(f: Field)
    ensures EndsInWeight(Suffix(f)) && |Suffix(f)| >= 18
  {
    match f {
      case QNormId => assert Suffix(f)[16..] == WEIGHT;
      case KNormId => assert Suffix(f)[16..] == WEIGHT;
      case QProjId => ProjSuffixEnds(f);
      case KProjId => ProjSuffixEnds(f);
      case VProjId => ProjSuffixEnds(f);
      case OProjId => ProjSuffixEnds(f);
      case _ => OtherSuffixEnds(f);
    }
  }

  lemma ProjSuffixEnds(f: Field)
    requires f.QProjId? || f.KProjId? || f.VProjId? || f.OProjId?
    ensures EndsInWeight(Suffix(f)) && |Suffix(f)| >= 18
  {
    assert Suffix(f)[16..] == WEIGHT;
  }

  lemma OtherSuffixEnds(f: Field)
    requires f.InputNormId? || f.PostNormId? || f.GateId? || f.UpId? || f.DownId?
    ensures EndsInWeight(Suffix(f)) && |Suffix(f)| >= 18
  {
  }

  lemma EndsAfter(prefix: string, s: string)
    requires EndsInWeight(s)
    ensures EndsInWeight(prefix + s) && |prefix + s| == |prefix| + |s|
  {
    var t := prefix + s;
    assert t[|t| - 7..] == s[|s| - 7..];
  }

  lemma LayerNameEnds(root: string, i: nat, f: Field)
    ensures EndsInWeight(LayerName(root, i, Suffix(f))) && |LayerName(root, i, Suffix(f))| > 20
  {
    hide Suffix, EndsInWeight;
    SuffixEnds(f);
    EndsAfter(root + ".layers." + Decimal(i) + ".", Suffix(f));
  }

  lemma SameField(root: string, i: nat, f: Field, g: Field)
    requires LayerName(root, i, Suffix(f)) == LayerName(root, i, Suffix(g))
    ensures f == g
  {
    hide *;
    LayerNameInjective(root, i, Suffix(f), i, Suffix(g));
    SuffixDecodes(f);
    SuffixDecodes(g);
  }

  lemma FieldsDistinct(kind: AttentionKind)
    ensures Distinct(LayerFields(kind))
  {
  }

  /** The bindings of one layer have different names, all of weights. */
  lemma LayerOwnNames(arch: TextArchitecture, root: string, i: nat, kind: AttentionKind, groupSize: nat, bits: nat)
    requires Packable(bits, groupSize)
    ensures var ts := LayerTensors(arch, root, i, kind, groupSize, bits);
      Distinct(OwnNames(ts)) && AllWeights(ts)
  {
    hide *;
    LayerTensorNames(arch, root, i, kind, groupSize, bits);
    FieldsDistinct(kind);
    FieldNames(root, i, LayerTensors(arch, root, i, kind, groupSize, bits), LayerFields(kind));
  }

  lemma FieldNames(root: string, i: nat, ts: seq<TensorBinding>, fs: seq<Field>)
    requires Distinct(fs) && |ts| == |fs| && forall k :: 0 <= k < |ts| ==> ts[k].name == LayerName(root, i, Suffix(fs[k]))
    ensures Distinct(OwnNames(ts)) && AllWeights(ts)
  {
    hide LayerName, Suffix, EndsInWeight;
    forall k, l | 0 <= k < l < |ts|
      ensures ts[k].name != ts[l].name
    {
      if ts[k].name == ts[l].name {
        SameField(root, i, fs[k], fs[l]);
        assert false;
      }
    }
    forall b | b in ts
      ensures EndsInWeight(b.name)
    {
      var k :| 0 <= k < |ts| && ts[k] == b;
      LayerNameEnds(root, i, fs[k]);
    }
  }

  lemma GlobalNameEnds(root: string, s: string)
    requires EndsInWeight(s)
    ensures EndsInWeight(GlobalName(root, s)) && |GlobalName(root, s)| == |root| + 1 + |s|
  {
    EndsAfter(root + ".", s);
  }

  lemma GlobalsEnd()
    ensures EndsInWeight(EMBED) && EndsInWeight(NORM) && EndsInWeight(LM_HEAD)
  {
    assert EMBED[12..] == WEIGHT && NORM[4..] == WEIGHT && LM_HEAD[7..] == WEIGHT;
  }

  lemma GlobalOwnNames(arch: TextArchitecture, root: string, q: Option<QuantizationMeta>)
    ensures var bs := GlobalTensors(arch, root, q);
      && Distinct(OwnNames(bs)) && AllWeights(bs)
      && forall b, i :: b in bs ==> !OfLayer(root, i, b.name)
  {
    var bs := GlobalTensors(arch, root, q);
    GlobalNames(arch, root, q);
    hide OfLayer, Packed;
    GlobalsEnd();
    GlobalNameEnds(root, EMBED);
    GlobalNameEnds(root, NORM);
    GlobalNameEnds(root, LM_HEAD);
    var embed, norm, head := GlobalName(root, EMBED), GlobalName(root, NORM), GlobalName(root, LM_HEAD);
    assert embed[|root| + 1] == 'e' && norm[|root| + 1] == 'n' && head[|root| + 1] == 'l';
    hide GlobalName, EndsInWeight;
    assert OwnNames(bs) == [embed, norm] || OwnNames(bs) == [embed, norm, head];
  }

  function LayerBindings(layers: seq<LayerSpec>): seq<TensorBinding> {
    if layers == [] then [] else LayerBindings(Front(layers)) + Last(layers).tensors
  }

  function AllBindings(spec: ExecutionSpec): seq<TensorBinding> {
    spec.globalTensors + LayerBindings(spec.layers)
  }

  /** Every layer has different names, all of weights. */
  ghost predicate LayersDistinct(layers: seq<LayerSpec>) {
    forall j :: 0 <= j < |layers| ==> Distinct(OwnNames(layers[j].tensors)) && AllWeights(layers[j].tensors)
  }

  /** Every binding is named after a layer below `n`. */
  ghost predicate NamedBelow(root: string, n: nat, bs: seq<TensorBinding>) {
    forall b :: b in bs ==> exists j: nat :: j < n && OfLayer(root, j, b.name)
  }

  lemma {:induction false} LayerBindingsDistinct(root: string, layers: seq<LayerSpec>)
    requires WellNamed(root, layers) && LayersDistinct(layers)
    ensures Distinct(OwnNames(LayerBindings(layers))) && AllWeights(LayerBindings(layers))
    ensures NamedBelow(root, |layers|, LayerBindings(layers))
    decreases |layers|
  {
    hide *;
    if layers == [] {
      NoBindings(root, layers);
    } else {
      var front, last := Front(layers), Last(layers);
      FrontWellNamed(root, layers);
      FrontDistinct(root, layers);
      LayerBindingsDistinct(root, front);
      OneMoreDistinct(root, |front|, LayerBindings(front), last.tensors);
      LayerBindingsStep(layers);
    }
  }

  lemma NoBindings(root: string, layers: seq<LayerSpec>)
    requires layers == []
    ensures var bs := LayerBindings(layers);
      Distinct(OwnNames(bs)) && AllWeights(bs) && NamedBelow(root, |layers|, bs)
  {
  }

  lemma LayerBindingsStep(layers: seq<LayerSpec>)
    requires layers != []
    ensures LayerBindings(layers) == LayerBindings(Front(layers)) + Last(layers).tensors
  {
  }

  lemma FrontDistinct(root: string, layers: seq<LayerSpec>)
    requires layers != [] && LayersDistinct(layers) && WellNamed(root, layers)
    ensures LayersDistinct(Front(layers))
    ensures Distinct(OwnNames(Last(layers).tensors)) && AllWeights(Last(layers).tensors)
    ensures forall b :: b in Last(layers).tensors ==> OfLayer(root, |Front(layers)|, b.name)
  {
    hide Distinct, AllWeights, OfLayer, OwnNames;
  }

  lemma OneMoreDistinct(root: string, n: nat, bs: seq<TensorBinding>, ts: seq<TensorBinding>)
    requires Distinct(OwnNames(bs)) && AllWeights(bs) && NamedBelow(root, n, bs)
    requires Distinct(OwnNames(ts)) && AllWeights(ts) && forall b :: b in ts ==> OfLayer(root, n, b.name)
    ensures Distinct(OwnNames(bs + ts)) && AllWeights(bs + ts) && NamedBelow(root, n + 1, bs + ts)
  {
    hide OfLayer, EndsInWeight, Distinct;
    assert OwnNames(bs + ts) == OwnNames(bs) + OwnNames(ts);
    forall x | x in OwnNames(bs)
      ensures x !in OwnNames(ts)
    {
      if x in OwnNames(ts) {
        var b := Owner(bs, x);
        var c := Owner(ts, x);
        var j: nat :| j < n && OfLayer(root, j, b.name);
        OneLayerPerName(root, j, n, x);
        assert false;
      }
    }
    DistinctJoin(OwnNames(bs), OwnNames(ts));
  }

  lemma Owner(bs: seq<TensorBinding>, x: string) returns (b: TensorBinding)
    requires x in OwnNames(bs)
    ensures b in bs && b.name == x
  {
    var k :| 0 <= k < |OwnNames(bs)| && OwnNames(bs)[k] == x;
    b := bs[k];
  }

  lemma SpecDistinct(arch: TextArchitecture, root: string, q: Option<QuantizationMeta>)
    requires Packable(Bits(q), GroupSize(q))
    ensures LayersDistinct(SpecOf(arch, root, q).layers)
  {
    hide LayerTensors, OwnNames, AllWeights, Distinct, Packable;
    forall i: nat | i < |arch.layerTypes|
      ensures var ts := LayerTensors(arch, root, i, arch.layerTypes[i], GroupSize(q), Bits(q));
        Distinct(OwnNames(ts)) && AllWeights(ts)
    {
      LayerOwnNames(arch, root, i, arch.layerTypes[i], GroupSize(q), Bits(q));
    }
  }

  lemma BindingsDistinct(arch: TextArchitecture, root: string, q: Option<QuantizationMeta>)
    requires Packable(Bits(q), GroupSize(q))
    ensures var bs := AllBindings(SpecOf(arch, root, q));
      Distinct(OwnNames(bs)) && AllWeights(bs) && Distinct(Needed(bs))
  {
    hide *;
    var spec := SpecOf(arch, root, q);
    SpecParts(arch, root, q);
    SpecLayers(arch, root, q);
    SpecDistinct(arch, root, q);
    GlobalOwnNames(arch, root, q);
    LayerBindingsDistinct(root, spec.layers);
    AllBindingsAre(spec);
    JoinOwn(root, spec.globalTensors, LayerBindings(spec.layers));
    NeededDistinct(AllBindings(spec));
  }

  lemma JoinOwn(root: string, a: seq<TensorBinding>, b: seq<TensorBinding>)
    requires Distinct(OwnNames(a)) && Distinct(OwnNames(b)) && AllWeights(a) && AllWeights(b)
    requires forall x, i :: x in a ==> !OfLayer(root, i, x.name)
    requires exists n :: NamedBelow(root, n, b)
    ensures Distinct(OwnNames(a + b)) && AllWeights(a + b)
  {
    hide OfLayer, EndsInWeight, Distinct;
    assert OwnNames(a + b) == OwnNames(a) + OwnNames(b);
    forall x | x in OwnNames(a)
      ensures x !in OwnNames(b)
    {
      if x in OwnNames(b) {
        var g := Owner(a, x);
        var l := Owner(b, x);
        assert false;
      }
    }
    DistinctJoin(OwnNames(a), OwnNames(b));
  }

  lemma AllBindingsAre(spec: ExecutionSpec)
    ensures AllBindings(spec) == spec.globalTensors + LayerBindings(spec.layers)
  {
  }

  // ---------------------------------------------------------------------
  // The tensor table
  // ---------------------------------------------------------------------

  function AllNames(img: Image): seq<string> {
    seq(|img.tensors|, k requires 0 <= k < |img.tensors| => img.tensors[k].info.name)
  }

  function Joined(groups: seq<seq<string>>): seq<string> {
    if groups == [] then [] else Joined(Front(groups)) + Last(groups)
  }

  function Lists(tensors: seq<TensorEntry>, parts: seq<seq<nat>>): seq<seq<string>> {
    seq(|parts|, j requires 0 <= j < |parts| => NamesOf(tensors, parts[j]))
  }

  lemma {:induction false} NamesOfFlat(tensors: seq<TensorEntry>, parts: seq<seq<nat>>)
    ensures NamesOf(tensors, Flatten(parts)) == Joined(Lists(tensors, parts))
  {
    if parts == [] {
      EmptyNames(tensors);
    } else {
      NamesOfFlat(tensors, Front(parts));
      ListsStep(tensors, parts);
      NamesOfJoin(tensors, Flatten(Front(parts)), Last(parts));
    }
  }

  lemma ListsStep(tensors: seq<TensorEntry>, parts: seq<seq<nat>>)
    requires parts != []
    ensures var lists := Lists(tensors, parts);
      lists != [] && Front(lists) == Lists(tensors, Front(parts)) && Last(lists) == NamesOf(tensors, Last(parts))
  {
    hide NamesOf;
  }

  lemma NamesOfJoin(tensors: seq<TensorEntry>, a: seq<nat>, b: seq<nat>)
    ensures NamesOf(tensors, a + b) == NamesOf(tensors, a) + NamesOf(tensors, b)
  {
  }

  lemma GroupLists(img: Image)
    ensures Groups(img) == Lists(img.tensors, IdLists(img))
  {
    hide NamesOf, TensorIds;
  }

  lemma CountedNames(img: Image)
    ensures AllNames(img) == NamesOf(img.tensors, Counting(|img.tensors|))
  {
  }

  /** The names in the order of the tensor table are those of the segments in order. */
  lemma TableNames(img: Image, given: seq<Bytes>)
    requires Inv(img, given)
    ensures AllNames(img) == Joined(Groups(img))
  {
    hide *;
    InvCounts(img, given);
    InvParts(img, given);
    AllIdsIs(img);
    NamesOfFlat(img.tensors, IdLists(img));
    GroupLists(img);
    CountedNames(img);
  }

  lemma {:induction false} NeededConcat(a: seq<TensorBinding>, b: seq<TensorBinding>)
    ensures Needed(a + b) == Needed(a) + Needed(b)
    decreases |b|
  {
    hide *;
    if b == [] {
      NeededNone();
      assert a + b == a && Needed(a) + [] == Needed(a);
    } else {
      ConcatFront(a, b);
      NeededConcat(a, Front(b));
      NeededStep(a + b);
      NeededStep(b);
    }
  }

  lemma NeededNone()
    ensures Needed([]) == []
  {
  }

  lemma ConcatFront<T>(a: seq<T>, b: seq<T>)
    requires b != []
    ensures a + b != [] && Front(a + b) == a + Front(b) && Last(a + b) == Last(b)
  {
  }

  lemma {:induction false} JoinedNeeds(first: seq<TensorBinding>, layers: seq<LayerSpec>)
    ensures Joined([Needed(first)] + LayerNeeds(layers)) == Needed(first + LayerBindings(layers))
    decreases |layers|
  {
    hide Needed;
    var groups := [Needed(first)] + LayerNeeds(layers);
    if layers == [] {
      assert groups == [Needed(first)] && Front(groups) == [] && first + LayerBindings(layers) == first;
      assert Joined([]) == [] && [] + Needed(first) == Needed(first);
    } else {
      var front, last := Front(layers), Last(layers);
      JoinedNeeds(first, front);
      assert Front(groups) == [Needed(first)] + LayerNeeds(front) && Last(groups) == Needed(last.tensors);
      NeededConcat(first + LayerBindings(front), last.tensors);
      assert first + LayerBindings(layers) == first + LayerBindings(front) + last.tensors;
    }
  }

  /** The tensor table of an emitted image lists the names of its bindings in order, none twice. */
  lemma {:induction false} EntryNamesUnique(arch: TextArchitecture, ns: NamespaceBinding, q: Option<QuantizationMeta>,
                                            sources: Sources, e: Emitted)
    requires Packable(Bits(q), GroupSize(q))
    requires EmitSpec(SpecOf(arch, ns.root, q), ns, sources) == Some(e)
    ensures AllNames(e.img) == Needed(AllBindings(SpecOf(arch, ns.root, q)))
    ensures Distinct(AllNames(e.img))
  {
    var spec := SpecOf(arch, ns.root, q);
    hide *;
    var given := ImageEmitted(arch, ns, q, sources);
    EmittedParts(arch, ns.root, q, sources, e, given);
    EInvOpen(e, given, sources);
    TableNames(e.img, given);
    EmittedGroups(arch, ns, q, sources, e);
    JoinedNeeds(spec.globalTensors, spec.layers);
    BindingsDistinct(arch, ns.root, q);
    AllBindingsAre(spec);
  }

  /** Ids and names of the entries of an image. */
  lemma TableFacts(img: Image, given: seq<Bytes>)
    requires Inv(img, given)
    ensures ManifestOf(img).tensors == img.tensors && ManifestOf(img).aliases == img.aliases
    ensures |AllNames(img)| == |img.tensors|
    ensures forall k :: 0 <= k < |img.tensors| ==> img.tensors[k].id == k && img.tensors[k].info.name == AllNames(img)[k]
  {
    InvParts(img, given);
    ManifestTables(img);
    hide Shape, AllTile, SumSizes;
  }

  lemma FindEntry(tensors: seq<TensorEntry>, id: nat)
    requires id < |tensors| && forall k :: 0 <= k < |tensors| ==> tensors[k].id == k
    ensures FindTensor(tensors, id) == Some(tensors[id])
  {
    assert tensors[id] in tensors;
  }
}
