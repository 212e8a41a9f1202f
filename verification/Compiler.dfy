// The whole image compiler: architecture and checkpoint to image, plan and files,
// and what the plan's ids mean when the image is read back.
module Compiler {
  import opened Common
  import opened Naming
  import opened Config
  import opened ImageBuilder
  import opened Emission

  // ---------------------------------------------------------------------
  // Invariants over the layers
  // ---------------------------------------------------------------------

  ghost predicate InLayers(layers: seq<LayerSpec>, name: string) {
    exists j :: 0 <= j < |layers| && Named(layers[j].tensors, name)
  }

  /** Layer j has index j and every binding in it is named after layer j. */
  ghost predicate WellNamed(root: string, layers: seq<LayerSpec>) {
    forall j :: 0 <= j < |layers| ==>
      layers[j].index == j && forall b :: b in layers[j].tensors ==> OfLayer(root, j, b.name)
  }

  ghost predicate OfLayer(root: string, i: nat, name: string) {
    exists f :: name == LayerName(root, i, Suffix(f))
  }

  lemma OneLayerPerName(root: string, i: nat, j: nat, name: string)
    requires OfLayer(root, i, name) && OfLayer(root, j, name)
    ensures i == j
  {
    var f :| name == LayerName(root, i, Suffix(f));
    var g :| name == LayerName(root, j, Suffix(g));
    LayerNameInjective(root, i, Suffix(f), j, Suffix(g));
  }

  ghost predicate LayersPresent(sources: Sources, layers: seq<LayerSpec>) {
    forall j :: 0 <= j < |layers| ==> AllPresent(sources, layers[j].tensors)
  }

  function LayerSegments(n: nat): seq<string> {
    seq(n, i requires 0 <= i < n => LayerSegment(i))
  }

  lemma OpenKeeps(e: Emitted, given: seq<Bytes>, sources: Sources, l: LayerSpec)
    requires EInv(e, given, sources)
    ensures EInv(OpenLayer(e, l), given, sources)
    ensures OpenLayer(e, l).img.current.Some? && OpenLayer(e, l).img.current.value.id == LayerSegment(l.index)
    ensures SegmentIds(OpenLayer(e, l).img) == SegmentIds(e.img) + [LayerSegment(l.index)]
    ensures OpenLayer(e, l).img.tensors == e.img.tensors && OpenLayer(e, l).img.nextId == e.img.nextId
    ensures OpenLayer(e, l).ids == e.ids
  {
    BeginKeeps(e.img, given, LayerSegment(l.index), Layer(l.index));
    InvCounts(OpenLayer(e, l).img, given);
    hide Inv, LayerSegment;
    forall n | n in e.ids
      ensures Recorded(OpenLayer(e, l), given, sources, n)
    {
      assert Recorded(e, given, sources, n);
    }
  }

  /** `next` extends `e` by `layers`: ids of earlier names stay, and a name of layer j
      has a fresh id in segment `layer_j`. */
  ghost predicate LayersAdded(e: Emitted, next: Emitted, layers: seq<LayerSpec>) {
    && |e.img.tensors| <= |next.img.tensors|
    && next.img.tensors[..|e.img.tensors|] == e.img.tensors
    && (forall n :: n in next.ids <==> n in e.ids || InLayers(layers, n))
    && (forall n :: n in e.ids && !InLayers(layers, n) ==> next.ids[n] == e.ids[n])
    && (forall j, n :: 0 <= j < |layers| && Named(layers[j].tensors, n) ==>
         && n in next.ids && |e.img.tensors| <= next.ids[n] < |next.img.tensors|
         && next.img.tensors[next.ids[n]].segment == LayerSegment(j))
  }

  lemma {:induction false} EmitLayersKeeps(e: Emitted, given: seq<Bytes>, sources: Sources,
                                           root: string, layers: seq<LayerSpec>)
    returns (given': seq<Bytes>)
    requires EInv(e, given, sources) && WellNamed(root, layers)
    ensures EmitLayers(e, sources, layers).Some? <==> LayersPresent(sources, layers)
    ensures LayersPresent(sources, layers) ==>
      var next := EmitLayers(e, sources, layers).value;
      && EInv(next, given', sources)
      && SegmentIds(next.img) == SegmentIds(e.img) + LayerSegments(|layers|)
      && LayersAdded(e, next, layers)
    decreases |layers|
  {
    hide *;
    given' := given;
    if layers == [] {
      NoLayers(e, given, sources, layers);
    } else {
      var front, last := Front(layers), Last(layers);
      FrontWellNamed(root, layers);
      var gm := EmitLayersKeeps(e, given, sources, root, front);
      PresentStep(sources, layers);
      EmitLayersStep(e, sources, layers);
      if LayersPresent(sources, front) {
        var m := EmitLayers(e, sources, front).value;
        var begun := OpenLayer(m, last);
        OpenKeeps(m, gm, sources, last);
        EmitAllKeeps(begun, gm, sources, last.tensors, Some(last.index));
        if AllPresent(sources, last.tensors) {
          given' := gm + GivenAll(sources, last.tensors);
          var next := EmitLayers(e, sources, layers).value;
          EInvOpen(m, gm, sources);
          EInvOpen(begun, gm, sources);
          SameSegments(begun.img, next.img);
          OneMoreLayer(e, m, begun, next, root, layers);
          LayerSegmentsStep(|front|);
          assert SegmentIds(next.img) == SegmentIds(e.img) + (LayerSegments(|front|) + [LayerSegment(last.index)]);
        }
      }
    }
  }

  lemma NoLayers(e: Emitted, given: seq<Bytes>, sources: Sources, layers: seq<LayerSpec>)
    requires EInv(e, given, sources) && layers == []
    ensures EmitLayers(e, sources, layers) == Some(e) && LayersPresent(sources, layers)
    ensures LayersAdded(e, e, layers) && SegmentIds(e.img) == SegmentIds(e.img) + LayerSegments(|layers|)
  {
    hide Inv;
  }

  lemma FrontWellNamed(root: string, layers: seq<LayerSpec>)
    requires layers != [] && WellNamed(root, layers)
    ensures WellNamed(root, Front(layers)) && Last(layers).index == |layers| - 1 == |Front(layers)|
  {
  }

  lemma EmitLayersStep(e: Emitted, sources: Sources, layers: seq<LayerSpec>)
    requires layers != []
    ensures EmitLayers(e, sources, Front(layers)).None? ==> EmitLayers(e, sources, layers).None?
    ensures var m, last := EmitLayers(e, sources, Front(layers)), Last(layers);
      m.Some? ==>
        EmitLayers(e, sources, layers) == EmitAll(OpenLayer(m.value, last), sources, last.tensors, Some(last.index))
  {
  }

  lemma LayerSegmentsStep(n: nat)
    ensures LayerSegments(n + 1) == LayerSegments(n) + [LayerSegment(n)]
  {
  }

  lemma SameSegments(img: Image, next: Image)
    requires Follows(img, next)
    ensures SegmentIds(next) == SegmentIds(img)
  {
  }

  lemma PresentStep(sources: Sources, layers: seq<LayerSpec>)
    requires layers != []
    ensures LayersPresent(sources, layers)
       <==> LayersPresent(sources, Front(layers)) && AllPresent(sources, Last(layers).tensors)
  {
    hide AllPresent;
    var n := |layers| - 1;
    assert LayersPresent(sources, Front(layers)) ==> forall j :: 0 <= j < n ==> AllPresent(sources, Front(layers)[j].tensors);
  }

  lemma OneMoreLayer(e: Emitted, m: Emitted, begun: Emitted, next: Emitted, root: string, layers: seq<LayerSpec>)
    requires layers != [] && WellNamed(root, layers)
    requires LayersAdded(e, m, Front(layers)) && |m.img.tensors| == m.img.nextId
    requires begun.ids == m.ids && begun.img.tensors == m.img.tensors && begun.img.nextId == m.img.nextId
    requires begun.img.current.Some? && begun.img.current.value.id == LayerSegment(|layers| - 1)
    requires Follows(begun.img, next.img) && IdsGrow(begun, next, Last(layers).tensors)
    ensures LayersAdded(e, next, layers)
  {
    hide LayerSegment, WellNamed, InLayers, Named;
    assert next.img.tensors[..|e.img.tensors|] == next.img.tensors[..|m.img.tensors|][..|e.img.tensors|];
    forall n
      ensures InLayers(layers, n) <==> InLayers(Front(layers), n) || Named(Last(layers).tensors, n)
    {
      InLayersStep(layers, n);
    }
    forall j, n | 0 <= j < |layers| && Named(layers[j].tensors, n)
      ensures n in next.ids && |e.img.tensors| <= next.ids[n] < |next.img.tensors|
      ensures next.img.tensors[next.ids[n]].segment == LayerSegment(j)
    {
      OneMoreName(e, m, begun, next, root, layers, j, n);
    }
  }

  lemma OneMoreName(e: Emitted, m: Emitted, begun: Emitted, next: Emitted, root: string, layers: seq<LayerSpec>,
                    j: nat, n: string)
    requires layers != [] && WellNamed(root, layers)
    requires LayersAdded(e, m, Front(layers)) && |m.img.tensors| == m.img.nextId
    requires begun.ids == m.ids && begun.img.tensors == m.img.tensors && begun.img.nextId == m.img.nextId
    requires begun.img.current.Some? && begun.img.current.value.id == LayerSegment(|layers| - 1)
    requires Follows(begun.img, next.img) && IdsGrow(begun, next, Last(layers).tensors)
    requires j < |layers| && Named(layers[j].tensors, n)
    ensures n in next.ids && |e.img.tensors| <= next.ids[n] < |next.img.tensors|
    ensures next.img.tensors[next.ids[n]].segment == LayerSegment(j)
  {
    assert layers[|layers| - 1] == Last(layers);
    hide *;
    if Named(Last(layers).tensors, n) {
      NameOfLayer(root, layers, j, n);
      NameOfLayer(root, layers, |layers| - 1, n);
      OneLayerPerName(root, j, |layers| - 1, n);
      NewName(begun, next, Last(layers).tensors, n);
      LayersAddedSays(e, m, Front(layers));
    } else {
      FrontAt(layers, j, n);
      OldName(e, m, begun, next, layers, j, n);
    }
  }

  lemma FrontAt(layers: seq<LayerSpec>, j: nat, n: string)
    requires j < |layers| && Named(layers[j].tensors, n) && !Named(Last(layers).tensors, n)
    ensures j < |Front(layers)| && Front(layers)[j] == layers[j]
  {
  }

  lemma LayersAddedSays(e: Emitted, m: Emitted, layers: seq<LayerSpec>)
    requires LayersAdded(e, m, layers)
    ensures |e.img.tensors| <= |m.img.tensors|
  {
  }

  /** A name that the last layer emits gets an id in the segment that is open. */
  lemma NewName(begun: Emitted, next: Emitted, bs: seq<TensorBinding>, n: string)
    requires begun.img.current.Some? && begun.img.nextId == |begun.img.tensors|
    requires Follows(begun.img, next.img) && IdsGrow(begun, next, bs) && Named(bs, n)
    ensures n in next.ids && |begun.img.tensors| <= next.ids[n] < |next.img.tensors|
    ensures next.img.tensors[next.ids[n]].segment == begun.img.current.value.id
  {
    hide Named;
  }

  /** A name of an earlier layer keeps its id. */
  lemma OldName(e: Emitted, m: Emitted, begun: Emitted, next: Emitted, layers: seq<LayerSpec>, j: nat, n: string)
    requires layers != [] && j < |Front(layers)| && Named(Front(layers)[j].tensors, n) && !Named(Last(layers).tensors, n)
    requires LayersAdded(e, m, Front(layers))
    requires begun.ids == m.ids && begun.img.tensors == m.img.tensors
    requires Follows(begun.img, next.img) && IdsGrow(begun, next, Last(layers).tensors)
    ensures n in next.ids && |e.img.tensors| <= next.ids[n] < |next.img.tensors|
    ensures next.img.tensors[next.ids[n]].segment == LayerSegment(j)
  {
    hide LayerSegment, InLayers, Named;
    assert next.img.tensors[m.ids[n]] == next.img.tensors[..|m.img.tensors|][m.ids[n]];
  }

  lemma InLayersStep(layers: seq<LayerSpec>, n: string)
    requires layers != []
    ensures InLayers(layers, n) <==> InLayers(Front(layers), n) || Named(Last(layers).tensors, n)
  {
    hide Named;
    var front := Front(layers);
    if InLayers(front, n) {
      var j :| 0 <= j < |front| && Named(front[j].tensors, n);
      assert layers[j] == front[j];
    }
    assert layers[|front|] == Last(layers);
    if InLayers(layers, n) && !Named(Last(layers).tensors, n) {
      var j :| 0 <= j < |layers| && Named(layers[j].tensors, n);
      assert front[j] == layers[j];
    }
  }

  lemma NameOfLayer(root: string, layers: seq<LayerSpec>, j: nat, n: string)
    requires WellNamed(root, layers) && j < |layers| && Named(layers[j].tensors, n)
    ensures OfLayer(root, j, n)
  {
    var b :| b in layers[j].tensors && b.name == n;
  }

  // ---------------------------------------------------------------------
  // The tensors outside the layers
  // ---------------------------------------------------------------------

  /** The first binding's own tensor comes after its scales and biases. */
  lemma {:induction false} FirstBindingId(e: Emitted, given: seq<Bytes>, sources: Sources,
                                          bs: seq<TensorBinding>, layer: Option<nat>)
    requires EInv(e, given, sources) && bs != [] && AllPresent(sources, bs)
    requires !Named(bs[1..], bs[0].name)
    ensures EmitAll(e, sources, bs, layer).Some?
    ensures var next, second := EmitAll(e, sources, bs, layer).value, e.img.nextId + |NeededNames(bs[0])|;
      && second <= next.img.nextId
      && bs[0].name in next.ids && next.ids[bs[0].name] == second - 1
      && (forall n :: Named(bs[1..], n) ==> n in next.ids && second <= next.ids[n])
    decreases |bs|
  {
    hide *;
    var front, last := Front(bs), Last(bs);
    assert bs == front + [last] by { FrontLast(bs); }
    PresentParts(sources, bs);
    EmitAllKeeps(e, given, sources, front, layer);
    var m, gm := EmitAll(e, sources, front, layer).value, given + GivenAll(sources, front);
    EInvOpen(m, gm, sources);
    EmitBindingKeeps(m.img, gm, sources, last, layer);
    EmitAllStep(e, m, sources, bs, layer);
    PresentName(sources, last);
    if |bs| == 1 {
      assert front == [] && bs[1..] == [];
      NothingEmitted(e, sources, front, layer);
      NobodyNamed(bs[1..]);
    } else {
      assert front[0] == bs[0] && bs[1..] == front[1..] + [last];
      NamedStep(bs[1..]);
      assert Front(bs[1..]) == front[1..] && Last(bs[1..]) == last by { AppendFrontLast(front[1..], last); }
      FirstBindingId(e, given, sources, front, layer);
    }
  }

  lemma PresentParts(sources: Sources, bs: seq<TensorBinding>)
    requires bs != [] && AllPresent(sources, bs)
    ensures AllPresent(sources, Front(bs)) && Present(sources, Last(bs))
  {
    hide Present;
    assert Last(bs) in bs;
  }

  lemma NothingEmitted(e: Emitted, sources: Sources, bs: seq<TensorBinding>, layer: Option<nat>)
    requires bs == []
    ensures EmitAll(e, sources, bs, layer) == Some(e)
  {
  }

  lemma NobodyNamed(bs: seq<TensorBinding>)
    requires bs == []
    ensures forall n :: !Named(bs, n)
  {
  }

  lemma EInvOpen(e: Emitted, given: seq<Bytes>, sources: Sources)
    requires EInv(e, given, sources)
    ensures Inv(e.img, given) && e.img.current.Some? && e.img.nextId == |e.img.tensors| == |given|
  {
  }

  lemma StartKeeps(sources: Sources)
    ensures EInv(Start(), [], sources) && Start().img.nextId == 0
    ensures SegmentIds(Start().img) == [PERSISTENT] && Start().img.current.value.id == PERSISTENT
  {
    hide *;
    InvEmpty();
    NoSegments();
    BeginKeeps(EMPTY, [], PERSISTENT, Persistent);
    StartShape();
    EInvFresh(Start(), sources);
    assert [] + [PERSISTENT] == [PERSISTENT];
  }

  lemma EInvFresh(e: Emitted, sources: Sources)
    requires Inv(e.img, []) && e.img.current.Some? && e.ids == map[]
    ensures EInv(e, [], sources)
  {
    InvCounts(e.img, []);
  }

  lemma NoSegments()
    ensures SegmentIds(EMPTY) == []
  {
  }

  lemma StartShape()
    ensures Start().img.current.Some? && Start().img.current.value.id == PERSISTENT
    ensures Start().ids == map[] && Start().img == Begin(EMPTY, PERSISTENT, Persistent) && Start().img.nextId == 0
  {
  }

  lemma AliasKeeps(e: Emitted, given: seq<Bytes>, sources: Sources, ns: NamespaceBinding)
    requires EInv(e, given, sources) && WithAlias(e, ns).Some?
    ensures var a := WithAlias(e, ns).value;
      && EInv(a, given, sources) && a.ids == e.ids
      && a.img.tensors == e.img.tensors && SegmentIds(a.img) == SegmentIds(e.img)
  {
    var a := WithAlias(e, ns).value;
    InvIgnoresAliases(e.img, a.img.aliases, given);
    hide Inv, WithAlias, SegmentIds;
    assert a.img == e.img.(aliases := a.img.aliases) by { AliasOnly(e, ns); }
    forall n | n in a.ids
      ensures Recorded(a, given, sources, n)
    {
      AliasOnly(e, ns);
      assert Recorded(e, given, sources, n);
    }
    AliasOnly(e, ns);
  }

  lemma AliasOnly(e: Emitted, ns: NamespaceBinding)
    requires WithAlias(e, ns).Some?
    ensures WithAlias(e, ns).value == e.(img := e.img.(aliases := WithAlias(e, ns).value.img.aliases))
  {
  }

  lemma InvIgnoresAliases(img: Image, aliases: seq<AliasEntry>, given: seq<Bytes>)
    requires Inv(img, given)
    ensures Inv(img.(aliases := aliases), given)
    ensures SegmentIds(img.(aliases := aliases)) == SegmentIds(img)
  {
    hide *;
    var a := img.(aliases := aliases);
    InvParts(img, given);
    SameViews(img, a);
    StoredKeeps(img, a, given);
    TilesKeep(img, a);
    AliasIds(img, a);
    InvFromParts(a, given);
  }

  lemma SameViews(img: Image, a: Image)
    requires Shape(img) && a == img.(aliases := a.aliases)
    ensures Shape(a) && Count(a) == Count(img) && SegmentIds(a) == SegmentIds(img) && IdLists(a) == IdLists(img)
    ensures OpenBytes(a) == OpenBytes(img)
    ensures forall j :: 0 <= j < Count(img) ==>
      SegmentId(a, j) == SegmentId(img, j) && Data(a, j) == Data(img, j) && TensorIds(a, j) == TensorIds(img, j)
  {
  }

  lemma AliasIds(img: Image, next: Image)
    requires IdLists(next) == IdLists(img)
    ensures AllIds(next) == AllIds(img)
  {
  }

  lemma GlobalNames(arch: TextArchitecture, root: string, q: Option<QuantizationMeta>)
    ensures var bs := GlobalTensors(arch, root, q);
      && bs[0].name == GlobalName(root, EMBED) && bs[1].name == GlobalName(root, NORM)
      && !Named(bs[1..], bs[0].name) && Named(bs[1..], GlobalName(root, NORM))
      && (forall b, i :: b in bs ==> !OfLayer(root, i, b.name))
  {
    var bs := GlobalTensors(arch, root, q);
    var embed, norm, head := GlobalName(root, EMBED), GlobalName(root, NORM), GlobalName(root, LM_HEAD);
    assert EMBED[..2] == "em" && NORM[..2] == "no" && LM_HEAD[..2] == "lm";
    assert embed[|root| + 1] == 'e' && norm[|root| + 1] == 'n' && head[|root| + 1] == 'l';
    assert bs[1] in bs[1..];
    forall b, i | b in bs
      ensures !OfLayer(root, i, b.name)
    {
      if OfLayer(root, i, b.name) {
        var f :| b.name == LayerName(root, i, Suffix(f));
        LayerNameNotGlobal(root, i, Suffix(f), EMBED);
        LayerNameNotGlobal(root, i, Suffix(f), NORM);
        LayerNameNotGlobal(root, i, Suffix(f), LM_HEAD);
      }
    }
  }

  // ---------------------------------------------------------------------
  // The emitted image
  // ---------------------------------------------------------------------

  /** A tensor of layer i exists for field f: full attention has no v_proj of its own. */
  predicate HasTensor(arch: TextArchitecture, i: nat, f: Field) {
    i < |arch.layerTypes| && (f != VProjId || arch.layerTypes[i].SlidingAttention?)
  }

  lemma SpecLayers(arch: TextArchitecture, root: string, q: Option<QuantizationMeta>)
    requires Packable(Bits(q), GroupSize(q))
    ensures var layers := SpecOf(arch, root, q).layers;
      && |layers| == |arch.layerTypes|
      && WellNamed(root, layers)
      && forall i: nat, f :: HasTensor(arch, i, f) ==> Named(layers[i].tensors, LayerName(root, i, Suffix(f)))
  {
    var layers := SpecOf(arch, root, q).layers;
    hide LayerName, Suffix, Packable, LayerTensors, LayerFields, OfLayer, Named;
    forall i: nat | i < |layers|
      ensures layers[i].index == i
      ensures forall b :: b in layers[i].tensors ==> OfLayer(root, i, b.name)
      ensures forall f :: HasTensor(arch, i, f) ==> Named(layers[i].tensors, LayerName(root, i, Suffix(f)))
    {
      LayerNames(arch, root, i, GroupSize(q), Bits(q));
    }
  }

  lemma LayerNames(arch: TextArchitecture, root: string, i: nat, groupSize: nat, bits: nat)
    requires i < |arch.layerTypes| && Packable(bits, groupSize)
    ensures var ts := LayerTensors(arch, root, i, arch.layerTypes[i], groupSize, bits);
      && (forall b :: b in ts ==> OfLayer(root, i, b.name))
      && (forall f :: HasTensor(arch, i, f) ==> Named(ts, LayerName(root, i, Suffix(f))))
  {
    var kind := arch.layerTypes[i];
    var ts, fs := LayerTensors(arch, root, i, kind, groupSize, bits), LayerFields(kind);
    hide *;
    LayerTensorNames(arch, root, i, kind, groupSize, bits);
    LayerFieldsComplete(kind);
    assert forall f :: HasTensor(arch, i, f) ==> f in fs by { HasTensorIn(arch, i); }
    NamesInOrder(root, i, ts, fs);
    forall f | HasTensor(arch, i, f)
      ensures Named(ts, LayerName(root, i, Suffix(f)))
    {
    }
  }

  lemma NamesInOrder(root: string, i: nat, ts: seq<TensorBinding>, fs: seq<Field>)
    requires |ts| == |fs| && forall k :: 0 <= k < |ts| ==> ts[k].name == LayerName(root, i, Suffix(fs[k]))
    ensures forall b :: b in ts ==> OfLayer(root, i, b.name)
    ensures forall f :: f in fs ==> Named(ts, LayerName(root, i, Suffix(f)))
  {
    hide *;
    forall b | b in ts
      ensures OfLayer(root, i, b.name)
    {
      var k :| 0 <= k < |ts| && ts[k] == b;
      NameIsOfLayer(root, i, fs[k]);
    }
    forall f | f in fs
      ensures Named(ts, LayerName(root, i, Suffix(f)))
    {
      var k :| 0 <= k < |fs| && fs[k] == f;
      NamedBy(ts, ts[k]);
    }
  }

  lemma HasTensorIn(arch: TextArchitecture, i: nat)
    requires i < |arch.layerTypes|
    ensures forall f :: HasTensor(arch, i, f) <==> f != VProjId || arch.layerTypes[i].SlidingAttention?
  {
  }

  lemma NameIsOfLayer(root: string, i: nat, f: Field)
    ensures OfLayer(root, i, LayerName(root, i, Suffix(f)))
  {
    hide LayerName, Suffix;
  }

  lemma NamedBy(bs: seq<TensorBinding>, b: TensorBinding)
    requires b in bs
    ensures Named(bs, b.name)
  {
  }

  /** What a successful emission leaves in the builder. */
  ghost predicate EmittedImage(arch: TextArchitecture, root: string, q: Option<QuantizationMeta>, sources: Sources,
                               e: Emitted, given: seq<Bytes>)
  {
    var embed, norm := GlobalName(root, EMBED), GlobalName(root, NORM);
    && EInv(e, given, sources)
    && SegmentIds(e.img) == [PERSISTENT] + LayerSegments(|arch.layerTypes|)
    && embed in e.ids && e.ids[embed] == (if q.Some? then 2 else 0) && SegmentOf(e, embed) == Some(PERSISTENT)
    && norm in e.ids && e.ids[norm] > 0 && SegmentOf(e, norm) == Some(PERSISTENT)
    && forall i: nat, f :: HasTensor(arch, i, f) ==> LayerIdOk(e, root, i, f)
  }

  ghost predicate LayerIdOk(e: Emitted, root: string, i: nat, f: Field) {
    var name := LayerName(root, i, Suffix(f));
    name in e.ids && e.ids[name] > 0 && SegmentOf(e, name) == Some(LayerSegment(i))
  }

  ghost function SegmentOf(e: Emitted, name: string): Option<string> {
    if name in e.ids && e.ids[name] < |e.img.tensors| then Some(e.img.tensors[e.ids[name]].segment) else None
  }

  lemma GlobalsEmitted(arch: TextArchitecture, root: string, q: Option<QuantizationMeta>, sources: Sources)
    returns (given: seq<Bytes>)
    requires Packable(Bits(q), GroupSize(q))
    ensures var bs := GlobalTensors(arch, root, q);
      EmitAll(Start(), sources, bs, None).Some? <==> AllPresent(sources, bs)
    ensures AllPresent(sources, GlobalTensors(arch, root, q)) ==>
      var g := EmitAll(Start(), sources, GlobalTensors(arch, root, q), None).value;
      && EInv(g, given, sources) && SegmentIds(g.img) == [PERSISTENT] && g.img.nextId > 1
      && (forall n :: n in g.ids ==> SegmentOf(g, n) == Some(PERSISTENT) && forall i :: !OfLayer(root, i, n))
      && GlobalName(root, EMBED) in g.ids && g.ids[GlobalName(root, EMBED)] == (if q.Some? then 2 else 0)
      && GlobalName(root, NORM) in g.ids && g.ids[GlobalName(root, NORM)] > 0
  {
    var bs := GlobalTensors(arch, root, q);
    assert |bs| >= 2 && |NeededNames(bs[0])| == if q.Some? then 3 else 1;
    hide *;
    GlobalNames(arch, root, q);
    StartKeeps(sources);
    EmitAllKeeps(Start(), [], sources, bs, None);
    given := [];
    if AllPresent(sources, bs) {
      FirstBindingId(Start(), [], sources, bs, None);
      given := [] + GivenAll(sources, bs);
      var g := EmitAll(Start(), sources, bs, None).value;
      EInvOpen(g, given, sources);
      StartShape();
      assert IdsGrow(Start(), g, bs) && Follows(Start().img, g.img);
      forall n | n in g.ids
        ensures SegmentOf(g, n) == Some(PERSISTENT) && forall i :: !OfLayer(root, i, n)
      {
        GlobalSegment(g, bs, n);
        NamedIn(bs, n);
      }
      assert bs[1].name == GlobalName(root, NORM);
      SameSegments(Start().img, g.img);
    }
  }

  lemma NamedIn(bs: seq<TensorBinding>, n: string)
    ensures Named(bs, n) ==> exists b :: b in bs && b.name == n
  {
  }

  lemma GlobalSegment(g: Emitted, bs: seq<TensorBinding>, n: string)
    requires IdsGrow(Start(), g, bs) && Follows(Start().img, g.img) && n in g.ids && Start().ids == map[]
    requires Start().img.nextId == 0 && Start().img.current.Some? && Start().img.current.value.id == PERSISTENT
    ensures SegmentOf(g, n) == Some(PERSISTENT) && Named(bs, n)
  {
    hide Named, Start, PERSISTENT;
  }

  /** The compiler succeeds exactly when the checkpoint has every needed tensor,
      and a success leaves the ids and segments that the plan needs. */
  lemma ImageEmitted(arch: TextArchitecture, ns: NamespaceBinding, q: Option<QuantizationMeta>, sources: Sources)
    returns (given: seq<Bytes>)
    requires Packable(Bits(q), GroupSize(q))
    ensures var spec := SpecOf(arch, ns.root, q);
      EmitSpec(spec, ns, sources).Some? <==>
      AllPresent(sources, spec.globalTensors) && LayersPresent(sources, spec.layers)
    ensures var r := EmitSpec(SpecOf(arch, ns.root, q), ns, sources);
      r.Some? ==> EmittedImage(arch, ns.root, q, sources, r.value, given)
  {
    var root, spec := ns.root, SpecOf(arch, ns.root, q);
    hide *;
    given := GlobalsEmitted(arch, root, q, sources);
    SpecParts(arch, root, q);
    EmitSpecSteps(spec, ns, sources);
    if AllPresent(sources, spec.globalTensors) {
      var g := EmitAll(Start(), sources, spec.globalTensors, None).value;
      AliasSucceeds(g, ns);
      given := LayersOnGlobals(arch, ns, q, sources, g, given);
    }
  }

  /** The globals are emitted and correct; now the alias and the layers follow. */
  lemma LayersOnGlobals(arch: TextArchitecture, ns: NamespaceBinding, q: Option<QuantizationMeta>, sources: Sources,
                        g: Emitted, given: seq<Bytes>)
    returns (given': seq<Bytes>)
    requires Packable(Bits(q), GroupSize(q)) && WithAlias(g, ns).Some?
    requires EInv(g, given, sources) && SegmentIds(g.img) == [PERSISTENT] && g.img.nextId > 1
    requires forall n :: n in g.ids ==> SegmentOf(g, n) == Some(PERSISTENT) && forall i :: !OfLayer(ns.root, i, n)
    requires GlobalName(ns.root, EMBED) in g.ids && g.ids[GlobalName(ns.root, EMBED)] == (if q.Some? then 2 else 0)
    requires GlobalName(ns.root, NORM) in g.ids && g.ids[GlobalName(ns.root, NORM)] > 0
    ensures var layers, a := SpecOf(arch, ns.root, q).layers, WithAlias(g, ns).value;
      && (EmitLayers(a, sources, layers).Some? <==> LayersPresent(sources, layers))
      && (LayersPresent(sources, layers) ==>
           EmittedImage(arch, ns.root, q, sources, EmitLayers(a, sources, layers).value, given'))
  {
    hide *;
    var root, layers := ns.root, SpecOf(arch, ns.root, q).layers;
    var embed, norm := GlobalName(root, EMBED), GlobalName(root, NORM);
    SpecLayers(arch, root, q);
    AliasKeeps(g, given, sources, ns);
    var a := WithAlias(g, ns).value;
    given' := EmitLayersKeeps(a, given, sources, root, layers);
    if LayersPresent(sources, layers) {
      var e := EmitLayers(a, sources, layers).value;
      SegmentUnaffected(g, a, embed);
      SegmentUnaffected(g, a, norm);
      GlobalStays(root, a, e, layers, embed);
      GlobalStays(root, a, e, layers, norm);
      EInvOpen(a, given, sources);
      EInvOpen(g, given, sources);
      LayersPlaced(arch, a, e, root, layers);
      EmittedIntro(arch, root, q, sources, e, given');
    }
  }

  lemma LayersPlaced(arch: TextArchitecture, a: Emitted, e: Emitted, root: string, layers: seq<LayerSpec>)
    requires LayersAdded(a, e, layers) && |layers| == |arch.layerTypes| && |a.img.tensors| > 1
    requires forall i: nat, f :: HasTensor(arch, i, f) ==> Named(layers[i].tensors, LayerName(root, i, Suffix(f)))
    ensures forall i: nat, f :: HasTensor(arch, i, f) ==> LayerIdOk(e, root, i, f)
  {
    hide Named, LayerName, Suffix, LayersAdded, LayerIdOk;
    forall i: nat, f | HasTensor(arch, i, f)
      ensures LayerIdOk(e, root, i, f)
    {
      LayerPlaced(a, e, root, layers, i, f);
    }
  }

  lemma EmittedIntro(arch: TextArchitecture, root: string, q: Option<QuantizationMeta>, sources: Sources,
                     e: Emitted, given: seq<Bytes>)
    requires EInv(e, given, sources)
    requires SegmentIds(e.img) == [PERSISTENT] + LayerSegments(|arch.layerTypes|)
    requires GlobalName(root, EMBED) in e.ids && e.ids[GlobalName(root, EMBED)] == (if q.Some? then 2 else 0)
    requires SegmentOf(e, GlobalName(root, EMBED)) == Some(PERSISTENT)
    requires GlobalName(root, NORM) in e.ids && e.ids[GlobalName(root, NORM)] > 0
    requires SegmentOf(e, GlobalName(root, NORM)) == Some(PERSISTENT)
    requires forall i: nat, f :: HasTensor(arch, i, f) ==> LayerIdOk(e, root, i, f)
    ensures EmittedImage(arch, root, q, sources, e, given)
  {
    hide EInv, LayerIdOk, SegmentOf, GlobalName, SegmentIds, LayerSegments, PERSISTENT, EMBED, NORM, HasTensor;
  }

  lemma SpecParts(arch: TextArchitecture, root: string, q: Option<QuantizationMeta>)
    requires Packable(Bits(q), GroupSize(q))
    ensures SpecOf(arch, root, q).globalTensors == GlobalTensors(arch, root, q)
  {
  }

  lemma AliasSucceeds(g: Emitted, ns: NamespaceBinding)
    requires GlobalName(ns.root, EMBED) in g.ids
    ensures WithAlias(g, ns).Some?
  {
    hide GlobalName;
  }

  lemma EmitSpecSteps(spec: ExecutionSpec, ns: NamespaceBinding, sources: Sources)
    ensures var g := EmitAll(Start(), sources, spec.globalTensors, None);
      && (g.None? ==> EmitSpec(spec, ns, sources).None?)
      && (g.Some? && WithAlias(g.value, ns).Some? ==>
           EmitSpec(spec, ns, sources) == EmitLayers(WithAlias(g.value, ns).value, sources, spec.layers))
  {
    hide EmitAll, EmitLayers, WithAlias, Start;
  }

  lemma GlobalStays(root: string, a: Emitted, e: Emitted, layers: seq<LayerSpec>, n: string)
    requires LayersAdded(a, e, layers) && WellNamed(root, layers) && n in a.ids
    requires forall i :: !OfLayer(root, i, n)
    requires SegmentOf(a, n).Some?
    ensures n in e.ids && e.ids[n] == a.ids[n] && SegmentOf(e, n) == SegmentOf(a, n)
  {
    hide OfLayer, WellNamed, Named;
    if InLayers(layers, n) {
      var j :| 0 <= j < |layers| && Named(layers[j].tensors, n);
      NameOfLayer(root, layers, j, n);
      assert false;
    }
    assert e.img.tensors[a.ids[n]] == e.img.tensors[..|a.img.tensors|][a.ids[n]];
  }

  lemma SegmentUnaffected(g: Emitted, a: Emitted, n: string)
    requires a.ids == g.ids && a.img.tensors == g.img.tensors
    ensures SegmentOf(a, n) == SegmentOf(g, n)
  {
  }

  lemma LayerPlaced(a: Emitted, e: Emitted, root: string, layers: seq<LayerSpec>, i: nat, f: Field)
    requires LayersAdded(a, e, layers) && i < |layers| && |a.img.tensors| > 1
    requires Named(layers[i].tensors, LayerName(root, i, Suffix(f)))
    ensures LayerIdOk(e, root, i, f)
  {
    hide Named, LayerName, Suffix, LayerSegment;
  }

  // ---------------------------------------------------------------------
  // What the plan says about the image
  // ---------------------------------------------------------------------

  /** When the plan of an emitted image passes the repository's own validator. */
  predicate PlanConditions(arch: TextArchitecture, q: Option<QuantizationMeta>) {
    && q.Some?
    && arch.layerTypes != []
    && arch.vocabSize != 0
    && forall i :: 0 <= i < |arch.layerTypes| && arch.layerTypes[i].FullAttention? ==> arch.globalHeadDim.Some?
  }

  /** The field that provides the tensor for `f`: full attention uses K as V. */
  function Provider(arch: TextArchitecture, i: nat, f: Field): Field
    requires i < |arch.layerTypes|
  {
    if f == VProjId && arch.layerTypes[i].FullAttention? then KProjId else f
  }

  lemma LayerPlanFields(arch: TextArchitecture, root: string, ids: map<string, nat>, i: nat, f: Field)
    requires i < |arch.layerTypes|
    ensures var p := LayerPlanOf(arch, root, ids, i);
      && FieldId(p, f) == GetId(ids, root, i, Provider(arch, i, f))
      && p.index == i && p.hiddenSize == arch.hiddenSize && p.segmentId == LayerSegment(i)
      && (p.kind == FULL <==> arch.layerTypes[i].FullAttention?)
      && (p.kind == SLIDING <==> arch.layerTypes[i].SlidingAttention?)
      && (arch.layerTypes[i].FullAttention? ==> p.globalHeadDim == arch.globalHeadDim)
  {
    hide LayerSegment, FindId;
    KindsDiffer();
  }

  lemma PlanIdPositive(arch: TextArchitecture, root: string, q: Option<QuantizationMeta>, sources: Sources,
                       e: Emitted, given: seq<Bytes>, i: nat, f: Field)
    requires EmittedImage(arch, root, q, sources, e, given) && i < |arch.layerTypes|
    ensures var name := LayerName(root, i, Suffix(Provider(arch, i, f)));
      && name in e.ids && FieldId(LayerPlanOf(arch, root, e.ids, i), f) == e.ids[name] > 0
      && SegmentOf(e, name) == Some(LayerSegment(i))
  {
    LayerPlanFields(arch, root, e.ids, i, f);
    hide EInv, LayerName, Suffix, LayerSegment, LayerPlanOf, SegmentOf, GlobalName;
    assert HasTensor(arch, i, Provider(arch, i, f));
    assert LayerIdOk(e, root, i, Provider(arch, i, f));
  }

  /** Compiler meets validator: the plan of an emitted image is accepted exactly under
      `PlanConditions`. Without quantization metadata the embedding gets id 0. */
  lemma {:induction false} PlanAccepted(arch: TextArchitecture, ns: NamespaceBinding, q: Option<QuantizationMeta>,
                                        sources: Sources, e: Emitted)
    requires Packable(Bits(q), GroupSize(q))
    requires EmitSpec(SpecOf(arch, ns.root, q), ns, sources) == Some(e)
    ensures Accepted(ExecutionPlanOf(arch, ns, e.ids)) <==> PlanConditions(arch, q)
  {
    hide *;
    var plan := ExecutionPlanOf(arch, ns, e.ids);
    var given := ImageEmitted(arch, ns, q, sources);
    if PlanConditions(arch, q) {
      forall err
        ensures !Violates(plan, err)
      {
        NoViolation(arch, ns, q, sources, e, given, err);
      }
      AcceptedWhen(plan);
    } else {
      var err := SomeViolation(arch, ns, q, sources, e, given);
      RejectedWhen(plan, err);
    }
  }

  lemma AcceptedWhen(plan: ModelExecutionPlan)
    requires forall err :: !Violates(plan, err)
    ensures Accepted(plan)
  {
    hide Violates;
  }

  lemma RejectedWhen(plan: ModelExecutionPlan, err: PlanError)
    requires Violates(plan, err)
    ensures !Accepted(plan)
  {
    hide Violates;
  }

  lemma SomeViolation(arch: TextArchitecture, ns: NamespaceBinding, q: Option<QuantizationMeta>, sources: Sources,
                      e: Emitted, given: seq<Bytes>)
    returns (err: PlanError)
    requires EmittedImage(arch, ns.root, q, sources, e, given) && !PlanConditions(arch, q)
    ensures Violates(ExecutionPlanOf(arch, ns, e.ids), err)
  {
    hide EInv, LayerPlanOf, PrologueOf, EpilogueOf, LayerSegment, EmittedImage, ExecutionPlanOf, LayerIdOk, SegmentOf;
    PlanEnds(arch, ns, q, sources, e, given);
    if q.None? {
      return ZeroEmbedding;
    } else if arch.layerTypes == [] {
      return ZeroLayers;
    } else if arch.vocabSize == 0 {
      return ZeroVocab;
    }
    var i :| 0 <= i < |arch.layerTypes| && arch.layerTypes[i].FullAttention? && arch.globalHeadDim.None?;
    LayerPlanFields(arch, ns.root, e.ids, i, QProjId);
    err := MissingGlobalHeadDim(i);
  }

  lemma PlanEnds(arch: TextArchitecture, ns: NamespaceBinding, q: Option<QuantizationMeta>, sources: Sources,
                 e: Emitted, given: seq<Bytes>)
    requires EmittedImage(arch, ns.root, q, sources, e, given)
    ensures var plan := ExecutionPlanOf(arch, ns, e.ids);
      && plan.prologue.embeddingId == (if q.Some? then 2 else 0)
      && plan.epilogue.finalNormId > 0 && plan.epilogue.vocabSize == arch.vocabSize
      && |plan.layers| == |arch.layerTypes| && plan.hiddenSize == arch.hiddenSize
      && forall i :: 0 <= i < |plan.layers| ==> plan.layers[i] == LayerPlanOf(arch, ns.root, e.ids, i)
  {
    hide EInv, LayerPlanOf, LayerIdOk, SegmentOf, GlobalName;
  }

  lemma NoViolation(arch: TextArchitecture, ns: NamespaceBinding, q: Option<QuantizationMeta>, sources: Sources,
                    e: Emitted, given: seq<Bytes>, err: PlanError)
    requires EmittedImage(arch, ns.root, q, sources, e, given) && PlanConditions(arch, q)
    ensures !Violates(ExecutionPlanOf(arch, ns, e.ids), err)
  {
    hide *;
    PlanEnds(arch, ns, q, sources, e, given);
    var plan := ExecutionPlanOf(arch, ns, e.ids);
    ConditionsMean(arch, q);
    var f := if err.ZeroId? then err.field else QProjId;
    if !(err.ZeroLayers? || err.ZeroEmbedding? || err.ZeroFinalNorm? || err.ZeroVocab?) && err.layer < |plan.layers| {
      PlanIdPositive(arch, ns.root, q, sources, e, given, err.layer, f);
      LayerViolation(arch, plan, ns.root, e.ids, err, f);
    } else {
      OtherViolation(plan, err);
    }
  }

  lemma ConditionsMean(arch: TextArchitecture, q: Option<QuantizationMeta>)
    requires PlanConditions(arch, q)
    ensures q.Some? && arch.layerTypes != [] && arch.vocabSize != 0
    ensures forall i :: 0 <= i < |arch.layerTypes| && arch.layerTypes[i].FullAttention? ==> arch.globalHeadDim.Some?
  {
  }

  lemma OtherViolation(plan: ModelExecutionPlan, err: PlanError)
    requires err.ZeroLayers? || err.ZeroEmbedding? || err.ZeroFinalNorm? || err.ZeroVocab? || err.layer >= |plan.layers|
    requires plan.layers != [] && plan.prologue.embeddingId > 0 && plan.epilogue.finalNormId > 0
    requires plan.epilogue.vocabSize != 0
    ensures !Violates(plan, err)
  {
    hide LayerSegment;
  }

  lemma LayerViolation(arch: TextArchitecture, plan: ModelExecutionPlan, root: string, ids: map<string, nat>,
                       err: PlanError, f: Field)
    requires err.WrongIndex? || err.WrongHiddenSize? || err.ZeroId? || err.MissingGlobalHeadDim? || err.UnknownKind?
             || err.WrongSegment?
    requires err.layer < |plan.layers| && |plan.layers| == |arch.layerTypes| && plan.hiddenSize == arch.hiddenSize
    requires plan.layers[err.layer] == LayerPlanOf(arch, root, ids, err.layer)
    requires err.ZeroId? ==> f == err.field
    requires FieldId(plan.layers[err.layer], f) > 0
    requires arch.layerTypes[err.layer].FullAttention? ==> arch.globalHeadDim.Some?
    ensures !Violates(plan, err)
  {
    LayerPlanFields(arch, root, ids, err.layer, f);
    hide LayerPlanOf, LayerSegment, FieldId;
  }

  /** Entry `id` of the image is the checkpoint's tensor `name`: it has that name, lies in
      `segment`, and reading it through the manifest gives the checkpoint's bytes. */
  ghost predicate Loads(img: Image, sources: Sources, id: nat, name: string, segment: string)
    requires |Flush(img).payloads| == |Flush(img).segments|
  {
    var f, m := Flush(img), ManifestOf(img);
    && id < |m.tensors| && m.tensors[id].id == id
    && m.tensors[id].info.name == name && m.tensors[id].segment == segment
    && name in sources
    && ReadTensor(m, WriteFiles(f.segments, f.payloads), m.tensors[id]) == Some(sources[name].data)
  }

  lemma RecordedLoads(e: Emitted, given: seq<Bytes>, sources: Sources, name: string)
    requires EInv(e, given, sources) && name in e.ids && Distinct(SegmentIds(e.img))
    ensures |Flush(e.img).payloads| == |Flush(e.img).segments| && e.ids[name] < |e.img.tensors|
    ensures Loads(e.img, sources, e.ids[name], name, e.img.tensors[e.ids[name]].segment)
  {
    assert Recorded(e, given, sources, name);
    ReadBack(e.img, given, e.ids[name]);
  }

  lemma ImageSegmentsDistinct(n: nat)
    ensures Distinct([PERSISTENT] + LayerSegments(n))
  {
    var ids := [PERSISTENT] + LayerSegments(n);
    forall i, j | 0 <= i < j < |ids|
      ensures ids[i] != ids[j]
    {
      LayerSegmentInjective(j - 1, if i == 0 then 0 else i - 1);
    }
  }

  /** Compiler correctness: every id in the plan of layer i names the intended tensor of
      layer i, in segment `layer_i`, and loads exactly the checkpoint's bytes. */
  lemma {:induction false} PlanLoadsCheckpoint(arch: TextArchitecture, ns: NamespaceBinding,
                                               q: Option<QuantizationMeta>, sources: Sources, e: Emitted)
    requires Packable(Bits(q), GroupSize(q))
    requires EmitSpec(SpecOf(arch, ns.root, q), ns, sources) == Some(e)
    ensures |Flush(e.img).payloads| == |Flush(e.img).segments|
    ensures var plan, root := ExecutionPlanOf(arch, ns, e.ids), ns.root;
      && |plan.layers| == |arch.layerTypes|
      && Loads(e.img, sources, plan.prologue.embeddingId, GlobalName(root, EMBED), PERSISTENT)
      && Loads(e.img, sources, plan.epilogue.finalNormId, GlobalName(root, NORM), PERSISTENT)
      && forall i: nat, f :: i < |plan.layers| ==>
           Loads(e.img, sources, FieldId(plan.layers[i], f),
                 LayerName(root, i, Suffix(Provider(arch, i, f))), LayerSegment(i))
  {
    var plan, root := ExecutionPlanOf(arch, ns, e.ids), ns.root;
    hide *;
    var given := ImageEmitted(arch, ns, q, sources);
    EmittedParts(arch, root, q, sources, e, given);
    ImageSegmentsDistinct(|arch.layerTypes|);
    PlanEnds(arch, ns, q, sources, e, given);
    PlanEndNames(arch, ns, e.ids);
    RecordedLoads(e, given, sources, GlobalName(root, EMBED));
    RecordedLoads(e, given, sources, GlobalName(root, NORM));
    SegmentOfId(e, GlobalName(root, EMBED));
    SegmentOfId(e, GlobalName(root, NORM));
    forall i: nat, f | i < |plan.layers|
      ensures Loads(e.img, sources, FieldId(plan.layers[i], f),
                    LayerName(root, i, Suffix(Provider(arch, i, f))), LayerSegment(i))
    {
      var name := LayerName(root, i, Suffix(Provider(arch, i, f)));
      PlanIdPositive(arch, root, q, sources, e, given, i, f);
      RecordedLoads(e, given, sources, name);
      SegmentOfId(e, name);
    }
  }

  lemma EmittedParts(arch: TextArchitecture, root: string, q: Option<QuantizationMeta>, sources: Sources,
                     e: Emitted, given: seq<Bytes>)
    requires EmittedImage(arch, root, q, sources, e, given)
    ensures EInv(e, given, sources) && SegmentIds(e.img) == [PERSISTENT] + LayerSegments(|arch.layerTypes|)
    ensures GlobalName(root, EMBED) in e.ids && SegmentOf(e, GlobalName(root, EMBED)) == Some(PERSISTENT)
    ensures GlobalName(root, NORM) in e.ids && SegmentOf(e, GlobalName(root, NORM)) == Some(PERSISTENT)
  {
    hide EInv, SegmentOf, GlobalName, SegmentIds, LayerIdOk;
  }

  lemma PlanEndNames(arch: TextArchitecture, ns: NamespaceBinding, ids: map<string, nat>)
    requires GlobalName(ns.root, EMBED) in ids && GlobalName(ns.root, NORM) in ids
    ensures ExecutionPlanOf(arch, ns, ids).prologue.embeddingId == ids[GlobalName(ns.root, EMBED)]
    ensures ExecutionPlanOf(arch, ns, ids).epilogue.finalNormId == ids[GlobalName(ns.root, NORM)]
  {
    hide GlobalName, LayerPlanOf;
  }

  lemma SegmentOfId(e: Emitted, n: string)
    requires n in e.ids && SegmentOf(e, n).Some?
    ensures e.ids[n] < |e.img.tensors| && e.img.tensors[e.ids[n]].segment == SegmentOf(e, n).value
  {
  }

  // ---------------------------------------------------------------------
  // compile_sequential on the builder object
  // ---------------------------------------------------------------------

  method EmitBindingSet(builder: Builder, sources: Sources, b: TensorBinding, layer: Option<nat>)
    returns (id: Option<nat>)
    requires builder.current.Some? && builder.Balanced()
    modifies builder
    ensures id.Some? <==> EmitBinding(old(builder.View()), sources, b, layer).Some?
    ensures builder.current.Some? && builder.Balanced()
    ensures id.Some? ==> builder.nextTensorId == id.value + 1
    ensures id.Some? ==> EmitBinding(old(builder.View()), sources, b, layer) == Some(builder.View())
  {
    match b.packed {
      case None =>
        id := EmitOne(builder, sources, b.name, RoleName(b.role), layer, b.logicalShape, None);
      case Some(packed) =>
        var scales := EmitOne(builder, sources, Stem(b.name) + ".scales", RoleName(b.role) + "::scales", layer,
                              packed.scales, None);
        if scales.None? { return None; }
        var biases := EmitOne(builder, sources, Stem(b.name) + ".biases", RoleName(b.role) + "::biases", layer,
                              packed.biases, None);
        if biases.None? { return None; }
        id := EmitOne(builder, sources, b.name, RoleName(b.role), layer, b.logicalShape,
                      Some(QuantizationDesc(packed.bits, packed.groupSize, packed.groups, scales.value, biases.value)));
    }
  }

  method EmitOne(builder: Builder, sources: Sources, name: string, role: string, layer: Option<nat>,
                 shape: seq<nat>, quantization: Option<QuantizationDesc>) returns (id: Option<nat>)
    requires builder.current.Some? && builder.Balanced()
    modifies builder
    ensures builder.current.Some? && builder.Balanced()
    ensures id.Some? <==> EmitTensor(old(builder.View()), sources, name, role, layer, shape, quantization).Some?
    ensures id.Some? ==> id.value == old(builder.nextTensorId) && builder.nextTensorId == id.value + 1
    ensures id.Some? ==>
      EmitTensor(old(builder.View()), sources, name, role, layer, shape, quantization) == Some(builder.View())
  {
    if name !in sources { return None; }
    var t := sources[name];
    var n := builder.AddTensor(InfoOf(t, name, role, layer, shape, quantization), t.data);
    id := Some(n);
  }

  /** Emit a list of bindings and record the id of each binding's own tensor. */
  method EmitList(builder: Builder, sources: Sources, bs: seq<TensorBinding>, layer: Option<nat>, ids: map<string, nat>)
    returns (r: Option<map<string, nat>>)
    requires builder.current.Some? && builder.Balanced()
    modifies builder
    ensures r.Some? <==> EmitAll(Emitted(old(builder.View()), ids), sources, bs, layer).Some?
    ensures builder.current.Some? && builder.Balanced()
    ensures r.Some? ==>
      EmitAll(Emitted(old(builder.View()), ids), sources, bs, layer) == Some(Emitted(builder.View(), r.value))
  {
    ghost var e := Emitted(builder.View(), ids);
    var out: map<string, nat> := ids;
    for i := 0 to |bs|
      invariant builder.current.Some? && builder.Balanced()
      invariant EmitAll(e, sources, bs[..i], layer) == Some(Emitted(builder.View(), out))
    {
      assert Front(bs[..i + 1]) == bs[..i] && Last(bs[..i + 1]) == bs[i];
      var id := EmitBindingSet(builder, sources, bs[i], layer);
      if id.None? {
        EmitAllFails(e, sources, bs, layer, i + 1);
        return None;
      }
      out := out[bs[i].name := id.value];
    }
    assert bs[..|bs|] == bs;
    r := Some(out);
  }

  lemma {:induction false} EmitAllFails(e: Emitted, sources: Sources, bs: seq<TensorBinding>, layer: Option<nat>, n: nat)
    requires n <= |bs| && EmitAll(e, sources, bs[..n], layer).None?
    ensures EmitAll(e, sources, bs, layer).None?
    decreases |bs|
  {
    if n == |bs| {
      assert bs[..n] == bs;
    } else {
      assert Front(bs)[..n] == bs[..n];
      EmitAllFails(e, sources, Front(bs), layer, n);
    }
  }

  lemma {:induction false} EmitLayersFails(e: Emitted, sources: Sources, layers: seq<LayerSpec>, n: nat)
    requires n <= |layers| && EmitLayers(e, sources, layers[..n]).None?
    ensures EmitLayers(e, sources, layers).None?
    decreases |layers|
  {
    if n == |layers| {
      assert layers[..n] == layers;
    } else {
      assert Front(layers)[..n] == layers[..n];
      EmitLayersFails(e, sources, Front(layers), n);
    }
  }

  lemma NoLayersYet(e: Emitted, sources: Sources, layers: seq<LayerSpec>)
    ensures EmitLayers(e, sources, layers[..0]) == Some(e)
  {
  }

  /** Emit the whole spec. None is a missing checkpoint tensor. */
  method CompileSequential(arch: TextArchitecture, ns: NamespaceBinding, spec: ExecutionSpec, sources: Sources)
    returns (r: Option<(Manifest, map<string, Bytes>, ModelExecutionPlan)>)
    ensures r.Some? <==> EmitSpec(spec, ns, sources).Some?
    ensures r.Some? ==>
      var e := EmitSpec(spec, ns, sources).value;
      && r.value.0 == ManifestOf(e.img) && |Flush(e.img).payloads| == |Flush(e.img).segments|
      && r.value.1 == WriteFiles(Flush(e.img).segments, Flush(e.img).payloads)
      && r.value.2 == ExecutionPlanOf(arch, ns, e.ids)
  {
    hide EmitAll, EmitLayers, PERSISTENT, LM_HEAD_ALIAS, GlobalName, LayerSegment, ExecutionPlanOf, Flush, Begin;
    var builder := new Builder();
    builder.BeginSegment(PERSISTENT, Persistent);
    var globals := EmitList(builder, sources, spec.globalTensors, None, map[]);
    if globals.None? { return None; }
    var ids: map<string, nat> := globals.value;
    if ns.lmHeadAliased {
      var embed := Find(ids, GlobalName(ns.root, EMBED));
      if embed.None? { return None; }
      builder.AddAlias(LM_HEAD_ALIAS, embed.value);
    }
    ghost var a := Emitted(builder.View(), ids);
    assert WithAlias(EmitAll(Start(), sources, spec.globalTensors, None).value, ns) == Some(a);
    NoLayersYet(a, sources, spec.layers);
    for i := 0 to |spec.layers|
      invariant builder.Balanced()
      invariant EmitLayers(a, sources, spec.layers[..i]) == Some(Emitted(builder.View(), ids))
    {
      var l := spec.layers[i];
      assert Front(spec.layers[..i + 1]) == spec.layers[..i] && Last(spec.layers[..i + 1]) == l;
      EmitLayersStep(a, sources, spec.layers[..i + 1]);
      builder.BeginSegment(LayerSegment(l.index), Layer(l.index));
      var more := EmitList(builder, sources, l.tensors, Some(l.index), ids);
      if more.None? {
        EmitLayersFails(a, sources, spec.layers, i + 1);
        return None;
      }
      ids := more.value;
    }
    assert spec.layers[..|spec.layers|] == spec.layers;
    ghost var e := EmitSpec(spec, ns, sources).value;
    assert e == Emitted(builder.View(), ids);
    var plan := BuildExecutionPlan(arch, ns, ids);
    var m, files := builder.Finalize();
    r := Some((m, files, plan));
  }
}
