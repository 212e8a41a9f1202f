// What a run of the whole model looks up by name, and when an emitted image has it
// (compute_image.rs).
module RunLookups {
  import opened Common
  import opened Naming
  import opened Config
  import opened Emission
  import opened Compiler
  import opened EntryNames

  // The root that `run_full_model` puts before every name.
  const RUN_ROOT := "language_model.model"

  function EmbeddingLookups(): seq<string> {
    [ GlobalName(RUN_ROOT, EMBED), GlobalName(RUN_ROOT, "embed_tokens.scales"),
      GlobalName(RUN_ROOT, "embed_tokens.biases") ]
  }

  predicate IsProjection(f: Field) {
    f.QProjId? || f.KProjId? || f.VProjId? || f.OProjId? || f.GateId? || f.UpId? || f.DownId?
  }

  function Projection(f: Field): string
    requires IsProjection(f)
  {
    match f
    case QProjId => "self_attn.q_proj"
    case KProjId => "self_attn.k_proj"
    case VProjId => "self_attn.v_proj"
    case OProjId => "self_attn.o_proj"
    case GateId => "mlp.gate_proj"
    case UpId => "mlp.up_proj"
    case DownId => "mlp.down_proj"
  }

  function TripleLookups(l: nat, f: Field): seq<string>
    requires IsProjection(f)
  {
    [ LayerName(RUN_ROOT, l, Projection(f) + ".weight"), LayerName(RUN_ROOT, l, Projection(f) + ".scales"),
      LayerName(RUN_ROOT, l, Projection(f) + ".biases") ]
  }

  /** The tensors without which layer l does not run. */
  function LayerLookups(l: nat, full: bool): seq<string> {
    [LayerName(RUN_ROOT, l, Suffix(InputNormId)), LayerName(RUN_ROOT, l, Suffix(PostNormId))]
    + TripleLookups(l, QProjId) + TripleLookups(l, KProjId)
    + (if full then [] else TripleLookups(l, VProjId))
    + TripleLookups(l, OProjId) + TripleLookups(l, GateId) + TripleLookups(l, UpId) + TripleLookups(l, DownId)
  }

  predicate AllFound(lookups: seq<string>, names: seq<string>) {
    forall n :: n in lookups ==> n in names
  }

  lemma {:induction false} NeededHas(bs: seq<TensorBinding>, k: nat, n: string)
    requires k < |bs| && n in NeededNames(bs[k])
    ensures n in Needed(bs)
    decreases |bs|
  {
    hide NeededNames;
    if k < |bs| - 1 {
      NeededHas(Front(bs), k, n);
    }
  }

  lemma {:induction false} NeededFrom(bs: seq<TensorBinding>, n: string) returns (k: nat)
    requires n in Needed(bs)
    ensures k < |bs| && n in NeededNames(bs[k])
    decreases |bs|
  {
    hide NeededNames;
    if n in NeededNames(Last(bs)) {
      k := |bs| - 1;
    } else {
      k := NeededFrom(Front(bs), n);
    }
  }

  lemma StemAfter(prefix: string, s: string)
    ensures Stem(prefix + (s + WEIGHT)) == prefix + s
  {
    var t := prefix + (s + WEIGHT);
    assert t == prefix + s + WEIGHT;
    assert t[|t| - 7..] == WEIGHT && t[..|t| - 7] == prefix + s;
  }

  lemma ProjectionSuffix(f: Field)
    requires IsProjection(f)
    ensures Projection(f) + WEIGHT == Suffix(f)
  {
  }

  /** The names of the three tensors of a projection, by stem and by projection. */
  lemma TripleNames(l: nat, f: Field)
    requires IsProjection(f)
    ensures var name, own := LayerName(RUN_ROOT, l, Suffix(f)), Projection(f);
      && LayerName(RUN_ROOT, l, own + ".weight") == name
      && LayerName(RUN_ROOT, l, own + ".scales") == Stem(name) + ".scales"
      && LayerName(RUN_ROOT, l, own + ".biases") == Stem(name) + ".biases"
  {
    var prefix := RUN_ROOT + ".layers." + Decimal(l) + ".";
    ProjectionSuffix(f);
    StemAfter(prefix, Projection(f));
    hide Suffix, Projection, Stem, Decimal, RUN_ROOT;
    var own := Projection(f);
    assert prefix + (own + WEIGHT) == LayerName(RUN_ROOT, l, Suffix(f));
    assert prefix + own + ".scales" == LayerName(RUN_ROOT, l, own + ".scales");
    assert prefix + own + ".biases" == LayerName(RUN_ROOT, l, own + ".biases");
  }

  /** The three tensors of a packed projection are those that a run looks up. */
  lemma PackedLookups(l: nat, b: TensorBinding, f: Field)
    requires IsProjection(f) && b.packed.Some? && b.name == LayerName(RUN_ROOT, l, Suffix(f))
    ensures AllFound(TripleLookups(l, f), NeededNames(b)) && AllFound(NeededNames(b), TripleLookups(l, f))
  {
    TripleNames(l, f);
    hide LayerName, Suffix, Projection, Stem, RUN_ROOT;
    var s, t := NeededNames(b), TripleLookups(l, f);
    assert s == [t[1], t[2], t[0]];
    assert s[0] in s && s[1] in s && s[2] in s && t[0] in t && t[1] in t && t[2] in t;
  }

  lemma LayerPacked(arch: TextArchitecture, root: string, i: nat, kind: AttentionKind, groupSize: nat, bits: nat)
    requires Packable(bits, groupSize)
    ensures var ts, fs := LayerTensors(arch, root, i, kind, groupSize, bits), LayerFields(kind);
      |ts| == |fs| && forall k :: 0 <= k < |ts| ==> (ts[k].packed.Some? <==> IsProjection(fs[k]))
  {
    hide LayerName, Suffix, Packable;
  }

  /** Under the root of the run, layer l has all that a run looks up. */
  lemma LayerFound(arch: TextArchitecture, l: nat, kind: AttentionKind, groupSize: nat, bits: nat)
    requires Packable(bits, groupSize)
    ensures AllFound(LayerLookups(l, kind.FullAttention?), Needed(LayerTensors(arch, RUN_ROOT, l, kind, groupSize, bits)))
  {
    hide *;
    var ts := LayerTensors(arch, RUN_ROOT, l, kind, groupSize, bits);
    LayerTensorNames(arch, RUN_ROOT, l, kind, groupSize, bits);
    LayerPacked(arch, RUN_ROOT, l, kind, groupSize, bits);
    FieldPlaces(kind);
    Projections();
    var fs := LayerFields(kind);
    NormFound(ts, 0, l, InputNormId);
    NormFound(ts, 1, l, PostNormId);
    TripleFound(ts, 4, l, QProjId);
    TripleFound(ts, 5, l, KProjId);
    if !kind.FullAttention? {
      TripleFound(ts, 6, l, VProjId);
    }
    var n := |ts|;
    TripleFound(ts, n - 4, l, OProjId);
    TripleFound(ts, n - 3, l, GateId);
    TripleFound(ts, n - 2, l, UpId);
    TripleFound(ts, n - 1, l, DownId);
    AllFoundTogether(l, kind.FullAttention?, Needed(ts));
  }

  lemma FieldPlaces(kind: AttentionKind)
    ensures var fs := LayerFields(kind);
      var n := |fs|;
      && n == (if kind.FullAttention? then 10 else 11)
      && fs[0] == InputNormId && fs[1] == PostNormId && fs[4] == QProjId && fs[5] == KProjId
      && (!kind.FullAttention? ==> fs[6] == VProjId)
      && fs[n - 4] == OProjId && fs[n - 3] == GateId && fs[n - 2] == UpId && fs[n - 1] == DownId
  {
  }

  lemma Projections()
    ensures IsProjection(QProjId) && IsProjection(KProjId) && IsProjection(VProjId) && IsProjection(OProjId)
    ensures IsProjection(GateId) && IsProjection(UpId) && IsProjection(DownId)
  {
  }

  lemma NormFound(ts: seq<TensorBinding>, k: nat, l: nat, f: Field)
    requires k < |ts| && ts[k].name == LayerName(RUN_ROOT, l, Suffix(f))
    ensures LayerName(RUN_ROOT, l, Suffix(f)) in Needed(ts)
  {
    hide LayerName, Suffix, Stem;
    var s := NeededNames(ts[k]);
    assert s[|s| - 1] == ts[k].name && s[|s| - 1] in s;
    NeededHas(ts, k, ts[k].name);
  }

  lemma TripleFound(ts: seq<TensorBinding>, k: nat, l: nat, f: Field)
    requires k < |ts| && ts[k].name == LayerName(RUN_ROOT, l, Suffix(f)) && IsProjection(f) && ts[k].packed.Some?
    ensures AllFound(TripleLookups(l, f), Needed(ts))
  {
    PackedLookups(l, ts[k], f);
    hide LayerName, Suffix, NeededNames, TripleLookups, Needed;
    forall n | n in TripleLookups(l, f)
      ensures n in Needed(ts)
    {
      NeededHas(ts, k, n);
    }
  }

  lemma AllFoundTogether(l: nat, full: bool, names: seq<string>)
    requires LayerName(RUN_ROOT, l, Suffix(InputNormId)) in names && LayerName(RUN_ROOT, l, Suffix(PostNormId)) in names
    requires AllFound(TripleLookups(l, QProjId), names) && AllFound(TripleLookups(l, KProjId), names)
    requires !full ==> AllFound(TripleLookups(l, VProjId), names)
    requires AllFound(TripleLookups(l, OProjId), names) && AllFound(TripleLookups(l, GateId), names)
    requires AllFound(TripleLookups(l, UpId), names) && AllFound(TripleLookups(l, DownId), names)
    ensures AllFound(LayerLookups(l, full), names)
  {
    hide LayerName, Suffix, TripleLookups;
  }

  lemma GlobalInjective(root: string, other: string, s: string)
    requires GlobalName(root, s) == GlobalName(other, s)
    ensures root == other
  {
    var x, y := GlobalName(root, s), GlobalName(other, s);
    assert |root| == |other|;
    assert x[..|root|] == root && y[..|other|] == other;
  }

  /** The letters before `.weight` tell the global tensors apart. */
  lemma GlobalLetters(root: string)
    ensures var e, n, h := GlobalName(root, EMBED), GlobalName(root, NORM), GlobalName(root, LM_HEAD);
      |e| > 8 && |n| > 8 && |h| > 8 && e[|e| - 8] == 's' && n[|n| - 8] == 'm' && h[|h| - 8] == 'd'
  {
    var e, n, h := GlobalName(root, EMBED), GlobalName(root, NORM), GlobalName(root, LM_HEAD);
    assert e[|e| - 8] == EMBED[11] && n[|n| - 8] == NORM[3] && h[|h| - 8] == LM_HEAD[6];
  }

  lemma GlobalBindings(arch: TextArchitecture, root: string, q: Option<QuantizationMeta>)
    requires Packable(Bits(q), GroupSize(q))
    ensures var bs := GlobalTensors(arch, root, q);
      && |bs| >= 2 && bs[0].name == GlobalName(root, EMBED) && bs[1].name == GlobalName(root, NORM)
      && (forall k :: 2 <= k < |bs| ==> bs[k].name == GlobalName(root, LM_HEAD))
      && (bs[0].packed.Some? <==> q.Some?)
      && (forall k :: 1 <= k < |bs| ==> bs[k].packed.None?)
  {
    hide GlobalName, Packable;
  }

  /** A weight among the global tensors is that of a binding. */
  lemma GlobalWeight(arch: TextArchitecture, root: string, q: Option<QuantizationMeta>, n: string) returns (k: nat)
    requires Packable(Bits(q), GroupSize(q)) && n in Needed(GlobalTensors(arch, root, q)) && EndsInWeight(n)
    ensures k < |GlobalTensors(arch, root, q)| && n == GlobalTensors(arch, root, q)[k].name
  {
    hide *;
    var bs := GlobalTensors(arch, root, q);
    GlobalOwnNames(arch, root, q);
    k := NeededFrom(bs, n);
    WeightsAt(bs, k);
    PartsOfBinding(bs[k]);
    PartOfItself(n);
    PartOwner(n, n, bs[k].name);
  }

  lemma WeightsAt(bs: seq<TensorBinding>, k: nat)
    requires AllWeights(bs) && k < |bs|
    ensures EndsInWeight(bs[k].name)
  {
    assert bs[k] in bs;
  }

  lemma PartOfItself(n: string)
    ensures PartOf(n, n)
  {
  }

  lemma OwnFound(bs: seq<TensorBinding>, k: nat)
    requires k < |bs|
    ensures bs[k].name in Needed(bs)
  {
    hide Stem, Needed;
    var s := NeededNames(bs[k]);
    assert s[|s| - 1] == bs[k].name && s[|s| - 1] in s;
    NeededHas(bs, k, bs[k].name);
  }

  lemma NormFoundIff(arch: TextArchitecture, root: string, q: Option<QuantizationMeta>)
    requires Packable(Bits(q), GroupSize(q))
    ensures GlobalName(RUN_ROOT, NORM) in Needed(GlobalTensors(arch, root, q)) <==> root == RUN_ROOT
  {
    hide *;
    var bs, n := GlobalTensors(arch, root, q), GlobalName(RUN_ROOT, NORM);
    GlobalBindings(arch, root, q);
    if root == RUN_ROOT {
      OwnFound(bs, 1);
    }
    if n in Needed(bs) {
      GlobalsEndIn(RUN_ROOT);
      var k := GlobalWeight(arch, root, q, n);
      GlobalLetters(root);
      GlobalLetters(RUN_ROOT);
      assert k == 1;
      GlobalInjective(root, RUN_ROOT, NORM);
    }
  }

  lemma GlobalsEndIn(root: string)
    ensures EndsInWeight(GlobalName(root, EMBED)) && EndsInWeight(GlobalName(root, NORM))
    ensures EndsInWeight(GlobalName(root, LM_HEAD))
  {
    hide GlobalName, EndsInWeight;
    assert EndsInWeight(EMBED) && EndsInWeight(NORM) && EndsInWeight(LM_HEAD) by { GlobalsEnd(); }
    GlobalNameEnds(root, EMBED);
    GlobalNameEnds(root, NORM);
    GlobalNameEnds(root, LM_HEAD);
  }

  /** The embedding with its scales and biases is found iff it was emitted, packed, under the
      root of the run. */
  lemma EmbeddingFoundIff(arch: TextArchitecture, root: string, q: Option<QuantizationMeta>)
    requires Packable(Bits(q), GroupSize(q))
    ensures AllFound(EmbeddingLookups(), Needed(GlobalTensors(arch, root, q))) <==> root == RUN_ROOT && q.Some?
  {
    hide *;
    var bs, n := GlobalTensors(arch, root, q), GlobalName(RUN_ROOT, EMBED);
    GlobalBindings(arch, root, q);
    GlobalsEndIn(RUN_ROOT);
    GlobalsEndIn(root);
    EmbeddingLookupsAre();
    if root == RUN_ROOT && q.Some? {
      PackedEmbedding(bs);
    }
    if AllFound(EmbeddingLookups(), Needed(bs)) {
      FoundOne(EmbeddingLookups(), Needed(bs), 0);
      FoundOne(EmbeddingLookups(), Needed(bs), 1);
      var k := GlobalWeight(arch, root, q, n);
      GlobalLetters(root);
      GlobalLetters(RUN_ROOT);
      assert k == 0;
      GlobalInjective(root, RUN_ROOT, EMBED);
      if q.None? {
        var j := NeededFrom(bs, EmbeddingLookups()[1]);
        UnpackedName(bs[j], EmbeddingLookups()[1]);
        NoScales(EmbeddingLookups()[1]);
      }
    }
  }

  lemma EmbeddingLookupsAre()
    ensures |EmbeddingLookups()| == 3 && EmbeddingLookups()[0] == GlobalName(RUN_ROOT, EMBED)
    ensures |EmbeddingLookups()[1]| > 7 && Last(EmbeddingLookups()[1]) == 's'
  {
  }

  lemma FoundOne(lookups: seq<string>, names: seq<string>, i: nat)
    requires AllFound(lookups, names) && i < |lookups|
    ensures lookups[i] in names
  {
  }

  lemma UnpackedName(b: TensorBinding, n: string)
    requires b.packed.None? && n in NeededNames(b)
    ensures n == b.name
  {
  }

  lemma NoScales(n: string)
    requires |n| > 7 && Last(n) == 's'
    ensures !EndsInWeight(n)
  {
    assert Last(n[|n| - 7..]) == 's' && Last(WEIGHT) == 't';
  }

  lemma PackedEmbedding(bs: seq<TensorBinding>)
    requires bs != [] && bs[0].name == GlobalName(RUN_ROOT, EMBED) && bs[0].packed.Some?
    ensures AllFound(EmbeddingLookups(), Needed(bs))
  {
    StemAfter(RUN_ROOT + ".", "embed_tokens");
    assert GlobalName(RUN_ROOT, EMBED) == RUN_ROOT + "." + ("embed_tokens" + WEIGHT);
    assert RUN_ROOT + "." + "embed_tokens" + ".scales" == GlobalName(RUN_ROOT, "embed_tokens.scales");
    assert RUN_ROOT + "." + "embed_tokens" + ".biases" == GlobalName(RUN_ROOT, "embed_tokens.biases");
    hide GlobalName, Stem, Needed, RUN_ROOT;
    var s := NeededNames(bs[0]);
    assert s[0] in s && s[1] in s && s[2] in s;
    forall n | n in EmbeddingLookups()
      ensures n in Needed(bs)
    {
      NeededHas(bs, 0, n);
    }
  }

  /** What a run looks up is there exactly when the checkpoint has the root that the run assumes
      and is quantized; with that root, every layer has its tensors. */
  lemma {:induction false} LookupsSucceedIff(arch: TextArchitecture, root: string, q: Option<QuantizationMeta>)
    requires Packable(Bits(q), GroupSize(q))
    ensures var spec := SpecOf(arch, root, q);
      && |spec.layers| == |arch.layerTypes|
      && (AllFound(EmbeddingLookups(), Needed(spec.globalTensors)) <==> root == RUN_ROOT && q.Some?)
      && (GlobalName(RUN_ROOT, NORM) in Needed(spec.globalTensors) <==> root == RUN_ROOT)
      && (root == RUN_ROOT ==> forall l: nat :: l < |spec.layers| ==>
            AllFound(LayerLookups(l, arch.layerTypes[l].FullAttention?), Needed(spec.layers[l].tensors)))
  {
    SpecParts(arch, root, q);
    hide GlobalTensors, LayerTensors, Packable, AllFound, Needed, LayerLookups, RUN_ROOT, EmbeddingLookups;
    EmbeddingFoundIff(arch, root, q);
    NormFoundIff(arch, root, q);
    var spec := SpecOf(arch, root, q);
    if root == RUN_ROOT {
      forall l: nat | l < |spec.layers|
        ensures AllFound(LayerLookups(l, arch.layerTypes[l].FullAttention?), Needed(spec.layers[l].tensors))
      {
        LayerFound(arch, l, arch.layerTypes[l], GroupSize(q), Bits(q));
      }
    }
  }

  // ---------------------------------------------------------------------
  // Nothing else
  // ---------------------------------------------------------------------

  /** The two norms of queries and keys, which a run can do without. */
  function OptionalLookups(l: nat): seq<string> {
    [LayerName(RUN_ROOT, l, Suffix(QNormId)), LayerName(RUN_ROOT, l, Suffix(KNormId))]
  }

  lemma TripleWithin(l: nat, f: Field, full: bool)
    requires IsProjection(f) && (full ==> f != VProjId)
    ensures AllFound(TripleLookups(l, f), LayerLookups(l, full))
  {
    hide LayerName, Suffix, TripleLookups;
  }

  lemma NormsWithin(l: nat, full: bool)
    ensures LayerName(RUN_ROOT, l, Suffix(InputNormId)) in LayerLookups(l, full)
    ensures LayerName(RUN_ROOT, l, Suffix(PostNormId)) in LayerLookups(l, full)
    ensures forall f :: f == QNormId || f == KNormId ==> LayerName(RUN_ROOT, l, Suffix(f)) in OptionalLookups(l)
  {
    hide LayerName, Suffix, TripleLookups;
    var s, t := LayerLookups(l, full), OptionalLookups(l);
    assert s[0] in s && s[1] in s && t[0] in t && t[1] in t;
  }

  /** Every tensor of a layer is looked up: nothing is leased in vain. */
  lemma {:induction false} LeasedIsLookedUp(arch: TextArchitecture, l: nat, kind: AttentionKind, groupSize: nat, bits: nat)
    requires Packable(bits, groupSize)
    ensures AllFound(Needed(LayerTensors(arch, RUN_ROOT, l, kind, groupSize, bits)),
                     LayerLookups(l, kind.FullAttention?) + OptionalLookups(l))
  {
    hide *;
    var ts, fs := LayerTensors(arch, RUN_ROOT, l, kind, groupSize, bits), LayerFields(kind);
    LayerTensorNames(arch, RUN_ROOT, l, kind, groupSize, bits);
    LayerPacked(arch, RUN_ROOT, l, kind, groupSize, bits);
    LayerFieldsComplete(kind);
    NormsWithin(l, kind.FullAttention?);
    var lookups := LayerLookups(l, kind.FullAttention?) + OptionalLookups(l);
    forall n | n in Needed(ts)
      ensures n in lookups
    {
      var k := NeededFrom(ts, n);
      assert fs[k] in fs;
      FieldLookedUp(l, ts[k], fs[k], kind.FullAttention?, n);
    }
    FoundIntro(Needed(ts), lookups);
  }

  /** And so is every tensor outside the layers, but an output head: a run projects with the embedding. */
  lemma {:induction false} ResidentIsLookedUp(arch: TextArchitecture, q: Option<QuantizationMeta>)
    requires Packable(Bits(q), GroupSize(q))
    ensures AllFound(Needed(GlobalTensors(arch, RUN_ROOT, q)),
                     EmbeddingLookups() + [GlobalName(RUN_ROOT, NORM), GlobalName(RUN_ROOT, LM_HEAD)])
  {
    hide *;
    var bs, ends := GlobalTensors(arch, RUN_ROOT, q), [GlobalName(RUN_ROOT, NORM), GlobalName(RUN_ROOT, LM_HEAD)];
    GlobalBindings(arch, RUN_ROOT, q);
    forall n | n in Needed(bs)
      ensures n in EmbeddingLookups() + ends
    {
      var k := NeededFrom(bs, n);
      if k == 0 {
        EmbeddingNeeds(bs[0], n);
      } else {
        UnpackedName(bs[k], n);
        assert ends[0] in ends && ends[1] in ends;
      }
    }
    FoundIntro(Needed(bs), EmbeddingLookups() + ends);
  }

  lemma EmbeddingNeeds(b: TensorBinding, n: string)
    requires b.name == GlobalName(RUN_ROOT, EMBED) && n in NeededNames(b)
    ensures n in EmbeddingLookups()
  {
    StemAfter(RUN_ROOT + ".", "embed_tokens");
    assert GlobalName(RUN_ROOT, EMBED) == RUN_ROOT + "." + ("embed_tokens" + WEIGHT);
    assert RUN_ROOT + "." + "embed_tokens" + ".scales" == GlobalName(RUN_ROOT, "embed_tokens.scales");
    assert RUN_ROOT + "." + "embed_tokens" + ".biases" == GlobalName(RUN_ROOT, "embed_tokens.biases");
    hide GlobalName, Stem, RUN_ROOT;
    var s := EmbeddingLookups();
    assert s[0] in s && s[1] in s && s[2] in s;
  }

  lemma FoundIntro(lookups: seq<string>, names: seq<string>)
    requires forall n :: n in lookups ==> n in names
    ensures AllFound(lookups, names)
  {
  }

  lemma FieldLookedUp(l: nat, b: TensorBinding, f: Field, full: bool, n: string)
    requires b.name == LayerName(RUN_ROOT, l, Suffix(f)) && n in NeededNames(b) && (full ==> f != VProjId)
    requires b.packed.Some? <==> IsProjection(f)
    ensures n in LayerLookups(l, full) + OptionalLookups(l)
  {
    hide LayerName, Suffix, TripleLookups, LayerLookups, OptionalLookups, Stem, NeededNames;
    NormsWithin(l, full);
    if IsProjection(f) {
      PackedLookups(l, b, f);
      TripleWithin(l, f, full);
    } else {
      UnpackedName(b, n);
    }
  }

  /** An output head is never looked up: a model that has one of its own is projected with the embedding. */
  lemma {:induction false} HeadNotLookedUp(l: nat, full: bool)
    ensures var head := GlobalName(RUN_ROOT, LM_HEAD);
      head !in EmbeddingLookups() && head != GlobalName(RUN_ROOT, NORM) && head !in LayerLookups(l, full)
  {
    var head := GlobalName(RUN_ROOT, LM_HEAD);
    assert LM_HEAD[..2] == "lm";
    HeadApart();
    hide LayerName, GlobalName, Suffix, EmbeddingLookups;
    forall n | n in LayerLookups(l, full)
      ensures n != head
    {
      var s := LookupSuffix(l, full, n);
      LayerNameNotGlobal(RUN_ROOT, l, s, LM_HEAD);
    }
  }

  lemma HeadApart()
    ensures var head := GlobalName(RUN_ROOT, LM_HEAD); head !in EmbeddingLookups() && head != GlobalName(RUN_ROOT, NORM)
  {
    var n := |RUN_ROOT| + 1;
    assert GlobalName(RUN_ROOT, LM_HEAD)[n] == 'l' && GlobalName(RUN_ROOT, NORM)[n] == 'n';
    assert GlobalName(RUN_ROOT, EMBED)[n] == 'e' && GlobalName(RUN_ROOT, "embed_tokens.scales")[n] == 'e';
    assert GlobalName(RUN_ROOT, "embed_tokens.biases")[n] == 'e';
  }

  lemma LookupSuffix(l: nat, full: bool, n: string) returns (s: string)
    requires n in LayerLookups(l, full)
    ensures n == LayerName(RUN_ROOT, l, s)
  {
    hide LayerName, Suffix, Projection;
    if n == LayerName(RUN_ROOT, l, Suffix(InputNormId)) {
      s := Suffix(InputNormId);
    } else if n == LayerName(RUN_ROOT, l, Suffix(PostNormId)) {
      s := Suffix(PostNormId);
    } else {
      var f :| IsProjection(f) && n in TripleLookups(l, f);
      var k :| 0 <= k < 3 && TripleLookups(l, f)[k] == n;
      assert TripleLookups(l, f)[0] == LayerName(RUN_ROOT, l, Projection(f) + ".weight");
      if k == 0 {
        s := Projection(f) + ".weight";
      } else if k == 1 {
        s := Projection(f) + ".scales";
      } else {
        s := Projection(f) + ".biases";
        assert n == LayerName(RUN_ROOT, l, s);
      }
      assert n == LayerName(RUN_ROOT, l, s);
    }
  }
}
