// The tensor catalog of an image that the compiler has emitted (compute_image.rs).
module ImageCatalog {
  import opened Common
  import opened Naming
  import opened Config
  import opened ImageBuilder
  import opened Emission
  import opened Compiler
  import opened EntryNames
  import C = Catalog

  // ---------------------------------------------------------------------
  // The alias is no physical name
  // ---------------------------------------------------------------------

  /** A weight that could not be taken for the alias: longer, or with another letter before the
      suffix. */
  predicate Apart(name: string) {
    EndsInWeight(name) && (|name| > |LM_HEAD_ALIAS| || (|name| > 7 && name[|name| - 8] == 'm'))
  }

  lemma PartNotAlias(n: string, name: string)
    requires Apart(name) && PartOf(n, name)
    ensures n != LM_HEAD_ALIAS && n != ""
  {
    PartStem(n, name);
    var scales, biases := Stem(name) + ".scales", Stem(name) + ".biases";
    assert scales[|scales| - 1] == 's' && biases[|biases| - 1] == 's';
    assert LM_HEAD_ALIAS[13] == 't' && LM_HEAD_ALIAS[6] == 'd';
    hide Stem;
  }

  lemma GlobalsApart(arch: TextArchitecture, root: string, q: Option<QuantizationMeta>)
    ensures forall b :: b in GlobalTensors(arch, root, q) ==> Apart(b.name)
  {
    hide Packed, EndsInWeight, GlobalName;
    assert EndsInWeight(EMBED) && EndsInWeight(NORM) && EndsInWeight(LM_HEAD) by { GlobalsEnd(); }
    GlobalNameEnds(root, EMBED);
    GlobalNameEnds(root, NORM);
    GlobalNameEnds(root, LM_HEAD);
    NormLetter(root);
  }

  lemma NormLetter(root: string)
    ensures var n := GlobalName(root, NORM); |n| > 7 && n[|n| - 8] == 'm'
  {
    var n := GlobalName(root, NORM);
    assert n[|n| - 8] == NORM[3];
  }

  lemma LayersApart(root: string, n: nat, bs: seq<TensorBinding>)
    requires NamedBelow(root, n, bs)
    ensures forall b :: b in bs ==> Apart(b.name)
  {
    hide EndsInWeight, LayerName, Suffix;
    forall b | b in bs
      ensures Apart(b.name)
    {
      var j: nat :| j < n && OfLayer(root, j, b.name);
      var f :| b.name == LayerName(root, j, Suffix(f));
      LayerNameEnds(root, j, f);
    }
  }

  lemma NeededApart(bs: seq<TensorBinding>)
    requires forall b :: b in bs ==> Apart(b.name)
    ensures forall n :: n in Needed(bs) ==> n != LM_HEAD_ALIAS && n != ""
  {
    hide PartOf, EndsInWeight, Needed;
    forall n | n in Needed(bs)
      ensures n != LM_HEAD_ALIAS && n != ""
    {
      var k := NeededAreParts(bs, n);
      assert bs[k] in bs;
      PartNotAlias(n, bs[k].name);
    }
  }

  lemma SpecApart(arch: TextArchitecture, root: string, q: Option<QuantizationMeta>)
    requires Packable(Bits(q), GroupSize(q))
    ensures forall n :: n in Needed(AllBindings(SpecOf(arch, root, q))) ==> n != LM_HEAD_ALIAS && n != ""
  {
    hide *;
    var spec := SpecOf(arch, root, q);
    SpecParts(arch, root, q);
    SpecLayers(arch, root, q);
    SpecDistinct(arch, root, q);
    GlobalsApart(arch, root, q);
    LayerBindingsDistinct(root, spec.layers);
    LayersApart(root, |spec.layers|, LayerBindings(spec.layers));
    AllBindingsAre(spec);
    NeededApart(AllBindings(spec));
  }

  // ---------------------------------------------------------------------
  // The catalog
  // ---------------------------------------------------------------------

  lemma TableWellNamed(tensors: seq<TensorEntry>, names: seq<string>)
    requires |tensors| == |names| && Distinct(names) && forall n :: n in names ==> n != ""
    requires forall k :: 0 <= k < |tensors| ==> tensors[k].id == k && tensors[k].info.name == names[k]
    ensures C.WellNamed(tensors)
  {
    forall t | t in tensors
      ensures t.info.name != ""
    {
      var k :| 0 <= k < |tensors| && tensors[k] == t;
      assert names[k] in names;
    }
  }

  lemma TableUnshadowed(tensors: seq<TensorEntry>, names: seq<string>, aliases: seq<AliasEntry>)
    requires |tensors| == |names| && forall n :: n in names ==> n != LM_HEAD_ALIAS
    requires forall k :: 0 <= k < |tensors| ==> tensors[k].info.name == names[k]
    requires forall a :: a in aliases ==> a.logicalName == LM_HEAD_ALIAS
    ensures C.NoShadowing(tensors, aliases)
  {
    hide LM_HEAD_ALIAS;
    PhysicalIs(tensors, names, LM_HEAD_ALIAS);
    AliasNotEmpty();
  }

  lemma AliasNotEmpty()
    ensures LM_HEAD_ALIAS != ""
  {
  }

  /** The catalog that the runtime builds from an emitted image. */
  function CatalogFor(img: Image): map<string, C.Binding> {
    C.CatalogOf(ManifestOf(img).tensors, ManifestOf(img).aliases)
  }

  /** For every image of the compiler the catalog is faithful. Its keys are the emitted names, and
      the alias of the output head if there is one, which denotes the storage of the embedding. */
  lemma {:induction false} EmittedCatalog(arch: TextArchitecture, ns: NamespaceBinding, q: Option<QuantizationMeta>,
                                          sources: Sources, e: Emitted)
    requires Packable(Bits(q), GroupSize(q))
    requires EmitSpec(SpecOf(arch, ns.root, q), ns, sources) == Some(e)
    ensures var m := ManifestOf(e.img);
      C.WellNamed(m.tensors) && C.NoShadowing(m.tensors, m.aliases) && C.Faithful(m.tensors, m.aliases, CatalogFor(e.img))
    ensures forall name :: name in CatalogFor(e.img) <==>
      name in AllNames(e.img) || (ns.lmHeadAliased && name == LM_HEAD_ALIAS)
    ensures ns.lmHeadAliased ==> HeadIsEmbedding(e.img, ns, q)
  {
    hide *;
    var given := ImageEmitted(arch, ns, q, sources);
    EmittedParts(arch, ns.root, q, sources, e, given);
    EInvOpen(e, given, sources);
    TableFacts(e.img, given);
    EntryNamesUnique(arch, ns, q, sources, e);
    EmittedGroups(arch, ns, q, sources, e);
    SpecApart(arch, ns.root, q);
    AliasesAre(ns, q);
    var m := ManifestOf(e.img);
    TableWellNamed(m.tensors, AllNames(e.img));
    TableUnshadowed(m.tensors, AllNames(e.img), m.aliases);
    CatalogForIs(e.img);
    C.CatalogFaithful(m.tensors, m.aliases);
    EmbeddingEntry(arch, ns, q, sources, e);
    Keys(e.img, ns, q);
  }

  lemma AliasesAre(ns: NamespaceBinding, q: Option<QuantizationMeta>)
    ensures forall a :: a in AliasTable(ns, q) ==> a.logicalName == LM_HEAD_ALIAS
  {
    hide LM_HEAD_ALIAS;
  }

  lemma CatalogForIs(img: Image)
    ensures CatalogFor(img) == C.CatalogOf(ManifestOf(img).tensors, ManifestOf(img).aliases)
  {
  }

  /** The alias denotes the entry of the embedding. */
  ghost predicate HeadIsEmbedding(img: Image, ns: NamespaceBinding, q: Option<QuantizationMeta>) {
    && LM_HEAD_ALIAS in CatalogFor(img) && EmbedId(q) < |img.tensors|
    && img.tensors[EmbedId(q)].info.name == GlobalName(ns.root, EMBED)
    && CatalogFor(img)[LM_HEAD_ALIAS].SharesStorage(img.tensors[EmbedId(q)])
    && CatalogFor(img)[LM_HEAD_ALIAS].aliasOf == Some(EmbedId(q))
  }

  lemma EmbeddingEntry(arch: TextArchitecture, ns: NamespaceBinding, q: Option<QuantizationMeta>, sources: Sources, e: Emitted)
    requires Packable(Bits(q), GroupSize(q))
    requires EmitSpec(SpecOf(arch, ns.root, q), ns, sources) == Some(e)
    ensures EmbedId(q) < |e.img.tensors| && e.img.tensors[EmbedId(q)].info.name == GlobalName(ns.root, EMBED)
  {
    hide *;
    var given := ImageEmitted(arch, ns, q, sources);
    EmbedRecorded(arch, ns.root, q, sources, e, given);
  }

  lemma EmbedRecorded(arch: TextArchitecture, root: string, q: Option<QuantizationMeta>, sources: Sources,
                      e: Emitted, given: seq<Bytes>)
    requires EmittedImage(arch, root, q, sources, e, given)
    ensures EmbedId(q) < |e.img.tensors| && e.img.tensors[EmbedId(q)].info.name == GlobalName(root, EMBED)
  {
    hide GlobalName, LayerIdOk, SegmentOf, SegmentIds, Inv;
    assert Recorded(e, given, sources, GlobalName(root, EMBED));
  }

  lemma Keys(img: Image, ns: NamespaceBinding, q: Option<QuantizationMeta>)
    requires var m := ManifestOf(img); m.tensors == img.tensors && m.aliases == img.aliases == AliasTable(ns, q)
    requires |AllNames(img)| == |img.tensors|
    requires forall k :: 0 <= k < |img.tensors| ==> img.tensors[k].id == k && img.tensors[k].info.name == AllNames(img)[k]
    requires C.Faithful(img.tensors, img.aliases, CatalogFor(img)) && C.NoShadowing(img.tensors, img.aliases)
    requires forall name :: name in CatalogFor(img) <==>
      C.IsPhysical(img.tensors, name) || exists j :: C.Decides(img.tensors, img.aliases, j, name)
    requires EmbedId(q) < |img.tensors| && img.tensors[EmbedId(q)].info.name == GlobalName(ns.root, EMBED)
    ensures forall name :: name in CatalogFor(img) <==>
      name in AllNames(img) || (ns.lmHeadAliased && name == LM_HEAD_ALIAS)
    ensures ns.lmHeadAliased ==> HeadIsEmbedding(img, ns, q)
  {
    hide LM_HEAD_ALIAS, CatalogFor, GlobalName, EmbedId, ManifestOf, AllNames, C.Faithful, C.NoShadowing;
    FindEntry(img.tensors, EmbedId(q));
    forall name
      ensures name in CatalogFor(img) <==> name in AllNames(img) || (ns.lmHeadAliased && name == LM_HEAD_ALIAS)
    {
      PhysicalIs(img.tensors, AllNames(img), name);
      DecidesIs(img, ns, q, name);
    }
    if ns.lmHeadAliased {
      HeadDenotes(img, ns, q);
    }
  }

  lemma PhysicalIs(tensors: seq<TensorEntry>, names: seq<string>, name: string)
    requires |names| == |tensors| && forall k :: 0 <= k < |tensors| ==> tensors[k].info.name == names[k]
    ensures C.IsPhysical(tensors, name) <==> name in names
  {
    if C.IsPhysical(tensors, name) {
      var t :| t in tensors && t.info.name == name;
      var k :| 0 <= k < |tensors| && tensors[k] == t;
      assert names[k] in names;
    }
    if name in names {
      var k :| 0 <= k < |names| && names[k] == name;
      assert tensors[k] in tensors;
    }
  }

  lemma DecidesIs(img: Image, ns: NamespaceBinding, q: Option<QuantizationMeta>, name: string)
    requires img.aliases == AliasTable(ns, q) && FindTensor(img.tensors, EmbedId(q)).Some?
    ensures (exists j :: C.Decides(img.tensors, img.aliases, j, name)) <==> ns.lmHeadAliased && name == LM_HEAD_ALIAS
  {
    hide LM_HEAD_ALIAS, EmbedId, FindTensor;
    if ns.lmHeadAliased && name == LM_HEAD_ALIAS {
      assert C.Decides(img.tensors, img.aliases, 0, name);
    }
  }

  lemma HeadDenotes(img: Image, ns: NamespaceBinding, q: Option<QuantizationMeta>)
    requires ns.lmHeadAliased && img.aliases == AliasTable(ns, q) && EmbedId(q) < |img.tensors|
    requires FindTensor(img.tensors, EmbedId(q)) == Some(img.tensors[EmbedId(q)]) && img.tensors[EmbedId(q)].id == EmbedId(q)
    requires img.tensors[EmbedId(q)].info.name == GlobalName(ns.root, EMBED)
    requires C.Faithful(img.tensors, img.aliases, CatalogFor(img)) && C.NoShadowing(img.tensors, img.aliases)
    ensures HeadIsEmbedding(img, ns, q)
  {
    hide LM_HEAD_ALIAS, CatalogFor, GlobalName, EmbedId, FindTensor;
    assert img.aliases[0] in img.aliases && C.Resolvable(img.tensors, img.aliases[0]);
    var j :| C.Denotes(img.tensors, img.aliases, j, LM_HEAD_ALIAS, CatalogFor(img)[LM_HEAD_ALIAS]);
    assert j == 0;
  }
}
