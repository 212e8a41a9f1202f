// An emitted image opened by the runtime and run (compute_image.rs): which tensors it finds, and
// when a run can succeed.
module ImageRuns {
  import opened Common
  import opened Naming
  import opened Config
  import opened ImageBuilder
  import opened Emission
  import opened Compiler
  import opened EntryNames
  import opened RunLookups
  import I = EntryInfo
  import Q = Quantized
  import opened Registry
  import opened Bridge
  import R = Runtime

  // ---------------------------------------------------------------------
  // The tensors of a segment
  // ---------------------------------------------------------------------

  /** Make an array of the bytes, the storage type and the shape of a tensor. */
  type Convert<A> = (Bytes, string, seq<nat>) -> Option<A>

  function Load<A>(m: Manifest, payload: Bytes, id: nat, convert: Convert<A>): R.Tensor<A> {
    match FindTensor(m.tensors, id)
    case None => R.Tensor("", None)
    case Some(t) =>
      R.Tensor(t.info.name, match SliceTensor(payload, t)
                            case None => None
                            case Some(bytes) => convert(bytes, t.info.storageDtype, t.info.physicalShape))
  }

  /** A segment that cannot be read is one tensor that does not load. */
  function SegmentTensors<A>(m: Manifest, files: map<string, Bytes>, id: string, convert: Convert<A>): seq<R.Tensor<A>> {
    match FindSegment(m.segments, id)
    case None => [R.Tensor("", None)]
    case Some(segment) =>
      if segment.filename !in files then [R.Tensor("", None)]
      else
        var payload := files[segment.filename];
        seq(|segment.tensorIds|, i requires 0 <= i < |segment.tensorIds| => Load(m, payload, segment.tensorIds[i], convert))
  }

  function Resident<A>(m: Manifest, files: map<string, Bytes>, ids: seq<string>, convert: Convert<A>): seq<R.Tensor<A>> {
    if ids == [] then []
    else Resident(m, files, Front(ids), convert) + SegmentTensors(m, files, Last(ids), convert)
  }

  function NamesIn<A>(ts: seq<R.Tensor<A>>): seq<string> {
    seq(|ts|, i requires 0 <= i < |ts| => ts[i].name)
  }

  function FilesOf(img: Image): map<string, Bytes>
    requires |Flush(img).payloads| == |Flush(img).segments|
  {
    WriteFiles(Flush(img).segments, Flush(img).payloads)
  }

  /** Segment j is found under its id, and so is its file. */
  ghost predicate Found(img: Image, files: map<string, Bytes>, j: nat)
    requires j < Count(img)
  {
    var m := ManifestOf(img);
    && j < |m.segments| && m.segments[j].tensorIds == TensorIds(img, j)
    && FindSegment(m.segments, SegmentId(img, j)) == Some(m.segments[j]) && m.segments[j].filename in files
  }

  lemma SegmentFound(img: Image, given: seq<Bytes>, j: nat)
    requires Inv(img, given) && Distinct(SegmentIds(img)) && j < Count(img)
    ensures |Flush(img).payloads| == |Flush(img).segments| && Found(img, FilesOf(img), j)
  {
    hide *;
    InvParts(img, given);
    FlushKeeps(img, given);
    FlushViews(img);
    FlushCloses(img);
    InvParts(Flush(img), given);
    FilesNumbered(Flush(img));
    ManifestTables(img);
    NamesOfFinished(Flush(img));
    FlushedSegment(Flush(img), j);
    FindsOwn(Flush(img).segments, j);
    FileOf(Flush(img).segments, Flush(img).payloads, j);
    FilesAre(img);
    FoundIntro(img, FilesOf(img), j);
  }

  lemma FlushedSegment(f: Image, j: nat)
    requires f.current.None? && j < Count(f)
    ensures Count(f) == |f.segments| && SegmentId(f, j) == f.segments[j].id && TensorIds(f, j) == f.segments[j].tensorIds
  {
  }

  lemma FilesAre(img: Image)
    requires |Flush(img).payloads| == |Flush(img).segments|
    ensures FilesOf(img) == WriteFiles(Flush(img).segments, Flush(img).payloads)
  {
  }

  lemma FoundIntro(img: Image, files: map<string, Bytes>, j: nat)
    requires j < Count(img) && j < |ManifestOf(img).segments|
    requires ManifestOf(img).segments[j].tensorIds == TensorIds(img, j)
    requires FindSegment(ManifestOf(img).segments, SegmentId(img, j)) == Some(ManifestOf(img).segments[j])
    requires ManifestOf(img).segments[j].filename in files
    ensures Found(img, files, j)
  {
    hide ManifestOf, FindSegment;
  }

  /** The arrays of the checkpoint's tensors: the bytes, in the storage type and the shape that the
      checkpoint has them in. */
  function LoadedFrom<A>(names: seq<string>, sources: Sources, convert: Convert<A>): (ts: seq<R.Tensor<A>>)
    ensures NamesIn(ts) == names
  {
    seq(|names|, i requires 0 <= i < |names| => R.Tensor(names[i], LoadedTensor(sources, names[i], convert)))
  }

  function LoadedTensor<A>(sources: Sources, name: string, convert: Convert<A>): Option<A> {
    if name in sources then convert(sources[name].data, sources[name].dtype, sources[name].shape) else None
  }

  /** Entry k reads as its tensor in the checkpoint. */
  ghost predicate Reads(img: Image, files: map<string, Bytes>, sources: Sources, k: nat)
    requires k < |img.tensors|
  {
    var t := img.tensors[k];
    && FindTensor(img.tensors, k) == Some(t)
    && I.FromCheckpoint(t, sources)
    && ReadTensor(ManifestOf(img), files, t) == Some(sources[t.info.name].data)
  }

  /** The runtime loads the tensors of segment j as the checkpoint has them. */
  lemma SegmentLoads<A>(img: Image, given: seq<Bytes>, sources: Sources, j: nat, convert: Convert<A>)
    requires Inv(img, given) && Sound(img) && Distinct(SegmentIds(img)) && j < Count(img)
    requires |Flush(img).payloads| == |Flush(img).segments|
    requires forall k: nat :: k < |img.tensors| ==> Reads(img, FilesOf(img), sources, k)
    ensures SegmentTensors(ManifestOf(img), FilesOf(img), SegmentId(img, j), convert)
         == LoadedFrom(Groups(img)[j], sources, convert)
  {
    hide *;
    SegmentFound(img, given, j);
    TableFacts(img, given);
    SoundIds(img, j);
    FoundLoads(img, FilesOf(img), sources, j, convert);
  }

  lemma SoundIds(img: Image, j: nat)
    requires Sound(img) && j < Count(img)
    ensures var ids := TensorIds(img, j);
      forall i :: 0 <= i < |ids| ==> ids[i] < |img.tensors| && img.tensors[ids[i]].segment == SegmentId(img, j)
  {
    assert Owns(img.tensors, TensorIds(img, j), SegmentId(img, j));
  }

  lemma FoundLoads<A>(img: Image, files: map<string, Bytes>, sources: Sources, j: nat, convert: Convert<A>)
    requires j < Count(img) && Found(img, files, j) && ManifestOf(img).tensors == img.tensors
    requires forall k: nat :: k < |img.tensors| ==> Reads(img, files, sources, k)
    requires var ids := TensorIds(img, j);
      forall i :: 0 <= i < |ids| ==> ids[i] < |img.tensors| && img.tensors[ids[i]].segment == SegmentId(img, j)
    ensures SegmentTensors(ManifestOf(img), files, SegmentId(img, j), convert) == LoadedFrom(Groups(img)[j], sources, convert)
  {
    hide ManifestOf, FindSegment, FindTensor, SliceTensor, TensorIds, SegmentId, Reads, Load, LoadedTensor;
    var ids, m := TensorIds(img, j), ManifestOf(img);
    var ts := SegmentTensors(m, files, SegmentId(img, j), convert);
    var payload := files[m.segments[j].filename];
    assert |ts| == |ids| && Groups(img)[j] == NamesOf(img.tensors, ids);
    forall i | 0 <= i < |ids|
      ensures ts[i] == R.Tensor(img.tensors[ids[i]].info.name, LoadedTensor(sources, img.tensors[ids[i]].info.name, convert))
    {
      EntryLoaded(img, files, sources, j, ids[i], convert);
    }
  }

  lemma EntryLoaded<A>(img: Image, files: map<string, Bytes>, sources: Sources, j: nat, k: nat, convert: Convert<A>)
    requires j < Count(img) && Found(img, files, j) && ManifestOf(img).tensors == img.tensors
    requires k < |img.tensors| && Reads(img, files, sources, k) && img.tensors[k].segment == SegmentId(img, j)
    ensures var t, m := img.tensors[k], ManifestOf(img);
      Load(m, files[m.segments[j].filename], k, convert) == R.Tensor(t.info.name, LoadedTensor(sources, t.info.name, convert))
  {
    hide ManifestOf, FindSegment, FindTensor, SliceTensor, TensorIds, SegmentId;
  }

  // ---------------------------------------------------------------------
  // What an emitted image gives the runtime
  // ---------------------------------------------------------------------

  lemma {:induction false} FirstIsResident(segments: seq<Segment>)
    requires segments != [] && !segments[0].kind.Layer?
    requires forall j :: 0 < j < |segments| ==> segments[j].kind.Layer?
    ensures Residents(segments, false) == [segments[0].id]
    decreases |segments|
  {
    if |segments| == 1 {
      assert Front(segments) == [] && Residents([], false) == [];
    } else {
      FirstIsResident(Front(segments));
    }
  }

  lemma PersistentOnly(img: Image, given: seq<Bytes>, layers: seq<LayerSpec>)
    requires Inv(img, given) && Sound(img) && Kinds(img) == [Persistent] + LayerKinds(layers)
    ensures ManifestOf(img).persistentIds == [SegmentId(img, 0)]
  {
    FlushKeeps(img, given);
    InvParts(img, given);
    InvParts(Flush(img), given);
    ManifestTables(img);
    FlushViews(img);
    FlushCloses(img);
    hide Inv, ManifestOf, Stored, AllTile, AllIds, SumSizes, SumLengths;
    var f := Flush(img);
    FlushedKinds(img);
    FirstIsResident(f.segments);
    FlushedSegment(f, 0);
    ResidentList(f);
  }

  lemma ResidentList(f: Image)
    requires Shape(f)
    ensures f.persistentIds == Residents(f.segments, false)
  {
    hide SegmentFile, Residents;
  }

  lemma FlushedKinds(img: Image)
    requires img.current.Some?
    ensures |Flush(img).segments| == |Kinds(img)|
    ensures forall j :: 0 <= j < |Kinds(img)| ==> Flush(img).segments[j].kind == Kinds(img)[j]
  {
  }

  /** The image that the compiler emits for an architecture and a checkpoint. */
  ghost predicate Emits(arch: TextArchitecture, ns: NamespaceBinding, q: Option<QuantizationMeta>, sources: Sources, e: Emitted) {
    Packable(Bits(q), GroupSize(q)) && EmitSpec(SpecOf(arch, ns.root, q), ns, sources) == Some(e)
  }

  /** The runtime keeps the global tensors resident and leases the tensors of layer l, each with
      scales and biases, as the arrays of the checkpoint's bytes in the checkpoint's storage type
      and shape; no name twice among the resident ones. */
  lemma {:induction false} RuntimeTensors<A>(arch: TextArchitecture, ns: NamespaceBinding, q: Option<QuantizationMeta>,
                                             sources: Sources, e: Emitted, convert: Convert<A>)
    requires Emits(arch, ns, q, sources, e)
    ensures |Flush(e.img).payloads| == |Flush(e.img).segments|
    ensures var m, files, spec := ManifestOf(e.img), FilesOf(e.img), SpecOf(arch, ns.root, q);
      && Resident(m, files, m.persistentIds, convert) == LoadedFrom(Needed(spec.globalTensors), sources, convert)
      && Distinct(Needed(spec.globalTensors))
      && |spec.layers| == |arch.layerTypes|
      && forall l: nat :: l < |spec.layers| ==>
           SegmentTensors(m, files, LayerSegment(l), convert) == LoadedFrom(Needed(spec.layers[l].tensors), sources, convert)
  {
    hide *;
    EmitsIs(arch, ns, q, sources, e);
    var m, spec := ManifestOf(e.img), SpecOf(arch, ns.root, q);
    var given := ImageEmitted(arch, ns, q, sources);
    EmittedParts(arch, ns.root, q, sources, e, given);
    EInvOpen(e, given, sources);
    ImageSegmentsDistinct(|arch.layerTypes|);
    EmittedGroups(arch, ns, q, sources, e);
    PersistentOnly(e.img, given, spec.layers);
    SpecLayers(arch, ns.root, q);
    IdsAre(e.img, |arch.layerTypes|);
    EntriesRead(arch, ns, q, sources, e, given);
    SegmentLoads(e.img, given, sources, 0, convert);
    OneResident(m, FilesOf(e.img), PERSISTENT, convert);
    BindingsDistinct(arch, ns.root, q);
    AllBindingsAre(spec);
    NeededConcat(spec.globalTensors, LayerBindings(spec.layers));
    DistinctParts(Needed(spec.globalTensors), Needed(LayerBindings(spec.layers)));
    forall l: nat | l < |spec.layers|
      ensures SegmentTensors(m, FilesOf(e.img), LayerSegment(l), convert)
           == LoadedFrom(Needed(spec.layers[l].tensors), sources, convert)
    {
      SegmentLoads(e.img, given, sources, l + 1, convert);
      LayerNeedsAt(spec.layers, l);
    }
  }

  lemma EntriesRead(arch: TextArchitecture, ns: NamespaceBinding, q: Option<QuantizationMeta>, sources: Sources,
                    e: Emitted, given: seq<Bytes>)
    requires Packable(Bits(q), GroupSize(q)) && EmitSpec(SpecOf(arch, ns.root, q), ns, sources) == Some(e)
    requires Inv(e.img, given)
    ensures |Flush(e.img).payloads| == |Flush(e.img).segments|
    ensures forall k: nat :: k < |e.img.tensors| ==> Reads(e.img, FilesOf(e.img), sources, k)
  {
    hide *;
    Q.QuantizedTensorsLoad(arch, ns, q, sources, e);
    I.EntriesExplained(arch, ns, q, sources, e);
    TableFacts(e.img, given);
    FilesAre(e.img);
    var spec := SpecOf(arch, ns.root, q);
    forall k: nat | k < |e.img.tensors|
      ensures Reads(e.img, FilesOf(e.img), sources, k)
    {
      FindEntry(e.img.tensors, k);
      ReadsIntro(e.img, sources, spec, k);
    }
  }

  lemma ReadsIntro(img: Image, sources: Sources, spec: ExecutionSpec, k: nat)
    requires |Flush(img).payloads| == |Flush(img).segments| && k < |img.tensors| && ManifestOf(img).tensors == img.tensors
    requires Q.EntryComplete(img, sources, k) && I.Explained(img.tensors[k], sources, spec.globalTensors, spec.layers)
    requires FindTensor(img.tensors, k) == Some(img.tensors[k])
    ensures Reads(img, FilesOf(img), sources, k)
  {
    hide ManifestOf, ReadTensor, WriteFiles, Flush, Stem, I.FromCheckpoint, FindTensor;
  }

  lemma EmitsIs(arch: TextArchitecture, ns: NamespaceBinding, q: Option<QuantizationMeta>, sources: Sources, e: Emitted)
    requires Emits(arch, ns, q, sources, e)
    ensures Packable(Bits(q), GroupSize(q)) && EmitSpec(SpecOf(arch, ns.root, q), ns, sources) == Some(e)
  {
  }

  lemma IdsAre(img: Image, n: nat)
    requires SegmentIds(img) == [PERSISTENT] + LayerSegments(n)
    ensures Count(img) == 1 + n && SegmentId(img, 0) == PERSISTENT
    ensures forall l: nat :: l < n ==> SegmentId(img, l + 1) == LayerSegment(l)
  {
    hide LayerSegment, PERSISTENT, SegmentId;
    assert SegmentIds(img)[0] == SegmentId(img, 0);
    forall l: nat | l < n
      ensures SegmentId(img, l + 1) == LayerSegment(l)
    {
      assert SegmentIds(img)[l + 1] == LayerSegments(n)[l];
    }
  }

  lemma LayerNeedsAt(layers: seq<LayerSpec>, l: nat)
    requires l < |layers|
    ensures |LayerNeeds(layers)| == |layers| && LayerNeeds(layers)[l] == Needed(layers[l].tensors)
  {
  }

  lemma OneResident<A>(m: Manifest, files: map<string, Bytes>, id: string, convert: Convert<A>)
    ensures Resident(m, files, [id], convert) == SegmentTensors(m, files, id, convert)
  {
    assert Front([id]) == [] && Resident(m, files, [], convert) == [];
  }

  // ---------------------------------------------------------------------
  // A whole run
  // ---------------------------------------------------------------------

  lemma {:induction false} UniqueNames<A>(ts: seq<R.Tensor<A>>)
    requires Distinct(NamesIn(ts))
    ensures |R.Names(ts)| == |ts|
  {
    if ts != [] {
      var names := NamesIn(ts);
      assert NamesIn(Front(ts)) == Front(names);
      UniqueNames(Front(ts));
      R.NamesStep(ts);
      assert forall k :: 0 <= k < |ts| ==> names[k] == ts[k].name;
      assert forall k :: 0 <= k < |ts| - 1 ==> names[k] != names[|ts| - 1];
      assert forall t :: t in Front(ts) ==> t.name != Last(ts).name;
    }
  }

  lemma StopsAtEnd<A>(layers: seq<seq<R.Tensor<A>>>, runs: nat -> bool)
    ensures R.StopsAt(layers, runs, 0) == |layers| <==> forall l: nat :: l < |layers| ==> R.AllLoad(layers[l]) && runs(l)
  {
    hide R.AllLoad;
  }

  /** What the runtime loads for each layer of a plan. */
  function Leased<A>(m: Manifest, files: map<string, Bytes>, plan: ModelExecutionPlan, convert: Convert<A>): seq<seq<R.Tensor<A>>> {
    seq(|plan.layers|, l requires 0 <= l < |plan.layers| =>
      SegmentTensors(m, files, LayerSegment(plan.layers[l].index), convert))
  }

  /** The lookups of layer l, among its own tensors and the resident ones. */
  predicate LayerRuns(plan: ModelExecutionPlan, own: seq<string>, resident: seq<string>, l: nat)
    requires l < |plan.layers|
  {
    AllFound(LayerLookups(plan.layers[l].index, plan.layers[l].kind == FULL), own + resident)
  }

  lemma MoreFound(lookups: seq<string>, own: seq<string>, resident: seq<string>)
    requires AllFound(lookups, own)
    ensures AllFound(lookups, own + resident)
  {
  }

  /** What a run asks of an image before, while and after its layers run. */
  lemma {:induction false} RunFinds<A>(arch: TextArchitecture, ns: NamespaceBinding, q: Option<QuantizationMeta>,
                                       sources: Sources, e: Emitted, convert: Convert<A>)
    requires Emits(arch, ns, q, sources, e)
    ensures |Flush(e.img).payloads| == |Flush(e.img).segments|
    ensures var m, files, plan := ManifestOf(e.img), FilesOf(e.img), ExecutionPlanOf(arch, ns, e.ids);
      var resident, layers := Resident(m, files, m.persistentIds, convert), Leased(m, files, plan, convert);
      && |R.Names(resident)| == |resident| && |layers| == |plan.layers| == |arch.layerTypes|
      && (AllFound(EmbeddingLookups(), NamesIn(resident)) <==> ns.root == RUN_ROOT && q.Some?)
      && (GlobalName(RUN_ROOT, NORM) in NamesIn(resident) <==> ns.root == RUN_ROOT)
      && (forall l: nat :: l < |layers| ==>
            (LayerRuns(plan, NamesIn(layers[l]), NamesIn(resident), l)
             <==> AllFound(LayerLookups(l, arch.layerTypes[l].FullAttention?), NamesIn(layers[l]) + NamesIn(resident))))
      && (ns.root == RUN_ROOT ==>
            forall l: nat :: l < |layers| ==> LayerRuns(plan, NamesIn(layers[l]), NamesIn(resident), l))
  {
    hide *;
    RuntimeTensors(arch, ns, q, sources, e, convert);
    EmitsIs(arch, ns, q, sources, e);
    LookupsSucceedIff(arch, ns.root, q);
    var m, files, plan, spec := ManifestOf(e.img), FilesOf(e.img), ExecutionPlanOf(arch, ns, e.ids), SpecOf(arch, ns.root, q);
    var resident, layers := Resident(m, files, m.persistentIds, convert), Leased(m, files, plan, convert);
    UniqueNames(resident);
    PlanLayers(arch, ns, e.ids);
    LeasedCount(m, files, plan, convert);
    forall l: nat | l < |layers|
      ensures LayerRuns(plan, NamesIn(layers[l]), NamesIn(resident), l)
         <==> AllFound(LayerLookups(l, arch.layerTypes[l].FullAttention?), NamesIn(layers[l]) + NamesIn(resident))
      ensures ns.root == RUN_ROOT ==> LayerRuns(plan, NamesIn(layers[l]), NamesIn(resident), l)
    {
      LayerRunsIs(plan, NamesIn(layers[l]), NamesIn(resident), l);
      if ns.root == RUN_ROOT {
        MoreFound(LayerLookups(l, arch.layerTypes[l].FullAttention?), NamesIn(layers[l]), NamesIn(resident));
      }
    }
  }

  lemma PlanLayers(arch: TextArchitecture, ns: NamespaceBinding, ids: map<string, nat>)
    ensures var plan := ExecutionPlanOf(arch, ns, ids);
      |plan.layers| == |arch.layerTypes| && forall l: nat :: l < |plan.layers| ==>
        plan.layers[l].index == l && (plan.layers[l].kind == FULL <==> arch.layerTypes[l].FullAttention?)
  {
    hide LayerPlanOf, PrologueOf, EpilogueOf;
    forall l: nat | l < |arch.layerTypes|
      ensures var p := LayerPlanOf(arch, ns.root, ids, l); p.index == l && (p.kind == FULL <==> arch.layerTypes[l].FullAttention?)
    {
      LayerPlanFields(arch, ns.root, ids, l, QProjId);
    }
  }

  lemma LeasedCount<A>(m: Manifest, files: map<string, Bytes>, plan: ModelExecutionPlan, convert: Convert<A>)
    ensures var layers := Leased(m, files, plan, convert);
      && |layers| == |plan.layers|
      && forall l: nat :: l < |layers| ==> layers[l] == SegmentTensors(m, files, LayerSegment(plan.layers[l].index), convert)
  {
    hide SegmentTensors, LayerSegment;
  }

  lemma LayerRunsIs(plan: ModelExecutionPlan, own: seq<string>, resident: seq<string>, l: nat)
    requires l < |plan.layers|
    ensures LayerRuns(plan, own, resident, l)
       <==> AllFound(LayerLookups(plan.layers[l].index, plan.layers[l].kind == FULL), own + resident)
  {
    hide AllFound, LayerLookups;
  }

  /** A run stops at the same layer if the layers run alike. */
  lemma {:induction false} SameStop<A>(layers: seq<seq<R.Tensor<A>>>, runs: nat -> bool, executes: nat -> bool, l: nat)
    requires l <= |layers| && forall k: nat :: k < |layers| ==> runs(k) == executes(k)
    ensures R.StopsAt(layers, runs, l) == R.StopsAt(layers, executes, l)
    decreases |layers| - l
  {
    hide R.AllLoad;
    if l < |layers| {
      SameStop(layers, runs, executes, l + 1);
    }
  }

  /** Open an emitted image and run the whole model. `prologueOk`, `executes(l)` and `epilogueOk`
      are the outcomes of the executor on the tensors it is given. The run succeeds exactly when the
      checkpoint has the root that the run assumes, the plan passes its validator, every tensor
      loads, and the executor does its part; and then the live handles are those before. At the
      boundaries of the layers they are those before and the resident ones. With another root the
      run fails before the first layer, and leaves the resident tensors live. */
  method RunImage<A>(registry: ArrayRegistry<A>, m: Manifest, files: map<string, Bytes>, plan: ModelExecutionPlan,
                     convert: Convert<A>, prologueOk: bool, executes: nat -> bool, epilogueOk: bool,
                     ghost arch: TextArchitecture, ghost ns: NamespaceBinding, ghost q: Option<QuantizationMeta>,
                     ghost sources: Sources, ghost e: Emitted)
    returns (ok: bool, ghost boundaries: seq<map<Handle, A>>)
    requires Emits(arch, ns, q, sources, e) && |Flush(e.img).payloads| == |Flush(e.img).segments|
    requires m == ManifestOf(e.img) && files == FilesOf(e.img) && plan == ExecutionPlanOf(arch, ns, e.ids)
    requires registry.Valid()
    requires |registry.Live()| + |Resident(m, files, m.persistentIds, convert)| < U32_LIMIT
    requires var resident, layers := Resident(m, files, m.persistentIds, convert), Leased(m, files, plan, convert);
      forall l :: 0 <= l < |layers| ==> |registry.Live()| + |resident| + |layers[l]| < U32_LIMIT
    modifies registry
    ensures registry.Valid()
    ensures var resident, layers := Resident(m, files, m.persistentIds, convert), Leased(m, files, plan, convert);
      var begins := ns.root == RUN_ROOT && PlanConditions(arch, q) && R.AllLoad(resident) && prologueOk;
      && (ok <==> begins && (forall l: nat :: l < |layers| ==> R.AllLoad(layers[l]) && executes(l)) && epilogueOk)
      && |boundaries| == (if begins then 1 + R.StopsAt(layers, executes, 0) else 0)
      && (forall k :: 0 <= k < |boundaries| ==> R.Holding(old(registry.Live()), boundaries[k], resident))
      && (!R.AllLoad(resident) ==> |registry.Live()| == |old(registry.Live())| + R.Loadable(resident))
      && (R.AllLoad(resident) && !begins ==> |registry.Live()| == |old(registry.Live())| + |resident|)
      && (begins && !ok ==> |registry.Live()| == |old(registry.Live())| + |resident| + R.Leaks(layers, executes))
    ensures ok ==> registry.Live() == old(registry.Live())
    ensures forall h :: h in old(registry.Live()) ==> h in registry.Live() && registry.Live()[h] == old(registry.Live())[h]
  {
    hide *;
    RunFinds(arch, ns, q, sources, e, convert);
    EmitsIs(arch, ns, q, sources, e);
    PlanAccepted(arch, ns, q, sources, e);
    var resident, layers := Resident(m, files, m.persistentIds, convert), Leased(m, files, plan, convert);
    var names := NamesIn(resident);
    var errors := Validate(plan);
    ValidatorAccepts(plan, errors);
    PlanConditionsQuantized(arch, q);
    var begins := errors == [] && AllFound(EmbeddingLookups(), names) && prologueOk;
    var runs := (l: nat) => l < |plan.layers| && l < |layers| && LayerRuns(plan, NamesIn(layers[l]), names, l) && executes(l);
    StopsAtEnd(layers, runs);
    if ns.root == RUN_ROOT {
      SameStop(layers, runs, executes, 0);
      SameLeaks(layers, runs, executes);
    }
    ok, boundaries := R.OpenAndRun(registry, resident, layers, begins, runs, GlobalName(RUN_ROOT, NORM) in names && epilogueOk);
  }

  lemma SameLeaks<A>(layers: seq<seq<R.Tensor<A>>>, runs: nat -> bool, executes: nat -> bool)
    requires R.StopsAt(layers, runs, 0) == R.StopsAt(layers, executes, 0)
    ensures R.Leaks(layers, runs) == R.Leaks(layers, executes)
  {
    hide R.StopsAt, R.AllLoad, R.Loadable;
  }

  lemma ValidatorAccepts(plan: ModelExecutionPlan, errors: seq<PlanError>)
    requires forall err :: err in errors <==> Violates(plan, err)
    ensures errors == [] <==> Accepted(plan)
  {
    hide Violates;
    if errors != [] {
      assert errors[0] in errors;
    }
  }

  lemma PlanConditionsQuantized(arch: TextArchitecture, q: Option<QuantizationMeta>)
    ensures PlanConditions(arch, q) ==> q.Some?
  {
  }
}
