// The files that the pipeline leaves against the files of the sequential compiler
// (compile_pipeline.rs, compute_image.rs).
module PlannedFiles {
  import opened Common
  import opened Naming
  import opened Config
  import opened ImageBuilder
  import opened Emission
  import opened Compiler
  import opened PlannedSizes
  import P = Plan
  import L = Pipeline

  // ---------------------------------------------------------------------
  // Reading the shards
  // ---------------------------------------------------------------------

  /** The data section of each shard file. */
  type Shards = map<string, Bytes>

  /** Every tensor of the checkpoint lies in its shard at its offset. */
  ghost predicate Sharded(sources: Sources, shards: Shards) {
    forall n :: n in sources ==> Lies(sources[n], shards)
  }

  predicate Lies(t: SourceTensor, shards: Shards) {
    && t.filename in shards && t.offset + |t.data| <= |shards[t.filename]|
    && shards[t.filename][t.offset..t.offset + |t.data|] == t.data
  }

  /** The bytes of a unit: `length` bytes of its shard from its source offset. */
  function ReadUnit(shards: Shards, u: L.RelocationUnit): Bytes {
    if u.shard in shards && u.sourceOffset + u.length <= |shards[u.shard]| then
      shards[u.shard][u.sourceOffset..u.sourceOffset + u.length]
    else L.Zeros(u.length)
  }

  ghost predicate ReadsShards(c: L.Setup, shards: Shards) {
    forall u :: c.payload(u) == ReadUnit(shards, u)
  }

  lemma ReadUnitAt(shards: Shards, u: L.RelocationUnit)
    ensures u.shard in shards && u.sourceOffset + u.length <= |shards[u.shard]| ==>
      ReadUnit(shards, u) == shards[u.shard][u.sourceOffset..u.sourceOffset + u.length]
    ensures |ReadUnit(shards, u)| == u.length
  {
  }

  /** For every plan of the planner: reading each unit where the plan says gives the checkpoint's data
      of the unit's name. */
  lemma {:induction false} PlanReadsCheckpoint(c: L.Setup, spec: ExecutionSpec, sources: Sources, shards: Shards)
    requires P.PlanOf(c.plan, spec, sources) && Sharded(sources, shards) && ReadsShards(c, shards)
    ensures FromCheckpoint(c, sources)
  {
    var table, items := c.plan.table, P.AllItems(spec);
    hide P.AllItems, P.SegmentBytes, P.SegmentTensors, P.SegmentNames, P.SumSizes, SegmentFile;
    forall k | 0 <= k < |table|
      ensures c.payload(L.ToUnit(table[k])) == DataOf(sources, table[k].name)
    {
      assert table[k] == P.PlaceAt(sources, items[k], k, P.SegmentBytes(table[..k], items[k].segment));
      ReadUnitAt(shards, L.ToUnit(table[k]));
      assert table[k].name in sources ==> Lies(sources[table[k].name], shards);
    }
  }

  // ---------------------------------------------------------------------
  // What the pipeline writes
  // ---------------------------------------------------------------------

  /** Each unit's payload is the data of its name. */
  ghost predicate FromCheckpoint(c: L.Setup, sources: Sources) {
    forall k :: 0 <= k < |c.plan.table| ==> c.payload(L.ToUnit(c.plan.table[k])) == DataOf(sources, c.plan.table[k].name)
  }

  lemma {:induction false} PayloadIsItemData(c: L.Setup, table: seq<P.PlannedTensor>, units: seq<L.RelocationUnit>,
                                             items: seq<P.Item>, sources: Sources, id: string)
    requires P.Places(table, items, sources) && |units| == |table|
    requires forall k :: 0 <= k < |table| ==>
      units[k] == L.ToUnit(table[k]) && c.payload(units[k]) == DataOf(sources, table[k].name)
    ensures L.SegmentPayload(c, units, id) == ItemData(items, sources, id)
    decreases |table|
  {
    if table != [] {
      hide L.SegmentPayload, ItemData, DataOf, P.Places;
      FrontPlaces(table, items, sources);
      PayloadIsItemData(c, Front(table), Front(units), Front(items), sources, id);
      PlacedLast(table, items, sources);
      L.PayloadStep(c, units, id);
      ItemStep(items, sources, id);
    }
  }

  lemma PlacedLast(table: seq<P.PlannedTensor>, items: seq<P.Item>, sources: Sources)
    requires table != [] && P.Places(table, items, sources)
    ensures items != [] && Last(table).name == Last(items).binding.name && Last(table).segment == Last(items).segment
  {
    hide P.SegmentBytes;
    var k := |table| - 1;
    assert table[k] == P.PlaceAt(sources, items[k], k, P.SegmentBytes(table[..k], items[k].segment));
  }

  lemma ItemStep(items: seq<P.Item>, sources: Sources, id: string)
    requires items != []
    ensures ItemData(items, sources, id)
         == ItemData(Front(items), sources, id)
            + if Last(items).segment == id then DataOf(sources, Last(items).binding.name) else []
  {
  }

  /** What a successful pipeline leaves in the file of segment j. */
  lemma PipelineFile(c: L.Setup, disk: map<string, Bytes>, s: L.State, o: L.Outcome, spec: ExecutionSpec, sources: Sources, j: nat)
    requires L.FilesFollowPlan(c, disk, s, o) && P.PlanOf(c.plan, spec, sources) && P.Numbered(spec)
    requires FromCheckpoint(c, sources) && j < 1 + |spec.layers|
    ensures SegmentFile(j) in s.store.files && s.store.files[SegmentFile(j)] == OwnData(sources, Group(spec, j))
  {
    hide *;
    var p := c.plan;
    PlanSegments(p, spec, sources);
    PlannedSizesAre(p, spec, sources, j);
    L.FileIs(c, disk, s, o, j);
    PlanPlaces(p, spec, sources);
    P.PlanIsDense(p, spec, sources);
    L.PhysicalOfPlan(p.table);
    UnitsRead(c, sources);
    PayloadIsItemData(c, p.table, L.Physical(p.table), P.AllItems(spec), sources, p.segments[j].id);
    GroupData(spec, sources, j);
  }

  lemma PlanPlaces(p: P.CompilationPlan, spec: ExecutionSpec, sources: Sources)
    requires P.PlanOf(p, spec, sources)
    ensures P.Places(p.table, P.AllItems(spec), sources)
  {
  }

  lemma UnitsRead(c: L.Setup, sources: Sources)
    requires FromCheckpoint(c, sources)
    ensures forall k :: 0 <= k < |c.plan.table| ==> c.payload(L.ToUnit(c.plan.table[k])) == DataOf(sources, c.plan.table[k].name)
  {
  }

  lemma {:induction false} GatheredIsOwnIff(sources: Sources, bs: seq<TensorBinding>)
    ensures Gathered(sources, bs) == OwnData(sources, bs) <==> Parts(sources, bs) == 0
  {
    GatheredSize(sources, bs);
    OwnSize(sources, bs);
    if Parts(sources, bs) == 0 {
      NoPartsData(sources, bs);
    }
  }

  lemma {:induction false} NoPartsData(sources: Sources, bs: seq<TensorBinding>)
    requires Parts(sources, bs) == 0
    ensures Gathered(sources, bs) == OwnData(sources, bs)
  {
    if bs != [] {
      hide PartsData, DataOf;
      NoPartsData(sources, Front(bs));
    }
  }

  /** What the sequential compiler writes to the file of segment j. */
  lemma CompilerFiles(arch: TextArchitecture, ns: NamespaceBinding, q: Option<QuantizationMeta>, sources: Sources, e: Emitted)
    requires Packable(Bits(q), GroupSize(q))
    requires EmitSpec(SpecOf(arch, ns.root, q), ns, sources) == Some(e)
    ensures |Flush(e.img).payloads| == |Flush(e.img).segments|
    ensures var spec, files := SpecOf(arch, ns.root, q), WriteFiles(Flush(e.img).segments, Flush(e.img).payloads);
      && (forall f :: f in files <==> IsFile(spec, f))
      && forall j: nat :: j < 1 + |spec.layers| ==>
           SegmentFile(j) in files && files[SegmentFile(j)] == Gathered(sources, Group(spec, j))
  {
    var spec := SpecOf(arch, ns.root, q);
    hide *;
    var given := ImageEmitted(arch, ns, q, sources);
    EmittedParts(arch, ns.root, q, sources, e, given);
    EInvOpen(e, given, sources);
    ManifestSizes(e.img, given);
    ManifestTables(e.img);
    SpecDatas(arch, ns, q, sources, e);
    GroupDatas(spec, sources, Datas(e.img));
    FilesAt(spec, sources, Flush(e.img).segments, Flush(e.img).payloads);
  }

  ghost predicate IsFile(spec: ExecutionSpec, f: string) {
    exists j: nat :: j < 1 + |spec.layers| && f == SegmentFile(j)
  }

  lemma FilesAt(spec: ExecutionSpec, sources: Sources, segments: seq<Segment>, payloads: seq<Bytes>)
    requires |segments| == |payloads| == 1 + |spec.layers|
    requires forall j :: 0 <= j < |segments| ==> segments[j].filename == SegmentFile(j)
    requires forall j: nat :: j < |payloads| ==> payloads[j] == Gathered(sources, Group(spec, j))
    ensures var files := WriteFiles(segments, payloads);
      && (forall f :: f in files <==> IsFile(spec, f))
      && forall j: nat :: j < 1 + |spec.layers| ==>
           SegmentFile(j) in files && files[SegmentFile(j)] == Gathered(sources, Group(spec, j))
  {
    hide SegmentFile, Gathered, Group, WriteFiles;
    var files := WriteFiles(segments, payloads);
    forall j: nat | j < |segments|
      ensures SegmentFile(j) in files && files[SegmentFile(j)] == payloads[j]
    {
      FileOf(segments, payloads, j);
    }
    forall f
      ensures f in files <==> IsFile(spec, f)
    {
      FileNames(segments, payloads, f);
    }
  }

  lemma {:induction false} FileNames(segments: seq<Segment>, payloads: seq<Bytes>, f: string)
    requires |segments| == |payloads|
    ensures f in WriteFiles(segments, payloads) <==> exists j: nat :: j < |segments| && segments[j].filename == f
  {
    if segments != [] {
      var n := |segments| - 1;
      FileNames(Front(segments), Front(payloads), f);
      assert f in WriteFiles(segments, payloads) <==> f in WriteFiles(Front(segments), Front(payloads)) || f == segments[n].filename;
      assert forall j: nat :: j < n ==> Front(segments)[j] == segments[j];
      if f in WriteFiles(Front(segments), Front(payloads)) {
        var j: nat :| j < n && Front(segments)[j].filename == f;
        assert segments[j].filename == f;
      }
    }
  }

  /** End to end: a successful pipeline run over the planner's plan writes every file of the
      sequential compiler; and it leaves the same bytes in all of them if and only if no packed
      matrix has scales or biases to store. */
  lemma {:induction false} PipelineMatchesCompilerIff(c: L.Setup, disk: map<string, Bytes>, acts: seq<L.Action>,
                                                      arch: TextArchitecture, ns: NamespaceBinding,
                                                      q: Option<QuantizationMeta>, sources: Sources, e: Emitted,
                                                      shards: Shards)
    requires Packable(Bits(q), GroupSize(q))
    requires EmitSpec(SpecOf(arch, ns.root, q), ns, sources) == Some(e)
    requires c.capacity >= 1 && P.PlanOf(c.plan, SpecOf(arch, ns.root, q), sources)
    requires Sharded(sources, shards) && ReadsShards(c, shards)
    requires L.Run(c, disk, acts).Some? && L.Success(L.Run(c, disk, acts).value)
    ensures |Flush(e.img).payloads| == |Flush(e.img).segments|
    ensures var written, files := L.Run(c, disk, acts).value.store.files, WriteFiles(Flush(e.img).segments, Flush(e.img).payloads);
      && files.Keys <= written.Keys
      && ((forall f :: f in files ==> written[f] == files[f]) <==> !HasParts(SpecOf(arch, ns.root, q), sources))
  {
    hide *;
    var spec, s := SpecOf(arch, ns.root, q), L.Run(c, disk, acts).value;
    SpecNumbered(arch, ns.root, q);
    ShardsAreValid(c, shards);
    PlanReadsCheckpoint(c, spec, sources, shards);
    L.PlannedImageOnDisk(c, disk, acts, spec, sources);
    L.SuccessEnds(s);
    CompilerFiles(arch, ns, q, sources, e);
    forall j: nat | j < 1 + |spec.layers|
      ensures SegmentFile(j) in s.store.files && s.store.files[SegmentFile(j)] == OwnData(sources, Group(spec, j))
    {
      PipelineFile(c, disk, s, L.OutcomeOf(c, s), spec, sources, j);
    }
    SameFilesIff(spec, sources, s.store.files, WriteFiles(Flush(e.img).segments, Flush(e.img).payloads));
  }

  lemma ShardsAreValid(c: L.Setup, shards: Shards)
    requires c.capacity >= 1 && ReadsShards(c, shards)
    ensures L.ValidSetup(c)
  {
    forall u
      ensures |c.payload(u)| == u.length
    {
      ReadUnitAt(shards, u);
      assert c.payload(u) == ReadUnit(shards, u);
    }
  }

  lemma SameFilesIff(spec: ExecutionSpec, sources: Sources, written: map<string, Bytes>, files: map<string, Bytes>)
    requires forall f :: f in files <==> IsFile(spec, f)
    requires forall j: nat :: j < 1 + |spec.layers| ==>
      SegmentFile(j) in files && files[SegmentFile(j)] == Gathered(sources, Group(spec, j))
    requires forall j: nat :: j < 1 + |spec.layers| ==>
      SegmentFile(j) in written && written[SegmentFile(j)] == OwnData(sources, Group(spec, j))
    ensures files.Keys <= written.Keys
    ensures (forall f :: f in files ==> written[f] == files[f]) <==> !HasParts(spec, sources)
  {
    PartsSum(spec, sources);
    hide SegmentFile, Gathered, OwnData, Group, HasParts, Parts;
    forall j: nat | j < 1 + |spec.layers|
      ensures written[SegmentFile(j)] == files[SegmentFile(j)] <==> Parts(sources, Group(spec, j)) == 0
    {
      GatheredIsOwnIff(sources, Group(spec, j));
    }
  }
}
