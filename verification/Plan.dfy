// The relocation plan: a destination segment and offset for every tensor
// (`plan` in compute_image.rs).
module Plan {
  import opened Common
  import opened Naming
  import opened Config
  import opened Emission

  datatype Disposition =
    | AliasOnly(canonicalId: nat)
    | RelocateAndAlign
    | PreserveInPlace
    | CpuTransform(recipe: string)
    | GpuTransform(recipe: string)
    | CoreMlLoweringInput
    | DiscardWithReason(reason: string)

  datatype PlannedTensor = PlannedTensor(
    id: nat, name: string, disposition: Disposition, sourceShard: string, sourceOffset: nat, sourceLength: nat,
    segment: string, offset: nat, logicalDtype: string, logicalShape: seq<nat>)

  datatype PlannedSegment = PlannedSegment(id: string, filename: string, byteSize: nat, tensorCount: nat)

  datatype CompilationPlan = CompilationPlan(table: seq<PlannedTensor>, segments: seq<PlannedSegment>, imageBytes: nat)

  /** Bytes of the tensors of `table` that go to segment `id`. */
  function SegmentBytes(table: seq<PlannedTensor>, id: string): nat {
    if table == [] then 0
    else SegmentBytes(Front(table), id) + if Last(table).segment == id then Last(table).sourceLength else 0
  }

  function SegmentTensors(table: seq<PlannedTensor>, id: string): nat {
    if table == [] then 0
    else SegmentTensors(Front(table), id) + if Last(table).segment == id then 1 else 0
  }

  /** Each tensor starts where the earlier tensors of its segment end. */
  ghost predicate Dense(table: seq<PlannedTensor>) {
    forall k :: 0 <= k < |table| ==> table[k].offset == SegmentBytes(table[..k], table[k].segment)
  }

  // ---------------------------------------------------------------------
  // What is to be placed
  // ---------------------------------------------------------------------

  /** A binding and the segment it is planned into. */
  datatype Item = Item(binding: TensorBinding, segment: string)

  function ItemsOf(bs: seq<TensorBinding>, segment: string): seq<Item> {
    seq(|bs|, i requires 0 <= i < |bs| => Item(bs[i], segment))
  }

  function LayerItems(layers: seq<LayerSpec>): seq<Item> {
    if layers == [] then []
    else LayerItems(Front(layers)) + ItemsOf(Last(layers).tensors, LayerSegment(Last(layers).index))
  }

  function AllItems(spec: ExecutionSpec): seq<Item> {
    ItemsOf(spec.globalTensors, PERSISTENT) + LayerItems(spec.layers)
  }

  /** A tensor that is not in the checkpoint is planned with length 0. */
  function SourceLength(sources: Sources, name: string): nat {
    if name in sources then |sources[name].data| else 0
  }

  function PlaceAt(sources: Sources, item: Item, id: nat, offset: nat): PlannedTensor {
    var b := item.binding;
    if b.name in sources then
      var src := sources[b.name];
      PlannedTensor(id, b.name, RelocateAndAlign, src.filename, src.offset, |src.data|, item.segment, offset,
                    src.dtype, b.logicalShape)
    else
      PlannedTensor(id, b.name, RelocateAndAlign, "", 0, 0, item.segment, offset, "F32", b.logicalShape)
  }

  /** Row k of the table is item k, placed after the earlier rows of its segment. */
  ghost predicate Places(table: seq<PlannedTensor>, items: seq<Item>, sources: Sources) {
    && |table| == |items|
    && forall k :: 0 <= k < |table| ==>
         table[k] == PlaceAt(sources, items[k], k, SegmentBytes(table[..k], items[k].segment))
  }

  function SegmentNames(spec: ExecutionSpec): seq<string> {
    [PERSISTENT] + seq(|spec.layers|, i requires 0 <= i < |spec.layers| => LayerSegment(spec.layers[i].index))
  }

  /** What `plan` promises about its result. */
  ghost predicate PlanOf(p: CompilationPlan, spec: ExecutionSpec, sources: Sources) {
    && Places(p.table, AllItems(spec), sources)
    && |p.segments| == 1 + |spec.layers|
    && (forall j :: 0 <= j < |p.segments| ==>
         p.segments[j] == PlannedSegment(SegmentNames(spec)[j], SegmentFile(j),
                                         SegmentBytes(p.table, SegmentNames(spec)[j]),
                                         SegmentTensors(p.table, SegmentNames(spec)[j])))
    && p.imageBytes == SumSizes(p.segments)
  }

  function SumSizes(segments: seq<PlannedSegment>): nat {
    if segments == [] then 0 else SumSizes(Front(segments)) + Last(segments).byteSize
  }

  // ---------------------------------------------------------------------
  // The planner
  // ---------------------------------------------------------------------

  function Offset(offsets: map<string, nat>, id: string): nat {
    if id in offsets then offsets[id] else 0
  }

  ghost predicate OffsetsMatch(offsets: map<string, nat>, table: seq<PlannedTensor>) {
    forall id :: Offset(offsets, id) == SegmentBytes(table, id)
  }

  lemma OneMoreRow(table: seq<PlannedTensor>, items: seq<Item>, sources: Sources, offsets: map<string, nat>, item: Item)
    requires Places(table, items, sources) && OffsetsMatch(offsets, table)
    ensures var row := PlaceAt(sources, item, |table|, Offset(offsets, item.segment));
      && Places(table + [row], items + [item], sources)
      && OffsetsMatch(offsets[item.segment := Offset(offsets, item.segment) + row.sourceLength], table + [row])
  {
    var row := PlaceAt(sources, item, |table|, Offset(offsets, item.segment));
    PlacesMore(table, items, sources, item);
    PlacedRow(sources, item, |table|, Offset(offsets, item.segment));
    OffsetsMore(table, offsets, row);
  }

  lemma PlacedRow(sources: Sources, item: Item, id: nat, offset: nat)
    ensures PlaceAt(sources, item, id, offset).segment == item.segment
  {
  }

  lemma PlacesMore(table: seq<PlannedTensor>, items: seq<Item>, sources: Sources, item: Item)
    requires Places(table, items, sources)
    ensures Places(table + [PlaceAt(sources, item, |table|, SegmentBytes(table, item.segment))], items + [item], sources)
  {
    hide PlaceAt, SegmentBytes;
    var table' := table + [PlaceAt(sources, item, |table|, SegmentBytes(table, item.segment))];
    assert table'[..|table|] == table;
    assert forall k :: 0 <= k < |table| ==> table'[..k] == table[..k];
  }

  lemma OffsetsMore(table: seq<PlannedTensor>, offsets: map<string, nat>, row: PlannedTensor)
    requires OffsetsMatch(offsets, table)
    ensures OffsetsMatch(offsets[row.segment := Offset(offsets, row.segment) + row.sourceLength], table + [row])
  {
    AppendFrontLast(table, row);
    var offsets' := offsets[row.segment := Offset(offsets, row.segment) + row.sourceLength];
    forall id
      ensures Offset(offsets', id) == SegmentBytes(table + [row], id)
    {
      assert Offset(offsets, id) == SegmentBytes(table, id);
    }
  }

  /** Place the bindings of one segment after those already in the table. */
  method PlaceSegment(sources: Sources, bs: seq<TensorBinding>, segment: string,
                      table: seq<PlannedTensor>, offsets: map<string, nat>, ghost items: seq<Item>)
    returns (table': seq<PlannedTensor>, offsets': map<string, nat>)
    requires Places(table, items, sources) && OffsetsMatch(offsets, table)
    ensures Places(table', items + ItemsOf(bs, segment), sources) && OffsetsMatch(offsets', table')
  {
    hide Places, OffsetsMatch, PlaceAt;
    table', offsets' := table, offsets;
    assert items + ItemsOf(bs[..0], segment) == items;
    for i := 0 to |bs|
      invariant Places(table', items + ItemsOf(bs[..i], segment), sources)
      invariant OffsetsMatch(offsets', table')
    {
      var item := Item(bs[i], segment);
      var row := PlaceAt(sources, item, |table'|, Offset(offsets', item.segment));
      OneMoreRow(table', items + ItemsOf(bs[..i], segment), sources, offsets', item);
      assert items + ItemsOf(bs[..i + 1], segment) == items + ItemsOf(bs[..i], segment) + [item];
      table' := table' + [row];
      offsets' := offsets'[item.segment := Offset(offsets', item.segment) + row.sourceLength];
    }
    assert bs[..|bs|] == bs;
  }

  lemma LayerItemsStep(layers: seq<LayerSpec>, i: nat)
    requires i < |layers|
    ensures LayerItems(layers[..i + 1])
         == LayerItems(layers[..i]) + ItemsOf(layers[i].tensors, LayerSegment(layers[i].index))
  {
    assert Front(layers[..i + 1]) == layers[..i] && Last(layers[..i + 1]) == layers[i];
  }

  /** Fill the tensor table, and name the segments in the order they are opened. */
  method PlaceAll(spec: ExecutionSpec, sources: Sources)
    returns (table: seq<PlannedTensor>, offsets: map<string, nat>, names: seq<string>)
    ensures Places(table, AllItems(spec), sources) && OffsetsMatch(offsets, table)
    ensures names == SegmentNames(spec)
  {
    hide Places, OffsetsMatch, PlaceAt, LayerSegment;
    ghost var done := [];
    names := [PERSISTENT];
    assert Places([], [], sources) && OffsetsMatch(map[], []) by { NothingPlaced(sources); }
    table, offsets := PlaceSegment(sources, spec.globalTensors, PERSISTENT, [], map[], []);
    done := ItemsOf(spec.globalTensors, PERSISTENT);
    assert [] + done == done && done + LayerItems(spec.layers[..0]) == done;
    for i := 0 to |spec.layers|
      invariant Places(table, done + LayerItems(spec.layers[..i]), sources)
      invariant OffsetsMatch(offsets, table)
      invariant names == SegmentNames(spec)[..i + 1]
    {
      var l := spec.layers[i];
      names := names + [LayerSegment(l.index)];
      table, offsets := PlaceSegment(sources, l.tensors, LayerSegment(l.index), table, offsets,
                                     done + LayerItems(spec.layers[..i]));
      LayerItemsStep(spec.layers, i);
      assert done + LayerItems(spec.layers[..i]) + ItemsOf(l.tensors, LayerSegment(l.index))
          == done + LayerItems(spec.layers[..i + 1]);
    }
    assert spec.layers[..|spec.layers|] == spec.layers;
  }

  lemma NothingPlaced(sources: Sources)
    ensures Places([], [], sources) && OffsetsMatch(map[], [])
  {
  }

  method Plan(spec: ExecutionSpec, sources: Sources) returns (p: CompilationPlan)
    ensures PlanOf(p, spec, sources)
  {
    var table, offsets, names := PlaceAll(spec, sources);
    var segments := [];
    for j := 0 to |names|
      invariant |segments| == j
      invariant forall k :: 0 <= k < j ==>
        segments[k] == PlannedSegment(names[k], SegmentFile(k), SegmentBytes(table, names[k]), SegmentTensors(table, names[k]))
    {
      segments := segments + [PlannedSegment(names[j], SegmentFile(j), Offset(offsets, names[j]), SegmentTensors(table, names[j]))];
    }
    p := CompilationPlan(table, segments, SumSizes(segments));
  }

  // ---------------------------------------------------------------------
  // What a plan gives the pipeline
  // ---------------------------------------------------------------------

  lemma PlanIsDense(p: CompilationPlan, spec: ExecutionSpec, sources: Sources)
    requires PlanOf(p, spec, sources)
    ensures Dense(p.table)
    ensures forall k :: 0 <= k < |p.table| ==> p.table[k].id == k && p.table[k].disposition.RelocateAndAlign?
  {
    var items := AllItems(spec);
    forall k | 0 <= k < |p.table|
      ensures p.table[k].offset == SegmentBytes(p.table[..k], p.table[k].segment)
      ensures p.table[k].id == k && p.table[k].disposition.RelocateAndAlign?
    {
      assert p.table[k] == PlaceAt(sources, items[k], k, SegmentBytes(p.table[..k], items[k].segment));
    }
  }

  /** Layers are numbered from 0, as `compile` produces them. */
  ghost predicate Numbered(spec: ExecutionSpec) {
    forall i :: 0 <= i < |spec.layers| ==> spec.layers[i].index == i
  }

  ghost predicate Planned(segments: seq<PlannedSegment>, id: string) {
    exists j :: 0 <= j < |segments| && segments[j].id == id
  }

  lemma PlanKnowsSegments(p: CompilationPlan, spec: ExecutionSpec, sources: Sources)
    requires PlanOf(p, spec, sources) && Numbered(spec)
    ensures forall k :: 0 <= k < |p.table| ==> Planned(p.segments, p.table[k].segment)
    ensures forall i, j :: 0 <= i < j < |p.segments| ==>
      p.segments[i].id != p.segments[j].id && p.segments[i].filename != p.segments[j].filename
  {
    hide SegmentFile, LayerSegment, SegmentBytes, SegmentTensors, AllItems, SegmentNames, SumSizes;
    forall k | 0 <= k < |p.table|
      ensures Planned(p.segments, p.table[k].segment)
    {
      PlannedItem(p, spec, sources, k);
    }
    forall i: nat, j: nat | i < j < |p.segments|
      ensures p.segments[i].id != p.segments[j].id && p.segments[i].filename != p.segments[j].filename
    {
      SegmentNamesDiffer(spec, i, j);
      SegmentFileInjective(i, j);
    }
  }

  lemma PlannedItem(p: CompilationPlan, spec: ExecutionSpec, sources: Sources, k: nat)
    requires PlanOf(p, spec, sources) && k < |p.table|
    ensures Planned(p.segments, p.table[k].segment)
  {
    hide SegmentFile, LayerSegment, SegmentBytes, SegmentTensors, AllItems, SumSizes;
    var j := ItemSegment(spec, k);
    SegmentNamesCount(spec);
    hide SegmentNames;
    assert p.segments[j].id == SegmentNames(spec)[j];
  }

  lemma SegmentNamesCount(spec: ExecutionSpec)
    ensures |SegmentNames(spec)| == 1 + |spec.layers|
  {
  }

  lemma SegmentNamesDiffer(spec: ExecutionSpec, i: nat, j: nat)
    requires Numbered(spec) && i < j < 1 + |spec.layers|
    ensures |SegmentNames(spec)| == 1 + |spec.layers| && SegmentNames(spec)[i] != SegmentNames(spec)[j]
  {
    LayerSegmentInjective(j - 1, if i == 0 then 0 else i - 1);
  }

  lemma ItemSegment(spec: ExecutionSpec, k: nat) returns (j: nat)
    requires k < |AllItems(spec)|
    ensures j < |SegmentNames(spec)| && SegmentNames(spec)[j] == AllItems(spec)[k].segment
  {
    var g := |spec.globalTensors|;
    if k < g {
      j := 0;
    } else {
      var i := LayerItemSegment(spec.layers, k - g);
      j := i + 1;
    }
  }

  lemma LayerItemSegment(layers: seq<LayerSpec>, k: nat) returns (i: nat)
    requires k < |LayerItems(layers)|
    ensures i < |layers| && LayerItems(layers)[k].segment == LayerSegment(layers[i].index)
  {
    if k < |LayerItems(Front(layers))| {
      i := LayerItemSegment(Front(layers), k);
    } else {
      i := |layers| - 1;
    }
  }
}
