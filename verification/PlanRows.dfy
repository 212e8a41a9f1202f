// What the rows and the totals of the relocation plan say (`plan` in compute_image.rs).
module PlanRows {
  import opened Common
  import opened Naming
  import opened Config
  import opened Emission
  import opened Plan
  import E = EntryNames

  lemma {:induction false} LayerItemBindings(layers: seq<LayerSpec>)
    ensures var items, bs := LayerItems(layers), E.LayerBindings(layers);
      |items| == |bs| && forall k :: 0 <= k < |bs| ==> items[k].binding == bs[k]
  {
    hide LayerSegment;
    if layers != [] {
      LayerItemBindings(Front(layers));
    }
  }

  /** What a row says of its binding and of the binding's tensor in the checkpoint. */
  predicate Describes(row: PlannedTensor, b: TensorBinding, sources: Sources) {
    && row.name == b.name && row.logicalShape == b.logicalShape && row.disposition == RelocateAndAlign
    && (b.name in sources ==>
         var src := sources[b.name];
         && row.sourceShard == src.filename && row.sourceOffset == src.offset
         && row.sourceLength == |src.data| && row.logicalDtype == src.dtype)
    && (b.name !in sources ==>
         row.sourceShard == "" && row.sourceOffset == row.sourceLength == 0 && row.logicalDtype == "F32")
  }

  /** Row k of the table is the k-th binding of the spec, with where its tensor is in the checkpoint. */
  lemma {:induction false} RowsDescribe(p: CompilationPlan, spec: ExecutionSpec, sources: Sources)
    requires PlanOf(p, spec, sources)
    ensures |p.table| == |E.AllBindings(spec)|
    ensures forall k :: 0 <= k < |p.table| ==> p.table[k].id == k && Describes(p.table[k], E.AllBindings(spec)[k], sources)
  {
    LayerItemBindings(spec.layers);
    var items := AllItems(spec);
    hide SegmentBytes, SegmentTensors, SegmentNames, SumSizes, SegmentFile, LayerItems;
    forall k | 0 <= k < |p.table|
      ensures p.table[k].id == k && Describes(p.table[k], E.AllBindings(spec)[k], sources)
    {
      assert p.table[k] == PlaceAt(sources, items[k], k, SegmentBytes(p.table[..k], items[k].segment));
    }
  }

  // ---------------------------------------------------------------------
  // Totals
  // ---------------------------------------------------------------------

  function Counts(segments: seq<PlannedSegment>): nat {
    if segments == [] then 0 else Counts(Front(segments)) + Last(segments).tensorCount
  }

  function Lengths(table: seq<PlannedTensor>): nat {
    if table == [] then 0 else Lengths(Front(table)) + Last(table).sourceLength
  }

  /** Rows and bytes of the table that go to one of the named segments. */
  function Tally(table: seq<PlannedTensor>, names: seq<string>): (nat, nat) {
    if names == [] then (0, 0)
    else
      var t := Tally(table, Front(names));
      (t.0 + SegmentTensors(table, Last(names)), t.1 + SegmentBytes(table, Last(names)))
  }

  lemma {:induction false} TallyNothing(names: seq<string>)
    ensures Tally([], names) == (0, 0)
  {
    if names != [] {
      TallyNothing(Front(names));
    }
  }

  /** One more row counts once if its segment is named, and names are distinct. */
  lemma {:induction false} TallyStep(table: seq<PlannedTensor>, names: seq<string>)
    requires table != [] && Distinct(names)
    ensures var t, f, row := Tally(table, names), Tally(Front(table), names), Last(table);
      t == if row.segment in names then (f.0 + 1, f.1 + row.sourceLength) else f
    decreases |names|
  {
    if names != [] {
      var front, last := Front(names), Last(names);
      TallyStep(table, front);
      assert names == front + [last];
      assert forall i :: 0 <= i < |front| ==> front[i] != last;
    }
  }

  lemma {:induction false} TallyAll(table: seq<PlannedTensor>, names: seq<string>)
    requires Distinct(names) && forall k :: 0 <= k < |table| ==> table[k].segment in names
    ensures Tally(table, names) == (|table|, Lengths(table))
    decreases |table|
  {
    if table == [] {
      TallyNothing(names);
    } else {
      hide Tally;
      TallyAll(Front(table), names);
      TallyStep(table, names);
    }
  }

  lemma {:induction false} TalliedSegments(segments: seq<PlannedSegment>, table: seq<PlannedTensor>, names: seq<string>)
    requires |names| == |segments|
    requires forall j :: 0 <= j < |segments| ==>
      segments[j].tensorCount == SegmentTensors(table, names[j]) && segments[j].byteSize == SegmentBytes(table, names[j])
    ensures Tally(table, names) == (Counts(segments), SumSizes(segments))
  {
    if segments != [] {
      TalliedSegments(Front(segments), table, Front(names));
    }
  }

  /** Nothing is left out and nothing is counted twice: the segments of a plan hold all rows of the
      table between them, and the image has as many bytes as the tensors that go into it. */
  lemma {:induction false} PlanTotals(p: CompilationPlan, spec: ExecutionSpec, sources: Sources)
    requires PlanOf(p, spec, sources) && Numbered(spec)
    ensures Counts(p.segments) == |p.table|
    ensures p.imageBytes == Lengths(p.table)
  {
    var names := SegmentNames(spec);
    PlanKnowsSegments(p, spec, sources);
    SegmentsTallied(p, spec, sources);
    hide *;
    RowsNamed(p, names);
    TallyAll(p.table, names);
  }

  lemma SegmentsTallied(p: CompilationPlan, spec: ExecutionSpec, sources: Sources)
    requires PlanOf(p, spec, sources)
    ensures |SegmentNames(spec)| == |p.segments|
    ensures forall j :: 0 <= j < |p.segments| ==> p.segments[j].id == SegmentNames(spec)[j]
    ensures Tally(p.table, SegmentNames(spec)) == (Counts(p.segments), p.imageBytes)
  {
    SegmentNamesCount(spec);
    hide Places, SegmentTensors, SegmentBytes, SegmentNames, SegmentFile, Tally;
    TalliedSegments(p.segments, p.table, SegmentNames(spec));
  }

  lemma RowsNamed(p: CompilationPlan, names: seq<string>)
    requires |names| == |p.segments| && forall j :: 0 <= j < |p.segments| ==> p.segments[j].id == names[j]
    requires forall k :: 0 <= k < |p.table| ==> Planned(p.segments, p.table[k].segment)
    requires forall i, j :: 0 <= i < j < |p.segments| ==> p.segments[i].id != p.segments[j].id
    ensures Distinct(names) && forall k :: 0 <= k < |p.table| ==> p.table[k].segment in names
  {
    forall k | 0 <= k < |p.table|
      ensures p.table[k].segment in names
    {
      assert Planned(p.segments, p.table[k].segment);
      var j :| 0 <= j < |p.segments| && p.segments[j].id == p.table[k].segment;
      assert names[j] in names;
    }
  }
}
