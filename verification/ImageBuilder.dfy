// The image builder: tensors appended to segments, segments flushed to payloads,
// and the readers that slice a tensor back out (compute_image.rs).
module ImageBuilder {
  import opened Common
  import opened Naming

  datatype SegmentKind = Persistent | Layer(index: nat) | Final

  datatype QuantizationDesc = QuantizationDesc(bits: nat, groupSize: nat, groups: nat, scaleId: nat, biasId: nat)

  /** What the caller says about a tensor besides its bytes. */
  datatype TensorInfo = TensorInfo(
    name: string, role: string, layer: Option<nat>, sourceFilename: string, sourceOffset: nat,
    logicalDtype: string, storageDtype: string, logicalShape: seq<nat>, physicalShape: seq<nat>,
    quantization: Option<QuantizationDesc>)

  datatype TensorEntry = TensorEntry(id: nat, info: TensorInfo, segment: string, offset: nat, byteLength: nat)

  datatype Segment = Segment(id: string, filename: string, byteSize: nat, tensorIds: seq<nat>, kind: SegmentKind)

  /** A segment still being filled. */
  datatype OpenSegment = OpenSegment(
    id: string, filename: string, kind: SegmentKind, data: Bytes, tensorIds: seq<nat>, offset: nat)

  datatype AliasEntry = AliasEntry(logicalName: string, physicalId: nat)

  /** The builder's fields. `persistentIds` and `layerIds` are the residency lists. */
  datatype Image = Image(
    nextId: nat, current: Option<OpenSegment>, segments: seq<Segment>, payloads: seq<Bytes>,
    tensors: seq<TensorEntry>, aliases: seq<AliasEntry>, persistentIds: seq<string>, layerIds: seq<string>)

  const EMPTY := Image(0, None, [], [], [], [], [], [])

  function Flush(img: Image): Image {
    match img.current
    case None => img
    case Some(seg) =>
      var closed := Segment(seg.id, seg.filename, |seg.data|, seg.tensorIds, seg.kind);
      img.(current := None,
           segments := img.segments + [closed],
           payloads := img.payloads + [seg.data],
           persistentIds := if seg.kind.Layer? then img.persistentIds else img.persistentIds + [seg.id],
           layerIds := if seg.kind.Layer? then img.layerIds + [seg.id] else img.layerIds)
  }

  function Begin(img: Image, id: string, kind: SegmentKind): Image {
    var flushed := Flush(img);
    flushed.(current := Some(OpenSegment(id, SegmentFile(|flushed.segments|), kind, [], [], 0)))
  }

  /** None is the panic "no segment started". */
  function Add(img: Image, info: TensorInfo, data: Bytes): (r: Option<Image>)
    ensures r.Some? <==> img.current.Some?
  {
    if img.current.None? then None else
    var seg := img.current.value;
    var id := img.nextId;
    Some(img.(
      nextId := id + 1,
      current := Some(seg.(data := seg.data + data, offset := seg.offset + |data|, tensorIds := seg.tensorIds + [id])),
      tensors := img.tensors + [TensorEntry(id, info, seg.id, seg.offset, |data|)]))
  }

  /** The image directory after `finalize`: the manifest's tables and the files. */
  datatype Manifest = Manifest(
    segments: seq<Segment>, tensors: seq<TensorEntry>, aliases: seq<AliasEntry>,
    persistentIds: seq<string>, layerIds: seq<string>, totalBytes: nat)

  function SumSizes(segments: seq<Segment>): nat {
    if segments == [] then 0 else SumSizes(Front(segments)) + Last(segments).byteSize
  }

  function ManifestOf(img: Image): Manifest {
    var f := Flush(img);
    Manifest(f.segments, f.tensors, f.aliases, f.persistentIds, f.layerIds, SumSizes(f.segments))
  }

  /** Files are written in order; a later segment with the same filename would overwrite. */
  function WriteFiles(segments: seq<Segment>, payloads: seq<Bytes>): map<string, Bytes>
    requires |segments| == |payloads|
  {
    if segments == [] then map[]
    else WriteFiles(Front(segments), Front(payloads))[Last(segments).filename := Last(payloads)]
  }

  // ---------------------------------------------------------------------
  // Readers
  // ---------------------------------------------------------------------

  /** `slice_tensor_bytes`; None is the out-of-bounds error. */
  function SliceTensor(payload: Bytes, entry: TensorEntry): Option<Bytes> {
    if entry.offset + entry.byteLength > |payload| then None
    else Some(payload[entry.offset..entry.offset + entry.byteLength])
  }

  function FindSegment(segments: seq<Segment>, id: string): (r: Option<Segment>)
    ensures r.Some? ==> r.value in segments && r.value.id == id
    ensures r.None? ==> forall s :: s in segments ==> s.id != id
  {
    if segments == [] then None
    else if segments[0].id == id then Some(segments[0])
    else FindSegment(segments[1..], id)
  }

  function FindTensor(tensors: seq<TensorEntry>, id: nat): (r: Option<TensorEntry>)
    ensures r.Some? ==> r.value in tensors && r.value.id == id
    ensures r.None? ==> forall t :: t in tensors ==> t.id != id
  {
    if tensors == [] then None
    else if tensors[0].id == id then Some(tensors[0])
    else FindTensor(tensors[1..], id)
  }

  /** Read one tensor through the manifest and the files on disk. */
  function ReadTensor(m: Manifest, files: map<string, Bytes>, entry: TensorEntry): Option<Bytes> {
    match FindSegment(m.segments, entry.segment)
    case None => None
    case Some(segment) =>
      if segment.filename !in files then None else SliceTensor(files[segment.filename], entry)
  }

  /** The first entry of a name. */
  function FindByName(tensors: seq<TensorEntry>, name: string): Option<TensorEntry> {
    if tensors == [] then None
    else if tensors[0].info.name == name then Some(tensors[0])
    else FindByName(tensors[1..], name)
  }

  /** `tensor_bytes`: look a name up and read the tensor. */
  function TensorBytes(m: Manifest, files: map<string, Bytes>, name: string): Option<Bytes> {
    match FindByName(m.tensors, name)
    case None => None
    case Some(entry) => ReadTensor(m, files, entry)
  }

  // ---------------------------------------------------------------------
  // Invariant
  // ---------------------------------------------------------------------

  /** Closed segments followed by the open one. */
  function Count(img: Image): nat {
    |img.segments| + if img.current.Some? then 1 else 0
  }

  function SegmentId(img: Image, j: nat): string
    requires j < Count(img)
  {
    if j < |img.segments| then img.segments[j].id else img.current.value.id
  }

  function SegmentIds(img: Image): seq<string> {
    seq(Count(img), j requires 0 <= j < Count(img) => SegmentId(img, j))
  }

  function TensorIds(img: Image, j: nat): seq<nat>
    requires j < Count(img)
  {
    if j < |img.segments| then img.segments[j].tensorIds else img.current.value.tensorIds
  }

  function Data(img: Image, j: nat): Bytes
    requires j < Count(img) && |img.payloads| == |img.segments|
  {
    if j < |img.segments| then img.payloads[j] else img.current.value.data
  }

  /** Tensor k lives in segment j and its range there holds `bytes`. */
  ghost predicate LivesIn(img: Image, k: nat, j: nat, bytes: Bytes)
    requires |img.payloads| == |img.segments| && k < |img.tensors|
  {
    && j < Count(img)
    && img.tensors[k].segment == SegmentId(img, j)
    && SliceTensor(Data(img, j), img.tensors[k]) == Some(bytes)
  }

  /** The ranges of `ids` follow each other without gap from 0 to `end`. */
  ghost predicate Tiles(tensors: seq<TensorEntry>, ids: seq<nat>, end: nat) {
    if ids == [] then end == 0
    else
      var last := Last(ids);
      && last < |tensors|
      && tensors[last].offset + tensors[last].byteLength == end
      && Tiles(tensors, Front(ids), tensors[last].offset)
  }

  function Flatten(parts: seq<seq<nat>>): seq<nat> {
    if parts == [] then [] else Flatten(Front(parts)) + Last(parts)
  }

  /** The tensor ids of each segment, the open one last. */
  function IdLists(img: Image): seq<seq<nat>> {
    seq(Count(img), j requires 0 <= j < Count(img) => TensorIds(img, j))
  }

  function AllIds(img: Image): seq<nat> {
    Flatten(IdLists(img))
  }

  function Counting(n: nat): seq<nat> {
    seq(n, i => i)
  }

  function SumLengths(given: seq<Bytes>): nat {
    if given == [] then 0 else SumLengths(Front(given)) + |Last(given)|
  }

  function OpenBytes(img: Image): nat {
    if img.current.Some? then |img.current.value.data| else 0
  }

  /** The ids of the segments whose kind is, or is not, a layer. */
  function Residents(segments: seq<Segment>, layers: bool): seq<string> {
    if segments == [] then []
    else Residents(Front(segments), layers) + if Last(segments).kind.Layer? == layers then [Last(segments).id] else []
  }

  ghost predicate Shape(img: Image) {
    && |img.payloads| == |img.segments|
    && (forall j :: 0 <= j < |img.segments| ==>
         img.segments[j].filename == SegmentFile(j) && img.segments[j].byteSize == |img.payloads[j]|)
    && (img.current.Some? ==>
         img.current.value.filename == SegmentFile(|img.segments|) && img.current.value.offset == |img.current.value.data|)
    && img.persistentIds == Residents(img.segments, false)
    && img.layerIds == Residents(img.segments, true)
  }

  ghost predicate Homed(img: Image, k: nat, bytes: Bytes)
    requires |img.payloads| == |img.segments| && k < |img.tensors|
  {
    exists j: nat :: LivesIn(img, k, j, bytes)
  }

  /** Ids count up from 0, and tensor k can be sliced out of its segment as `given[k]`. */
  ghost predicate Stored(img: Image, given: seq<Bytes>)
    requires |img.payloads| == |img.segments|
  {
    && img.nextId == |img.tensors| == |given|
    && (forall k :: 0 <= k < |given| ==> img.tensors[k].id == k && img.tensors[k].byteLength == |given[k]|)
    && (forall k :: 0 <= k < |given| ==> Homed(img, k, given[k]))
  }

  ghost predicate AllTile(img: Image)
    requires |img.payloads| == |img.segments|
  {
    forall j :: 0 <= j < Count(img) ==> Tiles(img.tensors, TensorIds(img, j), |Data(img, j)|)
  }

  /** `given` lists the bytes handed to `Add` so far. */
  ghost predicate Inv(img: Image, given: seq<Bytes>) {
    && Shape(img)
    && Stored(img, given)
    && AllTile(img)
    && AllIds(img) == Counting(|given|)
    && SumSizes(img.segments) + OpenBytes(img) == SumLengths(given)
  }

  lemma InvEmpty()
    ensures Inv(EMPTY, [])
  {
  }

  lemma TilesGrows(tensors: seq<TensorEntry>, more: seq<TensorEntry>, ids: seq<nat>, end: nat)
    requires Tiles(tensors, ids, end)
    ensures Tiles(tensors + more, ids, end)
  {
    if ids != [] {
      TilesGrows(tensors, more, Front(ids), tensors[Last(ids)].offset);
    }
  }

  lemma FlushViews(img: Image)
    requires |img.payloads| == |img.segments|
    ensures Count(Flush(img)) == Count(img) && |Flush(img).payloads| == |Flush(img).segments|
    ensures forall j :: 0 <= j < Count(img) ==>
      && SegmentId(Flush(img), j) == SegmentId(img, j)
      && TensorIds(Flush(img), j) == TensorIds(img, j)
      && Data(Flush(img), j) == Data(img, j)
    ensures AllIds(Flush(img)) == AllIds(img) && SegmentIds(Flush(img)) == SegmentIds(img)
  {
    assert IdLists(Flush(img)) == IdLists(img);
  }

  /** Segments that keep their ids and only grow keep every tensor's home. */
  lemma StoredKeeps(img: Image, next: Image, given: seq<Bytes>)
    requires |img.payloads| == |img.segments| && |next.payloads| == |next.segments| && Stored(img, given)
    requires next.nextId == img.nextId && next.tensors == img.tensors
    requires Count(img) <= Count(next)
    requires forall j :: 0 <= j < Count(img) ==>
      SegmentId(next, j) == SegmentId(img, j) && Data(next, j) == Data(img, j)
    ensures Stored(next, given)
  {
    forall k | 0 <= k < |given|
      ensures Homed(next, k, given[k])
    {
      assert Homed(img, k, given[k]);
      var j: nat :| LivesIn(img, k, j, given[k]);
      assert LivesIn(next, k, j, given[k]);
    }
  }

  lemma TilesKeep(img: Image, next: Image)
    requires |img.payloads| == |img.segments| && |next.payloads| == |next.segments| && AllTile(img)
    requires next.tensors == img.tensors
    requires forall j :: 0 <= j < Count(img) && j < Count(next) ==>
      TensorIds(next, j) == TensorIds(img, j) && Data(next, j) == Data(img, j)
    requires forall j :: Count(img) <= j < Count(next) ==> TensorIds(next, j) == [] && Data(next, j) == []
    ensures AllTile(next)
  {
    forall j | 0 <= j < Count(next)
      ensures Tiles(next.tensors, TensorIds(next, j), |Data(next, j)|)
    {
      if j < Count(img) {
        assert Tiles(img.tensors, TensorIds(img, j), |Data(img, j)|);
      }
    }
  }

  lemma FlushShape(img: Image)
    requires Shape(img)
    ensures Shape(Flush(img)) && SumSizes(Flush(img).segments) == SumSizes(img.segments) + OpenBytes(img)
  {
    hide SegmentFile;
    var f := Flush(img);
    if img.current.Some? {
      assert f.segments == img.segments + [Last(f.segments)];
      AppendFrontLast(img.segments, Last(f.segments));
    }
  }

  lemma FlushKeeps(img: Image, given: seq<Bytes>)
    requires Inv(img, given)
    ensures Inv(Flush(img), given)
  {
    var f := Flush(img);
    FlushShape(img);
    FlushViews(img);
    StoredKeeps(img, f, given);
    TilesKeep(img, f);
    assert OpenBytes(f) == 0;
    assert Inv(f, given) by {
      hide Shape, Stored, AllTile, AllIds, Flush;
    }
  }

  lemma BeginKeeps(img: Image, given: seq<Bytes>, id: string, kind: SegmentKind)
    requires Inv(img, given)
    ensures Inv(Begin(img, id, kind), given)
    ensures SegmentIds(Begin(img, id, kind)) == SegmentIds(img) + [id]
  {
    FlushKeeps(img, given);
    FlushViews(img);
    BeginOnFlushed(Flush(img), given, id, kind);
    assert Flush(Flush(img)) == Flush(img);
  }

  lemma BeginOnFlushed(f: Image, given: seq<Bytes>, id: string, kind: SegmentKind)
    requires Inv(f, given) && f.current.None?
    ensures Inv(Begin(f, id, kind), given)
    ensures SegmentIds(Begin(f, id, kind)) == SegmentIds(f) + [id]
  {
    var b := Begin(f, id, kind);
    BeginShape(f, id, kind);
    assert Stored(b, given) by {
      hide Shape, AllTile, AllIds, Begin, Tiles, Residents, SegmentFile, Homed, SumSizes, SumLengths;
      StoredKeeps(f, b, given);
    }
    assert AllTile(b) by {
      hide Shape, Stored, AllIds, Begin, Residents, SegmentFile, Homed, SumSizes, SumLengths;
      TilesKeep(f, b);
    }
    hide Shape, Stored, AllTile, AllIds, SumLengths;
  }

  lemma BeginShape(f: Image, id: string, kind: SegmentKind)
    requires Shape(f) && f.current.None?
    ensures var b := Begin(f, id, kind);
      && Shape(b)
      && AllIds(b) == AllIds(f)
      && SegmentIds(b) == SegmentIds(f) + [id]
      && b.nextId == f.nextId && b.tensors == f.tensors && Count(b) == Count(f) + 1
      && b.segments == f.segments && OpenBytes(b) == 0
      && (forall j :: 0 <= j < Count(f) ==>
           SegmentId(b, j) == SegmentId(f, j) && Data(b, j) == Data(f, j) && TensorIds(b, j) == TensorIds(f, j))
      && TensorIds(b, Count(f)) == [] && Data(b, Count(f)) == []
  {
    var b := Begin(f, id, kind);
    assert IdLists(b) == IdLists(f) + [[]];
    AppendFrontLast(IdLists(f), []);
  }

  lemma AddStored(img: Image, given: seq<Bytes>, info: TensorInfo, data: Bytes)
    requires Shape(img) && Stored(img, given) && img.current.Some?
    ensures var a := Add(img, info, data).value; |a.payloads| == |a.segments| && Stored(a, given + [data])
  {
    var a, given' := Add(img, info, data).value, given + [data];
    var last := |img.segments|;
    var before, after := img.current.value.data, a.current.value.data;
    forall k | 0 <= k < |given'|
      ensures Homed(a, k, given'[k])
    {
      if k < |given| {
        assert Homed(img, k, given[k]);
        var j: nat :| LivesIn(img, k, j, given[k]);
        var t := img.tensors[k];
        if j == last {
          assert after[t.offset..t.offset + t.byteLength] == before[t.offset..t.offset + t.byteLength];
        }
        assert LivesIn(a, k, j, given'[k]);
      } else {
        assert after[|before|..|before| + |data|] == data;
        assert LivesIn(a, k, last, given'[k]);
      }
    }
  }

  lemma AddTiles(img: Image, info: TensorInfo, data: Bytes)
    requires Shape(img) && AllTile(img) && img.current.Some? && img.nextId == |img.tensors|
    ensures var a := Add(img, info, data).value; |a.payloads| == |a.segments| && AllTile(a)
  {
    var a := Add(img, info, data).value;
    forall j | 0 <= j < Count(a)
      ensures Tiles(a.tensors, TensorIds(a, j), |Data(a, j)|)
    {
      assert Tiles(img.tensors, TensorIds(img, j), |Data(img, j)|);
      assert a.tensors == img.tensors + [Last(a.tensors)];
      TilesGrows(img.tensors, [Last(a.tensors)], TensorIds(img, j), |Data(img, j)|);
      if j == |img.segments| {
        AppendFrontLast(img.current.value.tensorIds, img.nextId);
      }
    }
  }

  lemma AddIds(img: Image, info: TensorInfo, data: Bytes)
    requires img.current.Some? && AllIds(img) == Counting(img.nextId)
    ensures AllIds(Add(img, info, data).value) == Counting(img.nextId + 1)
  {
    hide *;
    var parts, last := AddLists(img, info, data);
    FlattenLast(parts, last, img.nextId);
    AllIdsIs(img);
    AllIdsIs(Add(img, info, data).value);
    CountingStep(img.nextId);
  }

  lemma AddLists(img: Image, info: TensorInfo, data: Bytes) returns (parts: seq<seq<nat>>, last: seq<nat>)
    requires img.current.Some?
    ensures Add(img, info, data).Some?
    ensures IdLists(img) == parts + [last] && IdLists(Add(img, info, data).value) == parts + [last + [img.nextId]]
  {
    parts := seq(|img.segments|, j requires 0 <= j < |img.segments| => img.segments[j].tensorIds);
    last := img.current.value.tensorIds;
  }

  lemma AllIdsIs(img: Image)
    ensures AllIds(img) == Flatten(IdLists(img))
  {
  }

  lemma CountingStep(n: nat)
    ensures Counting(n + 1) == Counting(n) + [n]
  {
  }

  lemma FlattenLast(parts: seq<seq<nat>>, last: seq<nat>, id: nat)
    ensures Flatten(parts + [last + [id]]) == Flatten(parts + [last]) + [id]
  {
    AppendFrontLast(parts, last);
    AppendFrontLast(parts, last + [id]);
  }

  lemma AddKeeps(img: Image, given: seq<Bytes>, info: TensorInfo, data: Bytes)
    requires Inv(img, given) && img.current.Some?
    ensures Inv(Add(img, info, data).value, given + [data])
    ensures SegmentIds(Add(img, info, data).value) == SegmentIds(img)
  {
    hide *;
    var given' := given + [data];
    InvParts(img, given);
    AddStored(img, given, info, data);
    AddTiles(img, info, data);
    AddIds(img, info, data);
    AddShape(img, info, data);
    AppendLengths(given, data);
    InvFromParts(Add(img, info, data).value, given');
  }

  lemma InvParts(img: Image, given: seq<Bytes>)
    requires Inv(img, given)
    ensures Shape(img) && |img.payloads| == |img.segments| && Stored(img, given) && AllTile(img)
    ensures img.nextId == |img.tensors| == |given| && AllIds(img) == Counting(img.nextId)
    ensures SumSizes(img.segments) + OpenBytes(img) == SumLengths(given)
  {
    hide AllTile, AllIds, SumLengths, SegmentFile, Residents;
  }

  lemma InvFromParts(img: Image, given: seq<Bytes>)
    requires Shape(img) && |img.payloads| == |img.segments| && Stored(img, given) && AllTile(img)
    requires AllIds(img) == Counting(|given|)
    requires SumSizes(img.segments) + OpenBytes(img) == SumLengths(given)
    ensures Inv(img, given)
  {
    hide Shape, Stored, AllTile, AllIds;
  }

  lemma AddShape(img: Image, info: TensorInfo, data: Bytes)
    requires Shape(img) && img.current.Some?
    ensures var a := Add(img, info, data).value;
      && Shape(a) && SegmentIds(a) == SegmentIds(img) && a.nextId == img.nextId + 1
      && SumSizes(a.segments) + OpenBytes(a) == SumSizes(img.segments) + OpenBytes(img) + |data|
  {
    hide SegmentFile, Residents;
  }

  lemma AppendLengths(given: seq<Bytes>, data: Bytes)
    ensures SumLengths(given + [data]) == SumLengths(given) + |data|
  {
    AppendFrontLast(given, data);
  }

  // ---------------------------------------------------------------------
  // Whole runs of the builder
  // ---------------------------------------------------------------------

  datatype Op = BeginSegment(id: string, kind: SegmentKind) | AddTensor(info: TensorInfo, data: Bytes)

  function RunOps(ops: seq<Op>): Option<Image> {
    if ops == [] then Some(EMPTY)
    else
      match RunOps(Front(ops))
      case None => None
      case Some(img) =>
        match Last(ops)
        case BeginSegment(id, kind) => Some(Begin(img, id, kind))
        case AddTensor(info, data) => Add(img, info, data)
  }

  function Given(ops: seq<Op>): seq<Bytes> {
    if ops == [] then []
    else Given(Front(ops)) + if Last(ops).AddTensor? then [Last(ops).data] else []
  }

  function Begun(ops: seq<Op>): seq<string> {
    if ops == [] then []
    else Begun(Front(ops)) + if Last(ops).BeginSegment? then [Last(ops).id] else []
  }

  /** Every run that does not panic keeps the invariant. */
  lemma {:induction false} RunKeeps(ops: seq<Op>)
    requires RunOps(ops).Some?
    ensures Inv(RunOps(ops).value, Given(ops))
    ensures SegmentIds(RunOps(ops).value) == Begun(ops)
  {
    if ops == [] {
      InvEmpty();
    } else {
      RunKeeps(Front(ops));
      var img, given := RunOps(Front(ops)).value, Given(Front(ops));
      match Last(ops)
      case BeginSegment(id, kind) =>
        BeginKeeps(img, given, id, kind);
        assert Given(ops) == given;
      case AddTensor(info, data) =>
        AddKeeps(img, given, info, data);
        assert Begun(ops) == Begun(Front(ops));
    }
  }

  /** The builder panics exactly when a tensor comes before any segment. */
  lemma {:induction false} RunPanics(ops: seq<Op>)
    ensures RunOps(ops).None? <==> ops != [] && ops[0].AddTensor?
    ensures RunOps(ops).Some? ==> (RunOps(ops).value.current.Some? <==> ops != [])
  {
    if ops != [] {
      RunPanics(Front(ops));
    }
  }

  lemma {:induction false} FileOf(segments: seq<Segment>, payloads: seq<Bytes>, j: nat)
    requires |segments| == |payloads| && j < |segments|
    requires forall i :: 0 <= i < |segments| ==> segments[i].filename == SegmentFile(i)
    ensures segments[j].filename in WriteFiles(segments, payloads)
    ensures WriteFiles(segments, payloads)[segments[j].filename] == payloads[j]
  {
    if j < |segments| - 1 {
      FileOf(Front(segments), Front(payloads), j);
      SegmentFileInjective(j, |segments| - 1);
    }
  }

  lemma {:induction false} FindsOwn(segments: seq<Segment>, j: nat)
    requires j < |segments| && Distinct(SegmentNames(segments))
    ensures FindSegment(segments, segments[j].id) == Some(segments[j])
  {
    hide FindSegment;
    var names := SegmentNames(segments);
    var found := FindSegment(segments, segments[j].id);
    assert segments[j] in segments;
    var k :| 0 <= k < |segments| && segments[k] == found.value;
    assert names[k] == names[j];
  }

  lemma NamesOfFinished(f: Image)
    requires f.current.None?
    ensures SegmentNames(f.segments) == SegmentIds(f)
  {
  }

  lemma FlushedHome(f: Image, given: seq<Bytes>, k: nat)
    requires f.current.None? && Shape(f) && Stored(f, given) && Distinct(SegmentIds(f)) && k < |given|
    ensures k < |f.tensors| && |f.payloads| == |f.segments|
    ensures exists j :: 0 <= j < |f.segments| && HoldsAt(f, k, j, given[k])
  {
    assert Homed(f, k, given[k]);
    var j: nat :| LivesIn(f, k, j, given[k]);
    hide Shape, Stored, SliceTensor;
    NamesOfFinished(f);
    FindsOwn(f.segments, j);
    assert HoldsAt(f, k, j, given[k]);
  }

  /** Tensor k is found in segment j, whose payload holds `bytes` for it. */
  ghost predicate HoldsAt(f: Image, k: nat, j: int, bytes: Bytes)
    requires k < |f.tensors| && |f.payloads| == |f.segments|
  {
    && 0 <= j < |f.segments|
    && FindSegment(f.segments, f.tensors[k].segment) == Some(f.segments[j])
    && SliceTensor(f.payloads[j], f.tensors[k]) == Some(bytes)
  }

  /** For a finished image with distinct segment ids, reading any tensor through the
      manifest and the files returns the bytes that were added. */
  lemma {:induction false} ReadBack(img: Image, given: seq<Bytes>, k: nat)
    requires Inv(img, given) && Distinct(SegmentIds(img)) && k < |given|
    ensures |Flush(img).payloads| == |Flush(img).segments|
    ensures k < |ManifestOf(img).tensors|
    ensures var f := Flush(img);
      ReadTensor(ManifestOf(img), WriteFiles(f.segments, f.payloads), ManifestOf(img).tensors[k]) == Some(given[k])
  {
    hide *;
    InvParts(img, given);
    FlushKeeps(img, given);
    FlushViews(img);
    FlushCloses(img);
    var f := Flush(img);
    InvParts(f, given);
    FlushedHome(f, given, k);
    ManifestTables(img);
    var j :| 0 <= j < |f.segments| && HoldsAt(f, k, j, given[k]);
    FilesNumbered(f);
    FileOf(f.segments, f.payloads, j);
    HeldIsRead(f, ManifestOf(img), WriteFiles(f.segments, f.payloads), k, j, given[k]);
  }

  lemma FilesNumbered(f: Image)
    requires Shape(f)
    ensures forall i :: 0 <= i < |f.segments| ==> f.segments[i].filename == SegmentFile(i)
  {
    hide SegmentFile, Residents;
  }

  lemma HeldIsRead(f: Image, m: Manifest, files: map<string, Bytes>, k: nat, j: nat, bytes: Bytes)
    requires k < |f.tensors| && |f.payloads| == |f.segments| && HoldsAt(f, k, j, bytes)
    requires m.tensors == f.tensors && m.segments == f.segments
    requires f.segments[j].filename in files && files[f.segments[j].filename] == f.payloads[j]
    ensures ReadTensor(m, files, m.tensors[k]) == Some(bytes)
  {
    hide FindSegment, SliceTensor;
  }

  lemma ManifestTables(img: Image)
    ensures ManifestOf(img).tensors == Flush(img).tensors && ManifestOf(img).segments == Flush(img).segments
    ensures ManifestOf(img).persistentIds == Flush(img).persistentIds && ManifestOf(img).layerIds == Flush(img).layerIds
    ensures ManifestOf(img).totalBytes == SumSizes(Flush(img).segments)
  {
    hide Flush, SumSizes;
  }

  /** The lookup by name finds the first entry of that name, if there is one. */
  lemma {:induction false} FirstOfName(tensors: seq<TensorEntry>, name: string) returns (k: nat)
    ensures FindByName(tensors, name).None? ==> forall i :: 0 <= i < |tensors| ==> tensors[i].info.name != name
    ensures FindByName(tensors, name).Some? ==>
      && k < |tensors| && FindByName(tensors, name) == Some(tensors[k]) && tensors[k].info.name == name
      && forall i :: 0 <= i < k ==> tensors[i].info.name != name
  {
    k := 0;
    if tensors != [] && tensors[0].info.name != name {
      var j := FirstOfName(tensors[1..], name);
      k := j + 1;
    }
  }

  /** Reading by name gives the bytes of the first tensor that was added under the name. */
  lemma {:induction false} ReadByName(img: Image, given: seq<Bytes>, name: string) returns (k: nat)
    requires Inv(img, given) && Distinct(SegmentIds(img))
    ensures |Flush(img).payloads| == |Flush(img).segments|
    ensures var f := Flush(img);
      var r := TensorBytes(ManifestOf(img), WriteFiles(f.segments, f.payloads), name);
      && (r.None? <==> forall i :: 0 <= i < |img.tensors| ==> img.tensors[i].info.name != name)
      && (r.Some? ==>
           && k < |img.tensors| == |given| && img.tensors[k].info.name == name && r == Some(given[k])
           && forall i :: 0 <= i < k ==> img.tensors[i].info.name != name)
  {
    FlushKeeps(img, given);
    FlushedShape(Flush(img), given);
    ManifestTables(img);
    FlushKeepsTensors(img, given);
    hide *;
    k := FirstOfName(img.tensors, name);
    TensorBytesIs(ManifestOf(img), WriteFiles(Flush(img).segments, Flush(img).payloads), name);
    if FindByName(img.tensors, name).Some? {
      ReadBack(img, given, k);
    }
  }

  lemma FlushKeepsTensors(img: Image, given: seq<Bytes>)
    requires Inv(img, given)
    ensures Flush(img).tensors == img.tensors && |img.tensors| == |given|
  {
    InvParts(img, given);
    hide Shape, AllTile;
  }

  lemma TensorBytesIs(m: Manifest, files: map<string, Bytes>, name: string)
    ensures TensorBytes(m, files, name)
         == match FindByName(m.tensors, name) { case None => None case Some(entry) => ReadTensor(m, files, entry) }
  {
  }

  /** What the invariant says of a finished image. */
  lemma FinishedTables(f: Image, given: seq<Bytes>)
    requires Inv(f, given) && f.current.None?
    ensures |f.tensors| == |given| && forall k :: 0 <= k < |given| ==> f.tensors[k].id == k
    ensures forall j :: 0 <= j < |f.segments| ==> Tiles(f.tensors, f.segments[j].tensorIds, f.segments[j].byteSize)
    ensures Flatten(seq(|f.segments|, j requires 0 <= j < |f.segments| => f.segments[j].tensorIds)) == Counting(|given|)
    ensures f.persistentIds == Residents(f.segments, false) && f.layerIds == Residents(f.segments, true)
    ensures SumSizes(f.segments) == SumLengths(given)
  {
    hide SegmentFile, Residents, Tiles, Flatten, Counting, SumSizes, SumLengths, Homed;
    forall j | 0 <= j < |f.segments|
      ensures Tiles(f.tensors, f.segments[j].tensorIds, f.segments[j].byteSize)
    {
      assert TensorIds(f, j) == f.segments[j].tensorIds;
    }
    assert IdLists(f) == seq(|f.segments|, j requires 0 <= j < |f.segments| => f.segments[j].tensorIds);
  }

  /** Image round trip, over every sequence of builder calls. */
  lemma {:induction false} ImageRoundTrip(ops: seq<Op>)
    requires RunOps(ops).Some? && Distinct(Begun(ops))
    ensures |Flush(RunOps(ops).value).payloads| == |Flush(RunOps(ops).value).segments|
    ensures var img, given := RunOps(ops).value, Given(ops);
      var m, files := ManifestOf(img), WriteFiles(Flush(img).segments, Flush(img).payloads);
      && |m.tensors| == |given|
      && (forall k :: 0 <= k < |given| ==>
           m.tensors[k].id == k && ReadTensor(m, files, m.tensors[k]) == Some(given[k]))
      && (forall j :: 0 <= j < |m.segments| ==> Tiles(m.tensors, m.segments[j].tensorIds, m.segments[j].byteSize))
      && Flatten(seq(|m.segments|, j requires 0 <= j < |m.segments| => m.segments[j].tensorIds)) == Counting(|given|)
      && m.persistentIds == Residents(m.segments, false)
      && m.layerIds == Residents(m.segments, true)
      && m.totalBytes == SumLengths(given)
  {
    hide *;
    var img, given := RunOps(ops).value, Given(ops);
    RunKeeps(ops);
    FlushKeeps(img, given);
    FlushedShape(img, given);
    FlushViews(img);
    FlushCloses(img);
    var f := Flush(img);
    FlushedShape(f, given);
    FinishedTables(f, given);
    ManifestTables(img);
    forall k | 0 <= k < |given|
      ensures ReadTensor(ManifestOf(img), WriteFiles(f.segments, f.payloads), f.tensors[k]) == Some(given[k])
    {
      ReadBack(img, given, k);
    }
  }

  lemma FlushCloses(img: Image)
    ensures Flush(img).current.None?
  {
  }

  lemma FlushedShape(f: Image, given: seq<Bytes>)
    requires Inv(f, given)
    ensures |f.payloads| == |f.segments|
  {
    InvParts(f, given);
  }

  /** Every segment is resident in exactly one of the two lists, in order. */
  lemma {:induction false} ResidentsPartition(segments: seq<Segment>)
    ensures |Residents(segments, true)| + |Residents(segments, false)| == |segments|
    ensures multiset(Residents(segments, true)) + multiset(Residents(segments, false))
         == multiset(SegmentNames(segments))
    decreases |segments|
  {
    if segments != [] {
      hide *;
      ResidentsPartition(Front(segments));
      ResidentsStep(segments);
    }
  }

  lemma ResidentsStep(segments: seq<Segment>)
    requires segments != []
    ensures SegmentNames(segments) == SegmentNames(Front(segments)) + [Last(segments).id]
    ensures Residents(segments, Last(segments).kind.Layer?)
         == Residents(Front(segments), Last(segments).kind.Layer?) + [Last(segments).id]
    ensures Residents(segments, !Last(segments).kind.Layer?) == Residents(Front(segments), !Last(segments).kind.Layer?)
  {
    assert SegmentNames(segments) == SegmentNames(Front(segments)) + [Last(segments).id] by { hide Residents; }
    hide SegmentNames;
  }

  function SegmentNames(segments: seq<Segment>): seq<string> {
    seq(|segments|, j requires 0 <= j < |segments| => segments[j].id)
  }

  /** Ranges that tile a segment are ordered and do not overlap. */
  lemma {:induction false} TilesAreDisjoint(tensors: seq<TensorEntry>, ids: seq<nat>, end: nat, a: nat, b: nat)
    requires Tiles(tensors, ids, end) && a < b < |ids|
    ensures ids[a] < |tensors| && ids[b] < |tensors|
    ensures tensors[ids[a]].offset + tensors[ids[a]].byteLength <= tensors[ids[b]].offset
    ensures tensors[ids[b]].offset + tensors[ids[b]].byteLength <= end
  {
    var last := tensors[Last(ids)];
    if b < |ids| - 1 {
      TilesAreDisjoint(tensors, Front(ids), last.offset, a, b);
    } else {
      TilesEndBound(tensors, Front(ids), last.offset, a);
    }
  }

  lemma {:induction false} TilesEndBound(tensors: seq<TensorEntry>, ids: seq<nat>, end: nat, a: nat)
    requires Tiles(tensors, ids, end) && a < |ids|
    ensures ids[a] < |tensors| && tensors[ids[a]].offset + tensors[ids[a]].byteLength <= end
  {
    if a < |ids| - 1 {
      TilesEndBound(tensors, Front(ids), tensors[Last(ids)].offset, a);
    }
  }

  // ---------------------------------------------------------------------
  // The builder object
  // ---------------------------------------------------------------------

  class Builder {
    var nextTensorId: nat
    var current: Option<OpenSegment>
    var segments: seq<Segment>
    var payloads: seq<Bytes>
    var tensors: seq<TensorEntry>
    var aliases: seq<AliasEntry>
    var persistentIds: seq<string>
    var layerIds: seq<string>

    function View(): Image
      reads this
    {
      Image(nextTensorId, current, segments, payloads, tensors, aliases, persistentIds, layerIds)
    }

    /** Every closed segment has its payload. */
    predicate Balanced()
      reads this
    {
      |payloads| == |segments|
    }

    constructor ()
      ensures View() == EMPTY && Balanced()
    {
      nextTensorId, current := 0, None;
      segments, payloads, tensors, aliases := [], [], [], [];
      persistentIds, layerIds := [], [];
    }

    method BeginSegment(id: string, kind: SegmentKind)
      modifies this
      ensures View() == Begin(old(View()), id, kind)
      ensures current.Some? && (old(Balanced()) ==> Balanced())
    {
      FlushSegment();
      current := Some(OpenSegment(id, SegmentFile(|segments|), kind, [], [], 0));
    }

    method AddTensor(info: TensorInfo, data: Bytes) returns (id: nat)
      requires current.Some?
      modifies this
      ensures Add(old(View()), info, data) == Some(View())
      ensures id == old(nextTensorId)
    {
      var seg := current.value;
      id := nextTensorId;
      nextTensorId := nextTensorId + 1;
      var offset := seg.offset;
      current := Some(seg.(data := seg.data + data, offset := seg.offset + |data|, tensorIds := seg.tensorIds + [id]));
      tensors := tensors + [TensorEntry(id, info, seg.id, offset, |data|)];
    }

    method AddAlias(logicalName: string, physicalId: nat)
      modifies this
      ensures View() == old(View()).(aliases := old(aliases) + [AliasEntry(logicalName, physicalId)])
    {
      aliases := aliases + [AliasEntry(logicalName, physicalId)];
    }

    method FlushSegment()
      modifies this
      ensures View() == Flush(old(View()))
      ensures old(Balanced()) ==> Balanced()
    {
      if current.Some? {
        var seg := current.value;
        current := None;
        payloads := payloads + [seg.data];
        segments := segments + [Segment(seg.id, seg.filename, |seg.data|, seg.tensorIds, seg.kind)];
        match seg.kind {
          case Layer(_) => layerIds := layerIds + [seg.id];
          case _ => persistentIds := persistentIds + [seg.id];
        }
      }
    }

    method Finalize() returns (m: Manifest, files: map<string, Bytes>)
      requires Balanced()
      modifies this
      ensures View() == Flush(old(View()))
      ensures m == ManifestOf(old(View())) && |payloads| == |segments| && files == WriteFiles(segments, payloads)
    {
      FlushSegment();
      files := map[];
      for i := 0 to |segments|
        invariant View() == Flush(old(View()))
        invariant files == WriteFiles(segments[..i], payloads[..i])
      {
        assert Front(segments[..i + 1]) == segments[..i] && Front(payloads[..i + 1]) == payloads[..i];
        files := files[segments[i].filename := payloads[i]];
      }
      assert segments[..|segments|] == segments && payloads[..|payloads|] == payloads;
      m := Manifest(segments, tensors, aliases, persistentIds, layerIds, SumSizes(segments));
    }
  }
}
