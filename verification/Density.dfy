// Exactly which plans the relocation pipeline carries out faithfully (compile_pipeline.rs): those
// that place every nonempty payload where the earlier ones of its segment end.
module Density {
  import opened Common
  import opened Plan
  import opened Pipeline

  /** A segment's file after a list of units, whatever their offsets. */
  function FileAfter(c: Setup, units: seq<RelocationUnit>, id: string): Bytes {
    if units == [] then []
    else
      var before := FileAfter(c, Front(units), id);
      if Last(units).segment == id then WriteAt(before, Last(units).offset, c.payload(Last(units))) else before
  }

  /** Nonempty payloads are dense; where an empty one is planned does not matter. */
  ghost predicate DenseBytes(units: seq<RelocationUnit>) {
    forall k :: 0 <= k < |units| && units[k].length > 0 ==> Placed(units, k)
  }

  ghost predicate Placed(units: seq<RelocationUnit>, k: int)
    requires 0 <= k < |units|
  {
    units[k].offset == UnitBytes(units[..k], units[k].segment)
  }

  // ---------------------------------------------------------------------
  // What a run leaves on disk
  // ---------------------------------------------------------------------

  /** Segment j's file and hasher. */
  ghost predicate Has(segments: seq<PlannedSegment>, s: Store, j: nat, file: Bytes, stream: Bytes)
    requires j < |segments|
  {
    var id, f := segments[j].id, segments[j].filename;
    && id in s.handles && s.handles[id] == f
    && f in s.files && s.files[f] == file
    && id in s.hashers && s.hashers[id] == stream
  }

  lemma WriteHas(c: Setup, s: Store, u: RelocationUnit, h: nat, j: nat, file: Bytes, stream: Bytes)
    requires DistinctSegments(c.plan.segments) && h < |c.plan.segments| && j < |c.plan.segments|
    requires c.plan.segments[h].id == u.segment
    requires u.segment in s.handles && s.handles[u.segment] == c.plan.segments[h].filename
    requires c.plan.segments[h].filename in s.files && u.segment in s.hashers
    requires Has(c.plan.segments, s, j, file, stream)
    ensures var n, bytes := WriteUnit(s, Packet(u, c.payload(u))), c.payload(u);
      if j == h then Has(c.plan.segments, n, j, WriteAt(file, u.offset, bytes), stream + bytes)
      else Has(c.plan.segments, n, j, file, stream)
  {
    hide WriteAt;
  }

  lemma {:induction false} ReplayHas(c: Setup, disk: map<string, Bytes>, units: seq<RelocationUnit>, j: nat)
    requires DistinctSegments(c.plan.segments) && j < |c.plan.segments|
    requires forall u :: u in units ==> Known(c, u.segment)
    ensures Has(c.plan.segments, Replay(c, disk, units), j,
                FileAfter(c, units, c.plan.segments[j].id), SegmentPayload(c, units, c.plan.segments[j].id))
    decreases |units|
  {
    hide WriteAt, WriteUnit, Has;
    if units == [] {
      OpenHas(c, disk, j);
    } else {
      assert forall u :: u in Front(units) ==> u in units;
      assert Last(units) in units;
      var h := SegmentIndex(c, Last(units).segment);
      ReplayHas(c, disk, Front(units), j);
      ReplayHas(c, disk, Front(units), h);
      HasParts(c, Replay(c, disk, Front(units)), h, Last(units).segment,
               FileAfter(c, Front(units), c.plan.segments[h].id), SegmentPayload(c, Front(units), c.plan.segments[h].id));
      WriteHas(c, Replay(c, disk, Front(units)), Last(units), h, j,
               FileAfter(c, Front(units), c.plan.segments[j].id), SegmentPayload(c, Front(units), c.plan.segments[j].id));
      assert j != h ==> c.plan.segments[j].id != Last(units).segment;
      assert SegmentPayload(c, Front(units), c.plan.segments[j].id) + [] == SegmentPayload(c, Front(units), c.plan.segments[j].id);
    }
  }

  lemma OpenHas(c: Setup, disk: map<string, Bytes>, j: nat)
    requires DistinctSegments(c.plan.segments) && j < |c.plan.segments|
    ensures Has(c.plan.segments, Replay(c, disk, []), j, [], [])
  {
    OpenHolds(c.plan.segments, disk);
    assert Holds(c.plan.segments, OpenStore(c.plan.segments, disk), j, []);
  }

  lemma HasParts(c: Setup, s: Store, h: nat, id: string, file: Bytes, stream: Bytes)
    requires h < |c.plan.segments| && c.plan.segments[h].id == id && Has(c.plan.segments, s, h, file, stream)
    ensures id in s.handles && s.handles[id] == c.plan.segments[h].filename
    ensures c.plan.segments[h].filename in s.files && id in s.hashers
  {
  }

  // ---------------------------------------------------------------------
  // Dense is enough
  // ---------------------------------------------------------------------

  lemma {:induction false} DenseIsFaithful(c: Setup, units: seq<RelocationUnit>, id: string)
    requires ValidSetup(c) && DenseBytes(units)
    ensures FileAfter(c, units, id) == SegmentPayload(c, units, id)
    decreases |units|
  {
    if units != [] {
      var front, u := Front(units), Last(units);
      forall k | 0 <= k < |front| && front[k].length > 0
        ensures Placed(front, k)
      {
        assert front[..k] == units[..k] && Placed(units, k);
      }
      DenseIsFaithful(c, front, id);
      assert units[..|units| - 1] == front;
      if u.segment == id {
        assert u.length > 0 ==> Placed(units, |units| - 1);
        PayloadLength(c, front, id);
        AppendAtEnd(FileAfter(c, front, id), c.payload(u));
      }
    }
  }

  lemma AppendAtEnd(file: Bytes, data: Bytes)
    ensures WriteAt(file, |file|, data) == file + data
  {
  }

  // ---------------------------------------------------------------------
  // Dense is necessary
  // ---------------------------------------------------------------------

  /** The payloads that mark one unit with ones. */
  function Mark(target: RelocationUnit, u: RelocationUnit): Bytes {
    var b: Byte := if u == target then 1 else 0;
    seq(u.length, i => b)
  }

  ghost predicate Marks(c: Setup, target: RelocationUnit) {
    forall u :: c.payload(u) == Mark(target, u)
  }

  ghost predicate AllZero(b: Bytes) {
    forall x :: 0 <= x < |b| ==> b[x] == 0
  }

  /** Before the marked unit, file and stream are blank. */
  lemma {:induction false} BlankBefore(c: Setup, target: RelocationUnit, units: seq<RelocationUnit>, id: string)
    requires Marks(c, target) && target !in units
    ensures AllZero(FileAfter(c, units, id)) && AllZero(SegmentPayload(c, units, id))
    ensures |SegmentPayload(c, units, id)| == UnitBytes(units, id)
    decreases |units|
  {
    if units != [] {
      assert forall u :: u in Front(units) ==> u in units;
      assert Last(units) in units && c.payload(Last(units)) == Mark(target, Last(units));
      BlankBefore(c, target, Front(units), id);
    }
  }

  /** The write of the marked unit, at its offset in the file and at the end of the stream. */
  lemma MarkedWrite(blank: Bytes, stream: Bytes, target: RelocationUnit)
    requires AllZero(blank) && AllZero(stream) && target.length > 0
    ensures var file, ones := WriteAt(blank, target.offset, Mark(target, target)), Mark(target, target);
      && |file| >= target.offset + target.length
      && (forall x :: 0 <= x < |file| ==> file[x] == if target.offset <= x < target.offset + target.length then 1 else 0)
      && |stream + ones| == |stream| + target.length
      && forall x :: 0 <= x < |stream + ones| ==> (stream + ones)[x] == if |stream| <= x then 1 else 0
  {
  }

  /** Later dense units touch nothing below `limit`, where their segment already ends. */
  lemma {:induction false} LaterKeeps(c: Setup, units: seq<RelocationUnit>, m: nat, id: string)
    requires ValidSetup(c) && m <= |units|
    requires forall k :: m <= k < |units| && units[k].length > 0 ==> Placed(units, k)
    ensures |FileAfter(c, units, id)| >= |FileAfter(c, units[..m], id)|
    ensures forall x :: 0 <= x < UnitBytes(units[..m], id) && x < |FileAfter(c, units[..m], id)| ==>
              FileAfter(c, units, id)[x] == FileAfter(c, units[..m], id)[x]
    ensures SegmentPayload(c, units[..m], id) <= SegmentPayload(c, units, id)
    ensures UnitBytes(units[..m], id) <= UnitBytes(units, id)
    decreases |units|
  {
    if m == |units| {
      assert units[..m] == units;
    } else {
      var front, u := Front(units), Last(units);
      assert front[..m] == units[..m] && units[..|units| - 1] == front;
      forall k | m <= k < |front| && front[k].length > 0
        ensures Placed(front, k)
      {
        assert front[..k] == units[..k] && Placed(units, k);
      }
      LaterKeeps(c, front, m, id);
      assert u.length > 0 ==> Placed(units, |units| - 1);
      hide UnitBytes, Placed;
      UnitBytesLast(units, id);
      if u.segment == id {
        WriteBeyond(FileAfter(c, front, id), u.offset, c.payload(u));
      }
    }
  }

  lemma UnitBytesLast(units: seq<RelocationUnit>, id: string)
    requires units != []
    ensures UnitBytes(units, id) >= UnitBytes(Front(units), id)
    ensures Placed(units, |units| - 1) ==> Last(units).offset == UnitBytes(Front(units), Last(units).segment)
  {
    assert units[..|units| - 1] == Front(units);
  }

  lemma WriteBeyond(file: Bytes, offset: nat, data: Bytes)
    ensures |WriteAt(file, offset, data)| >= |file|
    ensures forall x :: 0 <= x < offset && x < |file| ==> WriteAt(file, offset, data)[x] == file[x]
  {
  }

  ghost predicate Fine(units: seq<RelocationUnit>, k: nat) {
    k < |units| && units[k].length > 0 ==> Placed(units, k)
  }

  /** The last unit that is out of place, among the first n. */
  lemma {:induction false} LastMisplaced(units: seq<RelocationUnit>, n: nat) returns (m: nat)
    requires n <= |units| && exists bad: nat :: bad < n && !Fine(units, bad)
    ensures m < n && !Fine(units, m)
    ensures forall k: nat :: m < k < n ==> Fine(units, k)
  {
    hide Fine;
    if Fine(units, n - 1) {
      m := LastMisplaced(units, n - 1);
    } else {
      m := n - 1;
    }
  }

  /** Marking the last misplaced unit tells the file from the stream. */
  lemma MisplacedShows(c: Setup, units: seq<RelocationUnit>, m: nat)
    requires ValidSetup(c) && Distinct(units) && m < |units| && units[m].length > 0 && !Placed(units, m)
    requires forall k :: m < k < |units| && units[k].length > 0 ==> Placed(units, k)
    requires Marks(c, units[m])
    ensures FileAfter(c, units, units[m].segment) != SegmentPayload(c, units, units[m].segment)
  {
    var u := units[m];
    var id, upTo, before := u.segment, units[..m + 1], units[..m];
    assert Front(upTo) == before && Last(upTo) == u && u !in before;
    UpToMarked(c, upTo, u);
    MarkedWrite(FileAfter(c, before, id), SegmentPayload(c, before, id), u);
    LaterKeeps(c, units, m + 1, id);
    var p := UnitBytes(before, id);
    assert u.offset != p;
    hide *;
    Differ(FileAfter(c, upTo, id), SegmentPayload(c, upTo, id), FileAfter(c, units, id), SegmentPayload(c, units, id),
           u.offset, p, u.length);
  }

  /** A file marked from `offset` and a stream marked from `p` do not grow into the same bytes. */
  lemma Differ(file: Bytes, stream: Bytes, file': Bytes, stream': Bytes, offset: nat, p: nat, length: nat)
    requires offset != p && length > 0 && |file| >= offset + length && |stream| == p + length
    requires forall x :: 0 <= x < |file| ==> file[x] == if offset <= x < offset + length then 1 else 0
    requires forall x :: 0 <= x < |stream| ==> stream[x] == if p <= x then 1 else 0
    requires |file'| >= |file| && forall x :: 0 <= x < p + length && x < |file| ==> file'[x] == file[x]
    requires stream <= stream'
    ensures file' != stream'
  {
    var x := if offset < p then offset else p;
    assert file[x] != stream[x];
    assert file'[x] == file[x] && stream'[x] == stream[x];
  }

  lemma UpToMarked(c: Setup, upTo: seq<RelocationUnit>, u: RelocationUnit)
    requires Marks(c, u) && upTo != [] && Last(upTo) == u && u !in Front(upTo)
    ensures var before, id := Front(upTo), u.segment;
      && AllZero(FileAfter(c, before, id)) && AllZero(SegmentPayload(c, before, id))
      && |SegmentPayload(c, before, id)| == UnitBytes(before, id)
      && UnitBytes(upTo, id) == UnitBytes(before, id) + u.length
      && FileAfter(c, upTo, id) == WriteAt(FileAfter(c, before, id), u.offset, Mark(u, u))
      && SegmentPayload(c, upTo, id) == SegmentPayload(c, before, id) + Mark(u, u)
  {
    BlankBefore(c, u, Front(upTo), u.segment);
    assert c.payload(u) == Mark(u, u);
    hide WriteAt, Mark, AllZero;
  }

  // ---------------------------------------------------------------------
  // Main result
  // ---------------------------------------------------------------------

  /** Every segment file holds the bytes that were hashed for it, which are its payloads in order. */
  ghost predicate FilesAreStreams(c: Setup, s: State) {
    forall j :: 0 <= j < |c.plan.segments| ==>
      var id, f := c.plan.segments[j].id, c.plan.segments[j].filename;
      && f in s.store.files && id in s.store.hashers && s.store.files[f] == s.store.hashers[id]
      && s.store.files[f] == SegmentPayload(c, Physical(c.plan.table), id)
  }

  ghost predicate AlwaysFaithful(plan: CompilationPlan, disk: map<string, Bytes>) {
    forall c: Setup, acts: seq<Action> ::
      c.plan == plan && ValidSetup(c) && Run(c, disk, acts).Some? && Success(Run(c, disk, acts).value)
      ==> FilesAreStreams(c, Run(c, disk, acts).value)
  }

  lemma RunLeaves(c: Setup, disk: map<string, Bytes>, acts: seq<Action>, j: nat)
    requires DistinctSegments(c.plan.segments) && j < |c.plan.segments|
    requires Run(c, disk, acts).Some? && Success(Run(c, disk, acts).value)
    ensures Has(c.plan.segments, Run(c, disk, acts).value.store, j,
                FileAfter(c, Physical(c.plan.table), c.plan.segments[j].id),
                SegmentPayload(c, Physical(c.plan.table), c.plan.segments[j].id))
  {
    hide *;
    var s := Run(c, disk, acts).value;
    RunInv(c, disk, acts);
    SuccessWritesAll(c, disk, s);
    LogIsKnown(c, disk, s);
    ReplayHas(c, disk, s.log, j);
  }

  lemma HasBytes(c: Setup, s: State, j: nat, file: Bytes, stream: Bytes)
    requires j < |c.plan.segments| && Has(c.plan.segments, s.store, j, file, stream)
    ensures var id, f := c.plan.segments[j].id, c.plan.segments[j].filename;
      f in s.store.files && s.store.files[f] == file && id in s.store.hashers && s.store.hashers[id] == stream
  {
  }

  /** A successful run of a misplaced plan whose file is not what was hashed. */
  lemma MisplacedRun(plan: CompilationPlan, capacity: nat, disk: map<string, Bytes>)
    returns (c: Setup, acts: seq<Action>)
    requires capacity >= 1 && DistinctSegments(plan.segments) && Distinct(Physical(plan.table))
    requires forall u :: u in Physical(plan.table) ==> HasId(plan.segments, u.segment)
    requires !DenseBytes(Physical(plan.table))
    ensures c.plan == plan && c.capacity == capacity && ValidSetup(c)
    ensures Run(c, disk, acts).Some? && Success(Run(c, disk, acts).value)
    ensures !FilesAreStreams(c, Run(c, disk, acts).value)
  {
    hide *;
    var units := Physical(plan.table);
    var m := Misplaced(units);
    c := MarkedSetup(plan, capacity, units[m]);
    var target := units[m];
    assert target in units;
    KnownIn(c, target.segment);
    var j := SegmentIndex(c, target.segment);
    MisplacedShows(c, units, m);
    RunNothing(c, disk);
    acts := RunCanFinish(c, disk, []);
    assert [] + acts == acts;
    SuccessIffKnown(c, disk, acts);
    RunLeaves(c, disk, acts, j);
    var s := Run(c, disk, acts).value;
    HasBytes(c, s, j, FileAfter(c, units, target.segment), SegmentPayload(c, units, target.segment));
    NotFaithful(c, s, j);
  }

  lemma Misplaced(units: seq<RelocationUnit>) returns (m: nat)
    requires !DenseBytes(units)
    ensures m < |units| && units[m].length > 0 && !Placed(units, m)
    ensures forall k :: m < k < |units| && units[k].length > 0 ==> Placed(units, k)
  {
    var bad :| 0 <= bad < |units| && units[bad].length > 0 && !Placed(units, bad);
    hide Placed;
    assert !Fine(units, bad);
    m := LastMisplaced(units, |units|);
    assert forall k :: m < k < |units| && units[k].length > 0 ==> Fine(units, k);
  }

  lemma MarkedSetup(plan: CompilationPlan, capacity: nat, target: RelocationUnit) returns (c: Setup)
    requires capacity >= 1 && forall u :: u in Physical(plan.table) ==> HasId(plan.segments, u.segment)
    ensures c.plan == plan && c.capacity == capacity && ValidSetup(c) && Marks(c, target) && AllKnown(c)
  {
    hide HasId, Physical;
    c := Setup(plan, capacity, (u: RelocationUnit) => Mark(target, u), (b: Bytes) => "");
  }

  lemma KnownIn(c: Setup, id: string)
    requires HasId(c.plan.segments, id)
    ensures Known(c, id)
  {
  }

  lemma NotFaithful(c: Setup, s: State, j: nat)
    requires j < |c.plan.segments|
    requires var id, f := c.plan.segments[j].id, c.plan.segments[j].filename;
      f in s.store.files && id in s.store.hashers && s.store.files[f] != s.store.hashers[id]
    ensures !FilesAreStreams(c, s)
  {
  }

  /** For every plan with distinct known segments and no unit twice: all successful runs, with all
      payloads, leave files that are what was hashed, if and only if nonempty payloads are dense. */
  lemma {:induction false} FaithfulIffDense(plan: CompilationPlan, disk: map<string, Bytes>)
    requires DistinctSegments(plan.segments) && Distinct(Physical(plan.table))
    requires forall u :: u in Physical(plan.table) ==> HasId(plan.segments, u.segment)
    ensures AlwaysFaithful(plan, disk) <==> DenseBytes(Physical(plan.table))
  {
    if DenseBytes(Physical(plan.table)) {
      forall c: Setup, acts: seq<Action> |
        c.plan == plan && ValidSetup(c) && Run(c, disk, acts).Some? && Success(Run(c, disk, acts).value)
        ensures FilesAreStreams(c, Run(c, disk, acts).value)
      {
        DenseRun(c, disk, acts);
      }
    } else {
      var c, acts := MisplacedRun(plan, 1, disk);
      hide Run, Success, ValidSetup, FilesAreStreams;
    }
  }

  lemma DenseRun(c: Setup, disk: map<string, Bytes>, acts: seq<Action>)
    requires ValidSetup(c) && DistinctSegments(c.plan.segments) && DenseBytes(Physical(c.plan.table))
    requires Run(c, disk, acts).Some? && Success(Run(c, disk, acts).value)
    ensures FilesAreStreams(c, Run(c, disk, acts).value)
  {
    var s, units := Run(c, disk, acts).value, Physical(c.plan.table);
    forall j | 0 <= j < |c.plan.segments|
      ensures var id, f := c.plan.segments[j].id, c.plan.segments[j].filename;
        && f in s.store.files && id in s.store.hashers && s.store.files[f] == s.store.hashers[id]
        && s.store.files[f] == SegmentPayload(c, units, id)
    {
      hide *;
      var id := c.plan.segments[j].id;
      DenseIsFaithful(c, units, id);
      RunLeaves(c, disk, acts, j);
      HasBytes(c, s, j, FileAfter(c, units, id), SegmentPayload(c, units, id));
    }
    hide Run, Physical, SegmentPayload;
  }
}
