// The parallel relocation pipeline (compile_pipeline.rs): three lanes joined by two
// bounded channels, as a step system in which every interleaving is a run.
module Pipeline {
  import Config
  import Emission
  import opened Common
  import opened Plan

  datatype RelocationUnit = RelocationUnit(
    tensorId: nat, name: string, shard: string, sourceOffset: nat, length: nat, segment: string, offset: nat,
    disposition: Disposition)

  function ToUnit(t: PlannedTensor): RelocationUnit {
    RelocationUnit(t.id, t.name, t.sourceShard, t.sourceOffset, t.sourceLength, t.segment, t.offset, t.disposition)
  }

  /** The units of the tensors that have a payload, in table order. */
  function Physical(table: seq<PlannedTensor>): seq<RelocationUnit> {
    if table == [] then []
    else (if table[0].disposition.AliasOnly? then [] else [ToUnit(table[0])]) + Physical(table[1..])
  }

  datatype Packet = Packet(unit: RelocationUnit, data: Bytes)

  /** The plan, the channel capacity, the bytes of each unit, and the digest function. */
  datatype Setup = Setup(
    plan: CompilationPlan, capacity: nat, payload: RelocationUnit -> Bytes, digest: Bytes -> string)

  ghost predicate ValidSetup(c: Setup) {
    c.capacity >= 1 && forall u :: |c.payload(u)| == u.length
  }

  // ---------------------------------------------------------------------
  // Segment files and hashers
  // ---------------------------------------------------------------------

  /** Open handles by segment id, file contents by filename, hashed streams by segment id. */
  datatype Store = Store(handles: map<string, string>, files: map<string, Bytes>, hashers: map<string, Bytes>)

  /** Create every segment file (truncating it) and start a hasher for every segment. */
  function OpenStore(segments: seq<PlannedSegment>, disk: map<string, Bytes>): Store {
    if segments == [] then Store(map[], disk, map[])
    else
      var s, seg := OpenStore(Front(segments), disk), Last(segments);
      Store(s.handles[seg.id := seg.filename], s.files[seg.filename := []], s.hashers[seg.id := []])
  }

  function Zeros(n: nat): Bytes {
    seq(n, i => 0)
  }

  /** Seek and write: a gap is filled with zeros, existing bytes are overwritten; writing
      nothing changes nothing, wherever the seek went. */
  function WriteAt(file: Bytes, offset: nat, data: Bytes): Bytes {
    if data == [] then file else
    var padded := if offset > |file| then file + Zeros(offset - |file|) else file;
    if offset + |data| <= |padded| then padded[..offset] + data + padded[offset + |data|..]
    else padded[..offset] + data
  }

  /** Byte by byte: the data at its offset, the file as it was elsewhere, and zeros between. */
  lemma WriteAtIs(file: Bytes, offset: nat, data: Bytes, k: nat)
    requires data != []
    ensures var r := WriteAt(file, offset, data);
      && |r| == (if offset + |data| > |file| then offset + |data| else |file|)
      && (k < |r| ==> r[k] == if offset <= k < offset + |data| then data[k - offset] else if k < |file| then file[k] else 0)
  {
  }

  function WriteUnit(s: Store, p: Packet): Store {
    var id := p.unit.segment;
    if id in s.handles && s.handles[id] in s.files then
      var f := s.handles[id];
      s.(files := s.files[f := WriteAt(s.files[f], p.unit.offset, p.data)],
         hashers := if id in s.hashers then s.hashers[id := s.hashers[id] + p.data] else s.hashers)
    else s
  }

  function Replay(c: Setup, disk: map<string, Bytes>, log: seq<RelocationUnit>): Store {
    if log == [] then OpenStore(c.plan.segments, disk)
    else WriteUnit(Replay(c, disk, Front(log)), Packet(Last(log), c.payload(Last(log))))
  }

  // ---------------------------------------------------------------------
  // States and actions
  // ---------------------------------------------------------------------

  datatype Lane = Running | Finished | Failed

  /** `todo` is what the source lane has left; `q1`, `q2` are the channels; `relocating`
      and `writing` are the packets in the hands of the two lower lanes. The `Held` flags
      are the orchestrator's own sender clones. `log` records the units written. */
  datatype State = State(
    todo: seq<PlannedTensor>, source: Lane, sourceTxHeld: bool, q1: seq<RelocationUnit>,
    relocating: Option<Packet>, relocate: Lane, writeTxHeld: bool, q2: seq<Packet>,
    writing: Option<Packet>, writer: Lane, opened_: bool, store: Store, log: seq<RelocationUnit>)

  function Init(c: Setup, disk: map<string, Bytes>): State {
    State(c.plan.table, Running, true, [], None, Running, true, [], None, Running, false,
          Store(map[], disk, map[]), [])
  }

  datatype Action =
    | SourceSkip | SourceSend | SourceClosed | SourceFinish | DropSourceTx
    | RelocateRecv | RelocateSend | RelocateClosed | RelocateFinish | DropWriteTx
    | WriterOpen | WriterRecv | WriterWrite | WriterUnknown | WriterFinish | WriterIoError

  predicate HasId(segments: seq<PlannedSegment>, id: string) {
    exists seg :: seg in segments && seg.id == id
  }

  predicate Known(c: Setup, id: string) {
    HasId(c.plan.segments, id)
  }

  predicate HeadIsAlias(s: State) {
    s.todo != [] && s.todo[0].disposition.AliasOnly?
  }

  predicate HeadIsPhysical(s: State) {
    s.todo != [] && !s.todo[0].disposition.AliasOnly?
  }

  predicate Enabled(c: Setup, s: State, a: Action) {
    match a
    case SourceSkip => s.source.Running? && HeadIsAlias(s)
    case SourceSend => s.source.Running? && HeadIsPhysical(s) && s.relocate.Running? && |s.q1| < c.capacity
    case SourceClosed => s.source.Running? && HeadIsPhysical(s) && !s.relocate.Running?
    case SourceFinish => s.source.Running? && s.todo == []
    case DropSourceTx => s.sourceTxHeld
    case RelocateRecv => s.relocate.Running? && s.relocating.None? && s.q1 != []
    case RelocateSend => s.relocate.Running? && s.relocating.Some? && s.writer.Running? && |s.q2| < c.capacity
    case RelocateClosed => s.relocate.Running? && s.relocating.Some? && !s.writer.Running?
    case RelocateFinish =>
      s.relocate.Running? && s.relocating.None? && s.q1 == [] && !s.source.Running? && !s.sourceTxHeld
    case DropWriteTx => s.writeTxHeld && !s.sourceTxHeld
    case WriterOpen => s.writer.Running? && !s.opened_
    case WriterRecv => s.writer.Running? && s.opened_ && s.writing.None? && s.q2 != []
    case WriterWrite => s.writer.Running? && s.opened_ && s.writing.Some? && Known(c, s.writing.value.unit.segment)
    case WriterUnknown => s.writer.Running? && s.opened_ && s.writing.Some? && !Known(c, s.writing.value.unit.segment)
    case WriterFinish =>
      s.writer.Running? && s.opened_ && s.writing.None? && s.q2 == [] && !s.relocate.Running? && !s.writeTxHeld
    case WriterIoError => s.writer.Running?
  }

  /** One atomic step. A lane that ends drops its receiver and what it held. */
  function Apply(c: Setup, s: State, a: Action): State
    requires Enabled(c, s, a)
  {
    match a
    case SourceSkip => s.(todo := s.todo[1..])
    case SourceSend => s.(todo := s.todo[1..], q1 := s.q1 + [ToUnit(s.todo[0])])
    case SourceClosed => s.(source := Failed)
    case SourceFinish => s.(source := Finished)
    case DropSourceTx => s.(sourceTxHeld := false)
    case RelocateRecv => s.(q1 := s.q1[1..], relocating := Some(Packet(s.q1[0], c.payload(s.q1[0]))))
    case RelocateSend => s.(relocating := None, q2 := s.q2 + [s.relocating.value])
    case RelocateClosed => s.(relocating := None, relocate := Failed)
    case RelocateFinish => s.(relocate := Finished)
    case DropWriteTx => s.(writeTxHeld := false)
    case WriterOpen => s.(opened_ := true, store := OpenStore(c.plan.segments, s.store.files))
    case WriterRecv => s.(q2 := s.q2[1..], writing := Some(s.q2[0]))
    case WriterWrite =>
      s.(writing := None, store := WriteUnit(s.store, s.writing.value), log := s.log + [s.writing.value.unit])
    case WriterUnknown => s.(writing := None, writer := Failed)
    case WriterFinish => s.(writer := Finished)
    case WriterIoError => s.(writing := None, writer := Failed)
  }

  /** The state after a sequence of actions, if each was enabled in its turn. */
  function Run(c: Setup, disk: map<string, Bytes>, acts: seq<Action>): Option<State> {
    if acts == [] then Some(Init(c, disk))
    else
      match Run(c, disk, Front(acts))
      case None => None
      case Some(s) => if Enabled(c, s, Last(acts)) then Some(Apply(c, s, Last(acts))) else None
  }

  /** What the orchestrator returns once the lanes have ended: it awaits the source lane,
      then the relocate lane, then the writer, and reports the first failure it meets. */
  datatype Outcome = Hashes(digests: map<string, string>) | SourceError | RelocateError | WriterError

  predicate Ended(s: State) {
    !s.source.Running? && !s.relocate.Running? && !s.writer.Running?
  }

  predicate Success(s: State) {
    s.source.Finished? && s.relocate.Finished? && s.writer.Finished?
  }

  function OutcomeOf(c: Setup, s: State): Outcome
    requires Ended(s)
  {
    if s.source.Failed? then SourceError
    else if s.relocate.Failed? then RelocateError
    else if s.writer.Failed? then WriterError
    else Hashes(map id | id in s.store.hashers :: c.digest(s.store.hashers[id]))
  }

  // ---------------------------------------------------------------------
  // Conservation: no unit is lost, duplicated or reordered
  // ---------------------------------------------------------------------

  function Held(p: Option<Packet>): seq<RelocationUnit> {
    if p.Some? then [p.value.unit] else []
  }

  function UnitsOf(q: seq<Packet>): seq<RelocationUnit> {
    seq(|q|, i requires 0 <= i < |q| => q[i].unit)
  }

  /** Written, then in flight from the bottom up, then still to be read. */
  function Line(s: State): seq<RelocationUnit> {
    Parts(s.log, Held(s.writing), UnitsOf(s.q2), Held(s.relocating), s.q1, Physical(s.todo))
  }

  function Parts(a: seq<RelocationUnit>, b: seq<RelocationUnit>, c: seq<RelocationUnit>,
                 d: seq<RelocationUnit>, e: seq<RelocationUnit>, f: seq<RelocationUnit>): seq<RelocationUnit> {
    a + b + c + d + e + f
  }

  function Buffers(s: State): nat {
    |s.q2| + |Held(s.relocating)| + |Held(s.writing)|
  }

  predicate Honest(c: Setup, p: Packet) {
    p.data == c.payload(p.unit)
  }

  ghost predicate PacketsHonest(c: Setup, s: State) {
    && (forall p :: p in s.q2 ==> Honest(c, p))
    && (s.relocating.Some? ==> Honest(c, s.relocating.value))
    && (s.writing.Some? ==> Honest(c, s.writing.value))
  }

  /** How the ends of the lanes depend on each other: failures climb from the writer up,
      normal ends sink from the source down. */
  ghost predicate LanesOk(s: State) {
    && (s.source.Failed? ==> s.relocate.Failed?)
    && (s.relocate.Failed? ==> s.writer.Failed?)
    && (s.source.Finished? ==> s.todo == [])
    && (s.relocate.Finished? ==> s.q1 == [] && !s.source.Running? && !s.sourceTxHeld)
    && (s.writer.Finished? ==> s.q2 == [] && !s.relocate.Running? && s.opened_)
    && (s.relocating.Some? ==> s.relocate.Running?)
    && (s.writing.Some? ==> s.writer.Running? && s.opened_)
    && (s.sourceTxHeld ==> s.writeTxHeld)
  }

  ghost predicate Inv(c: Setup, disk: map<string, Bytes>, s: State) {
    && LanesOk(s)
    && |s.q1| <= c.capacity && |s.q2| <= c.capacity
    && PacketsHonest(c, s)
    && (!s.writer.Failed? ==> Line(s) == Physical(c.plan.table))
    && s.log <= Physical(c.plan.table)
    && (forall u :: u in s.log ==> Known(c, u.segment))
    && (if s.opened_ then s.store == Replay(c, disk, s.log) else s.log == [] && s.store == Store(map[], disk, map[]))
  }

  lemma InvInit(c: Setup, disk: map<string, Bytes>)
    ensures Inv(c, disk, Init(c, disk))
  {
    assert Line(Init(c, disk)) == Physical(c.plan.table);
  }

  // A unit moves from the head of one part to the tail of the part before it.
  lemma IntoQ1(a: seq<RelocationUnit>, b: seq<RelocationUnit>, c: seq<RelocationUnit>, d: seq<RelocationUnit>,
            e: seq<RelocationUnit>, f: seq<RelocationUnit>, u: RelocationUnit)
    ensures Parts(a, b, c, d, e + [u], f) == Parts(a, b, c, d, e, [u] + f)
  {
  }

  lemma OutOfQ1(a: seq<RelocationUnit>, b: seq<RelocationUnit>, c: seq<RelocationUnit>, d: seq<RelocationUnit>,
            e: seq<RelocationUnit>, f: seq<RelocationUnit>, u: RelocationUnit)
    ensures Parts(a, b, c, [u], e, f) == Parts(a, b, c, [], [u] + e, f)
  {
  }

  lemma IntoQ2(a: seq<RelocationUnit>, b: seq<RelocationUnit>, c: seq<RelocationUnit>, d: seq<RelocationUnit>,
            e: seq<RelocationUnit>, f: seq<RelocationUnit>, u: RelocationUnit)
    ensures Parts(a, b, c + [u], [], e, f) == Parts(a, b, c, [u], e, f)
  {
  }

  lemma OutOfQ2(a: seq<RelocationUnit>, b: seq<RelocationUnit>, c: seq<RelocationUnit>, d: seq<RelocationUnit>,
            e: seq<RelocationUnit>, f: seq<RelocationUnit>, u: RelocationUnit)
    ensures Parts(a, [u], c, d, e, f) == Parts(a, [], [u] + c, d, e, f)
  {
  }

  lemma IntoLog(a: seq<RelocationUnit>, b: seq<RelocationUnit>, c: seq<RelocationUnit>, d: seq<RelocationUnit>,
            e: seq<RelocationUnit>, f: seq<RelocationUnit>, u: RelocationUnit)
    ensures Parts(a + [u], [], c, d, e, f) == Parts(a, [u], c, d, e, f)
  {
  }

  lemma LineStep(c: Setup, s: State, a: Action)
    requires LanesOk(s) && Enabled(c, s, a) && !s.writer.Failed? && !Apply(c, s, a).writer.Failed?
    ensures Line(Apply(c, s, a)) == Line(s)
  {
    var n := Apply(c, s, a);
    var w, u2, r, p := Held(s.writing), UnitsOf(s.q2), Held(s.relocating), Physical(s.todo);
    hide Physical, UnitsOf, Parts;
    match a {
      case SourceSkip => SkipHead(s.todo);
      case SourceSend =>
        SendHead(s.todo);
        IntoQ1(s.log, w, u2, r, s.q1, Physical(n.todo), ToUnit(s.todo[0]));
      case RelocateRecv =>
        assert s.q1 == [s.q1[0]] + n.q1;
        OutOfQ1(s.log, w, u2, r, n.q1, p, s.q1[0]);
      case RelocateSend =>
        UnitsAppend(s.q2, s.relocating.value);
        IntoQ2(s.log, w, u2, r, s.q1, p, s.relocating.value.unit);
      case WriterRecv =>
        UnitsHead(s.q2);
        OutOfQ2(s.log, w, UnitsOf(n.q2), r, s.q1, p, s.q2[0].unit);
      case WriterWrite => IntoLog(s.log, w, u2, r, s.q1, p, s.writing.value.unit);
      case _ =>
    }
  }

  lemma SkipHead(todo: seq<PlannedTensor>)
    requires todo != [] && todo[0].disposition.AliasOnly?
    ensures Physical(todo) == Physical(todo[1..])
  {
  }

  lemma SendHead(todo: seq<PlannedTensor>)
    requires todo != [] && !todo[0].disposition.AliasOnly?
    ensures Physical(todo) == [ToUnit(todo[0])] + Physical(todo[1..])
  {
  }

  lemma UnitsAppend(q: seq<Packet>, p: Packet)
    ensures UnitsOf(q + [p]) == UnitsOf(q) + [p.unit]
  {
  }

  lemma UnitsHead(q: seq<Packet>)
    requires q != []
    ensures UnitsOf(q) == [q[0].unit] + UnitsOf(q[1..])
  {
  }

  lemma LogStep(c: Setup, s: State, a: Action)
    requires LanesOk(s) && Enabled(c, s, a)
    requires !s.writer.Failed? ==> Line(s) == Physical(c.plan.table)
    requires s.log <= Physical(c.plan.table)
    ensures Apply(c, s, a).log <= Physical(c.plan.table)
  {
    if a.WriterWrite? {
      assert s.log + Held(s.writing) <= Line(s);
    }
  }

  lemma StoreStep(c: Setup, disk: map<string, Bytes>, s: State, a: Action)
    requires Inv(c, disk, s) && Enabled(c, s, a)
    ensures var n := Apply(c, s, a);
      if n.opened_ then n.store == Replay(c, disk, n.log) else n.log == [] && n.store == Store(map[], disk, map[])
  {
    if a.WriterWrite? {
      AppendFrontLast(s.log, s.writing.value.unit);
    }
  }

  lemma LanesStep(c: Setup, s: State, a: Action)
    requires LanesOk(s) && Enabled(c, s, a) && |s.q1| <= c.capacity && |s.q2| <= c.capacity
    ensures var n := Apply(c, s, a); LanesOk(n) && |n.q1| <= c.capacity && |n.q2| <= c.capacity
  {
    hide Known, WriteUnit, OpenStore;
  }

  lemma HonestStep(c: Setup, s: State, a: Action)
    requires PacketsHonest(c, s) && Enabled(c, s, a)
    ensures PacketsHonest(c, Apply(c, s, a))
    ensures (forall u :: u in s.log ==> Known(c, u.segment)) ==> forall u :: u in Apply(c, s, a).log ==> Known(c, u.segment)
  {
    hide Known, WriteUnit, OpenStore;
  }

  lemma InvStep(c: Setup, disk: map<string, Bytes>, s: State, a: Action)
    requires Inv(c, disk, s) && Enabled(c, s, a)
    ensures Inv(c, disk, Apply(c, s, a))
  {
    LanesStep(c, s, a);
    HonestStep(c, s, a);
    LogStep(c, s, a);
    StoreStep(c, disk, s, a);
    FailuresStay(c, s, a);
    if !Apply(c, s, a).writer.Failed? {
      LineStep(c, s, a);
    }
    hide Apply, Enabled, LanesOk, PacketsHonest, Known, Line, Replay;
  }

  lemma FailuresStay(c: Setup, s: State, a: Action)
    requires Enabled(c, s, a)
    ensures s.writer.Failed? ==> Apply(c, s, a).writer.Failed?
  {
  }

  /** The invariant holds after every run. */
  lemma {:induction false} RunInv(c: Setup, disk: map<string, Bytes>, acts: seq<Action>)
    requires Run(c, disk, acts).Some?
    ensures Inv(c, disk, Run(c, disk, acts).value)
  {
    if acts == [] {
      InvInit(c, disk);
    } else {
      RunInv(c, disk, Front(acts));
      InvStep(c, disk, Run(c, disk, Front(acts)).value, Last(acts));
    }
  }

  /** While the writer has not failed, what is written, in flight and unread is the list of
      physical tensors in order; at most capacity + 2 payloads are alive at any time. */
  lemma {:induction false} NothingLostOrReordered(c: Setup, disk: map<string, Bytes>, acts: seq<Action>)
    requires Run(c, disk, acts).Some?
    ensures var s := Run(c, disk, acts).value;
      && (!s.writer.Failed? ==> Line(s) == Physical(c.plan.table))
      && s.log <= Physical(c.plan.table)
      && Buffers(s) <= c.capacity + 2
  {
    RunInv(c, disk, acts);
  }

  // ---------------------------------------------------------------------
  // Progress
  // ---------------------------------------------------------------------

  /** Some step other than an I/O error is possible in every unfinished state. */
  function NextAction(c: Setup, s: State): (a: Action)
    requires c.capacity >= 1 && !Ended(s)
    ensures Enabled(c, s, a) && !a.WriterIoError?
  {
    if s.sourceTxHeld then DropSourceTx
    else if s.writeTxHeld then DropWriteTx
    else if s.writer.Running? && !s.opened_ then WriterOpen
    else if s.writer.Running? && s.writing.Some? then
      if Known(c, s.writing.value.unit.segment) then WriterWrite else WriterUnknown
    else if s.writer.Running? && s.q2 != [] then WriterRecv
    else if s.writer.Running? && !s.relocate.Running? then WriterFinish
    else if s.relocate.Running? && s.relocating.Some? then if s.writer.Running? then RelocateSend else RelocateClosed
    else if s.relocate.Running? && s.q1 != [] then RelocateRecv
    else if s.relocate.Running? && !s.source.Running? then RelocateFinish
    else if s.todo == [] then SourceFinish
    else if s.todo[0].disposition.AliasOnly? then SourceSkip
    else if s.relocate.Running? then SourceSend
    else SourceClosed
  }

  function Measure(s: State): nat {
    6 * |s.todo| + 5 * |s.q1| + 4 * |Held(s.relocating)| + 3 * |s.q2| + 2 * |Held(s.writing)|
    + (if s.source.Running? then 1 else 0) + (if s.relocate.Running? then 1 else 0) + (if s.writer.Running? then 1 else 0)
    + (if s.sourceTxHeld then 1 else 0) + (if s.writeTxHeld then 1 else 0) + (if s.opened_ then 0 else 1)
  }

  lemma MeasureDecreases(c: Setup, s: State, a: Action)
    requires Enabled(c, s, a)
    ensures Measure(Apply(c, s, a)) < Measure(s)
  {
    hide Known, ToUnit, OpenStore, WriteUnit;
    match a {
      case SourceSkip | SourceSend | SourceClosed | SourceFinish | DropSourceTx => SourceMeasure(c, s, a);
      case RelocateRecv | RelocateSend | RelocateClosed | RelocateFinish | DropWriteTx => RelocateMeasure(c, s, a);
      case _ => WriterMeasure(c, s, a);
    }
  }

  lemma SourceMeasure(c: Setup, s: State, a: Action)
    requires Enabled(c, s, a)
    requires a.SourceSkip? || a.SourceSend? || a.SourceClosed? || a.SourceFinish? || a.DropSourceTx?
    ensures Measure(Apply(c, s, a)) < Measure(s)
  {
    hide Known, ToUnit, OpenStore, WriteUnit;
  }

  lemma RelocateMeasure(c: Setup, s: State, a: Action)
    requires Enabled(c, s, a)
    requires a.RelocateRecv? || a.RelocateSend? || a.RelocateClosed? || a.RelocateFinish? || a.DropWriteTx?
    ensures Measure(Apply(c, s, a)) < Measure(s)
  {
    hide Known, ToUnit, OpenStore, WriteUnit;
  }

  lemma WriterMeasure(c: Setup, s: State, a: Action)
    requires Enabled(c, s, a)
    requires a.WriterOpen? || a.WriterRecv? || a.WriterWrite? || a.WriterUnknown? || a.WriterFinish? || a.WriterIoError?
    ensures Measure(Apply(c, s, a)) < Measure(s)
  {
    hide Known, ToUnit, OpenStore, WriteUnit;
  }

  /** Every run ends: it takes at most six steps a tensor, and six more. */
  lemma {:induction false} RunsEnd(c: Setup, disk: map<string, Bytes>, acts: seq<Action>)
    requires Run(c, disk, acts).Some?
    ensures |acts| + Measure(Run(c, disk, acts).value) <= 6 * |c.plan.table| + 6
  {
    if acts != [] {
      RunsEnd(c, disk, Front(acts));
      MeasureDecreases(c, Run(c, disk, Front(acts)).value, Last(acts));
    }
  }

  /** Every run can be continued, without any I/O error, until all lanes have ended. */
  lemma {:induction false} RunCanFinish(c: Setup, disk: map<string, Bytes>, acts: seq<Action>) returns (more: seq<Action>)
    requires c.capacity >= 1 && Run(c, disk, acts).Some?
    ensures Run(c, disk, acts + more).Some? && Ended(Run(c, disk, acts + more).value)
    ensures WriterIoError !in more
    decreases Measure(Run(c, disk, acts).value)
  {
    hide *;
    var s := Run(c, disk, acts).value;
    if Ended(s) {
      more := [];
      assert acts + more == acts;
    } else {
      var a := NextAction(c, s);
      OneMore(c, disk, acts, a);
      MeasureDecreases(c, s, a);
      var rest := RunCanFinish(c, disk, acts + [a]);
      more := [a] + rest;
      assert acts + more == acts + [a] + rest;
    }
  }

  lemma OneMore(c: Setup, disk: map<string, Bytes>, acts: seq<Action>, a: Action)
    requires Run(c, disk, acts).Some? && Enabled(c, Run(c, disk, acts).value, a)
    ensures Run(c, disk, acts + [a]) == Some(Apply(c, Run(c, disk, acts).value, a))
  {
    AppendFrontLast(acts, a);
    hide Enabled, Apply;
  }

  ghost predicate AllKnown(c: Setup) {
    forall u :: u in Physical(c.plan.table) ==> Known(c, u.segment)
  }

  lemma {:induction false} WriterFailsOnUnknownOnly(c: Setup, disk: map<string, Bytes>, acts: seq<Action>)
    requires Run(c, disk, acts).Some? && WriterIoError !in acts
    ensures Run(c, disk, acts).value.writer.Failed? ==> !AllKnown(c)
  {
    if acts != [] {
      var s, a := Run(c, disk, Front(acts)).value, Last(acts);
      assert a in acts && forall x :: x in Front(acts) ==> x in acts;
      WriterFailsOnUnknownOnly(c, disk, Front(acts));
      RunInv(c, disk, Front(acts));
      if Apply(c, s, a).writer.Failed? && !s.writer.Failed? {
        UnknownUnit(c, disk, s, a);
      }
    }
  }

  lemma UnknownUnit(c: Setup, disk: map<string, Bytes>, s: State, a: Action)
    requires Inv(c, disk, s) && Enabled(c, s, a) && !a.WriterIoError?
    requires !s.writer.Failed? && Apply(c, s, a).writer.Failed?
    ensures !AllKnown(c)
  {
    hide Known, Replay;
    assert a.WriterUnknown?;
    var u := s.writing.value.unit;
    assert u in Held(s.writing);
    assert u in Line(s);
  }

  /** Runs without I/O errors succeed exactly when the plan has every needed segment. */
  lemma {:induction false} SuccessIffKnown(c: Setup, disk: map<string, Bytes>, acts: seq<Action>)
    requires Run(c, disk, acts).Some? && WriterIoError !in acts && Ended(Run(c, disk, acts).value)
    ensures Success(Run(c, disk, acts).value) <==> AllKnown(c)
  {
    var s := Run(c, disk, acts).value;
    RunInv(c, disk, acts);
    WriterFailsOnUnknownOnly(c, disk, acts);
    if Success(s) {
      SuccessWritesAll(c, disk, s);
    }
  }

  lemma SuccessWritesAll(c: Setup, disk: map<string, Bytes>, s: State)
    requires Inv(c, disk, s) && Success(s)
    ensures s.log == Physical(c.plan.table) && s.store == Replay(c, disk, s.log)
  {
    assert Physical(s.todo) == [];
  }

  /** What the caller is told after every run: digests exactly for a success, which is a run whose
      writer finished; and otherwise the first lane in await order that failed. A failure always
      starts at the writer, so an error of another lane hides the writer's. */
  lemma {:induction false} OutcomeTells(c: Setup, disk: map<string, Bytes>, acts: seq<Action>)
    requires Run(c, disk, acts).Some? && Ended(Run(c, disk, acts).value)
    ensures var s := Run(c, disk, acts).value;
      var o := OutcomeOf(c, s);
      && (o.Hashes? <==> Success(s)) && (Success(s) <==> s.writer.Finished?)
      && (o.SourceError? <==> s.source.Failed?)
      && (o.RelocateError? <==> s.source.Finished? && s.relocate.Failed?)
      && (o.WriterError? <==> s.source.Finished? && s.relocate.Finished? && s.writer.Failed?)
      && (o.SourceError? || o.RelocateError? ==> s.writer.Failed?)
  {
    RunInv(c, disk, acts);
    hide Replay, Physical, Line, PacketsHonest, Run;
  }

  // ---------------------------------------------------------------------
  // What is in the files
  // ---------------------------------------------------------------------

  function UnitBytes(units: seq<RelocationUnit>, id: string): nat {
    if units == [] then 0 else UnitBytes(Front(units), id) + if Last(units).segment == id then Last(units).length else 0
  }

  ghost predicate DenseUnits(units: seq<RelocationUnit>) {
    forall k :: 0 <= k < |units| ==> units[k].offset == UnitBytes(units[..k], units[k].segment)
  }

  /** The payloads of one segment, one after another. */
  function SegmentPayload(c: Setup, units: seq<RelocationUnit>, id: string): Bytes {
    if units == [] then []
    else SegmentPayload(c, Front(units), id) + if Last(units).segment == id then c.payload(Last(units)) else []
  }

  lemma {:induction false} PayloadLength(c: Setup, units: seq<RelocationUnit>, id: string)
    requires ValidSetup(c)
    ensures |SegmentPayload(c, units, id)| == UnitBytes(units, id)
  {
    if units != [] {
      PayloadLength(c, Front(units), id);
    }
  }

  ghost predicate DistinctSegments(segments: seq<PlannedSegment>) {
    forall i, j :: 0 <= i < j < |segments| ==> segments[i].id != segments[j].id && segments[i].filename != segments[j].filename
  }

  ghost predicate SegmentFileNamed(segments: seq<PlannedSegment>, f: string) {
    exists j :: 0 <= j < |segments| && segments[j].filename == f
  }

  /** Segment j's file and hasher both hold exactly `bytes`. */
  ghost predicate Holds(segments: seq<PlannedSegment>, s: Store, j: nat, bytes: Bytes)
    requires j < |segments|
  {
    var id, f := segments[j].id, segments[j].filename;
    && id in s.handles && s.handles[id] == f
    && f in s.files && s.files[f] == bytes
    && id in s.hashers && s.hashers[id] == bytes
  }

  ghost predicate OthersUntouched(segments: seq<PlannedSegment>, disk: map<string, Bytes>, s: Store) {
    forall f :: f in disk && !SegmentFileNamed(segments, f) ==> f in s.files && s.files[f] == disk[f]
  }

  lemma NamedInFront(segments: seq<PlannedSegment>, f: string)
    requires segments != []
    ensures SegmentFileNamed(Front(segments), f) ==> SegmentFileNamed(segments, f)
  {
    var front := Front(segments);
    assert forall j :: 0 <= j < |front| ==> front[j] == segments[j];
  }

  lemma {:induction false} OpenHolds(segments: seq<PlannedSegment>, disk: map<string, Bytes>)
    requires DistinctSegments(segments)
    ensures forall j :: 0 <= j < |segments| ==> Holds(segments, OpenStore(segments, disk), j, [])
    ensures OthersUntouched(segments, disk, OpenStore(segments, disk))
  {
    if segments != [] {
      var front, last := Front(segments), |segments| - 1;
      OpenHolds(front, disk);
      forall j | 0 <= j < |segments|
        ensures Holds(segments, OpenStore(segments, disk), j, [])
      {
        if j < last {
          assert Holds(front, OpenStore(front, disk), j, []);
          assert segments[j].id != segments[last].id && segments[j].filename != segments[last].filename;
        }
      }
      forall f | f in disk && !SegmentFileNamed(segments, f)
        ensures f in OpenStore(segments, disk).files && OpenStore(segments, disk).files[f] == disk[f]
      {
        assert segments[last].filename != f;
        NamedInFront(segments, f);
      }
    }
  }

  /** Dense units only ever append, so file and hashed stream grow together. */
  lemma {:induction false} ReplayHolds(c: Setup, disk: map<string, Bytes>, log: seq<RelocationUnit>)
    requires ValidSetup(c) && DistinctSegments(c.plan.segments) && DenseUnits(log)
    requires forall u :: u in log ==> Known(c, u.segment)
    ensures forall j :: 0 <= j < |c.plan.segments| ==>
      Holds(c.plan.segments, Replay(c, disk, log), j, SegmentPayload(c, log, c.plan.segments[j].id))
    ensures OthersUntouched(c.plan.segments, disk, Replay(c, disk, log))
    decreases |log|
  {
    var segments := c.plan.segments;
    if log == [] {
      OpenHolds(segments, disk);
    } else {
      hide *;
      var front, u := Front(log), Last(log);
      LastOfDense(c, log);
      ReplayHolds(c, disk, front);
      PayloadLength(c, front, u.segment);
      var h := SegmentIndex(c, u.segment);
      WriteHolds(c, disk, Replay(c, disk, front), front, u, h);
      ReplayLast(c, disk, log);
    }
  }

  lemma ReplayLast(c: Setup, disk: map<string, Bytes>, log: seq<RelocationUnit>)
    requires log != []
    ensures Front(log) + [Last(log)] == log
    ensures Replay(c, disk, log) == WriteUnit(Replay(c, disk, Front(log)), Packet(Last(log), c.payload(Last(log))))
  {
  }

  lemma SegmentIndex(c: Setup, id: string) returns (h: nat)
    requires Known(c, id)
    ensures h < |c.plan.segments| && c.plan.segments[h].id == id
  {
    var seg :| seg in c.plan.segments && seg.id == id;
    h :| 0 <= h < |c.plan.segments| && c.plan.segments[h] == seg;
  }

  lemma LastOfDense(c: Setup, log: seq<RelocationUnit>)
    requires log != [] && DenseUnits(log) && forall u :: u in log ==> Known(c, u.segment)
    ensures DenseUnits(Front(log)) && Last(log).offset == UnitBytes(Front(log), Last(log).segment)
    ensures Known(c, Last(log).segment) && forall u :: u in Front(log) ==> Known(c, u.segment)
  {
    hide Known, UnitBytes;
    DenseFront(log);
    assert Last(log) in log;
  }

  lemma WriteHolds(c: Setup, disk: map<string, Bytes>, s: Store, front: seq<RelocationUnit>, u: RelocationUnit, h: nat)
    requires DistinctSegments(c.plan.segments) && h < |c.plan.segments| && c.plan.segments[h].id == u.segment
    requires u.offset == |SegmentPayload(c, front, u.segment)|
    requires forall j :: 0 <= j < |c.plan.segments| ==>
      Holds(c.plan.segments, s, j, SegmentPayload(c, front, c.plan.segments[j].id))
    requires OthersUntouched(c.plan.segments, disk, s)
    ensures var n := WriteUnit(s, Packet(u, c.payload(u)));
      && (forall j :: 0 <= j < |c.plan.segments| ==>
           Holds(c.plan.segments, n, j, SegmentPayload(c, front + [u], c.plan.segments[j].id)))
      && OthersUntouched(c.plan.segments, disk, n)
  {
    var segments, data := c.plan.segments, c.payload(u);
    var n := WriteUnit(s, Packet(u, data));
    var before := SegmentPayload(c, front, u.segment);
    assert Holds(segments, s, h, before);
    assert WriteAt(before, |before|, data) == before + data;
    AppendFrontLast(front, u);
    forall j | 0 <= j < |segments|
      ensures Holds(segments, n, j, SegmentPayload(c, front + [u], segments[j].id))
    {
      assert Holds(segments, s, j, SegmentPayload(c, front, segments[j].id));
      if j != h {
        assert segments[j].id != segments[h].id && segments[j].filename != segments[h].filename;
        assert SegmentPayload(c, front, segments[j].id) + [] == SegmentPayload(c, front, segments[j].id);
      }
    }
    forall f | f in disk && !SegmentFileNamed(segments, f)
      ensures f in n.files && n.files[f] == disk[f]
    {
      assert segments[h].filename != f;
    }
  }

  /** Each unit's payload sits at its own offset in its segment. */
  lemma {:induction false} PayloadAt(c: Setup, units: seq<RelocationUnit>, k: nat)
    requires ValidSetup(c) && DenseUnits(units) && k < |units|
    ensures var u, bytes := units[k], SegmentPayload(c, units, units[k].segment);
      u.offset + u.length <= |bytes| && bytes[u.offset..u.offset + u.length] == c.payload(u)
    decreases |units|
  {
    hide *;
    var front, u := Front(units), units[k];
    DenseFront(units);
    PayloadStep(c, units, u.segment);
    var bytes, more := SegmentPayload(c, front, u.segment), SegmentPayload(c, units, u.segment);
    if k < |units| - 1 {
      PayloadAt(c, front, k);
      assert more[..|bytes|] == bytes;
      assert more[u.offset..u.offset + u.length] == bytes[u.offset..u.offset + u.length];
    } else {
      PayloadLength(c, front, u.segment);
      LengthOf(c, u);
    }
  }

  lemma LengthOf(c: Setup, u: RelocationUnit)
    requires ValidSetup(c)
    ensures |c.payload(u)| == u.length
  {
  }

  lemma PayloadStep(c: Setup, units: seq<RelocationUnit>, id: string)
    requires units != []
    ensures SegmentPayload(c, units, id)
         == SegmentPayload(c, Front(units), id) + if Last(units).segment == id then c.payload(Last(units)) else []
    ensures Last(units) == units[|units| - 1] && forall i :: 0 <= i < |units| - 1 ==> Front(units)[i] == units[i]
  {
  }

  lemma DenseFront(units: seq<RelocationUnit>)
    requires units != [] && DenseUnits(units)
    ensures DenseUnits(Front(units)) && Last(units).offset == UnitBytes(Front(units), Last(units).segment)
  {
    hide UnitBytes;
    var front := Front(units);
    forall k | 0 <= k < |front|
      ensures front[k].offset == UnitBytes(front[..k], front[k].segment)
    {
      assert front[..k] == units[..k] && front[k] == units[k];
    }
    assert units[..|units| - 1] == front;
  }

  // ---------------------------------------------------------------------
  // Main results
  // ---------------------------------------------------------------------

  /** What a finished pipeline promises about its segment files and digests. */
  ghost predicate FilesFollowPlan(c: Setup, disk: map<string, Bytes>, s: State, o: Outcome) {
    var units, segments := Physical(c.plan.table), c.plan.segments;
    && o.Hashes?
    && (forall j :: 0 <= j < |segments| ==>
         var id, f := segments[j].id, segments[j].filename;
         && f in s.store.files && s.store.files[f] == SegmentPayload(c, units, id)
         && id in o.digests && o.digests[id] == c.digest(s.store.files[f]))
    && OthersUntouched(segments, disk, s.store)
  }

  /** For every dense plan and every interleaving that ends in success: each segment file is
      the concatenation of its payloads in table order, the digest is that of the file, and
      no other file changed. */
  lemma {:induction false} PipelineWritesPlan(c: Setup, disk: map<string, Bytes>, acts: seq<Action>)
    requires ValidSetup(c) && DistinctSegments(c.plan.segments) && DenseUnits(Physical(c.plan.table))
    requires Run(c, disk, acts).Some? && Success(Run(c, disk, acts).value)
    ensures var s := Run(c, disk, acts).value; FilesFollowPlan(c, disk, s, OutcomeOf(c, s))
  {
    hide *;
    var s := Run(c, disk, acts).value;
    RunInv(c, disk, acts);
    SuccessWritesAll(c, disk, s);
    SuccessEnds(s);
    LogIsKnown(c, disk, s);
    ReplayHolds(c, disk, s.log);
    FilesFrom(c, disk, s);
  }

  lemma LogIsKnown(c: Setup, disk: map<string, Bytes>, s: State)
    requires Inv(c, disk, s)
    ensures forall u :: u in s.log ==> Known(c, u.segment)
  {
  }

  lemma FilesFrom(c: Setup, disk: map<string, Bytes>, s: State)
    requires Success(s) && s.log == Physical(c.plan.table)
    requires forall j :: 0 <= j < |c.plan.segments| ==>
      Holds(c.plan.segments, s.store, j, SegmentPayload(c, s.log, c.plan.segments[j].id))
    requires OthersUntouched(c.plan.segments, disk, s.store)
    ensures Ended(s) && FilesFollowPlan(c, disk, s, OutcomeOf(c, s))
  {
    hide SegmentPayload, Physical, OthersUntouched;
    forall j | 0 <= j < |c.plan.segments|
      ensures Holds(c.plan.segments, s.store, j, SegmentPayload(c, s.log, c.plan.segments[j].id))
    {
    }
  }

  lemma {:induction false} PhysicalOfPlan(table: seq<PlannedTensor>)
    requires forall k :: 0 <= k < |table| ==> !table[k].disposition.AliasOnly?
    ensures |Physical(table)| == |table|
    ensures forall k :: 0 <= k < |table| ==> Physical(table)[k] == ToUnit(table[k])
  {
    if table != [] {
      PhysicalOfPlan(table[1..]);
    }
  }

  lemma {:induction false} SameBytes(table: seq<PlannedTensor>, units: seq<RelocationUnit>, id: string)
    requires |units| == |table| && forall k :: 0 <= k < |table| ==> units[k] == ToUnit(table[k])
    ensures UnitBytes(units, id) == SegmentBytes(table, id)
  {
    if table != [] {
      SameBytes(Front(table), Front(units), id);
    }
  }

  lemma PlanGivesDenseUnits(p: CompilationPlan)
    requires Dense(p.table) && forall k :: 0 <= k < |p.table| ==> !p.table[k].disposition.AliasOnly?
    ensures DenseUnits(Physical(p.table))
  {
    var units := Physical(p.table);
    PhysicalOfPlan(p.table);
    forall k | 0 <= k < |units|
      ensures units[k].offset == UnitBytes(units[..k], units[k].segment)
    {
      SameBytes(p.table[..k], units[..k], units[k].segment);
    }
  }

  /** End to end, for every plan that `plan` produces: a success puts every tensor at its
      planned offset of its segment's file, and each file has exactly its planned size. */
  lemma {:induction false} PlannedImageOnDisk(c: Setup, disk: map<string, Bytes>, acts: seq<Action>,
                                              spec: Config.ExecutionSpec, sources: Emission.Sources)
    requires ValidSetup(c) && PlanOf(c.plan, spec, sources) && Numbered(spec)
    requires Run(c, disk, acts).Some? && Success(Run(c, disk, acts).value)
    ensures var s, p := Run(c, disk, acts).value, c.plan;
      && FilesFollowPlan(c, disk, s, OutcomeOf(c, s))
      && (forall j :: 0 <= j < |p.segments| ==> p.segments[j].filename in s.store.files)
      && (forall j :: 0 <= j < |p.segments| ==> |s.store.files[p.segments[j].filename]| == p.segments[j].byteSize)
      && (forall k, j :: 0 <= k < |p.table| && 0 <= j < |p.segments| && p.segments[j].id == p.table[k].segment ==>
           OnDisk(c, s, p.segments[j].filename, p.table[k]))
  {
    hide *;
    var s, p := Run(c, disk, acts).value, c.plan;
    PlanIsDense(p, spec, sources);
    PlanKnowsSegments(p, spec, sources);
    PlanGivesDenseUnits(p);
    PlanHasDistinctSegments(p);
    SuccessEnds(s);
    PipelineWritesPlan(c, disk, acts);
    PhysicalOfPlan(p.table);
    forall j | 0 <= j < |p.segments|
      ensures p.segments[j].filename in s.store.files
      ensures |s.store.files[p.segments[j].filename]| == p.segments[j].byteSize
    {
      FileIs(c, disk, s, OutcomeOf(c, s), j);
      PayloadLength(c, Physical(p.table), p.segments[j].id);
      SameBytes(p.table, Physical(p.table), p.segments[j].id);
      PlannedSize(p, spec, sources, j);
    }
    forall k, j | 0 <= k < |p.table| && 0 <= j < |p.segments| && p.segments[j].id == p.table[k].segment
      ensures OnDisk(c, s, p.segments[j].filename, p.table[k])
    {
      FileIs(c, disk, s, OutcomeOf(c, s), j);
      PayloadAt(c, Physical(p.table), k);
      UnitFields(p.table[k]);
      OnDiskIntro(c, s, p.segments[j].filename, p.table[k]);
    }
  }

  lemma SuccessEnds(s: State)
    requires Success(s)
    ensures Ended(s)
  {
  }

  lemma UnitFields(t: PlannedTensor)
    ensures var u := ToUnit(t);
      && u.segment == t.segment && u.offset == t.offset && u.length == t.sourceLength
      && u.shard == t.sourceShard && u.sourceOffset == t.sourceOffset
      && u.tensorId == t.id && u.name == t.name && u.disposition == t.disposition
  {
  }

  lemma PlanHasDistinctSegments(p: CompilationPlan)
    requires forall i, j :: 0 <= i < j < |p.segments| ==>
      p.segments[i].id != p.segments[j].id && p.segments[i].filename != p.segments[j].filename
    ensures DistinctSegments(p.segments)
  {
  }

  lemma PlannedSize(p: CompilationPlan, spec: Config.ExecutionSpec, sources: Emission.Sources, j: nat)
    requires PlanOf(p, spec, sources) && j < |p.segments|
    ensures p.segments[j].byteSize == SegmentBytes(p.table, p.segments[j].id)
  {
    hide Places, SegmentBytes, SegmentTensors;
  }

  lemma FileIs(c: Setup, disk: map<string, Bytes>, s: State, o: Outcome, j: nat)
    requires FilesFollowPlan(c, disk, s, o) && j < |c.plan.segments|
    ensures c.plan.segments[j].filename in s.store.files
    ensures s.store.files[c.plan.segments[j].filename]
         == SegmentPayload(c, Physical(c.plan.table), c.plan.segments[j].id)
  {
    hide Physical, SegmentPayload, OthersUntouched;
  }

  lemma OnDiskIntro(c: Setup, s: State, f: string, t: PlannedTensor)
    requires f in s.store.files
    requires var u, bytes := ToUnit(t), s.store.files[f];
      u.offset + u.length <= |bytes| && bytes[u.offset..u.offset + u.length] == c.payload(u)
    ensures OnDisk(c, s, f, t)
  {
  }

  ghost predicate OnDisk(c: Setup, s: State, f: string, t: PlannedTensor) {
    && f in s.store.files
    && t.offset + t.sourceLength <= |s.store.files[f]|
    && s.store.files[f][t.offset..t.offset + t.sourceLength] == c.payload(ToUnit(t))
  }

  /** A plan that `plan` produces has every segment it needs, so only I/O can fail its run. */
  lemma {:induction false} PlannedRunSucceeds(c: Setup, disk: map<string, Bytes>, acts: seq<Action>,
                                              spec: Config.ExecutionSpec, sources: Emission.Sources)
    requires PlanOf(c.plan, spec, sources) && Numbered(spec)
    requires Run(c, disk, acts).Some? && WriterIoError !in acts && Ended(Run(c, disk, acts).value)
    ensures Success(Run(c, disk, acts).value)
  {
    PlanIsDense(c.plan, spec, sources);
    PlanKnowsSegments(c.plan, spec, sources);
    PhysicalOfPlan(c.plan.table);
    forall u | u in Physical(c.plan.table)
      ensures Known(c, u.segment)
    {
      var k :| 0 <= k < |c.plan.table| && u == ToUnit(c.plan.table[k]);
      assert Planned(c.plan.segments, c.plan.table[k].segment);
    }
    SuccessIffKnown(c, disk, acts);
  }

  function Parity(u: RelocationUnit): Bytes {
    var b: Byte := u.tensorId % 2;
    seq(u.length, i => b)
  }

  /** A table whose second tensor starts at the offset of the first. */
  function Overlapping(): Setup {
    var t0 := PlannedTensor(0, "a", RelocateAndAlign, "", 0, 1, "s", 0, "F32", [1]);
    var t1 := PlannedTensor(1, "b", RelocateAndAlign, "", 0, 1, "s", 0, "F32", [1]);
    Setup(CompilationPlan([t0, t1], [PlannedSegment("s", "f", 2, 2)], 2), 1,
          (u: RelocationUnit) => Parity(u), (b: Bytes) => if |b| == 1 then "one" else "other")
  }

  lemma OverlappingReplay()
    ensures var c := Overlapping();
      var units, s := Physical(c.plan.table), Replay(c, map[], Physical(c.plan.table));
      && |units| == 2 && units[0] == ToUnit(c.plan.table[0]) && units[1] == ToUnit(c.plan.table[1])
      && "f" in s.files && |s.files["f"]| == 1 && "s" in s.hashers && |s.hashers["s"]| == 2
  {
    var c := Overlapping();
    var table := c.plan.table;
    var u0, u1 := ToUnit(table[0]), ToUnit(table[1]);
    assert table[1..][1..] == [] && Physical(table[1..]) == [u1] + Physical(table[1..][1..]);
    assert Physical(table) == [u0, u1];
    assert Front([u0, u1]) == [u0] && Front([u0]) == [] && Front(c.plan.segments) == [];
    assert OpenStore([], map[]) == Store(map[], map[], map[]);
    var s0 := Replay(c, map[], []);
    assert s0.handles["s"] == "f" && s0.files["f"] == [] && s0.hashers["s"] == [];
    var s1 := Replay(c, map[], [u0]);
    assert c.payload(u0) == [0] && c.payload(u1) == [1];
    assert s1 == WriteUnit(s0, Packet(u0, [0]));
    assert s1.handles["s"] == "f" && s1.files["f"] == [0] && s1.hashers["s"] == [0];
    assert Replay(c, map[], [u0, u1]) == WriteUnit(s1, Packet(u1, [1]));
  }

  /** Without density the digest need not be that of the file: a run of the overlapping table
      that succeeds. */
  lemma OverlapBreaksDigest() returns (c: Setup, acts: seq<Action>)
    ensures ValidSetup(c) && DistinctSegments(c.plan.segments) && !DenseUnits(Physical(c.plan.table))
    ensures Run(c, map[], acts).Some? && Success(Run(c, map[], acts).value) && Ended(Run(c, map[], acts).value)
    ensures var s := Run(c, map[], acts).value;
      var o := OutcomeOf(c, s);
      o.Hashes? && "s" in o.digests && "f" in s.store.files && o.digests["s"] != c.digest(s.store.files["f"])
  {
    c := Overlapping();
    OverlappingReplay();
    var units := Physical(c.plan.table);
    assert units[..1] == [units[0]] && UnitBytes(units[..1], "s") == 1;
    assert c.plan.segments[0] in c.plan.segments && c.plan.segments[0].id == "s";
    assert AllKnown(c);
    hide Replay, Physical, DenseUnits, UnitBytes, Run;
    assert Run(c, map[], []).Some? by { RunNothing(c, map[]); }
    acts := RunCanFinish(c, map[], []);
    assert [] + acts == acts;
    RunInv(c, map[], acts);
    SuccessIffKnown(c, map[], acts);
    SuccessWritesAll(c, map[], Run(c, map[], acts).value);
  }

  lemma RunNothing(c: Setup, disk: map<string, Bytes>)
    ensures Run(c, disk, []) == Some(Init(c, disk))
  {
  }
}
