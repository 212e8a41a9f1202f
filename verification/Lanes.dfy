// The lanes of the relocation pipeline as they run: one object holds the channels, the
// lanes' progress and the segment files, and each method is one atomic piece of a lane's loop.
module Lanes {
  import opened Common
  import opened Plan
  import opened Pipeline

  class Machine {
    const setup: Setup
    var todo: seq<PlannedTensor>
    var source: Lane
    var sourceTxHeld: bool
    var q1: seq<RelocationUnit>
    var relocating: Option<Packet>
    var relocate: Lane
    var writeTxHeld: bool
    var q2: seq<Packet>
    var writing: Option<Packet>
    var writer: Lane
    var opened_: bool
    var handles: map<string, string>
    var files: map<string, Bytes>
    var hashers: map<string, Bytes>
    ghost var log: seq<RelocationUnit>

    ghost function View(): State
      reads this
    {
      State(todo, source, sourceTxHeld, q1, relocating, relocate, writeTxHeld, q2, writing, writer, opened_,
            Store(handles, files, hashers), log)
    }

    /** Start with every lane running and the given files on disk. */
    constructor (setup: Setup, disk: map<string, Bytes>)
      ensures this.setup == setup && View() == Init(setup, disk)
    {
      this.setup := setup;
      todo, source, sourceTxHeld, q1 := setup.plan.table, Running, true, [];
      relocating, relocate, writeTxHeld, q2 := None, Running, true, [];
      writing, writer, opened_ := None, Running, false;
      handles, files, hashers, log := map[], disk, map[], [];
    }

    /** One iteration of the source lane; None means that it is blocked or has ended. */
    method SourceReadStep() returns (a: Option<Action>)
      modifies `todo, `source, `q1
      ensures a.Some? ==> Enabled(setup, old(View()), a.value) && View() == Apply(setup, old(View()), a.value)
      ensures a.None? ==> View() == old(View())
      ensures a.None? <==> old(!source.Running? || (HeadIsPhysical(View()) && relocate.Running? && |q1| >= setup.capacity))
    {
      if !source.Running? {
        a := None;
      } else if todo == [] {
        source := Finished;
        a := Some(SourceFinish);
      } else if todo[0].disposition.AliasOnly? {
        todo := todo[1..];
        a := Some(SourceSkip);
      } else if !relocate.Running? {
        source := Failed;
        a := Some(SourceClosed);
      } else if |q1| < setup.capacity {
        q1 := q1 + [ToUnit(todo[0])];
        todo := todo[1..];
        a := Some(SourceSend);
      } else {
        a := None;
      }
    }

    /** Half an iteration of the relocate lane: receive and fill a payload, or send it on. */
    method RelocateStep() returns (a: Option<Action>)
      modifies `q1, `relocating, `relocate, `q2
      ensures a.Some? ==> Enabled(setup, old(View()), a.value) && View() == Apply(setup, old(View()), a.value)
      ensures a.None? ==> View() == old(View())
      ensures a.None? ==> forall x :: x in [RelocateRecv, RelocateSend, RelocateClosed, RelocateFinish] ==> !Enabled(setup, View(), x)
    {
      hide HasId, OpenStore, WriteUnit, ToUnit;
      if !relocate.Running? {
        a := None;
      } else if relocating.None? {
        if q1 != [] {
          var unit := q1[0];
          q1 := q1[1..];
          relocating := Some(Packet(unit, setup.payload(unit)));
          a := Some(RelocateRecv);
        } else if !source.Running? && !sourceTxHeld {
          relocate := Finished;
          a := Some(RelocateFinish);
        } else {
          a := None;
        }
      } else if !writer.Running? {
        relocating, relocate := None, Failed;
        a := Some(RelocateClosed);
      } else if |q2| < setup.capacity {
        q2 := q2 + [relocating.value];
        relocating := None;
        a := Some(RelocateSend);
      } else {
        a := None;
      }
    }

    /** Create every segment file and its hasher. */
    method OpenSegments()
      requires writer.Running? && !opened_
      modifies `handles, `files, `hashers, `opened_
      ensures View() == Apply(setup, old(View()), WriterOpen)
    {
      CreateFiles();
      opened_ := true;
    }

    method CreateFiles()
      modifies `handles, `files, `hashers
      ensures Store(handles, files, hashers) == OpenStore(setup.plan.segments, old(files))
    {
      var segments := setup.plan.segments;
      handles, hashers := map[], map[];
      for i := 0 to |segments|
        modifies `handles, `files, `hashers
        invariant Store(handles, files, hashers) == OpenStore(segments[..i], old(files))
      {
        var seg := segments[i];
        assert Front(segments[..i + 1]) == segments[..i] && Last(segments[..i + 1]) == seg;
        files := files[seg.filename := []];
        handles := handles[seg.id := seg.filename];
        hashers := hashers[seg.id := []];
      }
      assert segments[..|segments|] == segments;
    }

    /** Half an iteration of the write lane: receive, or write and hash what was received. */
    method WriteStep() returns (a: Option<Action>)
      requires opened_ && (writer.Running? ==> LanesStore())
      modifies this
      ensures a.Some? ==> Enabled(setup, old(View()), a.value) && View() == Apply(setup, old(View()), a.value)
      ensures a.None? ==> View() == old(View())
      ensures a.None? ==> forall x :: x in [WriterRecv, WriterWrite, WriterUnknown, WriterFinish] ==> !Enabled(setup, View(), x)
    {
      hide HasId, OpenStore, WriteUnit, ToUnit;
      if !writer.Running? {
        a := None;
      } else if writing.None? {
        if q2 != [] {
          writing, q2 := Some(q2[0]), q2[1..];
          a := Some(WriterRecv);
        } else if !relocate.Running? && !writeTxHeld {
          writer := Finished;
          a := Some(WriterFinish);
        } else {
          a := None;
        }
      } else {
        var done := WriteOut();
        a := Some(done);
      }
    }

    /** Seek and write the packet at its offset, and feed it to the segment's hasher. */
    method WriteAndHash(p: Packet)
      requires p.unit.segment in handles && handles[p.unit.segment] in files
      modifies `files, `hashers
      ensures Store(handles, files, hashers) == WriteUnit(old(Store(handles, files, hashers)), p)
    {
      hide WriteAt;
      var f := handles[p.unit.segment];
      files := files[f := WriteAt(files[f], p.unit.offset, p.data)];
      if p.unit.segment in hashers {
        hashers := hashers[p.unit.segment := hashers[p.unit.segment] + p.data];
      }
    }

    /** Write out the packet in hand, or give up on an unknown segment. */
    method WriteOut() returns (a: Action)
      requires writer.Running? && opened_ && writing.Some? && LanesStore()
      modifies `writing, `writer, `files, `hashers, `log
      ensures Enabled(setup, old(View()), a) && View() == Apply(setup, old(View()), a)
    {
      if writing.value.unit.segment !in handles {
        GiveUp();
        a := WriterUnknown;
      } else {
        WriteHeld();
        a := WriterWrite;
      }
    }

    method GiveUp()
      requires writer.Running? && opened_ && writing.Some? && writing.value.unit.segment !in handles && LanesStore()
      modifies `writing, `writer
      ensures Enabled(setup, old(View()), WriterUnknown) && View() == Apply(setup, old(View()), WriterUnknown)
    {
      writing, writer := None, Failed;
    }

    method WriteHeld()
      requires writer.Running? && opened_ && writing.Some? && writing.value.unit.segment in handles && LanesStore()
      modifies `writing, `files, `hashers, `log
      ensures Enabled(setup, old(View()), WriterWrite) && View() == Apply(setup, old(View()), WriterWrite)
    {
      hide HasId, WriteUnit;
      var p := writing.value;
      WriteAndHash(p);
      writing, log := None, log + [p.unit];
    }

    /** The orchestrator lets go of its own senders, so that the channels close when the lanes end. */
    method DropSenders()
      requires sourceTxHeld && writeTxHeld
      modifies `sourceTxHeld, `writeTxHeld
      ensures Enabled(setup, old(View()), DropSourceTx)
      ensures Enabled(setup, Apply(setup, old(View()), DropSourceTx), DropWriteTx)
      ensures View() == Apply(setup, Apply(setup, old(View()), DropSourceTx), DropWriteTx)
    {
      sourceTxHeld := false;
      writeTxHeld := false;
    }

    /** The orchestrator awaits the lanes in order and returns the first error. */
    method AwaitAll() returns (outcome: Outcome)
      requires Ended(View())
      ensures outcome == OutcomeOf(setup, View())
    {
      if source.Failed? {
        return SourceError;
      }
      if relocate.Failed? {
        return RelocateError;
      }
      if writer.Failed? {
        return WriterError;
      }
      outcome := Hashes(map id | id in hashers :: setup.digest(hashers[id]));
    }

    /** The open handles are exactly those of the planned segments, each with its file. */
    ghost predicate LanesStore()
      reads this
    {
      && (forall id :: id in handles <==> Known(setup, id))
      && forall id :: id in handles ==> handles[id] in files
    }
  }

  lemma {:induction false} OpenStoreHandles(segments: seq<PlannedSegment>, disk: map<string, Bytes>)
    ensures var s := OpenStore(segments, disk);
      forall id :: (id in s.handles <==> HasId(segments, id)) && (id in s.handles ==> s.handles[id] in s.files)
  {
    if segments != [] {
      OpenStoreHandles(Front(segments), disk);
      forall id
        ensures HasId(segments, id) <==> HasId(Front(segments), id) || Last(segments).id == id
      {
        assert segments == Front(segments) + [Last(segments)];
        assert forall seg :: seg in segments <==> seg in Front(segments) || seg == Last(segments);
      }
    }
  }

  ghost predicate HandlesKnown(c: Setup, s: State) {
    s.opened_ ==> forall id ::
      (id in s.store.handles <==> Known(c, id)) && (id in s.store.handles ==> s.store.handles[id] in s.store.files)
  }

  lemma HandlesStep(c: Setup, s: State, a: Action)
    requires HandlesKnown(c, s) && Enabled(c, s, a)
    ensures HandlesKnown(c, Apply(c, s, a))
  {
    hide HasId, WriteAt, OpenStore;
    if a.WriterOpen? {
      OpenStoreHandles(c.plan.segments, s.store.files);
    }
  }

  /** In every reachable state with open files, a segment has a handle exactly when it is planned. */
  lemma {:induction false} HandlesAreKnown(c: Setup, disk: map<string, Bytes>, acts: seq<Action>)
    requires Run(c, disk, acts).Some?
    ensures HandlesKnown(c, Run(c, disk, acts).value)
  {
    if acts != [] {
      HandlesAreKnown(c, disk, Front(acts));
      HandlesStep(c, Run(c, disk, Front(acts)).value, Last(acts));
    }
  }
}
