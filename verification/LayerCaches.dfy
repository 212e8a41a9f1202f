// The KV cache object of one layer, with its ring buffers written in place.
module LayerCaches {
  import opened Common
  import Spec = KvCache

  /** A cache with its ring buffers as arrays that are written in place. The buffers exist
      from the first append of a sliding layer on. */
  class LayerCache<T> {
    const capacity: nat
    const isSliding: bool
    var globalKv: Option<Spec.Kv<T>>
    var seqLen: nat
    var ringK: array?<T>
    var ringV: array?<T>
    var totalAppended: nat
    var logicalStart: nat
    var writePos: nat
    var committedLen: nat
    var snapshot: Option<Spec.Kv<T>>
    var evictions: nat

    ghost predicate Separate()
      reads this
    {
      (ringK == null <==> ringV == null) && (ringK != null ==> ringK != ringV)
    }

    ghost function View(): Spec.Cache<T>
      reads this, ringK, ringV
      requires Separate()
    {
      Spec.Cache(capacity, isSliding, globalKv, seqLen, if ringK == null then None else Some(Spec.Kv(ringK[..], ringV[..])),
            totalAppended, logicalStart, writePos, committedLen, snapshot, evictions)
    }

    constructor (capacity: nat, isSliding: bool)
      ensures Separate() && ringK == null && View() == Spec.New(capacity, isSliding)
    {
      this.capacity, this.isSliding := capacity, isSliding;
      globalKv, seqLen, ringK, ringV := None, 0, null, null;
      totalAppended, logicalStart, writePos, committedLen, snapshot, evictions := 0, 0, 0, 0, None, 0;
    }

    method Append(x: Spec.Kv<T>, filler: T)
      requires Separate() && Spec.Valid(View()) && x.Paired() && Spec.CanAppend(View(), |x.k|)
      modifies this, ringK, ringV
      ensures Separate() && View() == Spec.Append(old(View()), x, filler)
      ensures fresh({ringK, ringV} - old({ringK, ringV}) - {null})
    {
      if globalKv.None? && ringK == null {
        FirstAppend(x, filler);
      } else if isSliding {
        AppendSliding(x);
      } else {
        AppendGlobal(x);
      }
    }

    method FirstAppend(x: Spec.Kv<T>, filler: T)
      requires Separate() && ringK == null && x.Paired() && (isSliding ==> capacity > 0)
      modifies this
      ensures Separate() && View() == Spec.FirstAppend(old(View()), x, filler)
      ensures fresh({ringK, ringV} - {null})
    {
      var n := |x.k|;
      if isSliding {
        var excess := 0;
        if n > capacity {
          excess := n - capacity;
          evictions := excess;
        }
        var m := n - excess;
        var bufK := NewRing(capacity, x.k[excess..], filler);
        var bufV := NewRing(capacity, x.v[excess..], filler);
        ringK, ringV := bufK, bufV;
        totalAppended, seqLen, logicalStart, writePos, committedLen := m, m, 0, m % capacity, m;
      } else {
        globalKv := Some(x);
        totalAppended, seqLen, logicalStart, writePos, committedLen := n, n, 0, n, n;
      }
    }

    /** Allocate a ring and store the first tokens at its start. */
    static method NewRing(capacity: nat, xs: seq<T>, filler: T) returns (buf: array<T>)
      requires |xs| <= capacity
      ensures fresh(buf) && buf.Length == capacity
      ensures buf[..] == Spec.Overwrite(seq(capacity, i => filler), 0, xs)
    {
      buf := new T[capacity](i => filler);
      forall i | 0 <= i < |xs| { buf[i] := xs[i]; }
    }

    /** Write `xs` into the ring from `pos`, wrapping at the end. */
    static method WriteRing(buf: array<T>, pos: nat, xs: seq<T>)
      requires pos < buf.Length && pos + |xs| <= 2 * buf.Length
      modifies buf
      ensures buf[..] == Spec.RingWrite(old(buf[..]), pos, xs)
    {
      var cap := buf.Length;
      if pos + |xs| <= cap {
        forall i | 0 <= i < |xs| { buf[pos + i] := xs[i]; }
        assert buf[..] == Spec.Overwrite(old(buf[..]), pos, xs);
      } else {
        var first := cap - pos;
        ghost var before := buf[..];
        forall i | 0 <= i < first { buf[pos + i] := xs[i]; }
        ghost var half := buf[..];
        assert half == Spec.Overwrite(before, pos, xs[..first]);
        var second := xs[first..];
        forall i | 0 <= i < |second| { buf[i] := second[i]; }
        assert buf[..] == Spec.Overwrite(half, 0, second);
      }
    }

    method AppendSliding(x: Spec.Kv<T>)
      requires Separate() && ringK != null && x.Paired() && 0 < capacity == ringK.Length == ringV.Length
      requires writePos < capacity && writePos + |x.k| <= 2 * capacity
      modifies this, ringK, ringV
      ensures Separate() && ringK == old(ringK) && ringV == old(ringV)
      ensures View() == Spec.AppendSliding(old(View()), x)
    {
      var n := |x.k|;
      WriteRing(ringK, writePos, x.k);
      WriteRing(ringV, writePos, x.v);
      writePos := (writePos + n) % capacity;
      totalAppended := totalAppended + n;
      seqLen := Min(totalAppended, capacity);
      if totalAppended > capacity {
        logicalStart := totalAppended - capacity;
        evictions := totalAppended - capacity;
      }
      snapshot := None;
    }

    method AppendGlobal(x: Spec.Kv<T>)
      requires Separate() && globalKv.Some?
      modifies this
      ensures Separate() && ringK == old(ringK) && ringV == old(ringV)
      ensures View() == Spec.AppendGlobal(old(View()), x)
    {
      var cached := globalKv.value;
      globalKv := Some(Spec.Kv(cached.k + x.k, cached.v + x.v));
      totalAppended, seqLen, writePos := totalAppended + |x.k|, seqLen + |x.k|, writePos + |x.k|;
      snapshot := Some(cached);
    }

    method CommitStep()
      requires Separate()
      modifies this
      ensures Separate() && View() == Spec.Commit(old(View()))
    {
      committedLen := totalAppended;
      snapshot := None;
    }

    method Rollback()
      requires Separate() && (isSliding ==> capacity > 0)
      modifies this
      ensures Separate() && View() == Spec.Rollback(old(View()))
    {
      if totalAppended == committedLen && seqLen == committedLen {
        return;
      }
      if isSliding {
        if committedLen == 0 {
          ringK, ringV := null, null;
          totalAppended, seqLen, logicalStart, writePos := 0, 0, 0, 0;
        } else {
          totalAppended, seqLen := committedLen, Min(committedLen, capacity);
          logicalStart := if totalAppended > capacity then totalAppended - capacity else 0;
          writePos := committedLen % capacity;
        }
      } else {
        globalKv := snapshot;
        totalAppended, seqLen, writePos := committedLen, committedLen, committedLen;
      }
      snapshot := None;
    }

    /** The window as the attention kernel reads it. */
    method ReadWindow() returns (r: Option<Spec.Kv<T>>)
      requires Separate() && Spec.Valid(View())
      ensures r == Spec.ReadWindow(View())
    {
      if !isSliding {
        return globalKv;
      }
      if ringK == null || seqLen == 0 {
        return None;
      }
      var start := if totalAppended >= capacity then writePos else 0;
      var k := ReadRing(ringK, start, seqLen);
      var v := ReadRing(ringV, start, seqLen);
      r := Some(Spec.Kv(k, v));
    }

    /** One contiguous slice, or the end of the buffer followed by its beginning. */
    static method ReadRing(buf: array<T>, start: nat, n: nat) returns (r: seq<T>)
      requires start <= buf.Length && n <= buf.Length
      ensures r == Spec.RingRead(buf[..], start, n)
    {
      if start + n <= buf.Length {
        r := buf[start..start + n];
      } else {
        r := buf[start..buf.Length] + buf[..n - (buf.Length - start)];
      }
    }

    method Clear()
      requires Separate()
      modifies this
      ensures Separate() && View() == Spec.Clear(old(View()))
    {
      globalKv, ringK, ringV, snapshot := None, null, null, None;
      seqLen, totalAppended, logicalStart, writePos, committedLen, evictions := 0, 0, 0, 0, 0, 0;
    }
  }
}
